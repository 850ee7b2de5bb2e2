/** The handful of Python `str` operations the scripts rely on, written over
    `seq<char>`. Each function follows CPython's definition of the operation. */
module Text {
  import opened Wrappers

  predicate OccursAt(s: string, p: string, i: int)
  {
    0 <= i && i + |p| <= |s| && s[i..i + |p|] == p
  }

  /** `s.find(p)`: the first index at which `p` occurs in `s`
      (see `IndexOfSpec`). */
  function IndexOf(s: string, p: string): (r: Option<nat>)
    ensures r.Some? ==> r.value + |p| <= |s|
    decreases |s|
  {
    if |s| < |p| then None
    else if s[..|p|] == p then Some(0)
    else
      match IndexOf(s[1..], p)
      case None => None
      case Some(k) => Some(k + 1)
  }

  /** `IndexOf` finds an occurrence, and no earlier one; `None` means there
      is none at all. */
  lemma {:induction false} IndexOfSpec(s: string, p: string)
    ensures var r := IndexOf(s, p);
      (r.Some? ==> OccursAt(s, p, r.value) && forall i :: 0 <= i < r.value ==> !OccursAt(s, p, i))
      && (r.None? ==> forall i :: 0 <= i ==> !OccursAt(s, p, i))
    decreases |s|
  {
    if |s| >= |p| && s[..|p|] != p {
      IndexOfSpec(s[1..], p);
      assert forall i :: 1 <= i ==> OccursAt(s, p, i) == OccursAt(s[1..], p, i - 1);
    }
  }

  /** `p in s` */
  predicate Contains(s: string, p: string)
  {
    IndexOf(s, p).Some?
  }

  /** `s.startswith(p)` */
  predicate StartsWith(s: string, p: string)
  {
    |p| <= |s| && s[..|p|] == p
  }

  /** A found index is an occurrence. */
  lemma IndexOfOccurs(s: string, p: string)
    requires IndexOf(s, p).Some?
    ensures OccursAt(s, p, IndexOf(s, p).value)
  {
    IndexOfSpec(s, p);
  }

  lemma ContainsIff(s: string, p: string)
    ensures Contains(s, p) <==> exists i :: OccursAt(s, p, i)
  {
    IndexOfSpec(s, p);
  }

  /** A one-character substring test is membership. */
  lemma ContainsChar(s: string, c: char)
    ensures Contains(s, [c]) <==> c in s
  {
    ContainsIff(s, [c]);
    if c in s {
      var i :| 0 <= i < |s| && s[i] == c;
      assert OccursAt(s, [c], i);
    }
    if Contains(s, [c]) {
      var i :| OccursAt(s, [c], i);
      assert s[i] == s[i..i + 1][0];
    }
  }

  /** When `pre`, followed by all of `sep` but its last character, holds no
      `sep`, the first `sep` in `pre + sep + rest` is the one right after
      `pre`. */
  lemma IndexOfJoined(pre: string, sep: string, rest: string)
    requires |sep| > 0 && !Contains(pre + sep[..|sep| - 1], sep)
    ensures IndexOf(pre + sep + rest, sep) == Some(|pre|)
  {
    var s := pre + sep + rest;
    var t := pre + sep[..|sep| - 1];
    IndexOfSpec(s, sep);
    IndexOfSpec(t, sep);
    assert s[|pre|..|pre| + |sep|] == sep;
    assert OccursAt(s, sep, |pre|);
    forall i | 0 <= i < |pre|
      ensures !OccursAt(s, sep, i)
    {
      assert !OccursAt(t, sep, i);
      assert forall k :: 0 <= k < |t| ==> s[k] == t[k];
      assert s[i..i + |sep|] == t[i..i + |sep|];
    }
  }

  lemma PrefixOfPrefix(s: string, p: string, q: string)
    requires StartsWith(s, p) && StartsWith(p, q)
    ensures StartsWith(s, q)
  {
    assert s[..|q|] == p[..|q|];
  }

  /** A text that begins with `p` contains whatever `p` contains. */
  lemma ContainsInPrefix(s: string, p: string, sep: string)
    requires StartsWith(s, p)
    ensures Contains(p, sep) ==> Contains(s, sep)
  {
    ContainsIff(p, sep);
    ContainsIff(s, sep);
    if Contains(p, sep) {
      var i :| OccursAt(p, sep, i);
      assert s[i..i + |sep|] == p[i..i + |sep|];
      assert OccursAt(s, sep, i);
    }
  }

  /** `s.replace(pat, rep)`: one left-to-right pass replacing every
      non-overlapping occurrence of `pat`. */
  function ReplaceAll(s: string, pat: string, rep: string): (r: string)
    requires |pat| > 0
    decreases |s|
  {
    if |s| < |pat| then s
    else if s[..|pat|] == pat then rep + ReplaceAll(s[|pat|..], pat, rep)
    else [s[0]] + ReplaceAll(s[1..], pat, rep)
  }

  /** Replacing a pattern that does not occur changes nothing. */
  lemma {:induction false} ReplaceAllAbsent(s: string, pat: string, rep: string)
    requires |pat| > 0 && !Contains(s, pat)
    ensures ReplaceAll(s, pat, rep) == s
    decreases |s|
  {
    if |s| >= |pat| {
      IndexOfSpec(s, pat);
      IndexOfSpec(s[1..], pat);
      assert !OccursAt(s, pat, 0);
      assert forall i :: 0 <= i ==> OccursAt(s[1..], pat, i) == OccursAt(s, pat, i + 1);
      ReplaceAllAbsent(s[1..], pat, rep);
    }
  }

  /** A replacement no longer than the pattern never lengthens the text. */
  lemma {:induction false} ReplaceAllShrinks(s: string, pat: string, rep: string)
    requires |pat| > 0 && |rep| <= |pat|
    ensures |ReplaceAll(s, pat, rep)| <= |s|
    decreases |s|
  {
    if |s| >= |pat| {
      if s[..|pat|] == pat {
        ReplaceAllShrinks(s[|pat|..], pat, rep);
      } else {
        ReplaceAllShrinks(s[1..], pat, rep);
      }
    }
  }

  /** A prefix free of the pattern's first character passes through
      untouched, and the replacement carries on with the rest. */
  lemma {:induction false} ReplaceAllKeepsPrefix(a: string, b: string, pat: string, rep: string)
    requires |pat| > 0 && pat[0] !in a
    ensures ReplaceAll(a + b, pat, rep) == a + ReplaceAll(b, pat, rep)
    decreases |a|
  {
    if a == [] {
      assert a + b == b;
    } else {
      var s := a + b;
      assert s[0] == a[0] && s[1..] == a[1..] + b;
      ReplaceAllKeepsPrefix(a[1..], b, pat, rep);
      if |s| < |pat| {
        assert ReplaceAll(b, pat, rep) == b;
      } else {
        assert s[..|pat|][0] == a[0];
      }
    }
  }

  /** The replacement leaves alone every character that cannot start the
      pattern: a text without the pattern's first character comes back as is. */
  lemma {:induction false} ReplaceAllKeepsText(s: string, pat: string, rep: string)
    requires |pat| > 0 && pat[0] !in s
    ensures ReplaceAll(s, pat, rep) == s
    decreases |s|
  {
    if |s| >= |pat| {
      assert s[0] != pat[0];
      ReplaceAllKeepsText(s[1..], pat, rep);
    }
  }

  /** Leading characters of `s` that lie in `cs` removed (`s.lstrip(cs)`). */
  function TrimStart(s: string, cs: set<char>): string
    decreases |s|
  {
    if s != [] && s[0] in cs then TrimStart(s[1..], cs) else s
  }

  /** Trailing characters of `s` that lie in `cs` removed (`s.rstrip(cs)`). */
  function TrimEnd(s: string, cs: set<char>): string
    decreases |s|
  {
    if s != [] && s[|s| - 1] in cs then TrimEnd(s[..|s| - 1], cs) else s
  }

  /** `TrimStart` removes a prefix made of `cs` characters and stops at the
      first character outside `cs`. */
  lemma {:induction false} TrimStartSpec(s: string, cs: set<char>)
    ensures var r := TrimStart(s, cs);
      |r| <= |s| && r == s[|s| - |r|..]
      && (forall i :: 0 <= i < |s| - |r| ==> s[i] in cs)
      && (r != [] ==> r[0] !in cs)
    decreases |s|
  {
    if s != [] && s[0] in cs {
      TrimStartSpec(s[1..], cs);
    }
  }

  /** `TrimEnd` removes a suffix made of `cs` characters and stops at the
      last character outside `cs`. */
  lemma {:induction false} TrimEndSpec(s: string, cs: set<char>)
    ensures var r := TrimEnd(s, cs);
      |r| <= |s| && r == s[..|r|]
      && (forall i :: |r| <= i < |s| ==> s[i] in cs)
      && (r != [] ==> r[|r| - 1] !in cs)
    decreases |s|
  {
    if s != [] && s[|s| - 1] in cs {
      TrimEndSpec(s[..|s| - 1], cs);
    }
  }

  /** `s.strip(cs)` (see `StripSpec`). */
  function Strip(s: string, cs: set<char>): string
  {
    TrimEnd(TrimStart(s, cs), cs)
  }

  /** The stripped text is the slice of `s` starting after the characters
      `TrimStart` removed; everything cut off on either side lies in `cs`, and
      the result neither starts nor ends with a character of `cs`. */
  lemma StripSpec(s: string, cs: set<char>)
    ensures |TrimStart(s, cs)| <= |s|
    ensures var r := Strip(s, cs); var k := |s| - |TrimStart(s, cs)|;
      k + |r| <= |s| && r == s[k..k + |r|]
      && (forall i :: 0 <= i < k ==> s[i] in cs)
      && (forall i :: k + |r| <= i < |s| ==> s[i] in cs)
      && (r != [] ==> r[0] !in cs && r[|r| - 1] !in cs)
  {
    var t := TrimStart(s, cs);
    var r := TrimEnd(t, cs);
    TrimStartSpec(s, cs);
    TrimEndSpec(t, cs);
    var k := |s| - |t|;
    assert t == s[k..];
    assert r == t[..|r|];
    assert s[k..][..|r|] == s[k..k + |r|];
    forall i | k + |r| <= i < |s|
      ensures s[i] in cs
    {
      assert s[i] == t[i - k];
    }
  }

  /** Stripping twice is stripping once. */
  lemma StripIdempotent(s: string, cs: set<char>)
    ensures Strip(Strip(s, cs), cs) == Strip(s, cs)
  {
    var r := Strip(s, cs);
    StripSpec(s, cs);
    if r != [] {
      assert TrimStart(r, cs) == r;
      assert TrimEnd(r, cs) == r;
    }
  }

  /** A text strips to nothing exactly when it is made only of stripped
      characters. */
  lemma StripEmptyIff(s: string, cs: set<char>)
    ensures Strip(s, cs) == "" <==> forall i :: 0 <= i < |s| ==> s[i] in cs
  {
    StripSpec(s, cs);
    var k := |s| - |TrimStart(s, cs)|;
    assert forall i :: 0 <= i < |Strip(s, cs)| ==> Strip(s, cs)[i] == s[k + i];
  }

  /** The characters `str.isspace()` accepts; `str.strip()` with no argument
      removes exactly these. */
  const Whitespace: set<char> :=
    { '\t', '\n', '\U{000B}', '\U{000C}', '\r', '\U{001C}', '\U{001D}', '\U{001E}', '\U{001F}', ' ',
      '\U{0085}', '\U{00A0}', '\U{1680}',
      '\U{2000}', '\U{2001}', '\U{2002}', '\U{2003}', '\U{2004}', '\U{2005}', '\U{2006}',
      '\U{2007}', '\U{2008}', '\U{2009}', '\U{200A}',
      '\U{2028}', '\U{2029}', '\U{202F}', '\U{205F}', '\U{3000}' }

  /** `s.split(c)` for a one-character separator: never empty, and no piece
      holds the separator. */
  function Split(s: string, c: char): (r: seq<string>)
    ensures |r| >= 1
    ensures forall k :: 0 <= k < |r| ==> c !in r[k]
    decreases |s|
  {
    if s == [] then [""]
    else
      var rest := Split(s[1..], c);
      if s[0] == c then [""] + rest
      else [[s[0]] + rest[0]] + rest[1..]
  }

  /** `c.join(parts)` for a non-empty list of pieces. */
  function Join(parts: seq<string>, c: char): string
    requires |parts| >= 1
    decreases |parts|
  {
    if |parts| == 1 then parts[0] else parts[0] + [c] + Join(parts[1..], c)
  }

  /** Joining the pieces of a split gives back the text. */
  lemma {:induction false} JoinSplit(s: string, c: char)
    ensures Join(Split(s, c), c) == s
    decreases |s|
  {
    if s != [] {
      var rest := Split(s[1..], c);
      JoinSplit(s[1..], c);
      if s[0] != c {
        if |rest| > 1 {
          assert Split(s, c)[1..] == rest[1..];
        }
      }
    }
  }

  /** Splitting a join gives back the pieces, when no piece holds the
      separator. */
  lemma {:induction false} SplitJoin(parts: seq<string>, c: char)
    requires |parts| >= 1
    requires forall k :: 0 <= k < |parts| ==> c !in parts[k]
    ensures Split(Join(parts, c), c) == parts
    decreases |parts|
  {
    if |parts| == 1 {
      SplitPlain(parts[0], c);
    } else {
      SplitJoin(parts[1..], c);
      SplitConcat(parts[0], Join(parts[1..], c), c);
      SplitPlain(parts[0], c);
    }
  }

  /** A text without the separator splits into itself. */
  lemma {:induction false} SplitPlain(s: string, c: char)
    requires c !in s
    ensures Split(s, c) == [s]
    decreases |s|
  {
    if s != [] {
      assert s[0] != c && c !in s[1..];
      SplitPlain(s[1..], c);
      assert [s[0]] + s[1..] == s;
    }
  }

  /** Splitting at one separator: the pieces before it, then the pieces after. */
  lemma {:induction false} SplitConcat(a: string, b: string, c: char)
    requires c !in a
    ensures Split(a + [c] + b, c) == [a] + Split(b, c)
    decreases |a|
  {
    if a != [] {
      assert (a + [c] + b)[1..] == a[1..] + [c] + b;
      assert (a + [c] + b)[0] == a[0] != c;
      SplitConcat(a[1..], b, c);
      assert [a[0]] + a[1..] == a;
    } else {
      assert (a + [c] + b)[0] == c;
      assert (a + [c] + b)[1..] == b;
    }
  }

  /** The last piece of a split is the suffix after the last separator. */
  lemma {:induction false} SplitLast(s: string, c: char)
    ensures var r := Split(s, c); var last := r[|r| - 1];
      |last| <= |s| && last == s[|s| - |last|..] && (|last| < |s| ==> s[|s| - |last| - 1] == c)
    decreases |s|
  {
    if s != [] {
      var rest := Split(s[1..], c);
      var r := Split(s, c);
      SplitLast(s[1..], c);
      if s[0] == c {
        assert r[|r| - 1] == rest[|rest| - 1];
      } else if |rest| > 1 {
        assert r[|r| - 1] == rest[|rest| - 1];
        var last := rest[|rest| - 1];
        if |last| == |s| - 1 {
          assert last == s[1..];
          SplitPlain(s[1..], c);
          assert false;
        }
      } else {
        JoinSplit(s[1..], c);
        assert rest[0] == s[1..];
        assert r[|r| - 1] == [s[0]] + s[1..] == s;
      }
    }
  }

  /** When a text ends with a slash-free `w` that is either all of it or
      preceded by a slash, `w` is its last `/`-separated piece. */
  lemma SplitLastIs(p: string, w: string)
    requires |w| <= |p| && p[|p| - |w|..] == w && '/' !in w
    requires |w| < |p| ==> p[|p| - |w| - 1] == '/'
    ensures var parts := Split(p, '/'); parts[|parts| - 1] == w
  {
    var parts := Split(p, '/');
    SplitLast(p, '/');
    var seg := parts[|parts| - 1];
    assert |seg| == |w| by {
      assert '/' !in seg;
      assert forall i :: |p| - |w| <= i < |p| ==> p[i] == w[i - (|p| - |w|)];
      assert forall i :: |p| - |seg| <= i < |p| ==> p[i] == seg[i - (|p| - |seg|)];
    }
  }

  /** `s.split(sep)[0]`: the text before the first `sep`, or all of it. */
  function SplitFirst(s: string, sep: string): (r: string)
    requires |sep| > 0
    ensures !Contains(r, sep)
    ensures IndexOf(s, sep).None? ==> r == s
    ensures IndexOf(s, sep).Some? ==> r == s[..IndexOf(s, sep).value]
  {
    IndexOfSpec(s, sep);
    match IndexOf(s, sep)
    case None =>
      IndexOfSpec(s, sep);
      s
    case Some(i) =>
      IndexOfSpec(s[..i], sep);
      assert forall k :: 0 <= k ==> OccursAt(s[..i], sep, k) ==> OccursAt(s, sep, k);
      s[..i]
  }

  /** `s.split(sep)[1]`, defined when `sep` occurs: the text between the
      first `sep` and the next one (or the end). */
  function SplitSecond(s: string, sep: string): (r: string)
    requires |sep| > 0 && Contains(s, sep)
    ensures !Contains(r, sep)
    ensures OccursAt(s, sep, IndexOf(s, sep).value)
    ensures StartsWith(s[IndexOf(s, sep).value + |sep|..], r)
    ensures var rest := s[IndexOf(s, sep).value + |sep|..];
      (IndexOf(rest, sep).None? ==> r == rest)
      && (IndexOf(rest, sep).Some? ==> r == rest[..IndexOf(rest, sep).value])
  {
    IndexOfSpec(s, sep);
    var i := IndexOf(s, sep).value;
    SplitFirst(s[i + |sep|..], sep)
  }

  /** `r.split(c)[0]` ends at the end of `r` or at its first `c`. */
  lemma SplitFirstEnds(r: string, c: char)
    ensures var piece := SplitFirst(r, [c]);
      StartsWith(r, piece) && c !in piece && (|piece| == |r| || r[|piece|] == c)
  {
    var piece := SplitFirst(r, [c]);
    ContainsChar(piece, c);
    IndexOfSpec(r, [c]);
  }

  /** `s.split(sep)[1]` ends at the end of the text or where the next `sep`
      starts. */
  lemma SplitSecondEnds(s: string, sep: string)
    requires |sep| > 0 && Contains(s, sep)
    ensures var rest := s[IndexOf(s, sep).value + |sep|..]; var r := SplitSecond(s, sep);
      StartsWith(rest, r) && !Contains(r, sep) && (|r| == |rest| || StartsWith(rest[|r|..], sep))
  {
    var rest := s[IndexOf(s, sep).value + |sep|..];
    PrefixEndsAtSep(rest, SplitSecond(s, sep), sep);
  }

  /** A prefix cut at the first `sep`, or the whole text when there is
      none, ends at the end or where a `sep` starts. */
  lemma PrefixEndsAtSep(rest: string, r: string, sep: string)
    requires |sep| > 0
    requires IndexOf(rest, sep).None? ==> r == rest
    requires IndexOf(rest, sep).Some? ==> r == rest[..IndexOf(rest, sep).value]
    ensures StartsWith(rest, r) && (|r| == |rest| || StartsWith(rest[|r|..], sep))
  {
    if IndexOf(rest, sep).Some? {
      var m := IndexOf(rest, sep).value;
      IndexOfOccurs(rest, sep);
      assert rest[|r|..][..|sep|] == rest[m..m + |sep|];
    }
  }

  /** `s.split(sep)[1].split(c)[0]`: a prefix of the text after the first
      `sep`, holding neither `c` nor `sep`, that ends at the end of the
      text, at a `c` or where the next `sep` starts. */
  lemma PieceAfterFirst(s: string, sep: string, c: char)
    requires |sep| > 0 && Contains(s, sep)
    ensures var rest := s[IndexOf(s, sep).value + |sep|..];
      var piece := SplitFirst(SplitSecond(s, sep), [c]);
      StartsWith(rest, piece) && c !in piece && !Contains(piece, sep)
      && (|piece| == |rest| || rest[|piece|] == c || StartsWith(rest[|piece|..], sep))
  {
    var rest := s[IndexOf(s, sep).value + |sep|..];
    var r := SplitSecond(s, sep);
    var piece := SplitFirst(r, [c]);
    SplitSecondEnds(s, sep);
    SplitFirstEnds(r, c);
    PrefixOfPrefix(rest, r, piece);
    ContainsInPrefix(r, piece, sep);
    if |piece| < |r| {
      assert rest[|piece|] == r[|piece|];
    }
  }

  /** No occurrence of `sep` starts inside `head` when `head` holds none and
      the character after it is not in `sep`. */
  lemma FirstOccurrencePast(head: string, c: char, tail: string, sep: string)
    requires |sep| > 0 && !Contains(head, sep) && c !in sep
    ensures IndexOf(head + [c] + tail, sep).Some? ==> IndexOf(head + [c] + tail, sep).value > |head|
  {
    var t := head + [c] + tail;
    IndexOfSpec(t, sep);
    ContainsIff(head, sep);
    forall m | 0 <= m <= |head|
      ensures !OccursAt(t, sep, m)
    {
      if m + |sep| <= |head| {
        assert t[m..m + |sep|] == head[m..m + |sep|];
        assert OccursAt(t, sep, m) ==> OccursAt(head, sep, m);
      } else if m + |sep| <= |t| {
        var k := |head| - m;
        assert t[m..m + |sep|] != sep by {
          assert t[m..m + |sep|][k] == c;
          assert sep[k] in sep;
        }
      }
    }
  }

  /** `pre + sep + head + tail`, with `sep` first occurring right after
      `pre` and `tail` empty or starting with `c`: the piece between the
      first `sep` and the next `c` is `head`, whatever `sep`s follow. */
  lemma SplitSecondThenFirst(pre: string, sep: string, head: string, c: char, tail: string)
    requires |sep| > 0 && !Contains(pre + sep[..|sep| - 1], sep)
    requires !Contains(head, sep) && c !in head && c !in sep
    requires tail == "" || tail[0] == c
    ensures Contains(pre + sep + head + tail, sep)
    ensures SplitFirst(SplitSecond(pre + sep + head + tail, sep), [c]) == head
  {
    var rest := head + tail;
    var q := pre + sep + head + tail;
    assert q == pre + sep + rest;
    IndexOfJoined(pre, sep, rest);
    assert q[|pre| + |sep|..] == rest;
    var r := SplitSecond(q, sep);
    CutRestKeepsHead(head, c, tail, sep, r);
    SplitFirstAtChar(head, c, r[|head|..]);
  }

  /** Cutting `head + tail` at its first `sep` keeps `head` whole and leaves
      after it nothing or a text starting with `c`. */
  lemma CutRestKeepsHead(head: string, c: char, tail: string, sep: string, r: string)
    requires |sep| > 0 && !Contains(head, sep) && c !in sep
    requires tail == "" || tail[0] == c
    requires IndexOf(head + tail, sep).None? ==> r == head + tail
    requires IndexOf(head + tail, sep).Some? ==> r == (head + tail)[..IndexOf(head + tail, sep).value]
    ensures |head| <= |r| && r == head + r[|head|..]
    ensures r[|head|..] == "" || r[|head|..][0] == c
  {
    if tail == "" {
      assert head + tail == head;
    } else {
      assert head + tail == head + [c] + tail[1..];
      FirstOccurrencePast(head, c, tail[1..], sep);
    }
  }

  /** The part before the first `c`, when `c` ends `head` or nothing
      follows it. */
  lemma SplitFirstAtChar(head: string, c: char, tail: string)
    requires c !in head && (tail == "" || tail[0] == c)
    ensures SplitFirst(head + tail, [c]) == head
  {
    ContainsChar(head, c);
    if tail == "" {
      assert head + tail == head;
    } else {
      assert head + tail == head + [c] + tail[1..];
      assert head + [c][..0] == head;
      IndexOfJoined(head, [c], tail[1..]);
    }
  }

  /** ASCII upper case mapped to lower case, everything else kept. */
  function LowerAscii(s: string): (r: string)
    ensures |r| == |s|
    ensures forall i :: 0 <= i < |s| ==> !('A' <= r[i] <= 'Z')
    ensures forall i :: 0 <= i < |s| && !('A' <= s[i] <= 'Z') ==> r[i] == s[i]
    ensures forall i :: 0 <= i < |s| && 'A' <= s[i] <= 'Z' ==> r[i] == (s[i] as int + 32) as char
    decreases |s|
  {
    if s == [] then []
    else [if 'A' <= s[0] <= 'Z' then (s[0] as int + 32) as char else s[0]] + LowerAscii(s[1..])
  }

  /** Lower-casing works character by character, so it commutes with
      taking a prefix. */
  lemma {:induction false} LowerAsciiPrefix(s: string, n: nat)
    requires n <= |s|
    ensures LowerAscii(s[..n]) == LowerAscii(s)[..n]
    decreases n
  {
    if n > 0 {
      var h := [if 'A' <= s[0] <= 'Z' then (s[0] as int + 32) as char else s[0]];
      assert s[..n][0] == s[0] && s[..n][1..] == s[1..][..n - 1];
      LowerAsciiPrefix(s[1..], n - 1);
      assert LowerAscii(s[..n]) == h + LowerAscii(s[1..])[..n - 1];
      assert (h + LowerAscii(s[1..]))[..n] == h + LowerAscii(s[1..])[..n - 1];
    }
  }

  /** A set of characters without ASCII letters. */
  predicate NoAsciiLetters(cs: set<char>)
  {
    forall c :: c in cs ==> !('A' <= c <= 'Z') && !('a' <= c <= 'z')
  }

  /** Lower-casing never moves a character into or out of such a set. */
  lemma LowerKeepsClass(s: string, cs: set<char>, i: nat)
    requires NoAsciiLetters(cs) && i < |s|
    ensures LowerAscii(s)[i] in cs <==> s[i] in cs
  {
    if 'A' <= s[i] <= 'Z' {
      assert 'a' <= LowerAscii(s)[i] <= 'z';
    }
  }

  /** Leading characters of such a set are the same before and after
      lower-casing. */
  lemma {:induction false} LowerTrimStart(s: string, cs: set<char>)
    requires NoAsciiLetters(cs)
    ensures TrimStart(LowerAscii(s), cs) == LowerAscii(TrimStart(s, cs))
    decreases |s|
  {
    if s != [] {
      var l := LowerAscii(s);
      LowerKeepsClass(s, cs, 0);
      if s[0] in cs {
        assert l[1..] == LowerAscii(s[1..]);
        LowerTrimStart(s[1..], cs);
      }
    }
  }

  /** The same for trailing characters. */
  lemma {:induction false} LowerTrimEnd(s: string, cs: set<char>)
    requires NoAsciiLetters(cs)
    ensures TrimEnd(LowerAscii(s), cs) == LowerAscii(TrimEnd(s, cs))
    decreases |s|
  {
    if s != [] {
      var l := LowerAscii(s);
      LowerKeepsClass(s, cs, |s| - 1);
      if s[|s| - 1] in cs {
        LowerAsciiPrefix(s, |s| - 1);
        LowerTrimEnd(s[..|s| - 1], cs);
      }
    }
  }

  lemma WhitespaceHasNoLetters()
    ensures NoAsciiLetters(Whitespace)
  {
  }

  /** `s.lower().strip()` is `s.strip().lower()`. */
  lemma LowerStrip(s: string)
    ensures Strip(LowerAscii(s), Whitespace) == LowerAscii(Strip(s, Whitespace))
  {
    WhitespaceHasNoLetters();
    LowerTrimStart(s, Whitespace);
    LowerTrimEnd(TrimStart(s, Whitespace), Whitespace);
  }
}

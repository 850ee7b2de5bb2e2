/** Playing a query in NoAd_Watch_YouTube_Online_V_1.py: the choice of
    player in `play_video`, and the Invidious address `_play_web` opens,
    including `urllib.parse.quote` of a search text. */
module PlayerWeb {
  import opened Wrappers
  import opened Text
  import opened Sequences

  /** Characters `urllib.parse.quote` keeps with its default `safe='/'`:
      ASCII letters and digits, `_.-~`, and the slash. */
  predicate QuoteSafe(c: char)
  {
    'A' <= c <= 'Z' || 'a' <= c <= 'z' || '0' <= c <= '9'
    || c == '_' || c == '.' || c == '-' || c == '~' || c == '/'
  }

  /** The UTF-8 encoding of a character, as byte values. */
  function Utf8(c: char): (bs: seq<nat>)
    ensures 1 <= |bs| <= 4 && forall i :: 0 <= i < |bs| ==> bs[i] < 256
  {
    var n := c as int;
    if n < 0x80 then [n]
    else if n < 0x800 then [0xC0 + n / 64, 0x80 + n % 64]
    else if n < 0x10000 then [0xE0 + n / 4096, 0x80 + (n / 64) % 64, 0x80 + n % 64]
    else [0xF0 + n / 262144, 0x80 + (n / 4096) % 64, 0x80 + (n / 64) % 64, 0x80 + n % 64]
  }

  /** The number of bytes a UTF-8 sequence has, read from its first byte. */
  function LeadLength(b: nat): nat
  {
    if b < 0x80 then 1 else if b < 0xE0 then 2 else if b < 0xF0 then 3 else 4
  }

  /** The code point a UTF-8 sequence of the length its first byte announces
      encodes. */
  function DecodeUtf8(bs: seq<nat>): int
    requires |bs| >= 1 && |bs| == LeadLength(bs[0])
  {
    var b: seq<int> := bs;
    if |b| == 1 then b[0]
    else if |b| == 2 then (b[0] - 0xC0) * 64 + (b[1] - 0x80)
    else if |b| == 3 then (b[0] - 0xE0) * 4096 + (b[1] - 0x80) * 64 + (b[2] - 0x80)
    else (b[0] - 0xF0) * 262144 + (b[1] - 0x80) * 4096 + (b[2] - 0x80) * 64 + (b[3] - 0x80)
  }

  /** Dividing by 64 twice is dividing by 4096. */
  lemma DivTwice(n: nat)
    ensures n / 64 / 64 == n / 4096
  {
    var a := n / 64;
    assert n == 4096 * (a / 64) + 64 * (a % 64) + n % 64;
  }

  /** Dividing by 4096, then by 64, is dividing by 262144. */
  lemma DivThrice(n: nat)
    ensures n / 4096 / 64 == n / 262144
  {
    var a := n / 4096;
    assert n == 262144 * (a / 64) + 4096 * (a % 64) + n % 4096;
  }

  /** The encoding is well formed (a lead byte announcing its length,
      continuation bytes in [0x80, 0xC0)) and decodes back to the character. */
  lemma Utf8RoundTrip(c: char)
    ensures var bs := Utf8(c);
      LeadLength(bs[0]) == |bs|
      && (forall i :: 1 <= i < |bs| ==> 0x80 <= bs[i] < 0xC0)
      && DecodeUtf8(bs) == c as int
  {
    var n := c as int;
    assert n == 64 * (n / 64) + n % 64;
    if n >= 0x800 {
      DivTwice(n);
      assert n / 64 == 64 * (n / 4096) + (n / 64) % 64;
      if n >= 0x10000 {
        DivThrice(n);
        assert n / 4096 == 64 * (n / 262144) + (n / 4096) % 64;
      }
    }
  }

  /** An upper-case hexadecimal digit. */
  function HexDigit(d: nat): (c: char)
    requires d < 16
    ensures QuoteSafe(c)
  {
    "0123456789ABCDEF"[d]
  }

  /** `%XX` for each byte. */
  function PercentBytes(bs: seq<nat>): (r: string)
    requires forall i :: 0 <= i < |bs| ==> bs[i] < 256
    ensures |r| == 3 * |bs|
  {
    if bs == [] then []
    else ['%', HexDigit(bs[0] / 16), HexDigit(bs[0] % 16)] + PercentBytes(bs[1..])
  }

  /** One character as `quote` writes it. */
  function QuoteChar(c: char): string
  {
    if QuoteSafe(c) then [c] else PercentBytes(Utf8(c))
  }

  /** `urllib.parse.quote(s)`. */
  function Quote(s: string): string
  {
    FlatMap(QuoteChar, s)
  }

  /** Every character `PercentBytes` writes is `%` or a hexadecimal digit. */
  lemma {:induction false} PercentAlphabet(bs: seq<nat>)
    requires forall i :: 0 <= i < |bs| ==> bs[i] < 256
    ensures forall x :: x in PercentBytes(bs) ==> x == '%' || QuoteSafe(x)
  {
    if bs != [] {
      PercentAlphabet(bs[1..]);
    }
  }

  /** Quoting writes only safe characters and `%`; in particular no `&`,
      `?`, `#`, `=`, `+` or space survives to end the search parameter. */
  lemma QuoteAlphabet(s: string)
    ensures forall x :: x in Quote(s) ==> x == '%' || QuoteSafe(x)
    ensures forall x :: x in "&?#=+ " ==> x !in Quote(s)
  {
    forall x | x in Quote(s)
      ensures x == '%' || QuoteSafe(x)
    {
      FlatMapMembers(QuoteChar, s, x);
      var j :| 0 <= j < |s| && x in QuoteChar(s[j]);
      if !QuoteSafe(s[j]) {
        PercentAlphabet(Utf8(s[j]));
      }
    }
  }

  predicate AllSafe(s: string)
  {
    forall i :: 0 <= i < |s| ==> QuoteSafe(s[i])
  }

  /** A text of safe characters is kept as it is; any other character makes
      the quoted text longer. */
  lemma {:induction false} QuoteKeepsOnlySafe(s: string)
    ensures |Quote(s)| >= |s|
    ensures AllSafe(s) ==> Quote(s) == s
    ensures !AllSafe(s) ==> |Quote(s)| > |s|
  {
    if s != [] {
      var p := s[..|s| - 1];
      var c := s[|s| - 1];
      QuoteKeepsOnlySafe(p);
      assert Quote(s) == Quote(p) + QuoteChar(c);
      assert s == p + [c];
      if !AllSafe(s) && AllSafe(p) {
        assert !QuoteSafe(c);
      }
    }
  }

  /** `quote` changes a text exactly when it holds a character outside the
      safe set. */
  lemma QuoteIdentityIff(s: string)
    ensures Quote(s) == s <==> AllSafe(s)
  {
    QuoteKeepsOnlySafe(s);
  }

  const WatchMarker: string := "watch?v="
  const ShortMarker: string := "youtu.be/"
  const InvidiousWatch: string := "https://yewtu.be/watch?v="
  const InvidiousSearch: string := "https://yewtu.be/search?q="

  /** `_play_web`'s address: the video id after the first `watch?v=` (cut at
      `&`) or after the first `youtu.be/` (cut at `?`) on the Invidious
      watch page; any other URL unchanged; a search text on the Invidious
      search page. */
  function WebUrl(query: string): string
  {
    if StartsWith(query, "http") then
      if Contains(query, WatchMarker) then InvidiousWatch + SplitFirst(SplitSecond(query, WatchMarker), "&")
      else if Contains(query, ShortMarker) then InvidiousWatch + SplitFirst(SplitSecond(query, ShortMarker), "?")
      else query
    else InvidiousSearch + Quote(query)
  }

  /** A URL holding `watch?v=` opens the Invidious watch page of the id
      that starts right after the first `watch?v=`: it holds neither `&` nor
      `watch?v=`, and ends at the end of the URL, at an `&`, or where the
      next `watch?v=` starts. */
  lemma WatchIdFromQuery(query: string)
    requires StartsWith(query, "http") && Contains(query, WatchMarker)
    ensures StartsWith(WebUrl(query), InvidiousWatch)
    ensures var rest := query[IndexOf(query, WatchMarker).value + |WatchMarker|..];
      var id := WebUrl(query)[|InvidiousWatch|..];
      StartsWith(rest, id) && '&' !in id && !Contains(id, WatchMarker)
      && (|id| == |rest| || rest[|id|] == '&' || StartsWith(rest[|id|..], WatchMarker))
  {
    PieceAfterFirst(query, WatchMarker, '&');
    assert WebUrl(query)[|InvidiousWatch|..] == SplitFirst(SplitSecond(query, WatchMarker), "&");
  }

  /** A URL holding `youtu.be/` but not `watch?v=` opens the Invidious watch
      page of the id that starts right after the first `youtu.be/`: it holds
      neither `?` nor `youtu.be/`, and ends at the end of the URL, at a `?`,
      or where the next `youtu.be/` starts. */
  lemma ShortIdFromQuery(query: string)
    requires StartsWith(query, "http") && !Contains(query, WatchMarker) && Contains(query, ShortMarker)
    ensures StartsWith(WebUrl(query), InvidiousWatch)
    ensures var rest := query[IndexOf(query, ShortMarker).value + |ShortMarker|..];
      var id := WebUrl(query)[|InvidiousWatch|..];
      StartsWith(rest, id) && '?' !in id && !Contains(id, ShortMarker)
      && (|id| == |rest| || rest[|id|] == '?' || StartsWith(rest[|id|..], ShortMarker))
  {
    PieceAfterFirst(query, ShortMarker, '?');
    assert WebUrl(query)[|InvidiousWatch|..] == SplitFirst(SplitSecond(query, ShortMarker), "?");
  }

  /** Any other URL is opened as it is. */
  lemma OtherUrlUnchanged(query: string)
    requires StartsWith(query, "http") && !Contains(query, WatchMarker) && !Contains(query, ShortMarker)
    ensures WebUrl(query) == query
  {
  }

  /** The usual watch link: `pre` + `watch?v=` + id + the remaining
      parameters (`&...` or nothing) opens the Invidious page of exactly that
      id, whatever the remaining parameters hold. */
  lemma WatchUrlRewritten(pre: string, id: string, tail: string)
    requires StartsWith(pre, "http")
    requires !Contains(pre + WatchMarker[..|WatchMarker| - 1], WatchMarker)
    requires '&' !in id && (tail == "" || tail[0] == '&')
    requires !Contains(id, WatchMarker)
    ensures WebUrl(pre + WatchMarker + id + tail) == InvidiousWatch + id
  {
    var q := pre + WatchMarker + id + tail;
    assert '&' !in WatchMarker;
    SplitSecondThenFirst(pre, WatchMarker, id, '&', tail);
    assert q[..4] == pre[..4];
  }

  /** The short link: `pre` + `youtu.be/` + id + an optional `?...` query,
      in a URL without `watch?v=`, opens the Invidious page of that id,
      whatever the query holds. */
  lemma ShortUrlRewritten(pre: string, id: string, tail: string)
    requires StartsWith(pre, "http")
    requires !Contains(pre + ShortMarker + id + tail, WatchMarker)
    requires !Contains(pre + ShortMarker[..|ShortMarker| - 1], ShortMarker)
    requires '?' !in id && (tail == "" || tail[0] == '?')
    requires !Contains(id, ShortMarker)
    ensures WebUrl(pre + ShortMarker + id + tail) == InvidiousWatch + id
  {
    var q := pre + ShortMarker + id + tail;
    assert '?' !in ShortMarker;
    SplitSecondThenFirst(pre, ShortMarker, id, '?', tail);
    assert q[..4] == pre[..4];
  }

  /** A search text (anything not starting with `http`) opens the Invidious
      search page whose whole parameter is the quoted text: it holds no
      character that would end the parameter or start another. */
  lemma SearchTextQuoted(query: string)
    requires !StartsWith(query, "http")
    ensures StartsWith(WebUrl(query), InvidiousSearch)
    ensures var param := WebUrl(query)[|InvidiousSearch|..];
      param == Quote(query) && forall x :: x in "&?#=+ " ==> x !in param
  {
    QuoteAlphabet(query);
    assert WebUrl(query)[|InvidiousSearch|..] == Quote(query);
  }

  /** Which tools `shutil.which` finds. */
  datatype Tools = Tools(mpv: bool, iina: bool, ytDlp: bool)

  datatype PlayerKind = Mpv | Iina | Web

  /** The dictionary `play_video` returns: a launched player with the
      address it was given, or `success: False` with a message. */
  datatype PlayResult = Launched(kind: PlayerKind, url: string) | Refused(message: string)

  /** Launching `kind`: `launchError` is the message of the exception
      `Popen` or `webbrowser.open` raises, if they raise. */
  function Launch(kind: PlayerKind, url: string, launchError: Option<string>): PlayResult
  {
    if launchError.Some? then Refused(launchError.value) else Launched(kind, url)
  }

  /** `play_video(query, player)`. */
  function PlayVideo(query: string, player: string, tools: Tools, launchError: Option<string>): PlayResult
  {
    var isUrl := StartsWith(query, "http");
    if player == "web" || !isUrl then Launch(Web, WebUrl(query), launchError)
    else if player == "mpv" || (player == "auto" && tools.mpv && tools.ytDlp) then
      if !tools.mpv || !tools.ytDlp then Refused("MPV or yt-dlp not installed")
      else Launch(Mpv, query, launchError)
    else if player == "iina" || (player == "auto" && tools.iina && tools.ytDlp) then
      if !tools.iina || !tools.ytDlp then Refused("IINA or yt-dlp not installed")
      else Launch(Iina, query, launchError)
    else Launch(Web, WebUrl(query), launchError)
  }

  /** A search text, or the `web` choice, goes to the browser whatever tools
      are installed. */
  lemma WebWhenNotUrl(query: string, player: string, tools: Tools, other: Tools)
    requires player == "web" || !StartsWith(query, "http")
    ensures PlayVideo(query, player, tools, None) == Launched(Web, WebUrl(query))
    ensures forall e :: PlayVideo(query, player, tools, e) == PlayVideo(query, player, other, e)
  {
  }

  /** A desktop player is launched only when it and yt-dlp are installed,
      only for a URL, and it gets the query itself. */
  lemma DesktopNeedsTools(query: string, player: string, tools: Tools, e: Option<string>)
    ensures var r := PlayVideo(query, player, tools, e);
      (r.Launched? && r.kind == Mpv ==> tools.mpv && tools.ytDlp && r.url == query && StartsWith(query, "http"))
      && (r.Launched? && r.kind == Iina ==> tools.iina && tools.ytDlp && r.url == query && StartsWith(query, "http"))
  {
  }

  /** Choosing `mpv` (or `iina`) for a URL without that player or yt-dlp
      installed refuses with the fixed message and launches nothing, whatever
      a launch would have raised. */
  lemma ExplicitChoiceMissing(query: string, tools: Tools, e: Option<string>)
    requires StartsWith(query, "http")
    ensures !(tools.mpv && tools.ytDlp) ==>
      PlayVideo(query, "mpv", tools, e) == Refused("MPV or yt-dlp not installed")
    ensures !(tools.iina && tools.ytDlp) ==>
      PlayVideo(query, "iina", tools, e) == Refused("IINA or yt-dlp not installed")
  {
  }

  /** `auto` on a URL prefers MPV, then IINA, then the browser, each
      desktop player only when it and yt-dlp are installed. */
  lemma AutoPreference(query: string, tools: Tools)
    requires StartsWith(query, "http")
    ensures var r := PlayVideo(query, "auto", tools, None);
      r.Launched?
      && (r.kind == Mpv <==> tools.mpv && tools.ytDlp)
      && (r.kind == Iina <==> !(tools.mpv && tools.ytDlp) && tools.iina && tools.ytDlp)
      && (r.kind == Web <==> !tools.ytDlp || (!tools.mpv && !tools.iina))
  {
  }
}

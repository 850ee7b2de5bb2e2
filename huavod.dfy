/** The huavod.top downloader (NoAd_huavod.py): the file name derived from the
    page URL, candidate-link extraction behind the verification gate, the
    yt-dlp and ffmpeg download attempts, and the fallback chain of `main`.
    Everything the script learns from the outside world (fetched pages,
    regular-expression matches, JSON parsing, exit statuses, directory
    listings, operator answers) arrives as a parameter. */
module Huavod {
  import opened Wrappers
  import opened Text
  import opened Decimal
  import opened Sequences
  import opened Candidates

  // ---------------------------------------------------------------------
  // generate_filename

  /** The ASCII members of the regular-expression class `\w`. */
  predicate IsWordChar(c: char)
  {
    'a' <= c <= 'z' || 'A' <= c <= 'Z' || '0' <= c <= '9' || c == '_'
  }

  predicate IsNameChar(c: char)
  {
    IsWordChar(c) || c == '-'
  }

  predicate IsSafeName(s: string)
  {
    forall i :: 0 <= i < |s| ==> IsNameChar(s[i])
  }

  /** `re.sub(r'[^\w\-]', '_', s)`: every character outside the class becomes
      exactly one underscore, the others stay where they are. */
  function Sanitize(s: string): (r: string)
    ensures |r| == |s| && IsSafeName(r)
    ensures forall i :: 0 <= i < |s| && IsNameChar(s[i]) ==> r[i] == s[i]
    ensures forall i :: 0 <= i < |s| && !IsNameChar(s[i]) ==> r[i] == '_'
  {
    if s == [] then [] else [if IsNameChar(s[0]) then s[0] else '_'] + Sanitize(s[1..])
  }

  /** The last piece of `path.strip('/').split('/')`: a slash-free suffix of
      the stripped path that starts right after its last slash. */
  function LastSegment(path: string): (seg: string)
    ensures '/' !in seg
    ensures var p := Strip(path, {'/'});
      |seg| <= |p| && seg == p[|p| - |seg|..] && (|seg| < |p| ==> p[|p| - |seg| - 1] == '/')
  {
    var parts := Split(Strip(path, {'/'}), '/');
    SplitLast(Strip(path, {'/'}), '/');
    parts[|parts| - 1]
  }

  /** `generate_filename`, given the path component of the parsed URL and the
      value `random.randint(100000000, 999999999)` would draw. The fallback
      branch is written as the script writes it; `Split` never returns an
      empty list, so that branch is never taken (see
      `GenerateFilenameIgnoresToken`). */
  function GenerateFilename(path: string, token: nat): string
    requires 100000000 <= token <= 999999999
  {
    var parts := Split(Strip(path, {'/'}), '/');
    if |parts| > 0 then Sanitize(ReplaceAll(parts[|parts| - 1], ".html", ""))
    else NatToDecimal(token)
  }

  /** The random token is never used: the name is always the sanitised last
      path segment with `.html` removed, so it holds only word characters and
      `-`, and has exactly as many characters as that segment after the
      removal. */
  lemma GenerateFilenameIgnoresToken(path: string, token: nat)
    requires 100000000 <= token <= 999999999
    ensures var name := GenerateFilename(path, token);
      name == Sanitize(ReplaceAll(LastSegment(path), ".html", ""))
      && IsSafeName(name) && '/' !in name
      && |name| == |ReplaceAll(LastSegment(path), ".html", "")|
  {
  }

  /** A path made only of slashes (the empty path included) gives the empty
      name, never a random token. */
  lemma EmptyPathGivesEmptyName(path: string, token: nat)
    requires 100000000 <= token <= 999999999
    requires forall i :: 0 <= i < |path| ==> path[i] == '/'
    ensures GenerateFilename(path, token) == ""
  {
    StripEmptyIff(path, {'/'});
    assert Split("", '/') == [""];
  }

  /** A text with no `.`, such as a slug with no extension, keeps its length
      and gains nothing. */
  lemma HtmlRemovalOnPlainSegment(seg: string)
    requires '.' !in seg
    ensures ReplaceAll(seg, ".html", "") == seg
  {
    ReplaceAllKeepsText(seg, ".html", "");
  }

  /** A page path ending in `/<slug>.html`, where the slug holds only word
      characters and `-`, names the file `<slug>`, whatever comes before the
      last slash. */
  lemma SlugPathName(dir: string, slug: string, token: nat)
    requires 100000000 <= token <= 999999999
    requires IsSafeName(slug)
    ensures GenerateFilename(dir + "/" + slug + ".html", token) == slug
  {
    var w := slug + ".html";
    assert '/' !in w by {
      assert forall i :: 0 <= i < |slug| ==> w[i] == slug[i];
      assert forall i :: |slug| <= i < |w| ==> w[i] == ".html"[i - |slug|];
    }
    var s := dir + "/" + w;
    assert s == dir + "/" + slug + ".html";
    var n := |s| - |w|;
    assert s[n..] == w && s[n - 1] == '/';
    var t := TrimStart(s, {'/'});
    TrimStartSpec(s, {'/'});
    assert |t| >= |w| by {
      assert s[n] == w[0];
    }
    assert t[|t| - |w|..] == w;
    assert |t| > |w| ==> t[|t| - |w| - 1] == s[n - 1];
    assert t[|t| - 1] == 'l';
    assert Strip(s, {'/'}) == t;
    SplitLastIs(t, w);
    ReplaceAllKeepsPrefix(slug, ".html", ".html", "");
    assert ReplaceAll(".html", ".html", "") == "";
    assert slug + "" == slug;
    assert Sanitize(slug) == slug;
  }

  // ---------------------------------------------------------------------
  // The verification gate of extract_video_with_browser_cookies

  /** A fetched page: the URL after redirects and the decoded body. */
  datatype Page = Page(finalUrl: string, body: string)

  /** One `opener.open(...)` and read: a page, or an exception (timeout,
      refused connection, TLS failure, HTTP error status). */
  datatype FetchOutcome = Fetched(page: Page) | FetchRaised

  datatype GateState = Direct | Retrying

  datatype GateResult = GateResult(state: GateState, fetches: nat, body: Option<string>)

  /** The localized marker, the two characters U+9A8C U+8BC1 ("verify"). */
  const VerifyMarker: string := "\U{9A8C}\U{8BC1}"

  /** The gate test: `verify` in the lower-cased final URL or the marker in
      the body. ASCII lower-casing decides this test exactly as `str.lower`
      does, since no other character lower-cases into these letters. */
  predicate IsVerificationPage(p: Page)
  {
    Contains(LowerAscii(p.finalUrl), "verify") || Contains(p.body, VerifyMarker)
  }

  /** Fetch the page; when it is a verification page, fetch the same URL
      with the same headers once more and keep that second body whatever it
      holds. `fetch(n)` is what the n-th identical request would give. A
      failing fetch ends extraction with no body. */
  function PassGate(fetch: nat -> FetchOutcome): (g: GateResult)
    ensures 1 <= g.fetches <= 2
    ensures g.fetches == 2 <==> g.state == Retrying
    ensures g.state == Retrying <==> fetch(0).Fetched? && IsVerificationPage(fetch(0).page)
    ensures g.body.Some? <==> fetch(g.fetches - 1).Fetched?
    ensures g.body.Some? ==> g.body.value == fetch(g.fetches - 1).page.body
  {
    match fetch(0)
    case FetchRaised => GateResult(Direct, 1, None)
    case Fetched(p) =>
      if !IsVerificationPage(p) then GateResult(Direct, 1, Some(p.body))
      else
        match fetch(1)
        case FetchRaised => GateResult(Retrying, 2, None)
        case Fetched(q) => GateResult(Retrying, 2, Some(q.body))
  }

  /** Only the first two fetches can matter: two fetch oracles that agree on
      them give the same result. */
  lemma PassGateAtMostTwoFetches(f: nat -> FetchOutcome, h: nat -> FetchOutcome)
    requires f(0) == h(0) && f(1) == h(1)
    ensures PassGate(f) == PassGate(h)
  {
  }

  /** A verification page followed by a clean one yields the clean body
      after two fetches; a verification page twice yields the second
      (still gated) body, not an error. */
  lemma PassGateRetryScenarios(f: nat -> FetchOutcome)
    requires f(0).Fetched? && IsVerificationPage(f(0).page) && f(1).Fetched?
    ensures PassGate(f) == GateResult(Retrying, 2, Some(f(1).page.body))
  {
  }

  // ---------------------------------------------------------------------
  // Candidate extraction (the pattern loop and dict.fromkeys)

  /** What `json.loads` gives for a match that starts with `{` after
      whitespace: the object's `url` member if it has one. */
  datatype JsonObject = JsonObject(url: Option<string>)

  predicate LooksLikeJson(m: string)
  {
    StartsWith(Strip(m, Whitespace), "{")
  }

  /** The non-JSON filter: starts with `http` and mentions `m3u8` or `mp4`
      (case-sensitively, although the patterns matched case-insensitively). */
  predicate IsMediaLink(c: string)
  {
    StartsWith(c, "http") && (Contains(c, "m3u8") || Contains(c, "mp4"))
  }

  /** The items one match appends to `video_sources`. `parse(m)` is `None`
      when `json.loads(m)` raises. */
  function Contribution(m: string, parse: string -> Option<JsonObject>): seq<string>
  {
    if LooksLikeJson(m) then
      match parse(m)
      case Some(JsonObject(Some(u))) => [u]
      case _ => []
    else if IsMediaLink(Clean(m)) then [Clean(m)]
    else []
  }

  /** A match adds at most one item: a JSON match exactly its `url` member
      (unfiltered) when it parses and has one, any other match its cleaned
      form exactly when that is a media link. */
  lemma ContributionMeaning(m: string, parse: string -> Option<JsonObject>, x: string)
    ensures |Contribution(m, parse)| <= 1
    ensures x in Contribution(m, parse) <==>
      (LooksLikeJson(m) && parse(m) == Some(JsonObject(Some(x))))
      || (!LooksLikeJson(m) && x == Clean(m) && IsMediaLink(x))
  {
  }

  /** `Contribution` with the parser fixed, as a function of the match. */
  function ContributionOf(parse: string -> Option<JsonObject>): string -> seq<string>
  {
    m => Contribution(m, parse)
  }

  /** The items collected from one pattern's matches, in match order. */
  function CollectMatches(ms: seq<string>, parse: string -> Option<JsonObject>): seq<string>
  {
    FlatMap(ContributionOf(parse), ms)
  }

  /** The items collected from all patterns, in pattern order. */
  function CollectAll(lists: seq<seq<string>>, parse: string -> Option<JsonObject>): seq<string>
  {
    if lists == [] then [] else CollectAll(lists[..|lists| - 1], parse) + CollectMatches(lists[|lists| - 1], parse)
  }

  /** Pattern order then match order is plain concatenation of the match
      lists. */
  lemma {:induction false} CollectAllIsFlatten(lists: seq<seq<string>>, parse: string -> Option<JsonObject>)
    ensures CollectAll(lists, parse) == CollectMatches(Flatten(lists), parse)
  {
    if lists != [] {
      CollectAllIsFlatten(lists[..|lists| - 1], parse);
      FlatMapAppend(ContributionOf(parse), Flatten(lists[..|lists| - 1]), lists[|lists| - 1]);
    }
  }

  /** A JSON-looking match that does not parse contributes nothing and does
      not stop the matches after it from being processed. */
  lemma BadJsonSkipped(a: seq<string>, m: string, b: seq<string>, parse: string -> Option<JsonObject>)
    requires LooksLikeJson(m) && parse(m).None?
    ensures CollectMatches(a + [m] + b, parse) == CollectMatches(a, parse) + CollectMatches(b, parse)
  {
    var f := ContributionOf(parse);
    assert f(m) == [];
    assert FlatMap(f, [m]) == FlatMap(f, []) + f(m);
    FlatMapAppend(f, a + [m], b);
    FlatMapAppend(f, a, [m]);
  }

  /** An item is collected exactly when some match contributes it. */
  lemma CollectedIff(ms: seq<string>, parse: string -> Option<JsonObject>, x: string)
    ensures x in CollectMatches(ms, parse) <==> exists j :: 0 <= j < |ms| && x in Contribution(ms[j], parse)
  {
    FlatMapMembers(ContributionOf(parse), ms, x);
  }

  /** The extractor's result, given the fetch oracle, the regular-expression
      engine (`findAll(html)` lists each pattern's matches, in pattern
      order) and the JSON parser. */
  function Extraction(fetch: nat -> FetchOutcome, findAll: string -> seq<seq<string>>,
                      parse: string -> Option<JsonObject>): seq<string>
  {
    var g := PassGate(fetch);
    if g.body.None? then [] else Dedup(CollectAll(findAll(g.body.value), parse))
  }

  /** The returned list has no duplicates, holds exactly the contributed
      items and keeps them in first-occurrence order; a failed fetch gives
      the empty list. */
  lemma ExtractionProperties(fetch: nat -> FetchOutcome, findAll: string -> seq<seq<string>>,
                             parse: string -> Option<JsonObject>, x: string)
    ensures var r := Extraction(fetch, findAll, parse);
      NoDuplicates(r) && (PassGate(fetch).body.None? ==> r == [])
    ensures PassGate(fetch).body.Some? ==>
      var items := CollectAll(findAll(PassGate(fetch).body.value), parse);
      var r := Extraction(fetch, findAll, parse);
      (x in r <==> exists j :: 0 <= j < |Flatten(findAll(PassGate(fetch).body.value))|
                      && x in Contribution(Flatten(findAll(PassGate(fetch).body.value))[j], parse))
      && (forall i, j :: 0 <= i < j < |r| ==> FirstIndex(items, r[i]) < FirstIndex(items, r[j]))
  {
    var g := PassGate(fetch);
    if g.body.Some? {
      var lists := findAll(g.body.value);
      var items := CollectAll(lists, parse);
      CollectAllIsFlatten(lists, parse);
      CollectedIff(Flatten(lists), parse, x);
      DedupMembers(items);
      DedupOrder(items);
    }
  }

  /** The body of the inner loop: a JSON-looking match appends its `url`
      member when it parses and has one; any other match appends its cleaned
      form when that is a media link. */
  method AppendContribution(collected: seq<string>, m: string, parse: string -> Option<JsonObject>)
    returns (r: seq<string>)
    ensures r == collected + Contribution(m, parse)
  {
    r := collected;
    if LooksLikeJson(m) {
      var parsed := parse(m);
      if parsed.Some? && parsed.value.url.Some? {
        r := r + [parsed.value.url.value];
      }
    } else {
      var cleaned := Clean(m);
      if IsMediaLink(cleaned) {
        r := r + [cleaned];
      }
    }
  }

  /** The inner loop over one pattern's matches. */
  method CollectFromPattern(collected: seq<string>, matches: seq<string>, parse: string -> Option<JsonObject>)
    returns (r: seq<string>)
    ensures r == collected + CollectMatches(matches, parse)
  {
    r := collected;
    var j := 0;
    while j < |matches|
      invariant 0 <= j <= |matches|
      invariant r == collected + CollectMatches(matches[..j], parse)
    {
      r := AppendContribution(r, matches[j], parse);
      assert matches[..j + 1][..j] == matches[..j];
      assert ContributionOf(parse)(matches[j]) == Contribution(matches[j], parse);
      j := j + 1;
    }
    assert matches[..j] == matches;
  }

  /** `extract_video_with_browser_cookies` after the fetch: the loop over
      the patterns appending to `video_sources`, then
      `list(dict.fromkeys(...))`. */
  method ExtractVideoSources(fetch: nat -> FetchOutcome, findAll: string -> seq<seq<string>>,
                             parse: string -> Option<JsonObject>) returns (sources: seq<string>)
    ensures sources == Extraction(fetch, findAll, parse)
  {
    var gate := PassGate(fetch);
    if gate.body.None? {
      return [];
    }
    var lists := findAll(gate.body.value);
    var collected: seq<string> := [];
    var i := 0;
    while i < |lists|
      invariant 0 <= i <= |lists|
      invariant collected == CollectAll(lists[..i], parse)
    {
      collected := CollectFromPattern(collected, lists[i], parse);
      assert lists[..i + 1][..i] == lists[..i];
      i := i + 1;
    }
    assert lists[..i] == lists;
    sources := Dedup(collected);
  }
}

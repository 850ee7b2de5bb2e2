/** The simpler downloader (NoAd_Ou_Le.py): the random file name, the
    collect-clean-deduplicate part of `extract_embedded_video`, the result of
    `download_video_direct`, and the fallback of `main`, which tries only the
    first extracted source. The page body, the regular-expression engine and
    every process outcome arrive as parameters. */
module OuLe {
  import opened Wrappers
  import opened Decimal
  import opened Sequences
  import opened Candidates
  import opened Paths

  /** `generate_random_filename`, given the drawn number. */
  function GenerateRandomFilename(token: nat): (name: string)
    requires 100000000 <= token <= 999999999
    ensures |name| == 9 && AllDigits(name) && name[0] != '0' && DecimalValue(name) == token
  {
    NineDigitToken(token);
    NatToDecimal(token)
  }

  /** What `extract_embedded_video` returns. `page` is the decoded body, or
      `None` when opening or reading the page raised; `findAll(html)` lists
      each pattern's matches in pattern order. */
  function EmbeddedSources(page: Option<string>, findAll: string -> seq<seq<string>>): seq<string>
  {
    match page
    case None => []
    case Some(html) => Dedup(Map(Clean, Flatten(findAll(html))))
  }

  /** No candidate is rejected: every raw match shows up cleaned, and every
      item is the cleaned form of a match; the list has no duplicates and
      keeps first-occurrence order. No page or no match gives `[]`. */
  lemma EmbeddedSourcesProperties(html: string, findAll: string -> seq<seq<string>>, x: string)
    ensures var raw := Flatten(findAll(html)); var r := EmbeddedSources(Some(html), findAll);
      NoDuplicates(r)
      && (x in r <==> exists i :: 0 <= i < |raw| && x == Clean(raw[i]))
      && (forall i, j :: 0 <= i < j < |r| ==> FirstIndex(Map(Clean, raw), r[i]) < FirstIndex(Map(Clean, raw), r[j]))
      && (raw == [] ==> r == [])
  {
    var raw := Flatten(findAll(html));
    var cleaned := Map(Clean, raw);
    MapSpec(Clean, raw);
    DedupMembers(cleaned);
    DedupOrder(cleaned);
    if x in cleaned {
      var i :| 0 <= i < |raw| && cleaned[i] == x;
    }
  }

  /** A failed fetch gives the empty list. */
  lemma NoPageNoSources(findAll: string -> seq<seq<string>>)
    ensures EmbeddedSources(None, findAll) == []
  {
  }

  /** The membership-checked append loop: each candidate cleaned, kept
      when not already kept. */
  method CleanUnique(found: seq<string>) returns (cleanedUrls: seq<string>)
    ensures cleanedUrls == Dedup(Map(Clean, found))
  {
    cleanedUrls := [];
    for j := 0 to |found|
      invariant cleanedUrls == Dedup(Map(Clean, found[..j]))
    {
      var cleaned := Clean(found[j]);
      assert found[..j + 1][..j] == found[..j];
      assert Map(Clean, found[..j + 1]) == Map(Clean, found[..j]) + [cleaned];
      DedupMembers(Map(Clean, found[..j]));
      if cleaned !in cleanedUrls {
        cleanedUrls := cleanedUrls + [cleaned];
      }
    }
    assert found[..|found|] == found;
  }

  /** The `found_urls.extend` loop over the patterns' match lists. */
  method CollectFound(lists: seq<seq<string>>) returns (found: seq<string>)
    ensures found == Flatten(lists)
  {
    found := [];
    for i := 0 to |lists|
      invariant found == Flatten(lists[..i])
    {
      found := found + lists[i];
      assert lists[..i + 1][..i] == lists[..i];
    }
    assert lists[..|lists|] == lists;
  }

  /** `extract_embedded_video` after the fetch: collect, then clean and
      deduplicate when anything was found. */
  method ExtractEmbeddedVideo(page: Option<string>, findAll: string -> seq<seq<string>>)
    returns (sources: seq<string>)
    ensures sources == EmbeddedSources(page, findAll)
  {
    if page.None? {
      return [];
    }
    var found := CollectFound(findAll(page.value));
    sources := [];
    if found != [] {
      sources := CleanUnique(found);
    }
  }

  /** The ffmpeg command of `download_video_direct`: the source itself as
      `Referer`, stream copy, and the output path before `-y`. */
  function DirectCommand(videoUrl: string, outputPath: string): seq<string>
  {
    ["ffmpeg", "-user_agent", "Mozilla/5.0 (Macintosh; Intel Mac OS X 10_15_7) AppleWebKit/537.36",
     "-headers", "Referer: " + videoUrl, "-i", videoUrl, "-c", "copy",
     "-bsf:a", "aac_adtstoasc", outputPath, "-y", "-loglevel", "error", "-stats"]
  }

  /** `download_video_direct`: `check=True` turns a non-zero status into an
      exception and the bare `except` turns every exception into `False`. */
  function DirectSucceeded(run: ToolRun): (ok: bool)
  {
    match run
    case Raised => false
    case Exited(code) => code == 0
  }

  /** True exactly for exit status 0; a missing ffmpeg or any other status
      is `False`. The command reads the source and writes the given path. */
  lemma DirectResult(run: ToolRun, videoUrl: string, outputPath: string)
    ensures DirectSucceeded(run) <==> run == Exited(0)
    ensures var cmd := DirectCommand(videoUrl, outputPath);
      cmd[4] == "Referer: " + videoUrl && cmd[5] == "-i" && cmd[6] == videoUrl && cmd[11] == outputPath && cmd[12] == "-y"
  {
  }

  /** How `main` ends: a download succeeded, every method failed, or the
      uncaught `open -R` after a direct download raised. */
  datatype Outcome = Downloaded | Failed | Crashed

  /** The record of one run of `main`: the ffmpeg fallback attempted, if
      any (source and output path), and the outcome. */
  datatype MainRun = MainRun(direct: Option<(string, string)>, outcome: Outcome)

  /** The fallback of `main`. `ytdlpOk` is what `download_with_ytdlp`
      returned, `sources` what extraction returned, `token` the number drawn
      for the output name, `directRun` the ffmpeg outcome and `openRun` the
      outcome of the `open -R` that follows a direct download. */
  function Fallback(ytdlpOk: bool, sources: seq<string>, downloadsDir: string, token: nat,
                    directRun: ToolRun, openRun: ToolRun): MainRun
    requires 100000000 <= token <= 999999999
  {
    if ytdlpOk then MainRun(None, Downloaded)
    else if sources == [] then MainRun(None, Failed)
    else
      var output := PathJoin(downloadsDir, GenerateRandomFilename(token) + ".mp4");
      var outcome := if !DirectSucceeded(directRun) then Failed
                     else if openRun.Raised? then Crashed else Downloaded;
      MainRun(Some((sources[0], output)), outcome)
  }

  /** The fallback runs only after yt-dlp failed and only on the first
      source, writing a nine-digit `.mp4` name in the download folder; the
      run succeeds only through yt-dlp or that one attempt. */
  lemma FallbackOnlyFirstSource(ytdlpOk: bool, sources: seq<string>, downloadsDir: string, token: nat,
                                directRun: ToolRun, openRun: ToolRun)
    requires 100000000 <= token <= 999999999
    ensures var m := Fallback(ytdlpOk, sources, downloadsDir, token, directRun, openRun);
      (m.direct.Some? <==> !ytdlpOk && sources != [])
      && (m.direct.Some? ==> m.direct.value.0 == sources[0]
                             && m.direct.value.1 == PathJoin(downloadsDir, NatToDecimal(token) + ".mp4"))
      && (m.outcome == Downloaded <==> ytdlpOk || (sources != [] && directRun == Exited(0) && openRun.Exited?))
  {
    if !ytdlpOk && sources != [] {
      DirectResult(directRun, sources[0], "");
    }
  }

  /** `main` from the yt-dlp attempt on: the `success` flag, extraction,
      and one direct attempt on the first source. */
  method RunMain(ytdlpOk: bool, page: Option<string>, findAll: string -> seq<seq<string>>,
                 downloadsDir: string, token: nat, directRun: ToolRun, openRun: ToolRun)
    returns (m: MainRun)
    requires 100000000 <= token <= 999999999
    ensures m == Fallback(ytdlpOk, EmbeddedSources(page, findAll), downloadsDir, token, directRun, openRun)
  {
    var success := ytdlpOk;
    var direct: Option<(string, string)> := None;
    var crashed := false;
    if !success {
      var videoSources := ExtractEmbeddedVideo(page, findAll);
      if videoSources != [] {
        var randomName := GenerateRandomFilename(token);
        var outputPath := PathJoin(downloadsDir, randomName + ".mp4");
        direct := Some((videoSources[0], outputPath));
        if DirectSucceeded(directRun) {
          if openRun.Raised? {
            crashed := true;
          } else {
            success := true;
          }
        }
      }
    }
    m := MainRun(direct, if crashed then Crashed else if success then Downloaded else Failed);
  }
}

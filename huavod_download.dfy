/** The two download attempts of NoAd_huavod.py: `download_with_ytdlp`
    (command construction, the browser-cookie option, and the directory scan
    that decides success) and `download_with_ffmpeg` (command and success
    test). Exit statuses, the directory listing and the outcome of the
    `open -R` reveal call arrive as parameters. */
module HuavodDownload {
  import opened Wrappers
  import opened Text
  import opened Huavod
  import opened Paths

  const UserAgent: string := "Mozilla/5.0 (Macintosh; Intel Mac OS X 10_15_7) AppleWebKit/537.36"

  const CookieOption: string := "--cookies-from-browser"

  /** The browsers the cookie loop iterates over; it leaves after the first. */
  const CookieBrowsers: seq<string> := ["chrome", "firefox", "safari", "edge"]

  /** `video_url if video_url else url`: a missing or empty source URL falls
      back to the page URL. */
  function TargetUrl(url: string, videoUrl: Option<string>): string
  {
    if videoUrl.Some? && videoUrl.value != "" then videoUrl.value else url
  }

  /** The fixed part of the yt-dlp command, up to `--newline`. */
  function YtDlpBase(template: string, url: string): seq<string>
  {
    ["yt-dlp", "-f", "best", "--merge-output-format", "mp4", "-o", template,
     "--no-warnings", "--no-playlist", "--user-agent", UserAgent, "--referer", url,
     "--add-header", "Accept:*/*", "--add-header", "Accept-Language:zh-CN,zh;q=0.9",
     "--retries", "10", "--fragment-retries", "10", "--progress", "--newline"]
  }

  /** The whole yt-dlp command: the fixed part, the cookie option for the
      first listed browser when cookies are asked for, then the subtitle
      options and the target. */
  function YtDlpCommand(template: string, url: string, useCookies: bool, target: string): seq<string>
  {
    YtDlpBase(template, url)
    + (if useCookies then [CookieOption, CookieBrowsers[0]] else [])
    + ["--all-subs", "--embed-subs", target]
  }

  /** The cookie option appears exactly when cookies are asked for, and
      every occurrence names `chrome`: the loop never reaches the other
      browsers. The target is the last argument and the page URL follows
      `--referer`. (The hypotheses keep the caller's own strings from
      spelling the option.) */
  lemma CookieOnlyChrome(template: string, url: string, useCookies: bool, target: string)
    requires template != CookieOption && url != CookieOption && target != CookieOption
    ensures var cmd := YtDlpCommand(template, url, useCookies, target);
      (CookieOption in cmd <==> useCookies)
      && (forall i :: 0 <= i < |cmd| && cmd[i] == CookieOption ==> i + 1 < |cmd| && cmd[i + 1] == "chrome")
      && cmd[|cmd| - 1] == target && cmd[11] == "--referer" && cmd[12] == url
  {
    var cmd := YtDlpCommand(template, url, useCookies, target);
    var base := YtDlpBase(template, url);
    assert CookieOption !in base;
    assert forall i :: 0 <= i < |base| ==> cmd[i] == base[i];
    if useCookies {
      assert cmd[|base|] == CookieOption;
    }
  }

  /** The list built by `download_with_ytdlp`: the fixed part, then the
      cookie loop (which extends with the first browser and leaves), then
      the subtitle options and the target. */
  method BuildYtDlpCommand(template: string, url: string, useCookies: bool, target: string)
    returns (cmd: seq<string>)
    ensures cmd == YtDlpCommand(template, url, useCookies, target)
  {
    cmd := YtDlpBase(template, url);
    if useCookies {
      for k := 0 to |CookieBrowsers|
        invariant k == 0 && cmd == YtDlpBase(template, url)
      {
        cmd := cmd + [CookieOption, CookieBrowsers[k]];
        break;
      }
    }
    cmd := cmd + ["--all-subs", "--embed-subs", target];
  }

  /** The scan of `os.listdir(downloads_dir)`: the first entry whose name
      starts with the base name, if any. */
  method FindDownloaded(listing: seq<string>, baseName: string) returns (found: Option<nat>)
    ensures found.Some? ==>
      found.value < |listing| && StartsWith(listing[found.value], baseName)
      && forall j :: 0 <= j < found.value ==> !StartsWith(listing[j], baseName)
    ensures found.None? ==> forall j :: 0 <= j < |listing| ==> !StartsWith(listing[j], baseName)
  {
    var i := 0;
    while i < |listing|
      invariant 0 <= i <= |listing|
      invariant forall j :: 0 <= j < i ==> !StartsWith(listing[j], baseName)
    {
      if StartsWith(listing[i], baseName) {
        return Some(i);
      }
      i := i + 1;
    }
    return None;
  }

  /** The success test of `download_with_ytdlp`: yt-dlp exits with status 0,
      some entry of the download folder starts with the base name, and the
      reveal call on that entry does not raise. */
  predicate YtDlpSucceeded(run: ToolRun, listing: seq<string>, baseName: string, openRun: ToolRun)
  {
    run == Exited(0) && (exists j :: 0 <= j < |listing| && StartsWith(listing[j], baseName)) && openRun.Exited?
  }

  /** `download_with_ytdlp(url, video_url, use_cookies)`. `path` is the path
      component of `url`, `token` the value the random fallback of
      `generate_filename` would draw, `run` the outcome of the yt-dlp
      process, `listing` the download folder's entries afterwards and
      `openRun` the outcome of `open -R`. */
  method DownloadWithYtDlp(url: string, path: string, videoUrl: Option<string>, useCookies: bool,
                           downloadsDir: string, token: nat,
                           run: ToolRun, listing: seq<string>, openRun: ToolRun)
    returns (ok: bool, cmd: seq<string>)
    requires 100000000 <= token <= 999999999
    ensures cmd == YtDlpCommand(PathJoin(downloadsDir, GenerateFilename(path, token) + ".%(ext)s"),
                                url, useCookies, TargetUrl(url, videoUrl))
    ensures ok == YtDlpSucceeded(run, listing, GenerateFilename(path, token), openRun)
    ensures cmd[11] == "--referer" && cmd[12] == url
    ensures videoUrl.Some? && videoUrl.value != "" ==> cmd[|cmd| - 1] == videoUrl.value
    ensures videoUrl.None? || videoUrl.value == "" ==> cmd[|cmd| - 1] == url
  {
    var filename := GenerateFilename(path, token);
    var template := PathJoin(downloadsDir, filename + ".%(ext)s");
    var target := TargetUrl(url, videoUrl);
    cmd := BuildYtDlpCommand(template, url, useCookies, target);
    ok := false;
    if run.Exited? && run.code == 0 {
      var found := FindDownloaded(listing, filename);
      if found.Some? {
        ok := openRun.Exited?;
      }
    }
  }

  /** Success needs yt-dlp's exit status 0; a raised exception or any other
      status is a failure. */
  lemma YtDlpNeedsZeroExit(run: ToolRun, listing: seq<string>, baseName: string, openRun: ToolRun)
    ensures YtDlpSucceeded(run, listing, baseName, openRun) ==> run == Exited(0)
    ensures run.Raised? || openRun.Raised? || listing == [] ==> !YtDlpSucceeded(run, listing, baseName, openRun)
  {
  }

  /** With a path made only of slashes the base name is empty, so after a
      zero exit any entry at all in the download folder counts as the
      download. */
  lemma EmptyNameMatchesAnyFile(path: string, token: nat, listing: seq<string>, openRun: ToolRun)
    requires 100000000 <= token <= 999999999
    requires forall i :: 0 <= i < |path| ==> path[i] == '/'
    requires listing != [] && openRun.Exited?
    ensures YtDlpSucceeded(Exited(0), listing, GenerateFilename(path, token), openRun)
  {
    EmptyPathGivesEmptyName(path, token);
    assert StartsWith(listing[0], "");
  }

  /** The output file of `download_with_ffmpeg`. */
  function FfmpegOutput(downloadsDir: string, filename: string): string
  {
    PathJoin(downloadsDir, filename + ".mp4")
  }

  /** The ffmpeg command: the page URL as `Referer` header line, the source
      after `-i`, stream copy, and the output after `-y`. */
  function FfmpegCommand(videoUrl: string, url: string, output: string): seq<string>
  {
    ["ffmpeg", "-user_agent", UserAgent, "-headers", "Referer: " + url + "\r\n",
     "-i", videoUrl, "-c", "copy", "-bsf:a", "aac_adtstoasc", "-y", output,
     "-loglevel", "warning", "-stats"]
  }

  /** The success test of `download_with_ffmpeg`: exit status 0, the output
      file exists, and the reveal call does not raise. */
  predicate FfmpegSucceeded(run: ToolRun, outputExists: bool, openRun: ToolRun)
  {
    run == Exited(0) && outputExists && openRun.Exited?
  }

  /** `download_with_ffmpeg(video_url, url, filename)`. `run` is the
      outcome of the ffmpeg process, `outputExists` what `os.path.exists`
      answers afterwards and `openRun` the outcome of `open -R`; an exception
      from either process is caught and reads as a failure. */
  method DownloadWithFfmpeg(videoUrl: string, url: string, filename: string, downloadsDir: string,
                            run: ToolRun, outputExists: bool, openRun: ToolRun)
    returns (ok: bool, cmd: seq<string>)
    ensures cmd == FfmpegCommand(videoUrl, url, FfmpegOutput(downloadsDir, filename))
    ensures ok == FfmpegSucceeded(run, outputExists, openRun)
  {
    var outputPath := FfmpegOutput(downloadsDir, filename);
    cmd := FfmpegCommand(videoUrl, url, outputPath);
    ok := false;
    if run.Exited? && run.code == 0 && outputExists {
      ok := openRun.Exited?;
    }
  }

  /** Both attempts of `main` name their file after the page alone: the
      ffmpeg output is `<dir>/<name>.mp4` and the yt-dlp template
      `<dir>/<name>.%(ext)s`, with the same `name`, the sanitised last path
      segment without `.html`, whatever tokens the random fallback would
      draw. */
  lemma FfmpegOutputBesideYtDlp(dir: string, path: string, token1: nat, token2: nat)
    requires 100000000 <= token1 <= 999999999 && 100000000 <= token2 <= 999999999
    requires dir != [] && dir[|dir| - 1] != '/'
    ensures var name := Sanitize(ReplaceAll(LastSegment(path), ".html", ""));
      FfmpegOutput(dir, GenerateFilename(path, token1)) == dir + "/" + name + ".mp4"
      && PathJoin(dir, GenerateFilename(path, token2) + ".%(ext)s") == dir + "/" + name + ".%(ext)s"
  {
    var name := Sanitize(ReplaceAll(LastSegment(path), ".html", ""));
    GenerateFilenameIgnoresToken(path, token1);
    GenerateFilenameIgnoresToken(path, token2);
    JoinedWithExtension(dir, name, ".mp4");
    JoinedWithExtension(dir, name, ".%(ext)s");
  }

  /** A slash-free name with a slash-free extension, joined to a directory
      not ending in `/`, is one piece below that directory. */
  lemma JoinedWithExtension(dir: string, name: string, ext: string)
    requires dir != [] && dir[|dir| - 1] != '/'
    requires '/' !in name && '/' !in ext
    ensures PathJoin(dir, name + ext) == dir + "/" + name + ext
  {
    SlashFreeWithExtension(name, ext);
    PathJoinLastPiece(dir, name + ext);
  }

  /** A slash-free name with a slash-free extension stays slash-free. */
  lemma SlashFreeWithExtension(name: string, ext: string)
    requires '/' !in name && '/' !in ext
    ensures '/' !in name + ext
  {
    assert forall i :: 0 <= i < |name| ==> (name + ext)[i] == name[i];
    assert forall i :: |name| <= i < |name + ext| ==> (name + ext)[i] == ext[i - |name|];
  }
}

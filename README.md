# Video helper scripts: a verified model of their decision logic

This project models, in Dafny, the decision logic of four scripts:

- **NoAd_huavod.py** downloads a video from a huavod.top page. It has three methods:
  - yt-dlp on the page itself, optionally with browser cookies;
  - candidate stream links extracted from the page, each tried with yt-dlp and then with ffmpeg;
  - a link pasted by the operator, tried with yt-dlp and then with ffmpeg.
- **NoAd_Ou_Le.py** downloads in a simpler way. It tries yt-dlp. When that fails it extracts embedded links and runs ffmpeg on the first one only.
- **NoAd_Watch_YouTube_Online_V_1.py** is a local ad-free YouTube player. The model covers:
  - the reading of yt-dlp's search output into video records;
  - the duration and view-count texts;
  - the choice between MPV, IINA and the browser;
  - the rewriting of a YouTube address to the Invidious mirror.
- **mp4_to_iphone_format.py** converts a video with ffmpeg. The model covers:
  - the input-existence guard;
  - the output name derived with `pathlib` (`parent / (stem + "_iphone" + suffix)`);
  - the ffmpeg command;
  - the mapping of the exit status and exceptions to a boolean.

Everything the scripts learn from the outside world arrives as a parameter:

- the regular-expression engine is a function from a page body to each pattern's match list;
- `json.loads` is a function to an optional value;
- page fetches, process exit statuses and directory listings are values;
- operator answers are strings;
- `random.randint` is a number within its range.

Python's own string and number behaviour is written out in the modules `Text`, `Decimal`, `Sequences` and `Paths`. This covers `str.strip`, `str.split`, `str.replace`, `str(int)`, `int()`, `dict.fromkeys` and `os.path.join`.

Imperative parts of the scripts are `method`s proved equal to a specifying function. Their properties are proved about that function:

- the append loops of the extractors;
- the `success`-flag chain of `main`;
- the command list built by `extend`;
- the directory scan;
- the line loop of the search.

The random 9-digit fallback of `generate_filename` (NoAd_huavod.py:60) is unreachable: `''.split('/')` is `['']`, so the list of path parts is never empty. A path made only of slashes therefore gives the empty base name, as `Huavod.EmptyPathGivesEmptyName` states.

## Model

| member | source | states |
|---|---|---|
| Text.IndexOfSpec | NoAd_Watch_YouTube_Online_V_1.py:229 | The index found is where the first occurrence of the separator starts; none means the separator does not occur. |
| Text.StripSpec | NoAd_huavod.py:53 | `strip` removes exactly the longest leading run and the longest trailing run of the given characters and keeps what lies between them. |
| Text.StripEmptyIff | NoAd_huavod.py:279 | A stripped text is empty exactly when every character of the input is one of the stripped characters. |
| Text.JoinSplit | NoAd_huavod.py:53 | Joining the pieces of `split(c)` with `c` gives back the text. |
| Text.SplitJoin | NoAd_Watch_YouTube_Online_V_1.py:105 | Splitting a join of `c`-free pieces gives back the pieces. |
| Text.SplitLast | NoAd_huavod.py:53-56 | The last piece of a split is the slash-free tail after the text's last separator. |
| Text.ReplaceAllShrinks | NoAd_huavod.py:160 | Replacing a pattern with a text no longer than it never makes the text longer. |
| Text.ReplaceAllAbsent | NoAd_huavod.py:56 | Replacing a pattern that does not occur leaves the text unchanged. |
| Text.SplitFirst | NoAd_Watch_YouTube_Online_V_1.py:229 | `split(sep)[0]` is the text before the first separator, or the whole text, and holds no separator. |
| Text.SplitSecond | NoAd_Watch_YouTube_Online_V_1.py:229 | `split(sep)[1]` is the text between the first separator and the second, or up to the end when there is no second. |
| Text.PieceAfterFirst | NoAd_Watch_YouTube_Online_V_1.py:229 | `split(sep)[1].split(c)[0]` starts the text after the first separator, holds neither `c` nor the separator, and ends at the text's end, at a `c` or at the next separator. |
| Text.SplitSecondThenFirst | NoAd_Watch_YouTube_Online_V_1.py:229 | In `pre + sep + head + tail`, with the separator first occurring after `pre` and `tail` empty or starting with `c`, `split(sep)[1].split(c)[0]` is `head`. |
| Text.LowerAscii | NoAd_huavod.py:330 | Lower-casing keeps the length, turns each upper-case ASCII letter into its lower-case letter and changes no other character. |
| Text.LowerStrip | NoAd_huavod.py:330 | Lower-casing then stripping whitespace equals stripping then lower-casing. |
| Decimal.NatToDecimal | NoAd_Ou_Le.py:50 | `str(n)` is at least one digit, with no leading zero unless it is `0`. |
| Decimal.IntToDecimal | NoAd_Watch_YouTube_Online_V_1.py:173 | `str(i)` starts with `-` exactly when `i` is negative. |
| Decimal.DecimalRoundTrip | NoAd_Ou_Le.py:50 | The digits of `str(n)` read back as `n`. |
| Decimal.DecimalInjective | NoAd_Ou_Le.py:50 | Different numbers give different texts. |
| Decimal.NineDigitToken | NoAd_huavod.py:60 | A number in [100000000, 999999999] prints as exactly nine digits, the first not zero. |
| Decimal.Pad2 | NoAd_Watch_YouTube_Online_V_1.py:156-157 | `{n:02d}` for `n < 100` is two digits that read back as `n`. |
| Sequences.Dedup | NoAd_huavod.py:165 | `list(dict.fromkeys(s))` has no duplicates, holds only items of `s`, holds every item of `s` and is no longer than `s`. |
| Sequences.DedupMembers | NoAd_huavod.py:165 | An item is in the deduplicated list exactly when it is in the input. |
| Sequences.DedupOrder | NoAd_huavod.py:165 | The deduplicated list keeps the items in first-occurrence order. |
| Sequences.DedupOfDistinct | NoAd_huavod.py:165 | A list without duplicates is unchanged by deduplication. |
| Sequences.DedupIdempotent | NoAd_huavod.py:165 | Deduplicating twice equals deduplicating once. |
| Sequences.FlattenMembers | NoAd_Ou_Le.py:74-77 | An item is in the concatenation of the match lists exactly when some list holds it. |
| Sequences.FlatMapAppend | NoAd_huavod.py:149-162 | Collecting from two runs of matches is collecting from each in turn. |
| Sequences.FlatMapMembers | NoAd_huavod.py:149-162 | An item is collected exactly when some match contributes it. |
| Sequences.MapSpec | NoAd_Ou_Le.py:81-83 | Cleaning each candidate keeps the length, and position `i` holds the cleaned `i`-th candidate. |
| Candidates.Clean | NoAd_huavod.py:160 | A cleaned candidate neither starts nor ends with a quote character. |
| Candidates.CleanProperties | NoAd_Ou_Le.py:82-83 | Cleaning never lengthens a candidate. A candidate without backslashes and without surrounding quotes is left unchanged. |
| Paths.PathJoin | NoAd_huavod.py:182 | `os.path.join(a, b)`: an absolute `b` replaces `a`; otherwise the result starts with `a` and ends with `b`. |
| Paths.PathJoinLastPiece | NoAd_huavod.py:236 | Joining a slash-free name to a directory not ending in `/` adds exactly one slash, and the name is the last path piece. |
| Huavod.Sanitize | NoAd_huavod.py:57 | Every character outside `[\w-]` becomes exactly one `_` and every other stays in place, so the length is kept and only word characters and `-` remain. |
| Huavod.LastSegment | NoAd_huavod.py:53-56 | The last piece of the split is the slash-free tail of the stripped path, starting right after its last slash. |
| Huavod.GenerateFilename | NoAd_huavod.py:50-60 | `generate_filename` on the URL's path; its properties are stated by `GenerateFilenameIgnoresToken`, `EmptyPathGivesEmptyName` and `SlugPathName`. |
| Huavod.GenerateFilenameIgnoresToken | NoAd_huavod.py:52-60 | The random token is never used. The name is the sanitised last segment with `.html` removed, holds only word characters and `-`, and has that segment's length. |
| Huavod.EmptyPathGivesEmptyName | NoAd_huavod.py:53-58 | A path of slashes only, the empty path included, gives the empty name, never a random token. |
| Huavod.HtmlRemovalOnPlainSegment | NoAd_huavod.py:56 | A segment without a dot is unchanged by the `.html` removal. |
| Huavod.SlugPathName | NoAd_huavod.py:50-58 | A page path ending in `/<slug>.html`, with a slug of word characters and `-`, gives the name `<slug>`. |
| Huavod.PassGate | NoAd_huavod.py:106-120 | One fetch, or exactly two when the first page is a verification page; the body is that of the last fetch, and there is none when that fetch raised. |
| Huavod.PassGateAtMostTwoFetches | NoAd_huavod.py:106-120 | Only the first two fetches matter: oracles that agree on them give the same result. |
| Huavod.PassGateRetryScenarios | NoAd_huavod.py:113-120 | After a verification page the second body is used whatever it holds. |
| Huavod.Contribution | NoAd_huavod.py:152-162 | What one regular-expression match adds to the list; its meaning is stated by `ContributionMeaning`. |
| Huavod.ContributionMeaning | NoAd_huavod.py:151-162 | A match adds at most one item. A JSON-looking match adds exactly its parsed `url`, unfiltered. Any other match adds its cleaned form exactly when that starts with `http` and mentions `m3u8` or `mp4`. |
| Huavod.CollectAllIsFlatten | NoAd_huavod.py:149-151 | Collecting pattern by pattern equals collecting from the matches concatenated in pattern order. |
| Huavod.BadJsonSkipped | NoAd_huavod.py:152-158 | A JSON-looking match that does not parse contributes nothing, and the matches after it are still processed. |
| Huavod.CollectedIff | NoAd_huavod.py:151-162 | An item is collected exactly when some match contributes it. |
| Huavod.Extraction | NoAd_huavod.py:125-175 | The result of `extract_video_with_browser_cookies`; its properties are stated by `ExtractionProperties` and `CollectedIff`. |
| Huavod.ExtractionProperties | NoAd_huavod.py:149-175 | The result has no duplicates and holds exactly the contributed items, in first-occurrence order. A failed fetch gives `[]`. |
| Huavod.AppendContribution | NoAd_huavod.py:152-162 | One pass of the inner loop body appends exactly the match's contribution. |
| Huavod.CollectFromPattern | NoAd_huavod.py:151-162 | The inner loop appends the contributions of one pattern's matches, in match order. |
| Huavod.ExtractVideoSources | NoAd_huavod.py:125-167 | The nested loops and the dedup compute the specified extraction result. |
| HuavodDownload.CookieOnlyChrome | NoAd_huavod.py:189-214 | The cookie option appears exactly when cookies are asked for and always names `chrome`; the target is the last argument and the page URL follows `--referer`. |
| HuavodDownload.BuildYtDlpCommand | NoAd_huavod.py:189-214 | The list built with `extend` and the `break`ing browser loop is the specified command. |
| HuavodDownload.FindDownloaded | NoAd_huavod.py:219-220 | The scan finds the first entry starting with the base name, or reports that no entry does. |
| HuavodDownload.YtDlpSucceeded | NoAd_huavod.py:216-231 | When a yt-dlp attempt succeeds; stated by `YtDlpNeedsZeroExit` and `EmptyNameMatchesAnyFile`. |
| HuavodDownload.DownloadWithYtDlp | NoAd_huavod.py:177-231 | The command uses the derived output template. Its last argument is the given non-empty source URL, or the page URL when none is given, and the page URL follows `--referer`. Success is exit status 0, a matching entry in the folder, and a reveal call that does not raise. |
| HuavodDownload.YtDlpNeedsZeroExit | NoAd_huavod.py:216-231 | Success needs exit status 0; an exception, a raising reveal call or an empty folder is a failure. |
| HuavodDownload.EmptyNameMatchesAnyFile | NoAd_huavod.py:218-225 | With an empty base name, any file in the folder counts as the download after a zero exit. |
| HuavodDownload.FfmpegSucceeded | NoAd_huavod.py:254-264 | When an ffmpeg attempt succeeds: exit status 0, the output existing, and a reveal call that does not raise. |
| HuavodDownload.DownloadWithFfmpeg | NoAd_huavod.py:233-264 | `download_with_ffmpeg` runs the specified command on `<dir>/<filename>.mp4`, and succeeds exactly as `FfmpegSucceeded` says. |
| HuavodDownload.FfmpegOutputBesideYtDlp | NoAd_huavod.py:233-236 | The ffmpeg output `<dir>/<name>.mp4` and the yt-dlp template `<dir>/<name>.%(ext)s` of line 182 share one base name, the sanitised last path segment, whatever random tokens are drawn. |
| HuavodMain.UseCookies | NoAd_huavod.py:330-331 | Cookies are used exactly when the answer, stripped of whitespace, is `y` or `Y`. |
| HuavodMain.Chain | NoAd_huavod.py:286-374 | The strategy chain of `main` as a plan run until the first success; stated by `RunPlanSpec` and the ordering lemmas below. |
| HuavodMain.RunPlanSpec | NoAd_huavod.py:324-374 | Running the plan takes a prefix of its steps. No step before the last succeeded; the run succeeded exactly when its last step did; a failed run took every step. |
| HuavodMain.PlanShape | NoAd_huavod.py:333-374 | The plan is method 1, extraction, yt-dlp then ffmpeg for each source in order, the prompt, then yt-dlp and ffmpeg on the operator's link. |
| HuavodMain.ManualSource | NoAd_huavod.py:279-284 | The operator's link is the stripped answer, and it is absent exactly when the answer is only whitespace. |
| HuavodMain.TrySources | NoAd_huavod.py:352-361 | The candidate loop with its `break`s runs exactly its part of the plan. |
| HuavodMain.ManualStage | NoAd_huavod.py:365-374 | The manual stage runs the prompt, then yt-dlp and ffmpeg on a non-empty link, as the plan says. |
| HuavodMain.AfterMethod1 | NoAd_huavod.py:341-374 | Methods 2 and 3 run the plan's steps after method 1. |
| HuavodMain.RunStrategies | NoAd_huavod.py:324-374 | The flag-and-break code of `main` equals running the plan until the first success. |
| HuavodMain.Method1First | NoAd_huavod.py:333-339 | Method 1 runs first and only once, and its success ends the run. |
| HuavodMain.ExtractIffMethod1Failed | NoAd_huavod.py:341-344 | Extraction runs exactly when method 1 failed. |
| HuavodMain.SourcesInOrder | NoAd_huavod.py:352-361 | Candidates are tried in order, each with yt-dlp and then ffmpeg. |
| HuavodMain.FfmpegAfterYtDlpFailed | NoAd_huavod.py:355-361 | ffmpeg on a candidate runs only after yt-dlp on it failed. |
| HuavodMain.PromptOnlyWhenAllFailed | NoAd_huavod.py:363-365 | The prompt comes only after method 1 and every candidate attempt failed. |
| HuavodMain.PromptWhenAllFailed | NoAd_huavod.py:363-365 | When method 1 and every candidate attempt failed, the prompt comes. |
| HuavodMain.ManualAfterPrompt | NoAd_huavod.py:367-371 | On an operator's link, yt-dlp runs right after the prompt. |
| HuavodMain.ManualFfmpegAfterYtDlpFailed | NoAd_huavod.py:371-374 | On an operator's link, ffmpeg runs last and only after yt-dlp on it failed. |
| OuLe.GenerateRandomFilename | NoAd_Ou_Le.py:48-50 | The name is nine digits, the first not zero, reading back as the drawn number. |
| OuLe.EmbeddedSources | NoAd_Ou_Le.py:52-91 | The result of `extract_embedded_video`; its properties are stated by `EmbeddedSourcesProperties` and `NoPageNoSources`. |
| OuLe.EmbeddedSourcesProperties | NoAd_Ou_Le.py:74-86 | No candidate is rejected: the result holds exactly the cleaned matches, without duplicates, in first-occurrence order. No match gives `[]`. |
| OuLe.NoPageNoSources | NoAd_Ou_Le.py:88-91 | A fetch or decode exception gives `[]`. |
| OuLe.CleanUnique | NoAd_Ou_Le.py:79-86 | The membership-checked append loop computes the deduplicated cleaned candidates. |
| OuLe.CollectFound | NoAd_Ou_Le.py:74-77 | The `extend` loop concatenates the match lists in pattern order. |
| OuLe.ExtractEmbeddedVideo | NoAd_Ou_Le.py:52-91 | The extractor computes the specified embedded-source list. |
| OuLe.DirectSucceeded | NoAd_Ou_Le.py:108-112 | When `download_video_direct` answers True; stated by `DirectResult`. |
| OuLe.DirectResult | NoAd_Ou_Le.py:93-112 | `download_video_direct` is true exactly for exit status 0. The command sends the source as `Referer`, reads it after `-i` and writes the given path before `-y`. |
| OuLe.Fallback | NoAd_Ou_Le.py:196-211 | The fallback of `main`; stated by `FallbackOnlyFirstSource`. |
| OuLe.FallbackOnlyFirstSource | NoAd_Ou_Le.py:196-210 | The fallback runs only after yt-dlp failed and there is a source. It tries only the first source, writing a nine-digit `.mp4` name in the download folder. Success comes only from yt-dlp or that attempt. |
| OuLe.RunMain | NoAd_Ou_Le.py:196-211 | `main`'s step-by-step `success` updates compute the specified fallback. |
| PlayerFormat.Truncate | NoAd_Watch_YouTube_Online_V_1.py:151 | `int()` of a float truncates toward zero. |
| PlayerFormat.ParseIntRoundTrip | NoAd_Watch_YouTube_Online_V_1.py:151 | `int(str(i)) == i`. |
| PlayerFormat.ClockText | NoAd_Watch_YouTube_Online_V_1.py:152-157 | The clock text of a whole number of seconds; stated by `ClockTextReadsBack` and `NegativeClockWraps`. |
| PlayerFormat.ClockTextReadsBack | NoAd_Watch_YouTube_Online_V_1.py:151-157 | For a count that is not negative, the text has three colon-separated fields from one hour on and two below. Every field is digits; later fields are two digits below 60; the fields read back as the count. |
| PlayerFormat.NegativeClockWraps | NoAd_Watch_YouTube_Online_V_1.py:152-157 | A negative count is shown as its remainder modulo an hour. |
| PlayerFormat.FormatDuration | NoAd_Watch_YouTube_Online_V_1.py:146-159 | `format_duration`; stated by `FormatDurationUnknownIff` and, through `ClockText`, `ClockTextReadsBack`. |
| PlayerFormat.FormatDurationUnknownIff | NoAd_Watch_YouTube_Online_V_1.py:146-159 | `Unknown` exactly for a false value or one `int()` rejects. |
| PlayerFormat.ViewsScale | NoAd_Watch_YouTube_Online_V_1.py:167-173 | No suffix below 1000; otherwise the largest of K, M, B not above the count, with B exactly from a billion up. |
| PlayerFormat.FormatViewsAmount | NoAd_Watch_YouTube_Online_V_1.py:166-173 | A count below 1000 is shown exactly. From 1000 up the amount shown times its unit is the count; the amount is at least 1, and below 1000 under a billion. |
| PlayerFormat.FormatViews | NoAd_Watch_YouTube_Online_V_1.py:161-175 | `format_views`; stated by `ViewsScale`, `FormatViewsAmount` and `FormatViewsUnknownIff`. |
| PlayerFormat.FormatViewsUnknownIff | NoAd_Watch_YouTube_Online_V_1.py:161-175 | `Unknown views` exactly for a false value or one `int()` rejects. |
| PlayerWeb.Utf8RoundTrip | NoAd_Watch_YouTube_Online_V_1.py:237 | The UTF-8 bytes `quote` escapes are well formed and decode back to the character. |
| PlayerWeb.Quote | NoAd_Watch_YouTube_Online_V_1.py:237 | `urllib.parse.quote` with its default safe `/`; stated by `QuoteAlphabet`, `QuoteKeepsOnlySafe`, `QuoteIdentityIff` and `Utf8RoundTrip`. |
| PlayerWeb.QuoteAlphabet | NoAd_Watch_YouTube_Online_V_1.py:237-238 | The quoted text holds only unreserved characters, `/` and `%`, so no `&`, `?`, `#`, `=`, `+` or space. |
| PlayerWeb.QuoteKeepsOnlySafe | NoAd_Watch_YouTube_Online_V_1.py:237 | Quoting never shortens; a text of safe characters is unchanged, and any other text grows. |
| PlayerWeb.QuoteIdentityIff | NoAd_Watch_YouTube_Online_V_1.py:237 | Quoting leaves a text unchanged exactly when it holds only safe characters. |
| PlayerWeb.WebUrl | NoAd_Watch_YouTube_Online_V_1.py:225-238 | The address `_play_web` opens; stated by the lemmas below. |
| PlayerWeb.WatchIdFromQuery | NoAd_Watch_YouTube_Online_V_1.py:228-230 | A URL with `watch?v=` opens an Invidious watch page whose id starts the text after the first `watch?v=`, holds no `&` and no `watch?v=`, and ends at the text's end, at an `&` or at the next `watch?v=`. |
| PlayerWeb.ShortIdFromQuery | NoAd_Watch_YouTube_Online_V_1.py:231-233 | A URL with `youtu.be/` and no `watch?v=` opens an Invidious watch page whose id starts the text after the first `youtu.be/`, holds no `?` and no `youtu.be/`, and ends at the text's end, at a `?` or at the next `youtu.be/`. |
| PlayerWeb.OtherUrlUnchanged | NoAd_Watch_YouTube_Online_V_1.py:227-235 | Any other `http` address is opened unchanged. |
| PlayerWeb.WatchUrlRewritten | NoAd_Watch_YouTube_Online_V_1.py:228-230 | `...watch?v=ID&...` opens `https://yewtu.be/watch?v=ID`, for every id without `&` or `watch?v=` and whatever the rest of the address holds. |
| PlayerWeb.ShortUrlRewritten | NoAd_Watch_YouTube_Online_V_1.py:231-233 | `...youtu.be/ID?...` without `watch?v=` opens `https://yewtu.be/watch?v=ID`, for every id without `?` or `youtu.be/` and whatever the rest of the address holds. |
| PlayerWeb.SearchTextQuoted | NoAd_Watch_YouTube_Online_V_1.py:236-238 | A search text opens the Invidious search page with the quoted text as the whole parameter. |
| PlayerWeb.PlayVideo | NoAd_Watch_YouTube_Online_V_1.py:177-207 | `play_video`; stated by `WebWhenNotUrl`, `DesktopNeedsTools`, `ExplicitChoiceMissing` and `AutoPreference`. |
| PlayerWeb.WebWhenNotUrl | NoAd_Watch_YouTube_Online_V_1.py:185-194 | A non-URL query or the `web` choice opens the browser, whatever tools are installed. |
| PlayerWeb.DesktopNeedsTools | NoAd_Watch_YouTube_Online_V_1.py:195-202 | MPV or IINA is launched only for a URL, only with that player and yt-dlp installed, and is given the query itself. |
| PlayerWeb.ExplicitChoiceMissing | NoAd_Watch_YouTube_Online_V_1.py:195-202 | Choosing `mpv` or `iina` without it or yt-dlp refuses with the fixed message. |
| PlayerWeb.AutoPreference | NoAd_Watch_YouTube_Online_V_1.py:195-204 | `auto` on a URL picks MPV, then IINA, then the browser, each desktop player exactly when it and yt-dlp are installed. |
| PlayerSearch.ParseLine | NoAd_Watch_YouTube_Online_V_1.py:108-122 | What one output line gives; stated through `ParseLinesAborts` and `ParseLinesVideos`. |
| PlayerSearch.ParseLines | NoAd_Watch_YouTube_Online_V_1.py:104-122 | The parse of the output lines; stated by `AbortSticks`, `ParseLinesAborts` and `ParseLinesVideos`. |
| PlayerSearch.SearchOutcome | NoAd_Watch_YouTube_Online_V_1.py:67-144 | The answer of `search_youtube`; stated by `SearchFoundVideos`, `SearchSuccessIff` and `EmptyOutputNoVideos`. |
| PlayerSearch.AbortSticks | NoAd_Watch_YouTube_Online_V_1.py:108-144 | A line decoding to a non-object ends the search with its error, whatever follows. |
| PlayerSearch.ParseSearchOutput | NoAd_Watch_YouTube_Online_V_1.py:104-122 | The line loop computes the specified parse of the stripped, split output. |
| PlayerSearch.SearchYoutube | NoAd_Watch_YouTube_Online_V_1.py:67-144 | `search_youtube` gives the specified answer for each tool availability and run outcome, and runs `ytsearch12:` for the query exactly when yt-dlp is installed. |
| PlayerSearch.ParseLinesAborts | NoAd_Watch_YouTube_Online_V_1.py:104-122 | Parsing aborts exactly when some line decodes to a JSON value that is not an object. |
| PlayerSearch.ParseLinesVideos | NoAd_Watch_YouTube_Online_V_1.py:104-122 | When parsing does not abort, the videos are those of the object lines, in line order; empty and undecodable lines add nothing. |
| PlayerSearch.SearchFoundVideos | NoAd_Watch_YouTube_Online_V_1.py:104-131 | A success follows a zero exit and has videos. Each video comes from an object line and carries `https://youtube.com/watch?v=` plus its id. |
| PlayerSearch.SearchSuccessIff | NoAd_Watch_YouTube_Online_V_1.py:96-131 | Success exactly when yt-dlp is installed and exits 0, and some line decodes to an object while none decodes to another value. |
| PlayerSearch.EmptyOutputNoVideos | NoAd_Watch_YouTube_Online_V_1.py:105-131 | Blank output gives `No videos found`. |
| IphoneConvert.LastDotSpec | mp4_to_iphone_format.py:22 | `rfind('.')` finds a dot with no dot after it, and none means there is no dot. |
| IphoneConvert.ParseRoundTrip | mp4_to_iphone_format.py:21-22 | `Path(str(p)) == p` for every well-formed path. |
| IphoneConvert.Stem | mp4_to_iphone_format.py:22 | `PurePath.stem`; stated by `StemSuffix`. |
| IphoneConvert.Suffix | mp4_to_iphone_format.py:22 | `PurePath.suffix`; stated by `StemSuffix`, `SuffixKept` and `TrailingDotGainsSuffix`. |
| IphoneConvert.StemSuffix | mp4_to_iphone_format.py:22 | A name is its stem followed by its suffix. |
| IphoneConvert.SuffixKept | mp4_to_iphone_format.py:22 | The new name keeps the input's suffix when it has one or has no dot. |
| IphoneConvert.TrailingDotGainsSuffix | mp4_to_iphone_format.py:22 | A name `w.` with `w` non-empty has no suffix and is its own stem, and the derived name `w._iphone` gains the suffix `._iphone`. |
| IphoneConvert.DerivedOutput | mp4_to_iphone_format.py:20-22 | The output path derived when none is given; stated by `DerivedOutputPlacement`. |
| IphoneConvert.DerivedOutputPlacement | mp4_to_iphone_format.py:20-22 | The derived output lies in the input's directory, is named stem + `_iphone` + suffix, and never has the input's name. |
| IphoneConvert.ConvertToIphone | mp4_to_iphone_format.py:6-73 | `convert_to_iphone_format`; stated by `ConversionContract`. |
| IphoneConvert.ConversionContract | mp4_to_iphone_format.py:14-73 | A missing input builds no command and gives False. The command reads the input after `-i` and ends with `-y` and the output, a given output being used unchanged. The answer is True exactly for exit status 0; any other status or an exception gives False. |

## Left out

- Input and output are not modelled: network fetches, subprocesses, the filesystem, `input()`, printing, `time.sleep`. Their results are parameters.
- The HTTP server of the player is not part of this model: its request handlers, the HTML page, its `main`, and the dependency checks and installers.
- `get_download_folder` is not part of this model; the download folder is a parameter.
- The regular-expression engine is not modelled. Each pattern's match list is given, so the patterns' texts and flags are not checked.
- JSON decoding is not modelled; `json.loads` is a parameter.
- The UTF-8 and GBK decoding of page bodies is not modelled.
- `urlparse` is not modelled: `Huavod.GenerateFilename` takes the URL's path component.
- Huavod.Sanitize: `\w` is taken as ASCII letters, digits and `_`. Python's Unicode-aware class would also keep non-ASCII letters and digits.
- Huavod.Contribution: a JSON object's `url` member is taken as a string, and any other `url` value is folded into the parser returning no URL. In the script, a `null` or numeric `url` makes `src[:80]` (NoAd_huavod.py:348) raise outside any `try`, which ends `main`. A list or object `url` makes `dict.fromkeys` (NoAd_huavod.py:165) raise; the `except` then returns `[]`, and every source is lost.
- PlayerFormat.FormatViews: the `.1f` text of the amount is the parameter `fixed1`. So the rounding that can print `1000.0K` for 999999 views is not captured. `FormatViewsAmount` states the exact amount before formatting.
- PlayerFormat.JsonValue: floats are exact reals. NaN and infinities, which `int()` rejects, are not represented.
- PlayerFormat.ParseIntText: `int()` of a string accepts only ASCII digits here. Underscores between digits and non-ASCII digits, which Python also accepts, are not modelled.
- PlayerSearch.Shown: `str()` of a non-string id, title or author is the parameter `display`.
- OuLe.Fallback: `download_with_ytdlp` of NoAd_Ou_Le.py enters as its boolean result. Its random name, its `--get-filename` step and its file scan are not modelled.
- PlayerWeb.PlayVideo: among exceptions, only those raised by launching the player or the browser are modelled (the parameter `launchError`).
- IphoneConvert.SuffixKept: holds only when the name has a suffix or no dot. A name ending in a dot gains the suffix `._iphone`, as `TrailingDotGainsSuffix` shows.
- IphoneConvert.Suffix: follows `pathlib`'s rule up to Python 3.13: the last dot starts a suffix only when it is neither the first nor the last character. Later Python versions may treat a trailing dot differently.
- PlayerFormat.ClockTextReadsBack: holds for counts that are not negative. A negative count shows as its remainder modulo an hour (`NegativeClockWraps`).
- Paths and IphoneConvert follow POSIX path rules only. Windows paths are not modelled.

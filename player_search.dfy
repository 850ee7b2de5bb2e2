/** `search_youtube` of NoAd_Watch_YouTube_Online_V_1.py: the yt-dlp search
    command, the line-by-line reading of its JSON output into video records,
    and the success or failure answer. JSON decoding, Python's `str` of
    non-string values and the `.1f` float text are parameters. */
module PlayerSearch {
  import opened Wrappers
  import opened Text
  import opened Sequences
  import opened PlayerFormat

  /** How yt-dlp's search run ended: with an exit status and its captured
      output, past the 15-second timeout, or with an exception (its
      message). */
  datatype SearchRun = Completed(code: int, stdout: string, stderr: string) | TimedOut | Errored(message: string)

  /** The external decoders: `json.loads` (`None` for a `JSONDecodeError`),
      `str` of a non-string value, and the `.1f` text of a float. */
  datatype Decoders = Decoders(parse: string -> Option<JsonValue>, display: JsonValue -> string, fixed1: real -> string)

  /** One entry of the `videos` list. */
  datatype Video = Video(id: JsonValue, title: JsonValue, author: JsonValue, duration: string,
                         views: string, thumbnail: JsonValue, url: string)

  /** The answer: `success: True` with the videos, or `success: False` with
      a message (and no videos). */
  datatype SearchResult = Found(videos: seq<Video>) | SearchFailed(message: string)

  const NotInstalledMessage: string := "yt-dlp not installed. Install with: brew install yt-dlp"
  const TimedOutMessage: string := "Search timed out. Try again."
  const NoVideosMessage: string := "No videos found"
  const WatchPrefix: string := "https://youtube.com/watch?v="

  /** The search command: twelve results of `ytsearch12:` for the query,
      one JSON line each. */
  function SearchCommand(query: string): seq<string>
  {
    ["yt-dlp", "--dump-json", "--no-playlist", "--flat-playlist", "ytsearch12:" + query]
  }

  /** `dict.get(key, default)` */
  function Get(fields: map<string, JsonValue>, key: string, default: JsonValue): JsonValue
  {
    if key in fields then fields[key] else default
  }

  /** A value inside an f-string: a string as it is, anything else as `str`
      renders it. */
  function Shown(v: JsonValue, display: JsonValue -> string): string
  {
    if v.JString? then v.s else display(v)
  }

  /** The record built from one decoded object. */
  function VideoOf(fields: map<string, JsonValue>, dec: Decoders): Video
  {
    var id := Get(fields, "id", JString(""));
    var idText := Shown(id, dec.display);
    Video(id,
          Get(fields, "title", JString("Unknown Title")),
          Get(fields, "uploader", Get(fields, "channel", JString("Unknown Author"))),
          FormatDuration(Get(fields, "duration", JInt(0))),
          FormatViews(Get(fields, "view_count", JInt(0)), dec.fixed1),
          Get(fields, "thumbnail", JString("https://i.ytimg.com/vi/" + idText + "/mqdefault.jpg")),
          WatchPrefix + idText)
  }

  /** Python's type name of a decoded value that is not an object. */
  function TypeName(v: JsonValue): string
  {
    match v
    case JNull => "NoneType"
    case JBool(_) => "bool"
    case JInt(_) => "int"
    case JFloat(_) => "float"
    case JString(_) => "str"
    case JArray(_) => "list"
    case JObject(_) => "dict"
  }

  /** What one output line does: nothing (empty, or not JSON), add a video,
      or raise `AttributeError` because the decoded value has no `.get`. */
  datatype LineOutcome = Skipped | Entry(video: Video) | NotAnObject(typeName: string)

  function ParseLine(line: string, dec: Decoders): LineOutcome
  {
    if line == "" then Skipped
    else
      match dec.parse(line)
      case None => Skipped
      case Some(v) => if v.JObject? then Entry(VideoOf(v.fields, dec)) else NotAnObject(TypeName(v))
  }

  /** `str(e)` of the `AttributeError`. */
  function AttributeMessage(typeName: string): string
  {
    "'" + typeName + "' object has no attribute 'get'"
  }

  /** The loop's outcome: the videos gathered, or the message of the first
      `AttributeError`, which ends the search. */
  datatype Parsed = Videos(videos: seq<Video>) | Aborted(message: string)

  function ParseLines(lines: seq<string>, dec: Decoders): Parsed
  {
    if lines == [] then Videos([])
    else
      match ParseLines(lines[..|lines| - 1], dec)
      case Aborted(m) => Aborted(m)
      case Videos(vs) =>
        match ParseLine(lines[|lines| - 1], dec)
        case Skipped => Videos(vs)
        case Entry(v) => Videos(vs + [v])
        case NotAnObject(t) => Aborted(AttributeMessage(t))
  }

  /** `result.stdout.strip().split('\n')` */
  function OutputLines(stdout: string): seq<string>
  {
    Split(Strip(stdout, Whitespace), '\n')
  }

  /** Once a prefix of the lines aborts, the whole run aborts with the same
      message. */
  lemma {:induction false} AbortSticks(lines: seq<string>, k: nat, dec: Decoders)
    requires k <= |lines| && ParseLines(lines[..k], dec).Aborted?
    ensures ParseLines(lines, dec) == ParseLines(lines[..k], dec)
    decreases |lines| - k
  {
    if k < |lines| {
      assert lines[..k + 1][..k] == lines[..k];
      AbortSticks(lines, k + 1, dec);
    } else {
      assert lines[..k] == lines;
    }
  }

  /** One more line, after a prefix that has not aborted. */
  lemma ParseLinesStep(lines: seq<string>, i: nat, dec: Decoders)
    requires i < |lines| && ParseLines(lines[..i], dec).Videos?
    ensures ParseLines(lines[..i + 1], dec) ==
      match ParseLine(lines[i], dec)
      case Skipped => ParseLines(lines[..i], dec)
      case Entry(v) => Videos(ParseLines(lines[..i], dec).videos + [v])
      case NotAnObject(t) => Aborted(AttributeMessage(t))
  {
    assert lines[..i + 1][..i] == lines[..i];
  }

  /** The parse loop over the output lines. */
  method ParseSearchOutput(stdout: string, dec: Decoders) returns (parsed: Parsed)
    ensures parsed == ParseLines(OutputLines(stdout), dec)
  {
    var lines := OutputLines(stdout);
    var videos: seq<Video> := [];
    for i := 0 to |lines|
      invariant ParseLines(lines[..i], dec) == Videos(videos)
    {
      ParseLinesStep(lines, i, dec);
      var outcome := ParseLine(lines[i], dec);
      match outcome {
        case Skipped =>
        case Entry(v) =>
          videos := videos + [v];
        case NotAnObject(t) =>
          AbortSticks(lines, i + 1, dec);
          return Aborted(AttributeMessage(t));
      }
    }
    assert lines[..|lines|] == lines;
    return Videos(videos);
  }

  /** The answer of `search_youtube` for the given tool availability and
      run. */
  function SearchOutcome(hasYtDlp: bool, run: SearchRun, dec: Decoders): SearchResult
  {
    if !hasYtDlp then SearchFailed(NotInstalledMessage)
    else
      match run
      case TimedOut => SearchFailed(TimedOutMessage)
      case Errored(m) => SearchFailed(m)
      case Completed(code, stdout, stderr) =>
        if code != 0 then SearchFailed("Search failed: " + stderr)
        else
          match ParseLines(OutputLines(stdout), dec)
          case Aborted(m) => SearchFailed(m)
          case Videos(vs) => if vs != [] then Found(vs) else SearchFailed(NoVideosMessage)
  }

  /** `search_youtube(query)`. `hasYtDlp` is what `shutil.which` answers
      and `run` the outcome of the process; `ran` is the command started,
      none when yt-dlp is missing. */
  method SearchYoutube(query: string, hasYtDlp: bool, run: SearchRun, dec: Decoders)
    returns (result: SearchResult, ran: Option<seq<string>>)
    ensures result == SearchOutcome(hasYtDlp, run, dec)
    ensures ran == if hasYtDlp then Some(SearchCommand(query)) else None
  {
    if !hasYtDlp {
      return SearchFailed(NotInstalledMessage), None;
    }
    ran := Some(SearchCommand(query));
    match run {
      case TimedOut =>
        result := SearchFailed(TimedOutMessage);
      case Errored(m) =>
        result := SearchFailed(m);
      case Completed(code, stdout, stderr) =>
        if code != 0 {
          result := SearchFailed("Search failed: " + stderr);
          return;
        }
        var parsed := ParseSearchOutput(stdout, dec);
        if parsed.Aborted? {
          result := SearchFailed(parsed.message);
        } else if parsed.videos != [] {
          result := Found(parsed.videos);
        } else {
          result := SearchFailed(NoVideosMessage);
        }
    }
  }

  /** The videos a line contributes: one for an object, none otherwise. */
  function LineVideos(dec: Decoders): string -> seq<Video>
  {
    line => if ParseLine(line, dec).Entry? then [ParseLine(line, dec).video] else []
  }

  /** The run aborts exactly when some line decodes to a value that is not
      an object. */
  lemma {:induction false} ParseLinesAborts(lines: seq<string>, dec: Decoders)
    ensures ParseLines(lines, dec).Aborted? <==>
      exists i :: 0 <= i < |lines| && ParseLine(lines[i], dec).NotAnObject?
  {
    if lines != [] {
      var p := lines[..|lines| - 1];
      ParseLinesAborts(p, dec);
      if exists i :: 0 <= i < |lines| && ParseLine(lines[i], dec).NotAnObject? {
        var i :| 0 <= i < |lines| && ParseLine(lines[i], dec).NotAnObject?;
        if i < |p| {
          assert ParseLine(p[i], dec).NotAnObject?;
        }
      }
      if exists i :: 0 <= i < |p| && ParseLine(p[i], dec).NotAnObject? {
        var i :| 0 <= i < |p| && ParseLine(p[i], dec).NotAnObject?;
        assert ParseLine(lines[i], dec).NotAnObject?;
      }
    }
  }

  /** When the run does not abort, the videos are those of the object lines,
      in line order, empty and undecodable lines contributing nothing. */
  lemma {:induction false} ParseLinesVideos(lines: seq<string>, dec: Decoders)
    ensures ParseLines(lines, dec).Videos? ==> ParseLines(lines, dec).videos == FlatMap(LineVideos(dec), lines)
  {
    if lines != [] {
      var p := lines[..|lines| - 1];
      var last := lines[|lines| - 1];
      ParseLinesVideos(p, dec);
      assert LineVideos(dec)(last) == (if ParseLine(last, dec).Entry? then [ParseLine(last, dec).video] else []);
    }
  }

  /** Every video found comes from an object line and carries the watch URL
      of its own id; a search succeeds only with at least one video, after a
      zero exit status. */
  lemma SearchFoundVideos(hasYtDlp: bool, run: SearchRun, dec: Decoders)
    ensures var r := SearchOutcome(hasYtDlp, run, dec);
      r.Found? ==>
        hasYtDlp && run.Completed? && run.code == 0 && r.videos != []
        && forall v :: v in r.videos ==>
             v.url == WatchPrefix + Shown(v.id, dec.display)
             && exists i :: 0 <= i < |OutputLines(run.stdout)| && ParseLine(OutputLines(run.stdout)[i], dec) == Entry(v)
  {
    var r := SearchOutcome(hasYtDlp, run, dec);
    if r.Found? {
      var lines := OutputLines(run.stdout);
      ParseLinesAborts(lines, dec);
      ParseLinesVideos(lines, dec);
      forall v | v in r.videos
        ensures v.url == WatchPrefix + Shown(v.id, dec.display)
        ensures exists i :: 0 <= i < |lines| && ParseLine(lines[i], dec) == Entry(v)
      {
        FlatMapMembers(LineVideos(dec), lines, v);
        var i :| 0 <= i < |lines| && v in LineVideos(dec)(lines[i]);
        assert ParseLine(lines[i], dec) == Entry(v);
      }
    }
  }

  /** A search succeeds exactly when yt-dlp is installed, exits with status
      0, and some output line decodes to an object while none decodes to
      another kind of value. */
  lemma SearchSuccessIff(hasYtDlp: bool, run: SearchRun, dec: Decoders)
    ensures SearchOutcome(hasYtDlp, run, dec).Found? <==>
      hasYtDlp && run.Completed? && run.code == 0
      && (exists i :: 0 <= i < |OutputLines(run.stdout)| && ParseLine(OutputLines(run.stdout)[i], dec).Entry?)
      && !(exists i :: 0 <= i < |OutputLines(run.stdout)| && ParseLine(OutputLines(run.stdout)[i], dec).NotAnObject?)
  {
    if hasYtDlp && run.Completed? && run.code == 0 {
      var lines := OutputLines(run.stdout);
      ParseLinesAborts(lines, dec);
      ParseLinesVideos(lines, dec);
      if exists i :: 0 <= i < |lines| && ParseLine(lines[i], dec).Entry? {
        var i :| 0 <= i < |lines| && ParseLine(lines[i], dec).Entry?;
        FlatMapMembers(LineVideos(dec), lines, ParseLine(lines[i], dec).video);
      }
      if ParseLines(lines, dec).Videos? && ParseLines(lines, dec).videos != [] {
        var v := ParseLines(lines, dec).videos[0];
        FlatMapMembers(LineVideos(dec), lines, v);
        var i :| 0 <= i < |lines| && v in LineVideos(dec)(lines[i]);
        assert ParseLine(lines[i], dec).Entry?;
      }
    }
  }

  /** An empty output, or one of blank lines only, is "No videos found". */
  lemma EmptyOutputNoVideos(run: SearchRun, dec: Decoders)
    requires run.Completed? && run.code == 0
    requires forall i :: 0 <= i < |run.stdout| ==> run.stdout[i] in Whitespace
    ensures SearchOutcome(true, run, dec) == SearchFailed(NoVideosMessage)
  {
    StripEmptyIff(run.stdout, Whitespace);
    assert Split("", '\n') == [""];
    assert OutputLines(run.stdout) == [""];
    assert [""][..0] == [];
    assert ParseLines([""], dec) == Videos([]);
  }
}

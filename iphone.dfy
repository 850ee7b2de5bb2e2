/** `convert_to_iphone_format` of mp4_to_iphone_format.py: the input
    guard, the output name derived with `pathlib` (`parent / (stem +
    "_iphone" + suffix)`), the ffmpeg command, and the mapping of its exit
    status and exceptions to a boolean. */
module IphoneConvert {
  import opened Wrappers
  import opened Text

  /** A POSIX `PurePath`: its root (`""`, `"/"`, or `"//"`, which POSIX keeps
      apart) and its components. */
  datatype PurePath = PurePath(root: string, parts: seq<string>)

  /** A component as `pathlib` keeps it: not empty, not `.`, no slash. */
  predicate IsPart(s: string)
  {
    s != "" && s != "." && '/' !in s
  }

  predicate WellFormed(p: PurePath)
  {
    (p.root == "" || p.root == "/" || p.root == "//")
    && forall i :: 0 <= i < |p.parts| ==> IsPart(p.parts[i])
  }

  /** The root of a path text: exactly two leading slashes stay `//`, any
      other number of them is `/`. */
  function RootOf(s: string): string
  {
    if StartsWith(s, "//") && !StartsWith(s, "///") then "//"
    else if StartsWith(s, "/") then "/"
    else ""
  }

  /** The pieces between slashes, without the empty ones and the `.` ones. */
  function Components(pieces: seq<string>): seq<string>
  {
    if pieces == [] then []
    else (if pieces[0] == "" || pieces[0] == "." then [] else [pieces[0]]) + Components(pieces[1..])
  }

  /** `Path(s)` */
  function ParsePath(s: string): PurePath
  {
    PurePath(RootOf(s), Components(Split(s, '/')))
  }

  /** `str(p)`: the root, then the components joined by slashes; `.` for
      the empty relative path. */
  function PathText(p: PurePath): string
  {
    if p.parts == [] then (if p.root == "" then "." else p.root)
    else p.root + Join(p.parts, '/')
  }

  /** `p.name`: the last component, empty when there is none. */
  function Name(p: PurePath): string
  {
    if p.parts == [] then "" else p.parts[|p.parts| - 1]
  }

  /** `p.parent`: the last component dropped; a path without components is
      its own parent. */
  function Parent(p: PurePath): PurePath
  {
    if p.parts == [] then p else PurePath(p.root, p.parts[..|p.parts| - 1])
  }

  /** `p / name` for a single component. */
  function Child(p: PurePath, name: string): PurePath
  {
    PurePath(p.root, p.parts + [name])
  }

  /** `name.rfind('.')` */
  function LastDot(s: string): Option<nat>
  {
    if s == [] then None
    else if s[|s| - 1] == '.' then Some(|s| - 1)
    else LastDot(s[..|s| - 1])
  }

  /** `LastDot` finds a dot with none after it; `None` means no dot. */
  lemma {:induction false} LastDotSpec(s: string)
    ensures var r := LastDot(s);
      (r.Some? ==> r.value < |s| && s[r.value] == '.' && forall j :: r.value < j < |s| ==> s[j] != '.')
      && (r.None? ==> '.' !in s)
  {
    if s != [] && s[|s| - 1] != '.' {
      var p := s[..|s| - 1];
      LastDotSpec(p);
      assert s == p + [s[|s| - 1]];
    }
  }

  /** A dot with no dot after it is the one `LastDot` finds. */
  lemma {:induction false} LastDotAt(s: string, k: nat)
    requires k < |s| && s[k] == '.' && forall j :: k < j < |s| ==> s[j] != '.'
    ensures LastDot(s) == Some(k)
    decreases |s|
  {
    if k < |s| - 1 {
      LastDotAt(s[..|s| - 1], k);
    }
  }

  /** `PurePath.suffix`: from the last dot on, when that dot is neither the
      first nor the last character. */
  function Suffix(name: string): string
  {
    match LastDot(name)
    case Some(i) => if 0 < i < |name| - 1 then name[i..] else ""
    case None => ""
  }

  /** `PurePath.stem`: the name without its suffix. */
  function Stem(name: string): string
  {
    match LastDot(name)
    case Some(i) => if 0 < i < |name| - 1 then name[..i] else name
    case None => name
  }

  /** The output path `convert_to_iphone_format` derives when none is
      given. */
  function DerivedOutput(input: string): string
  {
    var p := ParsePath(input);
    var name := Name(p);
    PathText(Child(Parent(p), Stem(name) + "_iphone" + Suffix(name)))
  }

  /** The components kept from slash-free pieces are components. */
  lemma {:induction false} ComponentsAreParts(pieces: seq<string>)
    requires forall k :: 0 <= k < |pieces| ==> '/' !in pieces[k]
    ensures forall i :: 0 <= i < |Components(pieces)| ==> IsPart(Components(pieces)[i])
  {
    if pieces != [] {
      ComponentsAreParts(pieces[1..]);
    }
  }

  /** Every parsed path is well formed. */
  lemma ParseWellFormed(s: string)
    ensures WellFormed(ParsePath(s))
  {
    ComponentsAreParts(Split(s, '/'));
  }

  /** Components are kept as they are. */
  lemma {:induction false} ComponentsOfParts(parts: seq<string>)
    requires forall i :: 0 <= i < |parts| ==> IsPart(parts[i])
    ensures Components(parts) == parts
  {
    if parts != [] {
      ComponentsOfParts(parts[1..]);
    }
  }

  /** The joined components begin with a character that is not a slash. */
  lemma JoinStart(parts: seq<string>)
    requires |parts| >= 1 && forall i :: 0 <= i < |parts| ==> IsPart(parts[i])
    ensures var t := Join(parts, '/'); |parts[0]| >= 1 && |t| >= 1 && t[0] == parts[0][0] && t[0] != '/'
  {
    assert IsPart(parts[0]);
  }

  /** Empty pieces in front are dropped. */
  lemma ComponentsSkipEmpty(rest: seq<string>)
    ensures Components([""] + rest) == Components(rest)
  {
    assert ([""] + rest)[1..] == rest;
  }

  /** A path without components prints as its root, or `.`, and reads back. */
  lemma ParseRoundTripBare(root: string)
    requires root == "" || root == "/" || root == "//"
    ensures ParsePath(PathText(PurePath(root, []))) == PurePath(root, [])
  {
    assert Split("", '/') == [""];
    if root == "" {
      SplitPlain(".", '/');
    } else if root == "/" {
      assert "/" == "" + ['/'] + "";
      SplitConcat("", "", '/');
      ComponentsSkipEmpty([""]);
    } else {
      assert "//" == "" + ['/'] + "/";
      SplitConcat("", "/", '/');
      assert "/" == "" + ['/'] + "";
      SplitConcat("", "", '/');
      ComponentsSkipEmpty([""]);
      ComponentsSkipEmpty(["", ""]);
    }
  }

  /** Joined components split back into the components. */
  lemma JoinedComponents(parts: seq<string>)
    requires |parts| >= 1 && forall i :: 0 <= i < |parts| ==> IsPart(parts[i])
    ensures Components(Split(Join(parts, '/'), '/')) == parts
  {
    SplitJoin(parts, '/');
    ComponentsOfParts(parts);
  }

  /** A leading slash adds only an empty piece, which is dropped. */
  lemma SlashComponents(t: string)
    ensures Components(Split("/" + t, '/')) == Components(Split(t, '/'))
  {
    assert "/" + t == "" + ['/'] + t;
    SplitConcat("", t, '/');
    ComponentsSkipEmpty(Split(t, '/'));
  }

  /** A text not starting with a slash, behind the root `r`, has the root
      `r`. */
  lemma RootBefore(t: string, r: string)
    requires t != [] && t[0] != '/'
    requires r == "" || r == "/" || r == "//"
    ensures RootOf(r + t) == r
  {
    assert (r + t)[|r|] == t[0];
  }

  /** A relative text whose pieces give `parts` reads back. */
  lemma RoundTripRelative(j: string, parts: seq<string>)
    requires j != [] && j[0] != '/' && Components(Split(j, '/')) == parts
    ensures ParsePath(j) == PurePath("", parts)
  {
    RootBefore(j, "");
    assert "" + j == j;
  }

  /** The same text after one slash reads back with the root `/`. */
  lemma RoundTripRooted(j: string, parts: seq<string>)
    requires j != [] && j[0] != '/' && Components(Split(j, '/')) == parts
    ensures ParsePath("/" + j) == PurePath("/", parts)
  {
    RootBefore(j, "/");
    SlashComponents(j);
  }

  /** The same text after two slashes reads back with the root `//`. */
  lemma RoundTripDoubleRooted(j: string, parts: seq<string>)
    requires j != [] && j[0] != '/' && Components(Split(j, '/')) == parts
    ensures ParsePath("//" + j) == PurePath("//", parts)
  {
    RootBefore(j, "//");
    assert "//" + j == "/" + ("/" + j);
    SlashComponents("/" + j);
    SlashComponents(j);
  }

  /** A path with components prints as root and joined components, and
      reads back. */
  lemma ParseRoundTripParts(p: PurePath)
    requires WellFormed(p) && p.parts != []
    ensures ParsePath(PathText(p)) == p
  {
    var j := Join(p.parts, '/');
    JoinStart(p.parts);
    JoinedComponents(p.parts);
    assert PathText(p) == p.root + j;
    if p.root == "" {
      RoundTripRelative(j, p.parts);
      assert "" + j == j;
    } else if p.root == "/" {
      RoundTripRooted(j, p.parts);
    } else {
      RoundTripDoubleRooted(j, p.parts);
    }
  }

  /** Reading back the text of a well-formed path gives the path:
      `Path(str(p)) == p`. */
  lemma ParseRoundTrip(p: PurePath)
    requires WellFormed(p)
    ensures ParsePath(PathText(p)) == p
  {
    if p.parts == [] {
      ParseRoundTripBare(p.root);
    } else {
      ParseRoundTripParts(p);
    }
  }

  /** The name splits into stem and suffix. */
  lemma StemSuffix(name: string)
    ensures Stem(name) + Suffix(name) == name
  {
    match LastDot(name)
    case Some(i) =>
      if 0 < i < |name| - 1 {
        assert name[..i] + name[i..] == name;
      }
    case None =>
  }

  /** The new name keeps the input's extension, whenever the input has one
      or has no dot at all. */
  lemma SuffixKept(name: string)
    requires Suffix(name) != "" || '.' !in name
    ensures Suffix(Stem(name) + "_iphone" + Suffix(name)) == Suffix(name)
  {
    LastDotSpec(name);
    var n := Stem(name) + "_iphone" + Suffix(name);
    if Suffix(name) == "" {
      assert n == name + "_iphone";
      LastDotSpec(n);
      if LastDot(n).Some? {
        assert n[LastDot(n).value] == '.';
        assert LastDot(n).value >= |name|;
        assert n[LastDot(n).value] == "_iphone"[LastDot(n).value - |name|];
      }
    } else {
      var i := LastDot(name).value;
      assert n == name[..i] + "_iphone" + name[i..];
      LastDotAt(n, i + 7);
      assert n[i + 7..] == name[i..];
    }
  }

  /** A name that ends in a dot, after at least one character, has no
      suffix and is its own stem, so the derived name gains a suffix:
      `clip.` becomes `clip._iphone`, whose suffix is `._iphone`. */
  lemma TrailingDotGainsSuffix(w: string)
    requires w != ""
    ensures Suffix(w + ".") == "" && Stem(w + ".") == w + "."
    ensures Suffix(Stem(w + ".") + "_iphone" + Suffix(w + ".")) == "._iphone"
  {
    var name := w + ".";
    LastDotAt(name, |w|);
    var derived := name + "_iphone";
    assert Stem(name) + "_iphone" + Suffix(name) == derived;
    assert derived[|w|..] == "._iphone";
    forall j | |w| < j < |derived|
      ensures derived[j] != '.'
    {
      assert derived[j] == "_iphone"[j - |w| - 1];
    }
    LastDotAt(derived, |w|);
  }

  /** The derived name is a component: seven characters longer than the
      name, with no slash and not `.`. */
  lemma DerivedNameIsPart(name: string)
    requires name == "" || IsPart(name)
    ensures var n := Stem(name) + "_iphone" + Suffix(name);
      IsPart(n) && |n| == |name| + 7
  {
    var n := Stem(name) + "_iphone" + Suffix(name);
    StemSuffix(name);
    assert n[|Stem(name)|] == '_';
    forall k | 0 <= k < |n|
      ensures n[k] != '/'
    {
      if k < |Stem(name)| {
        assert n[k] == name[k];
      } else if k >= |Stem(name)| + 7 {
        assert n[k] == name[k - 7];
      }
    }
  }

  /** For a well-formed path, the child named after its name lies beside
      it and reads back with that name. */
  lemma SiblingPlacement(p: PurePath)
    requires WellFormed(p)
    ensures var n := Stem(Name(p)) + "_iphone" + Suffix(Name(p));
      var q := ParsePath(PathText(Child(Parent(p), n)));
      Parent(q) == Parent(p) && Name(q) == n && Name(q) != Name(p)
  {
    var name := Name(p);
    assert name == "" || IsPart(name);
    var n := Stem(name) + "_iphone" + Suffix(name);
    DerivedNameIsPart(name);
    var c := Child(Parent(p), n);
    assert WellFormed(c);
    ParseRoundTrip(c);
    assert c.parts[..|c.parts| - 1] == Parent(p).parts;
  }

  /** The derived output lies in the input's directory, is named
      `stem + "_iphone" + suffix`, and so never has the input's name. */
  lemma DerivedOutputPlacement(input: string)
    ensures var p := ParsePath(input); var q := ParsePath(DerivedOutput(input));
      Parent(q) == Parent(p)
      && Name(q) == Stem(Name(p)) + "_iphone" + Suffix(Name(p))
      && Name(q) != Name(p)
  {
    var p := ParsePath(input);
    ParseWellFormed(input);
    SiblingPlacement(p);
  }

  /** The ffmpeg command: H.264 high profile level 4.0, yuv420p, AAC at
      128k, fast start, overwriting the output. */
  function ConvertCommand(input: string, output: string): seq<string>
  {
    ["ffmpeg", "-i", input, "-c:v", "libx264", "-preset", "medium", "-crf", "23",
     "-profile:v", "high", "-level", "4.0", "-pix_fmt", "yuv420p", "-c:a", "aac",
     "-b:a", "128k", "-movflags", "+faststart", "-y", output]
  }

  /** `output_file`, or the derived path when it is `None`. */
  function OutputPath(input: string, output: Option<string>): string
  {
    if output.None? then DerivedOutput(input) else output.value
  }

  /** The command built (none when the input is missing) and the boolean
      returned. */
  datatype Conversion = Conversion(command: Option<seq<string>>, ok: bool)

  /** `convert_to_iphone_format(input_file, output_file)`. `inputExists` is
      `os.path.exists(input_file)`; `run` is ffmpeg's exit status, or
      `Raised` for `FileNotFoundError` and any other exception. */
  function ConvertToIphone(input: string, output: Option<string>, inputExists: bool, run: ToolRun): Conversion
  {
    if !inputExists then Conversion(None, false)
    else
      Conversion(Some(ConvertCommand(input, OutputPath(input, output))), run == Exited(0))
  }

  /** The command reads the input after `-i` and ends with `-y` and the
      output. */
  lemma CommandShape(input: string, output: string)
    ensures var cmd := ConvertCommand(input, output);
      |cmd| == 23 && cmd[0] == "ffmpeg" && cmd[1] == "-i" && cmd[2] == input
      && cmd[|cmd| - 2] == "-y" && cmd[|cmd| - 1] == output
  {
  }

  /** A missing input builds no command and answers False; otherwise the
      command reads the input after `-i` and ends with `-y` and the output,
      which is the one given, unchanged, or the derived one. The answer is
      True exactly for exit status 0: any other status, a missing ffmpeg
      or any other exception gives False. */
  lemma ConversionContract(input: string, output: Option<string>, inputExists: bool, run: ToolRun)
    ensures var c := ConvertToIphone(input, output, inputExists, run);
      (c.command.None? <==> !inputExists)
      && (c.ok <==> inputExists && run == Exited(0))
      && (run.Raised? ==> !c.ok)
      && (c.command.Some? ==>
            var cmd := c.command.value;
            cmd[0] == "ffmpeg" && cmd[1] == "-i" && cmd[2] == input
            && cmd[|cmd| - 2] == "-y"
            && cmd[|cmd| - 1] == OutputPath(input, output))
    ensures output.Some? ==> OutputPath(input, output) == output.value
  {
    var out := OutputPath(input, output);
    CommandShape(input, out);
  }
}

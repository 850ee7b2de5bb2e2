/** The value formatting of NoAd_Watch_YouTube_Online_V_1.py: the JSON
    values yt-dlp prints, Python's `int()` on them, `format_duration` and
    `format_views`. */
module PlayerFormat {
  import opened Wrappers
  import opened Text
  import opened Decimal

  /** A value as `json.loads` returns it. Floats are exact reals here. */
  datatype JsonValue =
    | JNull
    | JBool(b: bool)
    | JInt(i: int)
    | JFloat(r: real)
    | JString(s: string)
    | JArray(items: seq<JsonValue>)
    | JObject(fields: map<string, JsonValue>)

  /** Python truthiness: `None`, `False`, zero, and empty strings, lists and
      dicts are false. */
  predicate Truthy(v: JsonValue)
  {
    match v
    case JNull => false
    case JBool(b) => b
    case JInt(i) => i != 0
    case JFloat(r) => r != 0.0
    case JString(s) => s != ""
    case JArray(items) => items != []
    case JObject(fields) => fields != map[]
  }

  /** `int(x)` of a float: truncation toward zero. */
  function Truncate(r: real): (n: int)
    ensures 0.0 <= r ==> 0 <= n && n as real <= r < n as real + 1.0
    ensures r < 0.0 ==> n <= 0 && n as real - 1.0 < r <= n as real
  {
    if r >= 0.0 then r.Floor else -((-r).Floor)
  }

  /** `int(s)` of a string: surrounding whitespace, an optional sign, then
      decimal digits; `None` where Python raises `ValueError`. */
  function ParseIntText(s: string): Option<int>
  {
    ParseSigned(Strip(s, Whitespace))
  }

  /** An optional sign followed by at least one decimal digit. */
  function ParseSigned(t: string): Option<int>
  {
    if t != "" && (t[0] == '+' || t[0] == '-') then
      var digits := t[1..];
      if digits != "" && AllDigits(digits) then
        var value: int := DecimalValue(digits);
        Some(if t[0] == '-' then -value else value)
      else None
    else if t != "" && AllDigits(t) then Some(DecimalValue(t))
    else None
  }

  /** A text that neither starts nor ends with a stripped character is its
      own strip. */
  lemma StripKeeps(s: string, cs: set<char>)
    requires s != [] && s[0] !in cs && s[|s| - 1] !in cs
    ensures Strip(s, cs) == s
  {
  }

  /** `str(i)` has no surrounding whitespace. */
  lemma DecimalTextStripped(i: int)
    ensures Strip(IntToDecimal(i), Whitespace) == IntToDecimal(i)
  {
    var t := IntToDecimal(i);
    var d := NatToDecimal(if i < 0 then -i else i);
    assert IsDigit(d[0]) && IsDigit(d[|d| - 1]);
    assert t[|t| - 1] == d[|d| - 1];
    StripKeeps(t, Whitespace);
  }

  /** The sign and digits of `str(i)` read back as `i`. */
  lemma SignedRoundTrip(i: int)
    ensures ParseSigned(IntToDecimal(i)) == Some(i)
  {
    DecimalRoundTrip(if i < 0 then -i else i);
    if i < 0 {
      assert IntToDecimal(i)[1..] == NatToDecimal(-i);
    }
  }

  /** `int(str(i)) == i`: the text `str` gives reads back as the number. */
  lemma ParseIntRoundTrip(i: int)
    ensures ParseIntText(IntToDecimal(i)) == Some(i)
  {
    DecimalTextStripped(i);
    SignedRoundTrip(i);
  }

  /** `int(v)` for a JSON value; `None` where it raises (null, lists,
      dicts, malformed strings). */
  function ToInt(v: JsonValue): Option<int>
  {
    match v
    case JBool(b) => Some(if b then 1 else 0)
    case JInt(i) => Some(i)
    case JFloat(r) => Some(Truncate(r))
    case JString(s) => ParseIntText(s)
    case _ => None
  }

  /** The clock text of a number of seconds: `H:MM:SS` when the floor
      division by 3600 is positive, `M:SS` otherwise. Python's `//` and `%`
      by a positive divisor agree with Dafny's. */
  function ClockText(n: int): string
  {
    var hours := n / 3600;
    var minutes: nat := (n % 3600) / 60;
    var secs: nat := n % 60;
    if hours > 0 then NatToDecimal(hours) + ":" + Pad2(minutes) + ":" + Pad2(secs)
    else NatToDecimal(minutes) + ":" + Pad2(secs)
  }

  /** `format_duration(seconds)`. */
  function FormatDuration(v: JsonValue): string
  {
    if !Truthy(v) then "Unknown"
    else
      match ToInt(v)
      case None => "Unknown"
      case Some(n) => ClockText(n)
  }

  /** The seconds a clock text `H:MM:SS` or `M:SS` denotes, read field by
      field. */
  function ClockValue(parts: seq<string>): int
    requires |parts| == 2 || |parts| == 3
    requires forall k :: 0 <= k < |parts| ==> AllDigits(parts[k])
  {
    if |parts| == 3 then 3600 * DecimalValue(parts[0]) + 60 * DecimalValue(parts[1]) + DecimalValue(parts[2])
    else 60 * DecimalValue(parts[0]) + DecimalValue(parts[1])
  }

  /** Digits hold no colon. */
  lemma NoColon(d: string)
    requires AllDigits(d)
    ensures ':' !in d
  {
    forall i | 0 <= i < |d|
      ensures d[i] != ':'
    {
      assert IsDigit(d[i]);
    }
  }

  lemma JoinTwo(a: string, b: string)
    ensures Join([a, b], ':') == a + ":" + b
  {
    assert [a, b][1..] == [b];
  }

  lemma JoinThree(a: string, b: string, c: string)
    ensures Join([a, b, c], ':') == a + ":" + b + ":" + c
  {
    assert [a, b, c][1..] == [b, c];
    JoinTwo(b, c);
  }

  /** Two digit fields joined by a colon split back into them. */
  lemma SplitTwoFields(a: string, b: string)
    requires AllDigits(a) && AllDigits(b)
    ensures Split(a + ":" + b, ':') == [a, b]
  {
    NoColon(a);
    NoColon(b);
    JoinTwo(a, b);
    SplitJoin([a, b], ':');
  }

  /** Three digit fields joined by colons split back into them. */
  lemma SplitThreeFields(a: string, b: string, c: string)
    requires AllDigits(a) && AllDigits(b) && AllDigits(c)
    ensures Split(a + ":" + b + ":" + c, ':') == [a, b, c]
  {
    NoColon(a);
    NoColon(b);
    NoColon(c);
    JoinThree(a, b, c);
    SplitJoin([a, b, c], ':');
  }

  /** Hours, minutes and seconds as the script computes them make up the
      count. */
  lemma ClockArithmetic(n: int)
    ensures n == 3600 * (n / 3600) + 60 * ((n % 3600) / 60) + n % 60
    ensures 0 <= (n % 3600) / 60 < 60
  {
    var q := n / 3600;
    var r := n % 3600;
    assert n == 3600 * q + r;
    assert r == 60 * (r / 60) + r % 60;
    assert n % 60 == r % 60 by {
      assert n == 60 * (60 * q + r / 60) + r % 60;
    }
  }

  /** For a number of seconds that is not negative the clock text splits
      at its colons into three fields from one hour on and two below; every
      field is digits, the fields after the first are two digits below 60,
      and reading the fields back gives the number. */
  lemma ClockTextReadsBack(n: int)
    requires n >= 0
    ensures var parts := Split(ClockText(n), ':');
      (|parts| == 2 || |parts| == 3)
      && (|parts| == 3 <==> n >= 3600)
      && (forall k :: 0 <= k < |parts| ==> AllDigits(parts[k]))
      && (forall k :: 1 <= k < |parts| ==> |parts[k]| == 2 && DecimalValue(parts[k]) < 60)
      && ClockValue(parts) == n
  {
    var hours := n / 3600;
    var minutes: nat := (n % 3600) / 60;
    var secs: nat := n % 60;
    ClockArithmetic(n);
    var mm, ss := Pad2(minutes), Pad2(secs);
    if hours > 0 {
      var hh := NatToDecimal(hours);
      DecimalRoundTrip(hours);
      assert ClockText(n) == hh + ":" + mm + ":" + ss;
      SplitThreeFields(hh, mm, ss);
    } else {
      var m := NatToDecimal(minutes);
      DecimalRoundTrip(minutes);
      assert ClockText(n) == m + ":" + ss;
      SplitTwoFields(m, ss);
    }
  }

  /** A negative number of seconds (which `int()` of a negative value
      gives) has no hour field: floor division and the non-negative
      remainder show it as the clock text of its remainder modulo an hour. */
  lemma NegativeClockWraps(n: int)
    requires n < 0
    ensures ClockText(n) == ClockText(n % 3600)
  {
    ClockArithmetic(n);
    ClockArithmetic(n % 3600);
  }

  /** `format_duration` answers `Unknown` exactly for a false value or one
      `int()` rejects; every other value gets a clock text. */
  lemma FormatDurationUnknownIff(v: JsonValue)
    ensures FormatDuration(v) == "Unknown" <==> !Truthy(v) || ToInt(v).None?
  {
    if Truthy(v) && ToInt(v).Some? {
      var n := ToInt(v).value;
      var minutes: nat := (n % 3600) / 60;
      var secs: nat := n % 60;
      var r := ClockText(n);
      if n / 3600 > 0 {
        var hh := NatToDecimal(n / 3600);
        assert r[|hh|] == ':';
      } else {
        var m := NatToDecimal(minutes);
        assert r[|m|] == ':';
      }
      assert ':' in r;
    }
  }

  /** The unit `format_views` abbreviates to: the divisor and its letter. */
  datatype Scale = Scale(divisor: nat, suffix: string)

  /** The largest of thousand, million and billion that does not exceed the
      count, or none (divisor 1) below a thousand. */
  function ViewsScale(n: int): (s: Scale)
    ensures s.divisor >= 1
    ensures n < 1000 <==> s.divisor == 1
    ensures s.divisor == 1 <==> s.suffix == ""
    ensures n >= 1000 ==> s.divisor <= n && (s.suffix != "B" ==> n < 1000 * s.divisor)
    ensures s.suffix == "B" <==> n >= 1000000000
    ensures s.suffix in {"", "K", "M", "B"}
  {
    if n >= 1000000000 then Scale(1000000000, "B")
    else if n >= 1000000 then Scale(1000000, "M")
    else if n >= 1000 then Scale(1000, "K")
    else Scale(1, "")
  }

  /** `format_views(views)`. The one-decimal float text (`.1f`) of the
      abbreviated amount is the parameter `fixed1`. */
  function FormatViews(v: JsonValue, fixed1: real -> string): string
  {
    if !Truthy(v) then "Unknown views"
    else
      match ToInt(v)
      case None => "Unknown views"
      case Some(n) =>
        var scale := ViewsScale(n);
        if scale.divisor == 1 then IntToDecimal(n) + " views"
        else fixed1(n as real / scale.divisor as real) + scale.suffix + " views"
  }

  /** A count below a thousand is shown exactly; from a thousand on the
      amount shown times the unit is the count, the amount is at least 1,
      and below a billion it stays under 1000. */
  lemma FormatViewsAmount(n: int, fixed1: real -> string)
    requires n != 0
    ensures n < 1000 ==> FormatViews(JInt(n), fixed1) == IntToDecimal(n) + " views"
    ensures n >= 1000 ==> exists amount: real ::
      FormatViews(JInt(n), fixed1) == fixed1(amount) + ViewsScale(n).suffix + " views"
      && amount * ViewsScale(n).divisor as real == n as real
      && 1.0 <= amount && (n < 1000000000 ==> amount < 1000.0)
  {
    if n >= 1000 {
      var d := ViewsScale(n).divisor;
      var amount := n as real / d as real;
      assert amount * d as real == n as real;
      assert FormatViews(JInt(n), fixed1) == fixed1(amount) + ViewsScale(n).suffix + " views";
    }
  }

  /** `format_views` answers `Unknown views` exactly for a false value or
      one `int()` rejects. */
  lemma FormatViewsUnknownIff(v: JsonValue, fixed1: real -> string)
    ensures FormatViews(v, fixed1) == "Unknown views" <==> !Truthy(v) || ToInt(v).None?
  {
    if Truthy(v) && ToInt(v).Some? {
      var n := ToInt(v).value;
      var scale := ViewsScale(n);
      if scale.divisor == 1 {
        var t := IntToDecimal(n);
        var r := t + " views";
        assert t[0] == '-' || IsDigit(t[0]) by {
          if n >= 0 {
            assert IsDigit(NatToDecimal(n)[0]);
          }
        }
        assert r[0] == t[0] && "Unknown views"[0] == 'U';
      } else {
        var r := fixed1(n as real / scale.divisor as real) + scale.suffix + " views";
        assert r[|r| - 7] == scale.suffix[0];
        assert scale.suffix[0] != 'n';
      }
    }
  }
}

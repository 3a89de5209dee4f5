/** The interval argument of the `agg` command: `parseDuration` turns
    "<digits><unit>" into milliseconds and `formatDuration` renders a number
    of milliseconds as hours, minutes and seconds (src/commands.ts). */
module Duration {
  import opened Wrappers
  import opened Decimal

  datatype Unit = Millis | Seconds | Minutes | Hours

  function Suffix(u: Unit): string {
    match u
    case Millis => "ms"
    case Seconds => "s"
    case Minutes => "m"
    case Hours => "h"
  }

  /** Milliseconds per unit. */
  function Factor(u: Unit): nat {
    match u
    case Millis => 1
    case Seconds => 1000
    case Minutes => 60 * 1000
    case Hours => 60 * 60 * 1000
  }

  /** The unit alternatives `ms|s|m|h` of the accepted pattern. */
  const UnitSuffixes: set<string> := {"ms", "s", "m", "h"}

  function UnitOf(suffix: string): Option<Unit> {
    if suffix == "ms" then Some(Millis)
    else if suffix == "s" then Some(Seconds)
    else if suffix == "m" then Some(Minutes)
    else if suffix == "h" then Some(Hours)
    else None
  }

  function InvalidFormat(s: string): string {
    "Invalid duration format: " + s + ". Expected format: 1s, 1m, 1h, etc."
  }

  /** `parseDuration`: one or more digits, then exactly one unit, nothing
      else. The pattern forces the digit group to be the longest digit
      prefix, since no unit starts with a digit. The `Unknown time unit`
      branch of the source cannot be reached once the pattern matched. */
  function ParseDuration(s: string): (r: Result<nat>)
    ensures r.Err? ==> r.error == InvalidFormat(s)
  {
    var k := LeadingDigits(s);
    match UnitOf(s[k..])
    case Some(u) => if k == 0 then Err(InvalidFormat(s)) else Ok(Value(s[..k]) * Factor(u))
    case None => Err(InvalidFormat(s))
  }

  /** The anchored pattern `^(\d+)(ms|s|m|h)$`, stated directly. */
  ghost predicate MatchesDurationPattern(s: string) {
    exists k :: 0 < k <= |s| && AllDigits(s[..k]) && s[k..] in UnitSuffixes
  }

  /** The parser accepts exactly the strings of the pattern. */
  lemma ParseDurationAcceptsExactly(s: string)
    ensures ParseDuration(s).Ok? <==> MatchesDurationPattern(s)
  {
    var k := LeadingDigits(s);
    UnitOfKnown(s[k..]);
    if MatchesDurationPattern(s) {
      var j :| 0 < j <= |s| && AllDigits(s[..j]) && s[j..] in UnitSuffixes;
      assert s == s[..j] + s[j..];
      LeadingDigitsOfSplit(s[..j], s[j..]);
      assert k == j;
    }
  }

  /** The unit table recognises exactly the four suffixes of the pattern. */
  lemma UnitOfKnown(suffix: string)
    ensures UnitOf(suffix).Some? <==> suffix in UnitSuffixes
  {
  }

  /** The value of an accepted duration: the digits read in base 10, times
      the unit's length in milliseconds. */
  lemma ParseDurationValue(digits: string, u: Unit)
    requires |digits| > 0 && AllDigits(digits)
    ensures ParseDuration(digits + Suffix(u)) == Ok(Value(digits) * Factor(u))
  {
    var s := digits + Suffix(u);
    LeadingDigitsOfSplit(digits, Suffix(u));
    assert s[..|digits|] == digits;
    assert s[|digits|..] == Suffix(u);
    UnitOfSuffix(u);
  }

  lemma UnitOfSuffix(u: Unit)
    ensures UnitOf(Suffix(u)) == Some(u)
  {
  }

  /** Worked values: "2h" is two hours, "1500ms" stays 1500, and "0s" is
      accepted, since there is no positivity check. */
  lemma ParseDurationAcceptedExamples()
    ensures ParseDuration("2h") == Ok(7200000)
    ensures ParseDuration("1500ms") == Ok(1500)
    ensures ParseDuration("0s") == Ok(0)
  {
    ParseTwoHours();
    ParseMillis();
    ParseZeroSeconds();
  }

  lemma ParseTwoHours()
    ensures ParseDuration("2h") == Ok(7200000)
  {
    ParseDurationValue("2", Hours);
    assert "2" + Suffix(Hours) == "2h";
  }

  lemma ParseMillis()
    ensures ParseDuration("1500ms") == Ok(1500)
  {
    ValueOf1500();
    ParseDurationValue("1500", Millis);
    assert "1500" + Suffix(Millis) == "1500ms";
  }

  lemma ParseZeroSeconds()
    ensures ParseDuration("0s") == Ok(0)
  {
    ParseDurationValue("0", Seconds);
    assert "0" + Suffix(Seconds) == "0s";
  }

  lemma ValueOf1500()
    ensures Value("1500") == 1500
  {
    assert "15"[..1] == "1";
    assert "150"[..2] == "15";
    assert "1500"[..3] == "150";
  }

  /** A wrong unit, a fraction, a sign and the empty string are refused. */
  lemma ParseDurationRejectedExamples()
    ensures ParseDuration("10x").Err?
    ensures ParseDuration("1.5s").Err?
    ensures ParseDuration("-1s").Err?
    ensures ParseDuration("").Err?
  {
    LeadingDigitsOfSplit("10", "x");
    assert "10" + "x" == "10x";
    assert "10x"[2..] == "x";
    LeadingDigitsOfSplit("1", ".5s");
    assert "1" + ".5s" == "1.5s";
    assert "1.5s"[1..] == ".5s";
    assert LeadingDigits("-1s") == 0;
  }

  /** One emitted component of `formatDuration`, such as the "5m" of "1h5m". */
  datatype Part = Part(amount: nat, unit: Unit)

  function PartText(p: Part): string {
    ToDecimal(p.amount) + Suffix(p.unit)
  }

  /** The components of `formatDuration(ms)`, largest unit first. */
  function DurationParts(ms: nat): (r: seq<Part>)
    ensures 1 <= |r| <= 3
    ensures forall i :: 0 <= i < |r| ==> r[i].unit != Millis
  {
    var hours := ms / (60 * 60 * 1000);
    var minutes := (ms % (60 * 60 * 1000)) / (60 * 1000);
    var seconds := (ms % (60 * 1000)) / 1000;
    (if hours > 0 then [Part(hours, Hours)] else [])
    + (if minutes > 0 then [Part(minutes, Minutes)] else [])
    + (if seconds > 0 || (hours == 0 && minutes == 0) then [Part(seconds, Seconds)] else [])
  }

  /** The text of a list of components, appended left to right. */
  function Render(ps: seq<Part>): (r: string)
    ensures ps != [] ==> |r| > 0
  {
    if ps == [] then "" else Render(ps[..|ps| - 1]) + PartText(ps[|ps| - 1])
  }

  /** Milliseconds the components stand for. */
  function Total(ps: seq<Part>): nat {
    if ps == [] then 0 else ps[0].amount * Factor(ps[0].unit) + Total(ps[1..])
  }

  predicate HasUnit(ps: seq<Part>, u: Unit) {
    exists i :: 0 <= i < |ps| && ps[i].unit == u
  }

  /** `formatDuration`: the result string is built by up to three appends. */
  method FormatDuration(ms: nat) returns (result: string)
    ensures result == Render(DurationParts(ms))
    ensures |result| > 0
  {
    var hours := ms / (60 * 60 * 1000);
    var minutes := (ms % (60 * 60 * 1000)) / (60 * 1000);
    var seconds := (ms % (60 * 1000)) / 1000;

    ghost var parts: seq<Part> := [];
    result := "";
    if hours > 0 {
      RenderStep(result, parts, Part(hours, Hours));
      parts := parts + [Part(hours, Hours)];
      result := result + ToDecimal(hours) + "h";
    }
    if minutes > 0 {
      RenderStep(result, parts, Part(minutes, Minutes));
      parts := parts + [Part(minutes, Minutes)];
      result := result + ToDecimal(minutes) + "m";
    }
    if seconds > 0 || (hours == 0 && minutes == 0) {
      RenderStep(result, parts, Part(seconds, Seconds));
      parts := parts + [Part(seconds, Seconds)];
      result := result + ToDecimal(seconds) + "s";
    }
    assert parts == DurationParts(ms);
  }

  /** One append of `formatDuration` extends the rendering by one component. */
  lemma RenderStep(result: string, parts: seq<Part>, p: Part)
    requires result == Render(parts)
    ensures result + ToDecimal(p.amount) + Suffix(p.unit) == Render(parts + [p])
  {
    RenderAppend(parts, p);
  }

  /** Appending one component appends its text. */
  lemma RenderAppend(ps: seq<Part>, p: Part)
    ensures Render(ps + [p]) == Render(ps) + PartText(p)
  {
    assert (ps + [p])[..|ps|] == ps;
  }

  /** Splitting milliseconds into whole hours, minutes and seconds loses only
      the sub-second remainder. */
  lemma SplitArithmetic(ms: nat)
    ensures (ms / 3600000) * 3600000 + ((ms % 3600000) / 60000) * 60000
            + ((ms % 60000) / 1000) * 1000 == ms - ms % 1000
    ensures (ms % 3600000) / 60000 < 60 && (ms % 60000) / 1000 < 60
  {
    MinuteRemainder(ms);
    SecondRemainder(ms % 60000);
    SecondRemainder(ms);
    var r1 := ms % 3600000;
    assert ms == (ms / 3600000) * 3600000 + r1;
    assert r1 == (r1 / 60000) * 60000 + r1 % 60000;
    var r2 := ms % 60000;
    assert r2 == (r2 / 1000) * 1000 + r2 % 1000;
  }

  /** The remainder below the minute is the same whether or not whole hours
      are taken off first. */
  lemma MinuteRemainder(ms: nat)
    ensures (ms % 3600000) % 60000 == ms % 60000
  {
    var h, r1 := ms / 3600000, ms % 3600000;
    var m, r2 := r1 / 60000, r1 % 60000;
    assert ms == (h * 60 + m) * 60000 + r2;
  }

  /** The remainder below the second, with or without whole minutes taken off. */
  lemma SecondRemainder(ms: nat)
    ensures (ms % 60000) % 1000 == ms % 1000
  {
    var m, r1 := ms / 60000, ms % 60000;
    var s, r2 := r1 / 1000, r1 % 1000;
    assert ms == (m * 60 + s) * 1000 + r2;
  }

  /** `formatDuration` output is canonical: one to three components, hours
      before minutes before seconds, never milliseconds, minutes and seconds
      below 60, no zero component except a lone "0s", and the components add
      up to the input rounded down to whole seconds. */
  lemma DurationPartsCanonical(ms: nat)
    ensures var ps := DurationParts(ms);
      && 1 <= |ps| <= 3
      && Total(ps) == ms - ms % 1000
      && (forall i, j :: 0 <= i < j < |ps| ==> Factor(ps[i].unit) > Factor(ps[j].unit))
      && (forall i :: 0 <= i < |ps| ==> ps[i].unit != Millis)
      && (forall i :: 0 <= i < |ps| && ps[i].unit != Hours ==> ps[i].amount < 60)
      && (forall i :: 0 <= i < |ps| ==> ps[i].amount > 0 || ps == [Part(0, Seconds)])
  {
    SplitArithmetic(ms);
    var ps := DurationParts(ms);
    var hours := ms / (60 * 60 * 1000);
    var minutes := (ms % (60 * 60 * 1000)) / (60 * 1000);
    var seconds := (ms % (60 * 1000)) / 1000;
    var hs := if hours > 0 then [Part(hours, Hours)] else [];
    var mss := if minutes > 0 then [Part(minutes, Minutes)] else [];
    var ss := if seconds > 0 || (hours == 0 && minutes == 0) then [Part(seconds, Seconds)] else [];
    assert ps == hs + mss + ss;
    TotalAppend(hs, mss);
    TotalAppend(hs + mss, ss);
  }

  lemma {:induction false} TotalAppend(a: seq<Part>, b: seq<Part>)
    ensures Total(a + b) == Total(a) + Total(b)
  {
    if a != [] {
      assert (a + b)[0] == a[0];
      assert (a + b)[1..] == a[1..] + b;
      TotalAppend(a[1..], b);
    } else {
      assert a + b == b;
    }
  }

  /** Which components appear: hours exactly from one hour on, minutes
      exactly when the part below the hour holds a whole minute, seconds
      when there is a whole second left over or the input is below a minute. */
  lemma DurationPartsPresence(ms: nat)
    ensures HasUnit(DurationParts(ms), Hours) <==> ms >= 3600000
    ensures HasUnit(DurationParts(ms), Minutes) <==> ms % 3600000 >= 60000
    ensures HasUnit(DurationParts(ms), Seconds) <==> ms % 60000 >= 1000 || ms < 60000
  {
    var ps := DurationParts(ms);
    if ms < 60000 {
      assert ps[|ps| - 1].unit == Seconds;
    }
    if ms % 60000 >= 1000 {
      assert ps[|ps| - 1].unit == Seconds;
    }
    if ms % 3600000 >= 60000 {
      var i := if ms >= 3600000 then 1 else 0;
      assert ps[i].unit == Minutes;
    }
    if ms >= 3600000 {
      assert ps[0].unit == Hours;
    }
  }

  /** Each component that `formatDuration` prints is itself a valid duration
      argument, and it parses back to the milliseconds it stands for. */
  lemma PartTextParses(p: Part)
    ensures ParseDuration(PartText(p)) == Ok(p.amount * Factor(p.unit))
  {
    ValueOfToDecimal(p.amount);
    ParseDurationValue(ToDecimal(p.amount), p.unit);
  }

  /** Worked values: 1500 ms is shown as "1s", two hours as "2h", and
      3 723 000 ms as "1h2m3s". */
  lemma FormatDurationExamples()
    ensures Render(DurationParts(1500)) == "1s"
    ensures Render(DurationParts(7200000)) == "2h"
    ensures Render(DurationParts(3723000)) == "1h2m3s"
    ensures Render(DurationParts(0)) == "0s"
  {
    FormatOneSecond();
    FormatTwoHours();
    FormatMixed();
    FormatZero();
  }

  lemma FormatOneSecond()
    ensures Render(DurationParts(1500)) == "1s"
  {
    assert DurationParts(1500) == [Part(1, Seconds)];
    assert [] + [Part(1, Seconds)] == [Part(1, Seconds)];
    RenderAppend([], Part(1, Seconds));
  }

  lemma FormatTwoHours()
    ensures Render(DurationParts(7200000)) == "2h"
  {
    assert DurationParts(7200000) == [Part(2, Hours)];
    assert [] + [Part(2, Hours)] == [Part(2, Hours)];
    RenderAppend([], Part(2, Hours));
  }

  lemma FormatMixed()
    ensures Render(DurationParts(3723000)) == "1h2m3s"
  {
    var p1 := [] + [Part(1, Hours)];
    var p2 := p1 + [Part(2, Minutes)];
    var p3 := p2 + [Part(3, Seconds)];
    RenderAppend([], Part(1, Hours));
    assert Render(p1) == "1h";
    RenderAppend(p1, Part(2, Minutes));
    assert Render(p2) == "1h2m";
    RenderAppend(p2, Part(3, Seconds));
    assert Render(p3) == "1h2m3s";
    assert DurationParts(3723000) == p3;
  }

  lemma FormatZero()
    ensures Render(DurationParts(0)) == "0s"
  {
    assert DurationParts(0) == [Part(0, Seconds)];
    assert [] + [Part(0, Seconds)] == [Part(0, Seconds)];
    RenderAppend([], Part(0, Seconds));
  }
}

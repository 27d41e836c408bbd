/** Turning message counts into the 1..10 "kaso" (inactivity) level and the
    pieces of the report that depend on the level: colours, labels, the
    emoji activity bar and the parsing of a period such as "2w". */
module KasoLevel {
  import opened Common

  /** Messages per day needed for levels 1..9; anything lower is level 10. */
  const Thresholds: seq<int> := [4000, 2000, 1000, 714, 500, 300, 200, 100, 50]

  const RetentionDays: int := 30

  lemma ThresholdsDescending()
    ensures forall i, j :: 0 <= i < j < |Thresholds| ==> Thresholds[i] > Thresholds[j]
  {
  }

  /** `count / days` as a Python float when `days > 0`, else `count` itself. */
  function DailyAverage(count: int, days: int): real {
    if days > 0 then count as real / days as real else count as real
  }

  /** The first 1-based index from `i` on whose threshold the average
      reaches, or 10 when none does. */
  function LevelFrom(avg: real, i: nat): (level: int)
    requires i <= |Thresholds|
    ensures i + 1 <= level <= 10
    decreases |Thresholds| - i
  {
    if i == |Thresholds| then 10
    else if avg >= Thresholds[i] as real then i + 1
    else LevelFrom(avg, i + 1)
  }

  /** `compute_kaso_level`: 1 is the busiest, 10 the quietest. */
  function ComputeLevel(count: int, days: int): (level: int)
    ensures 1 <= level <= 10
  {
    LevelFrom(DailyAverage(count, days), 0)
  }

  /** How many thresholds from index `i` on lie strictly above `avg`. */
  function ThresholdsAbove(avg: real, i: nat): nat
    requires i <= |Thresholds|
    decreases |Thresholds| - i
  {
    if i == |Thresholds| then 0
    else (if Thresholds[i] as real > avg then 1 else 0) + ThresholdsAbove(avg, i + 1)
  }

  lemma {:induction false} NoneAboveAfter(avg: real, i: nat)
    requires i < |Thresholds| && avg >= Thresholds[i] as real
    ensures ThresholdsAbove(avg, i) == 0
    decreases |Thresholds| - i
  {
    if i + 1 < |Thresholds| {
      NoneAboveAfter(avg, i + 1);
    }
  }

  lemma {:induction false} LevelFromCountsAbove(avg: real, i: nat)
    requires i <= |Thresholds|
    ensures LevelFrom(avg, i) == i + 1 + ThresholdsAbove(avg, i)
    decreases |Thresholds| - i
  {
    if i < |Thresholds| {
      if avg >= Thresholds[i] as real {
        NoneAboveAfter(avg, i);
      } else {
        LevelFromCountsAbove(avg, i + 1);
      }
    }
  }

  /** The level is one more than the number of thresholds the daily average
      falls short of. */
  lemma LevelCountsMissedThresholds(count: int, days: int)
    ensures ComputeLevel(count, days) == 1 + ThresholdsAbove(DailyAverage(count, days), 0)
  {
    LevelFromCountsAbove(DailyAverage(count, days), 0);
  }

  lemma {:induction false} ThresholdsAboveAntitone(a: real, b: real, i: nat)
    requires a <= b && i <= |Thresholds|
    ensures ThresholdsAbove(b, i) <= ThresholdsAbove(a, i)
    decreases |Thresholds| - i
  {
    if i < |Thresholds| {
      ThresholdsAboveAntitone(a, b, i + 1);
    }
  }

  /** More messages over the same period never give a higher (quieter)
      level. */
  lemma MoreMessagesNoQuieter(c1: int, c2: int, days: int)
    requires c1 <= c2
    ensures ComputeLevel(c2, days) <= ComputeLevel(c1, days)
  {
    var a, b := DailyAverage(c1, days), DailyAverage(c2, days);
    if days > 0 {
      assert a <= b by {
        assert c1 as real <= c2 as real;
      }
    }
    LevelCountsMissedThresholds(c1, days);
    LevelCountsMissedThresholds(c2, days);
    ThresholdsAboveAntitone(a, b, 0);
  }

  /** Over a positive number of days the real-valued test `count / days >= th`
      is the integer test `count >= th * days`. */
  lemma AverageReachesIff(count: int, days: int, th: int)
    requires days > 0
    ensures DailyAverage(count, days) >= th as real <==> count >= th * days
  {
    var d := days as real;
    assert (count as real / d) * d == count as real;
    if count >= th * days {
      assert count as real >= th as real * d;
    } else {
      assert count as real < th as real * d;
    }
  }

  /** Level 1 needs 4000 messages per day on average; below 50 per day the
      level is 10. */
  lemma LevelExtremes(count: int, days: int)
    requires days > 0
    ensures ComputeLevel(count, days) == 1 <==> count >= 4000 * days
    ensures ComputeLevel(count, days) == 10 <==> count < 50 * days
  {
    AverageReachesIff(count, days, 4000);
    AverageReachesIff(count, days, 50);
    var avg := DailyAverage(count, days);
    if avg < 50.0 {
      assert LevelFrom(avg, 8) == 10;
    }
  }

  /** The embed colour for a level: green up to 3, yellow up to 6, red above. */
  function LevelToColor(level: int): (color: int)
    ensures color in {0x1DB954, 0xF1C40F, 0xE74C3C}
    ensures color == 0x1DB954 <==> level <= 3
    ensures color == 0xE74C3C <==> level > 6
  {
    if level <= 3 then 0x1DB954
    else if level <= 6 then 0xF1C40F
    else 0xE74C3C
  }

  const Green: char := '\U{1F7E9}'
  const Yellow: char := '\U{1F7E8}'
  const Red: char := '\U{1F7E5}'
  const White: char := '\U{2B1C}'

  /** The square shown next to a level, in the colour of `LevelToColor`. */
  function LevelSquare(level: int): char {
    if level <= 3 then Green else if level <= 6 then Yellow else Red
  }

  /** `level_label`: the coloured square, then " レベル " and the number. */
  function LevelLabel(level: int): (s: string)
    ensures |s| >= 6 && s[0] == LevelSquare(level)
    ensures s[1..6] == " レベル "
    ensures ParseInt(s[6..]) == Some(level)
  {
    ParseIntOfIntToString(level);
    [LevelSquare(level)] + " レベル " + IntToString(level)
  }

  /** The colour square in the label and the embed colour always agree. */
  lemma LabelMatchesColor(level: int)
    ensures LevelToColor(level) == 0x1DB954 <==> LevelLabel(level)[0] == Green
    ensures LevelToColor(level) == 0xF1C40F <==> LevelLabel(level)[0] == Yellow
    ensures LevelToColor(level) == 0xE74C3C <==> LevelLabel(level)[0] == Red
  {
  }

  /** Which of the five status bands a level falls into (0 = busiest). */
  function StatusBand(level: int): (band: nat)
    ensures band < 5
  {
    if level <= 2 then 0
    else if level <= 4 then 1
    else if level <= 6 then 2
    else if level <= 8 then 3
    else 4
  }

  const StatusLabels: seq<string> :=
    ["超活発なサーバー！", "活発なサーバー！", "やや活発なサーバー", "静かなサーバー", "過疎気味のサーバー"]

  const StatusDescriptions: seq<string> :=
    ["非常に人が多い活発な状態です。", "活気のある状態です！", "やや落ち着いた活動です。",
     "最近は静かです。", "過疎化が進んでいます。"]

  /** `status_label_by_level` */
  function StatusLabel(level: int): (s: string)
    ensures s in StatusLabels
  {
    StatusLabels[StatusBand(level)]
  }

  /** `status_description` */
  function StatusDescription(level: int): (text: string)
    ensures text in StatusDescriptions
  {
    StatusDescriptions[StatusBand(level)]
  }

  /** Title and description are cut at the same boundaries: two levels get
      the same title exactly when they get the same description, and a
      quieter level never gets a busier band. */
  lemma StatusTextsAgree(a: int, b: int)
    ensures StatusLabel(a) == StatusLabel(b) <==> StatusDescription(a) == StatusDescription(b)
    ensures a <= b ==> StatusBand(a) <= StatusBand(b)
  {
    var x, y := StatusBand(a), StatusBand(b);
    if x != y {
      assert StatusLabels[x][0] != StatusLabels[y][0];
      assert StatusDescriptions[x][0] != StatusDescriptions[y][0];
    }
  }

  /** Python's `round()` on a float: to the nearest integer, ties to even. */
  function RoundHalfEven(x: real): (r: int)
    ensures -0.5 <= r as real - x <= 0.5
    ensures (r as real - x == 0.5 || x - r as real == 0.5) ==> r % 2 == 0
  {
    var f := x.Floor;
    var d := x - f as real;
    if d < 0.5 then f
    else if d > 0.5 then f + 1
    else if f % 2 == 0 then f else f + 1
  }

  /** `max(0.0, min(percent, 100.0))` */
  function Clamp(percent: real): (p: real)
    ensures 0.0 <= p <= 100.0
    ensures 0.0 <= percent <= 100.0 ==> p == percent
  {
    if percent < 0.0 then 0.0
    else if percent > 100.0 then 100.0
    else percent
  }

  /** The colour of the filled cells depends on how full the bar is. */
  function FillColor(p: real): char {
    if p >= 75.0 then Green else if p >= 40.0 then Yellow else Red
  }

  function FilledCells(percent: real, length: nat): int {
    RoundHalfEven(Clamp(percent) / 100.0 * length as real)
  }

  /** `draw_activity_bar`: `length` cells, the first `filled` in the fill
      colour and the rest white. */
  function DrawActivityBar(percent: real, length: nat): (bar: string)
    ensures |bar| == length
  {
    var p := Clamp(percent);
    var filled := FilledCells(percent, length);
    seq(length, i requires 0 <= i < length => if i < filled then FillColor(p) else White)
  }

  /** The number of non-white cells of a bar. */
  function Colored(bar: string): nat {
    if bar == [] then 0 else (if bar[0] != White then 1 else 0) + Colored(bar[1..])
  }

  lemma {:induction false} ColoredOfPrefixBar(bar: string, k: nat)
    requires k <= |bar|
    requires forall i :: 0 <= i < |bar| ==> (bar[i] != White <==> i < k)
    ensures Colored(bar) == k
    decreases |bar|
  {
    if bar != [] {
      var rest := bar[1..];
      var k' := if k > 0 then k - 1 else 0;
      forall i | 0 <= i < |rest| ensures rest[i] != White <==> i < k' {
        assert rest[i] == bar[i + 1];
      }
      if k == 0 {
        assert bar[0] == White;
      }
      ColoredOfPrefixBar(rest, k');
    }
  }

  lemma FilledWithinLength(percent: real, length: nat)
    ensures 0 <= FilledCells(percent, length) <= length
  {
    var q := Clamp(percent) / 100.0;
    var l := length as real;
    assert 0.0 <= q <= 1.0;
    assert 0.0 <= q * l;
    assert (1.0 - q) * l >= 0.0;
    assert q * l <= l;
  }

  lemma RoundOfWhole(n: int)
    ensures RoundHalfEven(n as real) == n
  {
    assert (n as real).Floor == n;
  }

  /** The coloured cells form a prefix, all of one colour, and their number
      is the clamped percentage of the length rounded to the nearest cell:
      never more than half a cell away from the exact share, and even when
      the share lies exactly halfway between two cell counts. */
  lemma BarShowsPercent(percent: real, length: nat)
    ensures var bar := DrawActivityBar(percent, length);
      && Colored(bar) == FilledCells(percent, length)
      && Colored(bar) <= length
      && -0.5 <= Colored(bar) as real - Clamp(percent) * length as real / 100.0 <= 0.5
      && ((Colored(bar) as real - Clamp(percent) * length as real / 100.0 == 0.5
           || Clamp(percent) * length as real / 100.0 - Colored(bar) as real == 0.5)
          ==> Colored(bar) % 2 == 0)
      && (forall i :: 0 <= i < Colored(bar) ==> bar[i] == FillColor(Clamp(percent)))
      && (forall i :: Colored(bar) <= i < length ==> bar[i] == White)
  {
    ColoredIsFilled(percent, length);
    FilledWithinLength(percent, length);
    assert Clamp(percent) / 100.0 * length as real == Clamp(percent) * length as real / 100.0;
  }

  /** The coloured cells of a bar are its `filled` prefix. */
  lemma ColoredIsFilled(percent: real, length: nat)
    ensures Colored(DrawActivityBar(percent, length)) == FilledCells(percent, length)
  {
    FilledWithinLength(percent, length);
    assert FillColor(Clamp(percent)) != White;
    ColoredOfPrefixBar(DrawActivityBar(percent, length), FilledCells(percent, length));
  }

  /** Halfway shares round to the even cell count, as Python's `round`
      does: 6.25% of 8 cells is half a cell and colours none, 18.75% is one
      and a half cells and colours two, and 50% of one cell colours none. */
  lemma BarTiesToEven()
    ensures Colored(DrawActivityBar(6.25, 8)) == 0
    ensures Colored(DrawActivityBar(18.75, 8)) == 2
    ensures Colored(DrawActivityBar(50.0, 1)) == 0
  {
    BarOfShare(6.25, 8, 0.5, 0);
    BarOfShare(18.75, 8, 1.5, 2);
    BarOfShare(50.0, 1, 0.5, 0);
  }

  /** A share exactly halfway between two cell counts colours the even one. */
  lemma BarOfShare(percent: real, length: nat, share: real, cells: int)
    requires 0.0 <= percent <= 100.0
    requires percent / 100.0 * length as real == share
    requires share == cells as real + 0.5 || share == cells as real - 0.5
    requires cells % 2 == 0
    ensures Colored(DrawActivityBar(percent, length)) == cells
  {
    var x := Clamp(percent) / 100.0 * length as real;
    assert x == share;
    HalfwayIsEven(FilledCells(percent, length), cells, x);
    ColoredIsFilled(percent, length);
  }

  /** Of the two integers half a unit from a halfway value, only one is
      even. */
  lemma HalfwayIsEven(k: int, cells: int, share: real)
    requires -0.5 <= k as real - share <= 0.5
    requires (k as real - share == 0.5 || share - k as real == 0.5) ==> k % 2 == 0
    requires share == cells as real + 0.5 || share == cells as real - 0.5
    requires cells % 2 == 0
    ensures k == cells
  {
    assert k == cells || k == cells + 1 || k == cells - 1 by {
      assert -1.0 <= k as real - cells as real <= 1.0;
    }
  }

  /** A full bar is all green, an empty one all white. */
  lemma BarExtremes(length: nat)
    ensures forall i :: 0 <= i < length ==> DrawActivityBar(100.0, length)[i] == Green
    ensures forall i :: 0 <= i < length ==> DrawActivityBar(0.0, length)[i] == White
  {
    assert 100.0 / 100.0 * length as real == length as real;
    RoundOfWhole(length);
    assert FilledCells(100.0, length) == length;
    RoundOfWhole(0);
    assert FilledCells(0.0, length) == 0;
    forall i | 0 <= i < length ensures DrawActivityBar(100.0, length)[i] == Green {
      assert Clamp(100.0) == 100.0;
      assert FillColor(100.0) == Green;
      assert i < FilledCells(100.0, length);
    }
  }

  /** `parse_period_to_days`: an empty period means 3 days; otherwise the
      lower-cased, stripped text is read as a number of days, or a number
      followed by "d" (days) or "w" (weeks); anything else means 3 days.
      `None` stands for the `ValueError` escaping from the "d"/"w" forms. */
  function ParsePeriodToDays(period: string): (days: Option<int>)
    ensures period == [] ==> days == Some(3)
  {
    if period == [] then Some(3) else ParseNormalizedPeriod(Strip(Lower(period)))
  }

  /** The part of `parse_period_to_days` after lower-casing and stripping. */
  function ParseNormalizedPeriod(p: string): Option<int> {
    match ParseInt(p)
    case Some(n) => Some(n)
    case None =>
      if IsSuffix("d", p) then ParseInt(p[..|p| - 1])
      else if IsSuffix("w", p) then
        match ParseInt(p[..|p| - 1])
        case Some(n) => Some(n * 7)
        case None => None
      else Some(3)
  }

  lemma LowerOfNoUpper(s: string)
    requires forall i :: 0 <= i < |s| ==> !('A' <= s[i] <= 'Z')
    ensures Lower(s) == s
  {
  }

  /** The text `str(n) + unit` with `unit` a letter is not a number. */
  lemma ParseIntWithUnit(n: int, unit: char)
    requires IsAsciiLetter(unit)
    ensures ParseInt(IntToString(n) + [unit]) == None
  {
    IntToStringShape(n);
    var s := IntToString(n) + [unit];
    assert s[|s| - 1] == unit && !IsSpace(unit);
    assert !IsSpace(s[0]) by {
      assert s[0] == IntToString(n)[0];
    }
    StripUntouched(s);
    assert ParseUnsigned(s[1..]) == None by {
      assert s[1..][|s[1..]| - 1] == unit;
    }
    assert ParseUnsigned(s) == None;
  }

  /** Text that is already lower-case and has no surrounding whitespace is
      left alone by the normalisation. */
  lemma NormalizedPeriodText(n: int, unit: string)
    requires unit == [] || unit == "d" || unit == "w"
    ensures var s := IntToString(n) + unit;
      && s != [] && Strip(Lower(s)) == s
  {
    IntToStringShape(n);
    var d := IntToString(n);
    var s := d + unit;
    forall i | 0 <= i < |s| ensures !('A' <= s[i] <= 'Z') {
      if i < |d| {
        assert s[i] == d[i];
      }
    }
    LowerOfNoUpper(s);
    assert s[0] == d[0];
    assert !IsSpace(s[|s| - 1]);
    StripUntouched(s);
  }

  lemma ParseNormalizedWithUnit(n: int, unit: string)
    requires unit == "d" || unit == "w"
    ensures ParseNormalizedPeriod(IntToString(n) + unit) == Some(if unit == "d" then n else n * 7)
  {
    ParseIntWithUnit(n, unit[0]);
    assert [unit[0]] == unit;
    ParseIntOfIntToString(n);
    var s := IntToString(n) + unit;
    assert s[..|s| - 1] == IntToString(n);
    assert IsSuffix(unit, s);
  }

  /** `str(n)` followed by a unit is read back in that unit. */
  lemma ParsePeriodWithUnit(n: int, unit: string)
    requires unit == "d" || unit == "w"
    ensures ParsePeriodToDays(IntToString(n) + unit) == Some(if unit == "d" then n else n * 7)
  {
    NormalizedPeriodText(n, unit);
    NormalizedIsRead(IntToString(n) + unit);
    ParseNormalizedWithUnit(n, unit);
  }

  /** A period written by `str(n)` is read back as `n` days. */
  lemma ParsePeriodBare(n: int)
    ensures ParsePeriodToDays(IntToString(n)) == Some(n)
  {
    NormalizedBareText(n);
    NormalizedIsRead(IntToString(n));
    ParseNormalizedBare(n);
  }

  lemma NormalizedBareText(n: int)
    ensures IntToString(n) != [] && Strip(Lower(IntToString(n))) == IntToString(n)
  {
    NormalizedPeriodText(n, []);
    assert IntToString(n) + [] == IntToString(n);
  }

  lemma ParseNormalizedBare(n: int)
    ensures ParseNormalizedPeriod(IntToString(n)) == Some(n)
  {
    ParseIntOfIntToString(n);
  }

  /** `str(n) + "d"` is read back as `n` days. */
  lemma ParsePeriodDays(n: int)
    ensures ParsePeriodToDays(IntToString(n) + "d") == Some(n)
  {
    ParsePeriodWithUnit(n, "d");
  }

  /** `str(n) + "w"` is read back as `n` weeks, that is `n * 7` days. */
  lemma ParsePeriodWeeks(n: int)
    ensures ParsePeriodToDays(IntToString(n) + "w") == Some(n * 7)
  {
    ParsePeriodWithUnit(n, "w");
  }

  /** Text the normalisation leaves alone is read as it is. */
  lemma NormalizedIsRead(s: string)
    requires s != [] && Strip(Lower(s)) == s
    ensures ParsePeriodToDays(s) == ParseNormalizedPeriod(s)
  {
  }

  lemma LowerAppend(a: string, b: string)
    ensures Lower(a + b) == Lower(a) + Lower(b)
  {
    var l := Lower(a + b);
    assert |l| == |Lower(a) + Lower(b)|;
    forall i | 0 <= i < |l| ensures l[i] == (Lower(a) + Lower(b))[i] {
      if i < |a| {
        assert (a + b)[i] == a[i];
      } else {
        assert (a + b)[i] == b[i - |a|];
      }
    }
  }

  /** Upper-case units are accepted too ("2W" is two weeks). */
  lemma ParsePeriodUpperCase(n: int)
    ensures ParsePeriodToDays(IntToString(n) + "W") == Some(n * 7)
  {
    LowerWithUnit(n, "W");
    LowerWithUnit(n, "w");
    SameLowerSameDays(IntToString(n) + "W", IntToString(n) + "w");
    ParsePeriodWeeks(n);
  }

  lemma LowerWithUnit(n: int, unit: string)
    requires unit == "W" || unit == "w"
    ensures Lower(IntToString(n) + unit) == IntToString(n) + "w"
  {
    var d := IntToString(n);
    IntToStringShape(n);
    LowerOfNoUpper(d);
    LowerAppend(d, unit);
    assert Lower(unit) == "w";
  }

  /** The period is read after lower-casing, so texts that lower-case
      alike mean the same number of days. */
  lemma SameLowerSameDays(a: string, b: string)
    requires a != [] && b != [] && Lower(a) == Lower(b)
    ensures ParsePeriodToDays(a) == ParsePeriodToDays(b)
  {
  }

  /** A bare "d" has no number in front of it, so `int("")` raises; an
      unrecognised period means the default of 3 days. */
  lemma ParsePeriodBareUnit()
    ensures ParsePeriodToDays("d") == None
    ensures ParsePeriodToDays("x") == Some(3)
  {
    StripUntouched("d");
    StripUntouched("x");
    assert Lower("d") == "d";
    assert Lower("x") == "x";
    assert ParseInt("d") == None;
    assert ParseInt("x") == None;
    assert "d"[..0] == "";
    assert ParseInt("") == None;
  }
}

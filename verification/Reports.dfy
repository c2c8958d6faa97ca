/**
 The category report: each child's weighted sum is rounded once, by the database, to four decimals; the sums are
 added as exact rationals and printed with four decimals. A real number stands for a big.Rat.
 */
module Reports {
  import opened Common
  import opened Decimals
  import Grades
  import Scores

  const SCALE := 10000

  // ----- the weighted sum of one child -----

  datatype SumError = NumericOverflow

  /** Sum(score_value * weight)::numeric(12,4), in units of 10^-4; RawSum counts units of 10^-6. */
  ghost function SumWeighted(rows: Scores.Rows, item: string): Result<int, SumError> {
    var units := Round(Value(Scores.RawSum(rows, item), 1000000), SCALE);
    if -1000000000000 < units < 1000000000000 then Ok(units) else Err(NumericOverflow)
  }

  /** pgtype.Numeric: mantissa * 10^exp. */
  datatype Numeric = Numeric(mantissa: Option<int>, exp: int, valid: bool, nan: bool, infinity: int)

  /** The value is present and is a number. */
  predicate Finite(n: Numeric) {
    n.valid && n.mantissa.Some? && !n.nan && n.infinity == 0
  }

  function Pow10(n: nat): (p: int)
    ensures p > 0
  {
    if n == 0 then 1 else 10 * Pow10(n - 1)
  }

  function NumericToRat(n: Numeric): real {
    if !Finite(n) then 0.0
    else if n.exp >= 0 then (n.mantissa.value * Pow10(n.exp)) as real
    else n.mantissa.value as real / Pow10(-n.exp) as real
  }

  /** A finite numeric stands for mantissa * 10^exp, for either sign of the exponent; any other one counts as zero. */
  lemma NumericToRatIsExact(n: Numeric)
    ensures Finite(n) && n.exp >= 0 ==> NumericToRat(n) == n.mantissa.value as real * Pow10(n.exp) as real
    ensures Finite(n) && n.exp < 0 ==> NumericToRat(n) * Pow10(-n.exp) as real == n.mantissa.value as real
    ensures !Finite(n) ==> NumericToRat(n) == 0.0
  {
    if Finite(n) && n.exp < 0 { DividedTimes(n.mantissa.value as real, Pow10(-n.exp) as real); }
  }

  lemma DividedTimes(x: real, y: real)
    requires y != 0.0
    ensures x / y * y == x
  {
  }

  // ----- printing -----

  function Digit(d: int): char
    requires 0 <= d < 10
  {
    ['0', '1', '2', '3', '4', '5', '6', '7', '8', '9'][d]
  }

  function DigitValue(c: char): Option<int> {
    if '0' <= c <= '9' then Some(c as int - '0' as int) else None
  }

  function Decimal(n: nat): (s: string)
    ensures |s| >= 1
  {
    if n < 10 then [Digit(n)] else Decimal(n / 10) + [Digit(n % 10)]
  }

  /** The last `k` digits of `n`, padded with zeros. */
  function Padded(n: nat, k: nat): (s: string)
    ensures |s| == k
  {
    if k == 0 then "" else Padded(n / 10, k - 1) + [Digit(n % 10)]
  }

  /** big.Rat.FloatString(4): the magnitude is rounded, the sign is the number's own. */
  function FloatString(x: real): string {
    var units := Round(if x < 0.0 then -x else x, SCALE);
    (if x < 0.0 then "-" else "") + Magnitude(units)
  }

  function Magnitude(units: int): string {
    if units < 0 then "" else Decimal(units / SCALE) + "." + Padded(units % SCALE, 4)
  }

  // ----- reading back -----

  function ParseNat(s: string): Option<nat> {
    if s == "" then Some(0)
    else
      var init := ParseNat(s[..|s| - 1]);
      var last := DigitValue(s[|s| - 1]);
      if init.Some? && last.Some? then Some(10 * init.value + last.value) else None
  }

  /** A decimal with exactly four fraction digits, in units of 10^-4. */
  function ParseUnits(s: string): Option<int> {
    if s != "" && s[0] == '-' then
      var m := ParseMagnitude(s[1..]);
      if m.Some? then Some(-m.value) else None
    else ParseMagnitude(s)
  }

  function ParseMagnitude(s: string): Option<int> {
    if |s| < 6 || s[|s| - 5] != '.' then None
    else
      var whole, fraction := ParseNat(s[..|s| - 5]), ParseNat(s[|s| - 4..]);
      if whole.Some? && fraction.Some? then Some(whole.value * SCALE + fraction.value) else None
  }

  lemma DigitReads(d: int)
    requires 0 <= d < 10
    ensures DigitValue(Digit(d)) == Some(d) && Digit(d) != '-'
  {
  }

  lemma DigitFollows(init: string, d: int, n: nat)
    requires ParseNat(init) == Some(n) && 0 <= d < 10
    ensures ParseNat(init + [Digit(d)]) == Some(10 * n + d)
  {
    DigitReads(d);
    assert (init + [Digit(d)])[..|init|] == init;
  }

  lemma {:induction false} DecimalReads(n: nat)
    ensures ParseNat(Decimal(n)) == Some(n) && Decimal(n)[0] != '-'
    ensures if n == 0 then |Decimal(n)| == 1 else Decimal(n)[0] != '0'
  {
    if n < 10 {
      DigitReads(n);
      assert ParseNat([Digit(n)][..0]) == Some(0);
    } else {
      DecimalReads(n / 10);
      DigitFollows(Decimal(n / 10), n % 10, n / 10);
    }
  }

  lemma TenthBelow(n: nat, k: nat)
    requires k > 0 && n < Pow10(k)
    ensures n / 10 < Pow10(k - 1)
  {
  }

  lemma {:induction false} PaddedReads(n: nat, k: nat)
    requires n < Pow10(k)
    ensures ParseNat(Padded(n, k)) == Some(n)
  {
    if k > 0 {
      TenthBelow(n, k);
      PaddedReads(n / 10, k - 1);
      DigitFollows(Padded(n / 10, k - 1), n % 10, n / 10);
    }
  }

  lemma PointSplits(whole: string, fraction: string)
    requires |fraction| == 4
    ensures var s := whole + "." + fraction;
      s[..|s| - 5] == whole && s[|s| - 4..] == fraction && s[|s| - 5] == '.' && (whole != "" ==> s[0] == whole[0])
  {
  }

  lemma PointReads(whole: string, fraction: string, w: nat, f: nat)
    requires ParseNat(whole) == Some(w) && ParseNat(fraction) == Some(f)
    requires |fraction| == 4 && |whole| >= 1 && whole[0] != '-'
    ensures ParseUnits(whole + "." + fraction) == Some(w * SCALE + f)
    ensures ParseUnits("-" + (whole + "." + fraction)) == Some(-(w * SCALE + f))
  {
    var s := whole + "." + fraction;
    PointSplits(whole, fraction);
    assert ParseMagnitude(s) == Some(w * SCALE + f);
    SignReads(s);
  }

  /** A magnitude does not begin with a sign, and the sign only negates it. */
  lemma SignReads(s: string)
    requires s != "" && s[0] != '-'
    ensures ParseUnits(s) == ParseMagnitude(s)
    ensures ParseMagnitude(s).Some? ==> ParseUnits("-" + s) == Some(-ParseMagnitude(s).value)
  {
    assert ("-" + s)[1..] == s;
  }

  lemma MagnitudeReads(units: int)
    requires units >= 0
    ensures ParseUnits(Magnitude(units)) == Some(units) && ParseUnits("-" + Magnitude(units)) == Some(-units)
  {
    PowersOfTen();
    DecimalReads(units / SCALE);
    PaddedReads(units % SCALE, 4);
    PointReads(Decimal(units / SCALE), Padded(units % SCALE, 4), units / SCALE, units % SCALE);
  }

  /** Reading a printed number back gives the number rounded half away from zero to four decimals; the printed sign
      is the number's own, and a leading zero only stands for a zero whole part. */
  lemma PrintedReadsRounded(x: real)
    ensures ParseUnits(FloatString(x)) == Some(Round(x, SCALE))
    ensures FloatString(x)[0] == '-' <==> x < 0.0
    ensures x >= 0.0 ==> FloatString(x)[0] != '0' || |FloatString(x)| == 6
    ensures x < 0.0 ==> FloatString(x)[1] != '0' || |FloatString(x)| == 7
  {
    var magnitude := if x < 0.0 then -x else x;
    RoundOfMagnitude(x);
    MagnitudeReads(Round(magnitude, SCALE));
    DecimalReads(Round(magnitude, SCALE) / SCALE);
    if x >= 0.0 { assert "" + Magnitude(Round(magnitude, SCALE)) == Magnitude(Round(magnitude, SCALE)); }
  }

  lemma RoundOfMagnitude(x: real)
    ensures var m := Round(if x < 0.0 then -x else x, SCALE);
      m >= 0 && Round(x, SCALE) == if x < 0.0 then -m else m
  {
  }

  // ----- the roll-up -----

  datatype Child = Child(id: string, name: string)

  datatype ReportItem = ReportItem(id: string, name: string, weightedSum: string)

  datatype Report = Report(items: seq<ReportItem>, total: string, grade: Option<string>)

  datatype Error = StoreFailure

  function RatSum(sums: seq<Numeric>): real {
    if sums == [] then 0.0 else RatSum(sums[..|sums| - 1]) + NumericToRat(sums[|sums| - 1])
  }

  ghost predicate Shows(children: seq<Child>, sums: seq<Numeric>, items: seq<ReportItem>) {
    && |children| == |sums| == |items|
    && (forall i :: 0 <= i < |items| ==>
      items[i] == ReportItem(children[i].id, children[i].name, FloatString(NumericToRat(sums[i]))))
  }

  ghost predicate Answers(queries: seq<Option<Numeric>>, sums: seq<Numeric>) {
    |queries| == |sums| && forall i :: 0 <= i < |sums| ==> queries[i] == Some(sums[i])
  }

  /** The items show each child's sum, the total the sum of all of them. */
  ghost predicate Rolled(children: seq<Child>, sums: seq<Numeric>, report: Report) {
    Shows(children, sums, report.items) && report.total == FloatString(RatSum(sums))
  }

  /** handleCategoryReport after the children are known; None is a failed sum query. */
  method CategoryReport(children: seq<Child>, queries: seq<Option<Numeric>>, thresholds: seq<Grades.Threshold>)
    returns (r: Result<Report, Error>, ghost sums: seq<Numeric>)
    requires |queries| == |children| && Grades.SortedDescending(thresholds)
    ensures r.Err? <==> None in queries
    ensures r.Ok? ==> Answers(queries, sums) && Rolled(children, sums, r.value)
    ensures r.Ok? && r.value.grade.Some? ==>
      exists t :: Grades.Highest(thresholds, RatSum(sums), t) && t.letter == r.value.grade.value
    ensures r.Ok? ==> (r.value.grade.None? <==> forall t :: t in thresholds ==> !Grades.Satisfied(t, RatSum(sums)))
  {
    var acc := 0.0;
    var items: seq<ReportItem> := [];
    sums := [];
    for i := 0 to |children|
      invariant acc == RatSum(sums) && Answers(queries[..i], sums) && Shows(children[..i], sums, items)
    {
      if queries[i].None? {
        assert queries[i] in queries;
        return Err(StoreFailure), sums;
      }
      var sum := queries[i].value;
      var item := ReportItem(children[i].id, children[i].name, FloatString(NumericToRat(sum)));
      RatSumSnoc(sums, sum);
      AnswersSnoc(queries, i, sums, sum);
      ShowsSnoc(children, i, sums, items, sum, item);
      acc := acc + NumericToRat(sum);
      items := items + [item];
      sums := sums + [sum];
    }
    assert queries[..|queries|] == queries && children[..|children|] == children;
    var grade := Grades.DetermineGrade(thresholds, acc);
    r := Ok(Report(items, FloatString(acc), if grade.Ok? then Some(grade.value) else None));
  }

  lemma RatSumSnoc(sums: seq<Numeric>, sum: Numeric)
    ensures RatSum(sums + [sum]) == RatSum(sums) + NumericToRat(sum)
  {
  }

  lemma AnswersSnoc(queries: seq<Option<Numeric>>, i: nat, sums: seq<Numeric>, sum: Numeric)
    requires i < |queries| && Answers(queries[..i], sums) && queries[i] == Some(sum)
    ensures Answers(queries[..i + 1], sums + [sum])
  {
  }

  lemma ShowsSnoc(children: seq<Child>, i: nat, sums: seq<Numeric>, items: seq<ReportItem>, sum: Numeric,
      item: ReportItem)
    requires i < |children| && Shows(children[..i], sums, items)
    requires item == ReportItem(children[i].id, children[i].name, FloatString(NumericToRat(sum)))
    ensures Shows(children[..i + 1], sums + [sum], items + [item])
  {
  }

  // ----- exactness -----

  /** A numeric with at most four decimals is this many units of 10^-4, read off its mantissa and exponent. */
  predicate IsUnits(n: Numeric, units: int) {
    n.exp >= -4 && units == if Finite(n) then n.mantissa.value * Pow10(4 + n.exp) else 0
  }

  function Total(units: seq<int>): int {
    if units == [] then 0 else Total(units[..|units| - 1]) + units[|units| - 1]
  }

  lemma Pow10Adds(a: nat, b: nat)
    ensures Pow10(a + b) == Pow10(a) * Pow10(b)
  {
    if a > 0 {
      Pow10Adds(a - 1, b);
      assert Pow10(a + b) == 10 * Pow10(a - 1 + b);
    }
  }

  /** The conversion loses nothing: as a rational, a numeric with at most four decimals is exactly
      mantissa * 10^(4 + exp) units of 10^-4, and zero when it is missing or not finite. */
  lemma FourDecimalsAreUnits(n: Numeric) returns (units: int)
    requires n.exp >= -4
    ensures IsUnits(n, units) && NumericToRat(n) == Value(units, SCALE)
  {
    units := if Finite(n) then n.mantissa.value * Pow10(4 + n.exp) else 0;
    PowersOfTen();
    if Finite(n) && n.exp >= 0 { Pow10Adds(4, n.exp); }
  }

  lemma UnitsAreExact(n: Numeric, units: int)
    requires IsUnits(n, units)
    ensures NumericToRat(n) == Value(units, SCALE)
  {
    var same := FourDecimalsAreUnits(n);
  }

  lemma PowersOfTen()
    ensures Pow10(0) == 1 && Pow10(1) == 10 && Pow10(2) == 100 && Pow10(3) == 1000 && Pow10(4) == 10000
  {
  }

  lemma {:induction false} SumIsTotal(sums: seq<Numeric>, units: seq<int>)
    requires AllUnits(sums, units)
    ensures RatSum(sums) == Value(Total(units), SCALE)
  {
    if sums != [] {
      SumIsTotal(sums[..|sums| - 1], units[..|units| - 1]);
      UnitsAreExact(sums[|sums| - 1], units[|units| - 1]);
    }
  }

  ghost predicate AllUnits(sums: seq<Numeric>, units: seq<int>) {
    |sums| == |units| && forall i :: 0 <= i < |sums| ==> IsUnits(sums[i], units[i])
  }

  lemma {:induction false} UnitsOf(sums: seq<Numeric>) returns (units: seq<int>)
    requires forall i :: 0 <= i < |sums| ==> sums[i].exp >= -4
    ensures AllUnits(sums, units)
  {
    units := [];
    if sums != [] {
      var init := UnitsOf(sums[..|sums| - 1]);
      var u := FourDecimalsAreUnits(sums[|sums| - 1]);
      assert forall i :: 0 <= i < |init| ==> IsUnits(sums[..|sums| - 1][i], init[i]);
      units := init + [u];
    }
  }

  lemma ItemReadsBack(children: seq<Child>, sums: seq<Numeric>, report: Report, units: seq<int>, i: nat)
    requires Rolled(children, sums, report) && AllUnits(sums, units) && i < |units|
    ensures ParseUnits(report.items[i].weightedSum) == Some(units[i])
  {
    UnitsAreExact(sums[i], units[i]);
    UnitsReadBack(NumericToRat(sums[i]), units[i]);
  }

  /** For sums of at most four decimals each printed item reads back to its mantissa * 10^(4 + exp) units, the total
      to exactly the sum of those, and the number that is graded is that sum too. */
  lemma TotalIsSumOfItems(children: seq<Child>, sums: seq<Numeric>, report: Report) returns (units: seq<int>)
    requires Rolled(children, sums, report)
    requires forall i :: 0 <= i < |sums| ==> sums[i].exp >= -4
    ensures AllUnits(sums, units) && |units| == |report.items|
    ensures forall i :: 0 <= i < |units| ==> ParseUnits(report.items[i].weightedSum) == Some(units[i])
    ensures ParseUnits(report.total) == Some(Total(units)) && RatSum(sums) == Value(Total(units), SCALE)
  {
    units := UnitsOf(sums);
    forall i | 0 <= i < |units| ensures ParseUnits(report.items[i].weightedSum) == Some(units[i]) {
      ItemReadsBack(children, sums, report, units, i);
    }
    SumIsTotal(sums, units);
    UnitsReadBack(RatSum(sums), Total(units));
  }

  lemma UnitsReadBack(x: real, units: int)
    requires x == Value(units, SCALE)
    ensures ParseUnits(FloatString(x)) == Some(units)
  {
    PrintedReadsRounded(x);
    RoundExact(units, SCALE);
  }

  /** The unrounded weighted sums of the children, in units of 10^-6. */
  ghost function TrueTotal(rows: Scores.Rows, children: seq<Child>): int {
    if children == [] then 0
    else TrueTotal(rows, children[..|children| - 1]) + Scores.RawSum(rows, children[|children| - 1].id)
  }

  lemma {:induction false} RoundingAddsUp(rows: Scores.Rows, children: seq<Child>, units: seq<int>)
    requires |children| == |units|
    requires forall i :: 0 <= i < |units| ==> SumWeighted(rows, children[i].id) == Ok(units[i])
    ensures -50 * |units| <= 100 * Total(units) - TrueTotal(rows, children) <= 50 * |units|
  {
    if units != [] {
      var n := |units| - 1;
      RoundingAddsUp(rows, children[..n], units[..n]);
      RoundingOnce(rows, children[n].id, units[n]);
    }
  }

  lemma RoundingOnce(rows: Scores.Rows, item: string, units: int)
    requires SumWeighted(rows, item) == Ok(units)
    ensures -50 <= 100 * units - Scores.RawSum(rows, item) <= 50
  {
    var x := Value(Scores.RawSum(rows, item), 1000000);
    RoundError(x, SCALE);
    assert x * SCALE as real == Scores.RawSum(rows, item) as real / 100.0;
  }

  /** The cast overflows exactly when the sum rounds to 10^8 or beyond. */
  lemma SumOverflowsIff(rows: Scores.Rows, item: string)
    ensures var raw := Scores.RawSum(rows, item);
      SumWeighted(rows, item).Err? <==> raw >= 100000000000000 - 50 || raw <= -100000000000000 + 50
  {
    var x := Value(Scores.RawSum(rows, item), 1000000);
    assert x * SCALE as real == Scores.RawSum(rows, item) as real / 100.0;
  }

  /** Each child's sum is what SumWeightedByEvaluationItem returns for it. */
  ghost predicate Queried(rows: Scores.Rows, children: seq<Child>, sums: seq<Numeric>) {
    |children| == |sums| && forall i :: 0 <= i < |sums| ==> QueriedOne(rows, children[i].id, sums[i])
  }

  ghost predicate QueriedOne(rows: Scores.Rows, item: string, sum: Numeric) {
    && sum.exp >= -4 && Finite(sum) && SumWeighted(rows, item).Ok?
    && sum.mantissa.value * Pow10(4 + sum.exp) == SumWeighted(rows, item).value
  }

  /** The printed total is off the exact sum of score * weight over n children by at most n half-units of 10^-4. */
  lemma TotalErrorBound(rows: Scores.Rows, children: seq<Child>, sums: seq<Numeric>, report: Report)
    requires Rolled(children, sums, report) && Queried(rows, children, sums)
    ensures ParseUnits(report.total).Some?
    ensures var error := Value(ParseUnits(report.total).value, SCALE) - Value(TrueTotal(rows, children), 1000000);
      -0.00005 * |children| as real <= error <= 0.00005 * |children| as real
  {
    forall i | 0 <= i < |sums| ensures sums[i].exp >= -4 { assert QueriedOne(rows, children[i].id, sums[i]); }
    var units := TotalIsSumOfItems(children, sums, report);
    UnitsAreQueried(rows, children, sums, units);
    RoundingAddsUp(rows, children, units);
    InUnits(Total(units), TrueTotal(rows, children), |children|);
  }

  lemma UnitsAreQueried(rows: Scores.Rows, children: seq<Child>, sums: seq<Numeric>, units: seq<int>)
    requires Queried(rows, children, sums) && AllUnits(sums, units)
    ensures forall i :: 0 <= i < |units| ==> SumWeighted(rows, children[i].id) == Ok(units[i])
  {
  }

  lemma InUnits(total: int, exact: int, n: nat)
    requires -50 * n <= 100 * total - exact <= 50 * n
    ensures var error := Value(total, SCALE) - Value(exact, 1000000);
      -0.00005 * n as real <= error <= 0.00005 * n as real
  {
    assert 1000000.0 * (Value(total, SCALE) - Value(exact, 1000000)) == (100 * total - exact) as real;
  }
}

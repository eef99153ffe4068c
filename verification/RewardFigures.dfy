/** The figures shown beside a reward pool: ratios and quotas printed by exact rational
    arithmetic, and the sums they are taken from. */
module RewardFigures {
  import opened Basics
  import opened CommunityId
  import opened FixedPoint

  const WAITING: string := "待核对"
  const BOLT: string := " ⚡️"

  // ---- one figure -------------------------------------------------------------------------------

  /** The integer part, and four or six decimals without their trailing zeros. */
  function Figure(whole: nat, part: nat, digits: nat): string {
    var tail := DropZeros(PadStart(FormatUint(part), digits));
    FormatUint(whole) + if tail != "" then "." + tail else ""
  }

  function Marked(exact: bool, body: string): string { if exact then body else "≈" + body }

  /** `formatPulseRatio`; a dash for arguments it does not take. */
  function Ratio(n: int, d: int): string {
    if n < 0 || d <= 0 then "—"
    else
      var scaled := n * 10000 / d;
      if n > 0 && scaled == 0 then "<0.0001"
      else Marked(n * 10000 % d == 0, Figure(scaled / 10000, scaled % 10000, 4))
  }

  /** `formatPulseQuota` in the default language. */
  function Quota(amount: int, perUnit: int): string {
    if !(0 <= amount <= MAX_SAFE) then WAITING
    else if !(0 < perUnit <= MAX_SAFE) then FormatUint(amount) + " quota"
    else
      QuotaFigure(amount, perUnit) + BOLT
  }

  /** `text` is the shortest spelling of q / 10^digits, where q is n / d in those units rounded
      down, and it is marked exactly when something was cut off. */
  ghost predicate Shows(text: string, n: nat, d: nat, digits: nat) {
    exists body :: ShowsAs(text, body, n, d, digits)
  }

  predicate ShowsAs(text: string, body: string, n: nat, d: nat, digits: nat) {
    && WellFormed(body, digits) && Shortest(body) == body
    && var q := Reading(body, digits);
       && q * d <= n * Pow10(digits) < q * d + d
       && text == Marked(q * d == n * Pow10(digits), body)
  }

  lemma FigureReads(whole: nat, part: nat, digits: nat)
    requires digits >= 1 && part < Pow10(digits)
    ensures var body := Figure(whole, part, digits);
            && WellFormed(body, digits) && Shortest(body) == body
            && Reading(body, digits) == whole * Pow10(digits) + part
  {
    var f, tail := FormatUint(whole), PadStart(FormatUint(part), digits);
    FormatShape(whole);
    FormatShape(part);
    FormatFits(part, digits);
    PaddingKeepsValue(FormatUint(part), digits);
    FigureIsStripped(f, tail);
    StrippedReads(f, tail, digits);
  }

  lemma FigureIsStripped(f: string, tail: string)
    requires Numeral(f) && AllDigits(tail) && tail != ""
    ensures var u := DropZeros(tail);
            var body := f + if u != "" then "." + u else "";
            body == StripTail(f + "." + tail) && Shortest(body) == body
  {
    var u := DropZeros(tail);
    StripPointed(f, tail);
    Joined(f, u);
    ShortestBody(f, u, tail);
  }

  lemma ShortestBody(f: string, u: string, tail: string)
    requires Numeral(f) && u == DropZeros(tail)
    ensures Shortest(f) == f
    ensures u != "" ==> Shortest(f + "." + u) == f + "." + u
  {
    NumeralIsShortest(f);
    DropZerosShape(tail);
    if u != "" { FigureIsShortest(f, u); }
  }

  lemma Joined(f: string, u: string)
    ensures f + "" == f && f + ("." + u) == f + "." + u
  {
  }

  lemma NumeralIsShortest(f: string)
    requires Numeral(f)
    ensures Shortest(f) == f
  {
    PartsOf(f, "");
  }

  lemma FigureIsShortest(whole: string, u: string)
    requires u != "" && u[|u| - 1] != '0'
    ensures Shortest(whole + "." + u) == whole + "." + u
  {
    var s := whole + "." + u;
    assert s[|s| - 1] == u[|u| - 1];
  }

  /** The ratio is printed rounded down to four decimals, marked when inexact, and the
      special text appears for exactly the positive ratios below one ten-thousandth. */
  lemma RatioIsRoundedDown(n: nat, d: nat)
    requires d > 0
    ensures Ratio(n, d) == "<0.0001" <==> 0 < n * 10000 < d
    ensures !(0 < n * 10000 < d) ==> Shows(Ratio(n, d), n, d, 4)
  {
    var k := n * 10000;
    var scaled := k / d;
    Floors(k, d, scaled);
    if n > 0 && scaled == 0 {
      assert 0 < k < d;
    } else {
      if n > 0 { ScaledLeast(scaled, d); }
      var body := Figure(scaled / 10000, scaled % 10000, 4);
      StartsWithDigit(scaled / 10000, scaled % 10000, 4);
      NotSpecial(k % d == 0, body);
      TenThousand();
      MarkedFigure(n, d, scaled / 10000, scaled % 10000, 4, scaled, k);
    }
  }

  lemma NotSpecial(exact: bool, body: string)
    requires body != "" && IsDigit(body[0])
    ensures Marked(exact, body) != "<0.0001"
  {
    assert Marked(exact, body)[0] != '<';
  }

  lemma TenThousand()
    ensures Pow10(4) == 10000
  {
  }

  lemma ScaledLeast(q: nat, d: nat)
    requires q > 0
    ensures q * d >= d
  {
  }

  /** A figure of the rounded-down quotient, marked when there is a remainder. */
  lemma MarkedFigure(n: nat, d: nat, whole: nat, part: nat, digits: nat, q: nat, k: nat)
    requires digits >= 1 && part < Pow10(digits)
    requires q == whole * Pow10(digits) + part && k == n * Pow10(digits)
    requires q * d <= k < q * d + d
    ensures Shows(Marked(q * d == k, Figure(whole, part, digits)), n, d, digits)
  {
    FigureReads(whole, part, digits);
    assert ShowsAs(Marked(q * d == k, Figure(whole, part, digits)), Figure(whole, part, digits), n, d, digits);
  }

  lemma StartsWithDigit(whole: nat, part: nat, digits: nat)
    ensures Figure(whole, part, digits) != "" && IsDigit(Figure(whole, part, digits)[0])
  {
    assert FormatUint(whole)[0] in FormatUint(whole);
  }

  // ---- quotients ----------------------------------------------------------------------------------

  lemma Floors(n: nat, d: nat, q: nat)
    requires d > 0 && q == n / d
    ensures q * d <= n < q * d + d && (n % d == 0 <==> q * d == n)
  {
  }

  /** Scaling the whole and the remainder apart is scaling the quotient. */
  lemma ScaledApart(n: nat, d: nat, scale: nat)
    requires d > 0 && scale > 0
    ensures var part := n % d * scale;
            var q := n / d * scale + part / d;
            part / d < scale && q * d <= n * scale < q * d + d && (part % d == 0 <==> q * d == n * scale)
  {
    var w, r := n / d, n % d;
    PartIsSmall(r, d, scale);
    Recombine(n, w, r, d, scale, r * scale, r * scale / d);
  }

  lemma Recombine(n: nat, w: nat, r: nat, d: nat, scale: nat, part: nat, k: nat)
    requires d > 0 && n == w * d + r && part == r * scale && k == part / d
    ensures var q := w * scale + k;
            q * d <= n * scale < q * d + d && (part % d == 0 <==> q * d == n * scale)
  {
    Floors(part, d, k);
    Products(n, w, r, d, scale, k);
  }

  lemma PartIsSmall(r: nat, d: nat, scale: nat)
    requires r < d && scale > 0
    ensures r * scale / d < scale
  {
    var k := r * scale / d;
    Floors(r * scale, d, k);
    Products(r, 0, r, d, scale, k);
    if k >= scale { ScaledDown(k, scale, d); ScaledDown(d, r + 1, scale); }
  }

  lemma Products(n: nat, w: nat, r: nat, d: nat, scale: nat, k: nat)
    requires n == w * d + r
    ensures n * scale == w * scale * d + r * scale
    ensures (w * scale + k) * d == w * scale * d + k * d
    ensures (r + 1) * scale == r * scale + scale && scale * d == d * scale
  {
    assert w * d * scale == w * scale * d;
  }

  lemma ScaledDown(a: nat, b: nat, c: nat)
    requires a >= b
    ensures a * c >= b * c
  {
  }

  /** A quota is printed rounded down to six decimals of a unit, marked when inexact. */
  lemma QuotaIsRoundedDown(amount: nat, perUnit: nat)
    requires amount <= MAX_SAFE && 0 < perUnit <= MAX_SAFE
    ensures exists text :: Shows(text, amount, perUnit, 6) && Quota(amount, perUnit) == text + BOLT
  {
    QuotaFigureShows(amount, perUnit);
    assert Quota(amount, perUnit) == QuotaFigure(amount, perUnit) + BOLT;
  }

  function QuotaFigure(amount: nat, perUnit: nat): string
    requires perUnit > 0
  {
    var part := amount % perUnit * 1000000;
    Marked(part % perUnit == 0, Figure(amount / perUnit, part / perUnit, 6))
  }

  lemma QuotaFigureShows(amount: nat, perUnit: nat)
    requires perUnit > 0
    ensures Shows(QuotaFigure(amount, perUnit), amount, perUnit, 6)
  {
    var whole, part := amount / perUnit, amount % perUnit * 1000000;
    ScaledApart(amount, perUnit, 1000000);
    QuotaFigureAt(amount, perUnit, whole, part, part / perUnit, whole * 1000000 + part / perUnit);
  }

  lemma QuotaFigureAt(amount: nat, perUnit: nat, whole: nat, part: nat, rest: nat, q: nat)
    requires perUnit > 0 && whole == amount / perUnit && part == amount % perUnit * 1000000 && rest == part / perUnit
    requires rest < 1000000 && q == whole * 1000000 + rest
    requires q * perUnit <= amount * 1000000 < q * perUnit + perUnit
    requires part % perUnit == 0 <==> q * perUnit == amount * 1000000
    ensures Shows(QuotaFigure(amount, perUnit), amount, perUnit, 6)
  {
    Million();
    MarkedFigure(amount, perUnit, whole, rest, 6, q, amount * 1000000);
  }

  lemma Million()
    ensures Pow10(6) == 1000000
  {
    assert Pow10(3) == 1000;
  }

  // ---- the pool -----------------------------------------------------------------------------------

  /** An amount or weight that is no safe integer is 0 here: both are refused. */
  datatype Row = Row(kind: string, amount: int, weight: int)
  datatype Stats = Stats(total: int, quotaWeight: int, expWeight: int, quotaAmount: int, expAmount: int)
  datatype Outcome = Ok(stats: Stats) | EmptyPool | InvalidReward | InvalidType | Overflow

  const QUOTA: string := "newapi_quota"
  const EXP: string := "community_exp"

  function Kind(r: Row): string { if r.kind == "" then QUOTA else r.kind }
  predicate Positive(r: Row) { 0 < r.amount <= MAX_SAFE && 0 < r.weight <= MAX_SAFE }
  predicate Known(r: Row) { Kind(r) == QUOTA || Kind(r) == EXP }
  predicate Valid(rows: seq<Row>) { forall r | r in rows :: Positive(r) && Known(r) }

  /** The weight of the rows of one kind. */
  function Weight(rows: seq<Row>, kind: string): int {
    if rows == [] then 0
    else
      var r := rows[|rows| - 1];
      Weight(rows[..|rows| - 1], kind) + if Kind(r) == kind then r.weight else 0
  }

  /** Their amounts, each as often as its weight says. */
  function Worth(rows: seq<Row>, kind: string): int {
    if rows == [] then 0
    else
      var r := rows[|rows| - 1];
      Worth(rows[..|rows| - 1], kind) + if Kind(r) == kind then r.amount * r.weight else 0
  }

  function Total(rows: seq<Row>): int {
    if rows == [] then 0 else Total(rows[..|rows| - 1]) + rows[|rows| - 1].weight
  }

  predicate SumsOf(s: Stats, rows: seq<Row>) {
    s == Stats(Total(rows), Weight(rows, QUOTA), Weight(rows, EXP), Worth(rows, QUOTA), Worth(rows, EXP))
  }

  method PulseRewardStats(rows: seq<Row>) returns (r: Outcome)
    ensures r.EmptyPool? <==> rows == []
    ensures r.InvalidReward? || r.InvalidType? <==> !Valid(rows)
    ensures r.InvalidReward? ==> exists i | 0 <= i < |rows| :: Valid(rows[..i]) && !Positive(rows[i])
    ensures r.InvalidType? ==> exists i | 0 <= i < |rows| :: Valid(rows[..i]) && Positive(rows[i]) && !Known(rows[i])
    ensures r.Overflow? <==> Valid(rows) && Total(rows) > MAX_SAFE
    ensures r.Ok? ==> SumsOf(r.stats, rows)
  {
    var stats := Stats(0, 0, 0, 0, 0);
    if rows == [] { return EmptyPool; }
    for i := 0 to |rows|
      invariant Valid(rows[..i]) && SumsOf(stats, rows[..i])
    {
      var row := rows[i];
      assert row in rows;
      if !(0 < row.amount <= MAX_SAFE && 0 < row.weight <= MAX_SAFE) { return InvalidReward; }
      var kind := if row.kind == "" then QUOTA else row.kind;
      if kind != QUOTA && kind != EXP { return InvalidType; }
      ghost var before := stats;
      stats := stats.(total := stats.total + row.weight);
      if kind == EXP {
        stats := stats.(expWeight := stats.expWeight + row.weight,
                        expAmount := stats.expAmount + row.amount * row.weight);
      } else {
        stats := stats.(quotaWeight := stats.quotaWeight + row.weight,
                        quotaAmount := stats.quotaAmount + row.amount * row.weight);
      }
      NextRow(rows, i, before);
    }
    assert rows[..|rows|] == rows;
    if stats.total > MAX_SAFE { return Overflow; }
    r := Ok(stats);
  }

  function Counted(s: Stats, r: Row): Stats {
    var t := s.(total := s.total + r.weight);
    if Kind(r) == EXP
    then t.(expWeight := t.expWeight + r.weight, expAmount := t.expAmount + r.amount * r.weight)
    else t.(quotaWeight := t.quotaWeight + r.weight, quotaAmount := t.quotaAmount + r.amount * r.weight)
  }

  lemma NextRow(rows: seq<Row>, i: nat, s: Stats)
    requires i < |rows| && Valid(rows[..i]) && SumsOf(s, rows[..i]) && Positive(rows[i]) && Known(rows[i])
    ensures Valid(rows[..i + 1]) && SumsOf(Counted(s, rows[i]), rows[..i + 1])
  {
    assert rows[..i + 1] == rows[..i] + [rows[i]];
    OneMoreRow(rows[..i], rows[i], QUOTA);
    OneMoreRow(rows[..i], rows[i], EXP);
  }

  lemma OneMoreRow(rows: seq<Row>, r: Row, kind: string)
    ensures Total(rows + [r]) == Total(rows) + r.weight
    ensures Weight(rows + [r], kind) == Weight(rows, kind) + if Kind(r) == kind then r.weight else 0
    ensures Worth(rows + [r], kind) == Worth(rows, kind) + if Kind(r) == kind then r.amount * r.weight else 0
  {
    assert (rows + [r])[..|rows|] == rows;
  }

  /** The weights of the two kinds make up the whole pool. */
  lemma {:induction false} KindsCoverPool(rows: seq<Row>)
    requires Valid(rows)
    ensures Total(rows) == Weight(rows, QUOTA) + Weight(rows, EXP) >= |rows|
    ensures Weight(rows, QUOTA) >= 0 && Weight(rows, EXP) >= 0
  {
    if rows != [] {
      var n := |rows| - 1;
      assert rows[n] in rows;
      KindsCoverPool(rows[..n]);
    }
  }

  // ---- the printed probabilities ------------------------------------------------------------------

  /** `formatPulseProbability` of two integers. */
  function Probability(weight: int, total: int): string {
    if weight < 0 || weight > total || total <= 0 then "—" else Ratio(weight * 100, total) + "%"
  }

  /** `text` is a percentage: the shortest spelling of q ten-thousandths, marked unless exact. */
  ghost predicate Prints(text: string, q: nat, exact: bool) {
    exists body :: PrintsAs(text, body, q, exact)
  }

  predicate PrintsAs(text: string, body: string, q: nat, exact: bool) {
    WellFormed(body, 4) && Shortest(body) == body && Reading(body, 4) == q && text == Marked(exact, body) + "%"
  }

  lemma OneQuotient(n: nat, d: nat, q: nat)
    requires d > 0 && q * d <= n < q * d + d
    ensures q == n / d && (q * d == n <==> n % d == 0)
  {
    var p := n / d;
    Floors(n, d, p);
    if p > q { ScaleGap(p, q, d); }
    if q > p { ScaleGap(q, p, d); }
  }

  /** One percentage: rounded down to a ten-thousandth, marked when inexact, with the special
      text for exactly the positive shares below that. */
  lemma ProbabilityPrints(weight: nat, total: nat)
    requires weight <= total && total > 0
    ensures var n, text := weight * 1000000, Probability(weight, total);
            if 0 < n < total then text == "<0.0001%" else Prints(text, n / total, n % total == 0)
  {
    var n := weight * 1000000;
    RatioIsRoundedDown(weight * 100, total);
    assert weight * 100 * 10000 == n;
    if !(0 < n < total) {
      TenThousand();
      var body :| ShowsAs(Ratio(weight * 100, total), body, weight * 100, total, 4);
      OneQuotient(n, total, Reading(body, 4));
      assert PrintsAs(Probability(weight, total), body, n / total, n % total == 0);
    }
  }

  /** The two percentages printed for a pool. Either both are numbers, and these add up to 100
      or fall a ten-thousandth short, adding up exactly when neither is marked; or one share is
      too small for a number, and then the other is printed as just short of 100. */
  lemma ProbabilitiesComplement(rows: seq<Row>)
    requires rows != [] && Valid(rows)
    ensures Complementary(Probability(Weight(rows, QUOTA), Total(rows)), Probability(Weight(rows, EXP), Total(rows)))
  {
    KindsCoverPool(rows);
    var quota, exp, total := Weight(rows, QUOTA), Weight(rows, EXP), Total(rows);
    ProbabilityPrints(quota, total);
    ProbabilityPrints(exp, total);
    TwoFloors(quota * 1000000, exp * 1000000, total, 1000000);
    if 0 < quota * 1000000 < total {
      AlmostAll(quota, exp, total);
    } else if 0 < exp * 1000000 < total {
      AlmostAll(exp, quota, total);
    } else {
      var exact := quota * 1000000 % total == 0;
      assert PrintTogether(Probability(quota, total), Probability(exp, total),
                           quota * 1000000 / total, exp * 1000000 / total, exact);
    }
  }

  ghost predicate Complementary(a: string, b: string) {
    || (exists p, q, exact :: PrintTogether(a, b, p, q, exact))
    || (a == "<0.0001%" && b == "≈99.9999%")
    || (b == "<0.0001%" && a == "≈99.9999%")
  }

  ghost predicate PrintTogether(a: string, b: string, p: nat, q: nat, exact: bool) {
    Prints(a, p, exact) && Prints(b, q, exact) && p + q == if exact then 1000000 else 999999
  }

  /** Beside a share too small to print stands the largest inexact one. */
  lemma AlmostAll(small: nat, rest: nat, total: nat)
    requires small + rest == total && 0 < small * 1000000 < total
    ensures Probability(rest, total) == "≈99.9999%"
  {
    var n := rest * 1000000;
    assert n == 999999 * total + (total - small * 1000000);
    OneQuotient(n, total, 999999);
    assert Ratio(rest * 100, total) == Marked(false, Figure(99, 9999, 4));
    NinetyNine();
  }

  lemma NinetyNine()
    ensures Marked(false, Figure(99, 9999, 4)) + "%" == "≈99.9999%"
  {
    assert FormatUint(99) == "99";
    assert FormatUint(99) + "99" == "9999" && FormatUint(999) == "999" && FormatUint(9999) == "9999";
    assert DropZeros("9999") == "9999";
    assert Figure(99, 9999, 4) == "99" + ("." + "9999");
  }

  lemma TwoFloors(a: nat, b: nat, d: nat, k: nat)
    requires d > 0 && k > 0 && a + b == k * d
    ensures k - 1 <= a / d + b / d <= k
    ensures (a / d + b / d == k <==> a % d == 0) && (a / d + b / d == k <==> b % d == 0)
  {
    var p, q := a / d, b / d;
    Floors(a, d, p);
    Floors(b, d, q);
    Spread(p, q, d);
    if p + q > k { ScaleGap(p + q, k, d); }
    if p + q + 1 < k { ScaleGap(k, p + q + 1, d); }
    if p + q + 1 == k { assert k * d == p * d + q * d + d; }
    if p + q == k { assert k * d == p * d + q * d; }
  }

  lemma Spread(p: nat, q: nat, d: nat)
    ensures (p + q) * d == p * d + q * d && (p + q + 1) * d == p * d + q * d + d
  {
  }

  // ---- the recommended pool -----------------------------------------------------------------------

  /** `recommendedRewards`: nothing unless a unit splits in four and twenty-five units are safe. */
  function RecommendedRewards(unit: int): Option<seq<Row>> {
    if !(0 < unit <= MAX_SAFE) || unit % 4 != 0 || unit * 25 > MAX_SAFE then None
    else Some([Row("", unit / 4, 44000), Row("", unit, 5000), Row("", unit * 5, 800), Row("", unit * 25, 200),
               Row(EXP, 1, 28000), Row(EXP, 4, 12000), Row(EXP, 20, 10000)])
  }

  /** It is offered exactly for units that split in four and of which twenty-five are exact; its
      prizes are a quarter, one, five and twenty-five units, and 1, 4 and 20 experience. */
  lemma OfferedExactly(unit: int)
    ensures RecommendedRewards(unit).Some? <==> 1 <= unit && unit % 4 == 0 && unit * 25 <= 9007199254740991
    ensures RecommendedRewards(unit).Some? ==>
              var rows := RecommendedRewards(unit).value;
              && |rows| == 7 && rows[0].amount * 4 == unit && rows[1].amount == unit
              && rows[2].amount == 5 * unit && rows[3].amount == 25 * unit
              && rows[4].amount == 1 && rows[5].amount == 4 && rows[6].amount == 20
              && (forall i | 0 <= i < 7 :: Kind(rows[i]) == if i < 4 then "newapi_quota" else "community_exp")
  {
  }

  /** Whenever it is offered, the recommended pool is valid; half its weight is quota, a draw
      is worth a quarter of a unit on average, and 2.76 experience. */
  lemma RecommendedPool(unit: int)
    requires RecommendedRewards(unit).Some?
    ensures var rows := RecommendedRewards(unit).value;
            && Valid(rows) && Total(rows) == 100000 && Weight(rows, QUOTA) == Weight(rows, EXP) == 50000
            && Worth(rows, QUOTA) * 4 == unit * Total(rows) && Worth(rows, EXP) * 100 == 276 * Total(rows)
  {
    var rows := RecommendedRewards(unit).value;
    var s := Stats(0, 0, 0, 0, 0);
    for i := 0 to 7
      invariant s == [Stats(0, 0, 0, 0, 0), Stats(44000, 44000, 0, 11000 * unit, 0),
                      Stats(49000, 49000, 0, 16000 * unit, 0), Stats(49800, 49800, 0, 20000 * unit, 0),
                      Stats(50000, 50000, 0, 25000 * unit, 0), Stats(78000, 50000, 28000, 25000 * unit, 28000),
                      Stats(90000, 50000, 40000, 25000 * unit, 76000),
                      Stats(100000, 50000, 50000, 25000 * unit, 276000)][i]
      invariant Valid(rows[..i]) && SumsOf(s, rows[..i])
    {
      NextRow(rows, i, s);
      s := Counted(s, rows[i]);
    }
    assert rows[..7] == rows;
  }

  // ---- what is not printed as a figure ---------------------------------------------------------

  /** A dash stands for arguments without a ratio, and for nothing else. */
  lemma DashExactly(n: int, d: int)
    ensures Ratio(n, d) == "—" <==> n < 0 || d <= 0
    ensures Probability(n, d) == "—" <==> n < 0 || n > d || d <= 0
  {
    if n >= 0 && d > 0 { RatioIsNoDash(n, d); }
    if 0 <= n <= d && d > 0 {
      RatioIsNoDash(n * 100, d);
      assert |Probability(n, d)| >= 2;
    }
  }

  lemma RatioIsNoDash(n: nat, d: nat)
    requires d > 0
    ensures Ratio(n, d) != "—" && Ratio(n, d) != ""
  {
    RatioIsRoundedDown(n, d);
    if 0 < n * 10000 < d { assert |"<0.0001"| == 7; } else { ShownIsNoDash(Ratio(n, d), n, d); }
  }

  lemma ShownIsNoDash(text: string, n: nat, d: nat)
    requires Shows(text, n, d, 4)
    ensures text != "—" && text != ""
  {
    var body := BodyOf(text, n, d);
    BodyStarts(body);
    MarkedIsNoDash(true, body);
    MarkedIsNoDash(false, body);
  }

  lemma BodyOf(text: string, n: nat, d: nat) returns (body: string)
    requires Shows(text, n, d, 4)
    ensures WellFormed(body, 4) && (text == Marked(true, body) || text == Marked(false, body))
  {
    body :| ShowsAs(text, body, n, d, 4);
  }

  lemma MarkedIsNoDash(exact: bool, body: string)
    requires body != "" && IsDigit(body[0])
    ensures Marked(exact, body) != "—" && Marked(exact, body) != ""
  {
    if exact { assert body[0] != '—'; } else { assert |Marked(exact, body)| >= 2; }
  }

  lemma BodyStarts(body: string)
    requires WellFormed(body, 4)
    ensures body != "" && IsDigit(body[0])
  {
    assert Whole(body)[0] in Whole(body);
    assert body[0] == Whole(body)[0];
  }

  /** Without an exact amount there is only a notice; without a unit the bare number. */
  lemma QuotaOtherwise(amount: int, perUnit: int)
    ensures amount < 0 || amount > 9007199254740991 ==> Quota(amount, perUnit) == "待核对"
    ensures 0 <= amount <= 9007199254740991 && (perUnit <= 0 || perUnit > 9007199254740991) ==>
              Quota(amount, perUnit) == FormatUint(amount) + " quota"
  {
  }
}

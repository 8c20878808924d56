/**
 The cost of a completion (padhanam/config/inference.py, `cost_for`) in Python's
 default decimal arithmetic: 28 significant digits, ties to even. Token counts
 are natural numbers, prices are not negative.
 */
module TokenCost {
  import opened JsonText
  import opened Decimals

  /** The number `coefficient * 10^exponent`. */
  datatype Amount = Amount(coefficient: nat, exponent: int)

  /** How many digits a coefficient has beyond 28. */
  function Excess(n: nat): nat { if n < MAX_COEFFICIENT then 0 else 1 + Excess(n / 10) }

  /** The quotient rounded to the nearest, ties to even. */
  function RoundedQuotient(n: nat, d: nat): nat
    requires d > 0
  {
    var q, r := n / d, n % d;
    if 2 * r > d || (2 * r == d && q % 2 == 1) then q + 1 else q
  }

  /** The context's rounding. */
  function Rounded(a: Amount): Amount {
    var k := Excess(a.coefficient);
    if k == 0 then a else Amount(RoundedQuotient(a.coefficient, Pow10(k)), a.exponent + k)
  }

  /** `Decimal(tokens) / Decimal(1_000_000)`. */
  function Millionths(tokens: nat): Amount { Rounded(Amount(tokens, -6)) }

  function Times(a: Amount, b: Amount): Amount {
    Rounded(Amount(a.coefficient * b.coefficient, a.exponent + b.exponent))
  }

  /** The sum before rounding, at the smaller exponent. */
  function ExactSum(a: Amount, b: Amount): Amount {
    if a.exponent <= b.exponent then
      Amount(a.coefficient + b.coefficient * Pow10(b.exponent - a.exponent), a.exponent)
    else
      Amount(a.coefficient * Pow10(a.exponent - b.exponent) + b.coefficient, b.exponent)
  }

  function Plus(a: Amount, b: Amount): Amount { Rounded(ExactSum(a, b)) }

  datatype Pricing = Pricing(input: Amount, output: Amount)

  datatype Breakdown = Breakdown(input: Amount, output: Amount, total: Amount)

  const PRICING_TABLE: map<string, Pricing> := map[
    "qwen2.5:7b" := Pricing(Amount(0, 0), Amount(0, 0)),
    "gpt-4o-mini" := Pricing(Amount(150, -3), Amount(600, -3)),
    "nomic-embed-text:v1.5" := Pricing(Amount(0, 0), Amount(0, 0))
  ]

  /** None stands for `UnknownModelError`. */
  function CostFor(model: string, inputTokens: nat, outputTokens: nat, table: map<string, Pricing>): Option<Breakdown> {
    if model !in table then None
    else
      var input := Times(Millionths(inputTokens), table[model].input);
      var output := Times(Millionths(outputTokens), table[model].output);
      Some(Breakdown(input, output, Plus(input, output)))
  }

  // ---------------------------------------------------------------- rounding

  lemma DivisionLoses(n: nat, d: nat)
    requires d > 0
    ensures RoundedQuotient(n, d) * d == n <==> n % d == 0
  {
    var q, r := n / d, n % d;
    assert n == q * d + r;
    assert (q + 1) * d == q * d + d;
  }

  /** The quotient is a nearest whole number, and the even one of two equally near. */
  lemma RoundsToNearestEven(n: nat, d: nat)
    requires d > 0
    ensures var r := RoundedQuotient(n, d);
            && 2 * (r * d) <= 2 * n + d && 2 * n <= 2 * (r * d) + d
            && (2 * (r * d) == 2 * n + d || 2 * n == 2 * (r * d) + d ==> r % 2 == 0)
  {
    var q, r := n / d, n % d;
    assert n == q * d + r;
    assert (q + 1) * d == q * d + d;
  }

  /** Rounding loses nothing exactly when the digits it drops are zeros. */
  lemma RoundingLoses(a: Amount)
    ensures var k := Excess(a.coefficient);
            Rounded(a).exponent == a.exponent + k &&
            (Rounded(a).coefficient * Pow10(k) == a.coefficient <==> a.coefficient % Pow10(k) == 0)
  {
    DivisionLoses(a.coefficient, Pow10(Excess(a.coefficient)));
  }

  // ---------------------------------------------------------------- exactness

  /** The exact cost of the tokens on one side, in the price's unit over a million. */
  function Exact(tokens: nat, price: Amount): Amount { Amount(tokens * price.coefficient, price.exponent - 6) }

  /** Neither the counts, nor the products, nor the sum need more than 28 digits. */
  predicate Fits(inputTokens: nat, outputTokens: nat, p: Pricing) {
    && inputTokens < MAX_COEFFICIENT
    && outputTokens < MAX_COEFFICIENT
    && Exact(inputTokens, p.input).coefficient < MAX_COEFFICIENT
    && Exact(outputTokens, p.output).coefficient < MAX_COEFFICIENT
    && ExactSum(Exact(inputTokens, p.input), Exact(outputTokens, p.output)).coefficient < MAX_COEFFICIENT
  }

  lemma SideIsExact(tokens: nat, price: Amount)
    requires tokens < MAX_COEFFICIENT && tokens * price.coefficient < MAX_COEFFICIENT
    ensures Times(Millionths(tokens), price) == Exact(tokens, price)
  {
  }

  /** While the count itself fits, one side's cost is exact exactly when its product has only zeros to lose. */
  lemma SideIsExactWhen(tokens: nat, price: Amount)
    requires tokens < MAX_COEFFICIENT
    ensures var cost, exact := Times(Millionths(tokens), price), Exact(tokens, price);
            var k := Excess(exact.coefficient);
            cost.exponent == exact.exponent + k &&
            (cost.coefficient * Pow10(k) == exact.coefficient <==> exact.coefficient % Pow10(k) == 0)
  {
    RoundingLoses(Exact(tokens, price));
  }

  /** The exact cost of both sides together. */
  function ExactTotal(i: nat, o: nat, p: Pricing): Amount { ExactSum(Exact(i, p.input), Exact(o, p.output)) }

  /** While both sides fit, the total is exact exactly when their sum has only zeros to lose. */
  lemma TotalIsExactWhen(model: string, i: nat, o: nat, table: map<string, Pricing>)
    requires model in table && i < MAX_COEFFICIENT && o < MAX_COEFFICIENT
    requires Exact(i, table[model].input).coefficient < MAX_COEFFICIENT
    requires Exact(o, table[model].output).coefficient < MAX_COEFFICIENT
    ensures CostFor(model, i, o, table).Some?
    ensures var total, exact := CostFor(model, i, o, table).value.total, ExactTotal(i, o, table[model]);
            var k := Excess(exact.coefficient);
            total.exponent == exact.exponent + k &&
            (total.coefficient * Pow10(k) == exact.coefficient <==> exact.coefficient % Pow10(k) == 0)
  {
    SideIsExact(i, table[model].input);
    SideIsExact(o, table[model].output);
    RoundingLoses(ExactTotal(i, o, table[model]));
  }

  /** Within 28 digits a cost is exact, for any table. */
  lemma CostIsExact(model: string, i: nat, o: nat, table: map<string, Pricing>)
    requires model in table && Fits(i, o, table[model])
    ensures var p := table[model];
            CostFor(model, i, o, table) == Some(Breakdown(Exact(i, p.input), Exact(o, p.output), ExactTotal(i, o, p)))
  {
    SideIsExact(i, table[model].input);
    SideIsExact(o, table[model].output);
  }

  lemma Distributes(i: nat, j: nat, c: nat)
    ensures (i + j) * c == i * c + j * c
  {
  }

  function Joined(a: Amount, b: Amount): Amount { Amount(a.coefficient + b.coefficient, a.exponent) }

  /** `whole` is the sum of `a` and `b`, digit for digit. */
  predicate IsSum(whole: Amount, a: Amount, b: Amount) {
    whole.exponent == a.exponent == b.exponent && whole.coefficient == a.coefficient + b.coefficient
  }

  lemma SumOfSums(a: Amount, b: Amount, c: Amount, d: Amount)
    requires a.exponent == c.exponent && b.exponent == d.exponent
    ensures IsSum(ExactSum(Joined(a, c), Joined(b, d)), ExactSum(a, b), ExactSum(c, d))
  {
    if a.exponent <= b.exponent {
      Distributes(b.coefficient, d.coefficient, Pow10(b.exponent - a.exponent));
    } else {
      Distributes(a.coefficient, c.coefficient, Pow10(a.exponent - b.exponent));
    }
  }

  lemma {:induction false} PartFits(i: nat, o: nat, j: nat, u: nat, p: Pricing)
    requires Fits(i + j, o + u, p)
    ensures Fits(i, o, p) && Fits(j, u, p)
    ensures IsSum(ExactTotal(i + j, o + u, p), ExactTotal(i, o, p), ExactTotal(j, u, p))
  {
    Distributes(i, j, p.input.coefficient);
    Distributes(o, u, p.output.coefficient);
    SumOfSums(Exact(i, p.input), Exact(o, p.output), Exact(j, p.input), Exact(u, p.output));
  }

  /** Within 28 digits the cost of a whole is the sum of the costs of its parts, however it is split. */
  lemma {:induction false} CostIsAdditive(model: string, i: nat, o: nat, j: nat, u: nat, table: map<string, Pricing>)
    requires model in table && Fits(i + j, o + u, table[model])
    ensures CostFor(model, i + j, o + u, table).Some? && CostFor(model, i, o, table).Some? &&
            CostFor(model, j, u, table).Some?
    ensures IsSum(CostFor(model, i + j, o + u, table).value.total,
                  CostFor(model, i, o, table).value.total, CostFor(model, j, u, table).value.total)
  {
    PartFits(i, o, j, u, table[model]);
    CostIsExact(model, i + j, o + u, table);
    CostIsExact(model, i, o, table);
    CostIsExact(model, j, u, table);
  }

  // ---------------------------------------------------------------- the table

  /** At the table's prices every count below 10^18 fits. */
  lemma TableFits(model: string, i: nat, o: nat)
    requires model in PRICING_TABLE && i < 1_000_000_000_000_000_000 && o < 1_000_000_000_000_000_000
    ensures Fits(i, o, PRICING_TABLE[model])
  {
  }

  /** Beyond 28 digits a cost may lose a token. */
  lemma {:induction false} BeyondTheBound()
    ensures var i := MAX_COEFFICIENT + 1;
            CostFor("gpt-4o-mini", i, 0, PRICING_TABLE) == CostFor("gpt-4o-mini", i - 1, 0, PRICING_TABLE)
  {
    var n := MAX_COEFFICIENT;
    assert Pow10(0) == 1 && Pow10(1) == 10;
    assert Excess(n / 10) == 0;
    assert Excess(n) == 1 && Excess(n + 1) == 1;
    assert Millionths(n) == Amount(n / 10, -5);
    assert Millionths(n + 1) == Amount(n / 10, -5);
  }

  /** Dropping the last digit of a number that ends in `r`. */
  lemma DropDigit(m: nat, p: nat, r: nat)
    requires p > 0
    ensures m * (10 * p) == 10 * (m * p) >= 10 * m
    ensures (m * (10 * p) + r) / 10 == m * p + r / 10
  {
  }

  lemma {:induction false} ExcessOf(m: nat, k: nat, r: nat)
    requires MAX_COEFFICIENT <= 10 * m && m < MAX_COEFFICIENT && r < Pow10(k)
    ensures Excess(m * Pow10(k) + r) == k
  {
    if k > 0 {
      DropDigit(m, Pow10(k - 1), r);
      ExcessOf(m, k - 1, r / 10);
    }
  }

  lemma {:induction false} MultiplesGrow(a: nat, b: nat, d: nat)
    requires a < b
    ensures a * d + d <= b * d
  {
    Distributes(b - 1, 1, d);
    if a < b - 1 {
      MultiplesGrow(a, b - 1, d);
    }
  }

  lemma QuotientIs(m: nat, d: nat, r: nat)
    requires r < d
    ensures (m * d + r) / d == m && (m * d + r) % d == r
  {
    var q, s := (m * d + r) / d, (m * d + r) % d;
    assert q * d + s == m * d + r;
    if q < m {
      MultiplesGrow(q, m, d);
    } else if m < q {
      MultiplesGrow(m, q, d);
    }
  }

  lemma RoundedDown(m: nat, d: nat, r: nat)
    requires 2 * r < d
    ensures RoundedQuotient(m * d + r, d) == m
  {
    QuotientIs(m, d, r);
  }

  lemma TenToThe27()
    ensures Pow10(27) == 1_000_000_000_000_000_000_000_000_000
    ensures Pow10(28) == 10_000_000_000_000_000_000_000_000_000
  {
    assert Pow10(0) == 1;
    assert Pow10(3) == 1000;
    assert Pow10(6) == 1_000_000;
    assert Pow10(9) == 1_000_000_000;
    Pow10Sum(9, 9);
    Pow10Sum(18, 9);
    assert Pow10(28) == 10 * Pow10(27);
  }

  /** A count of 29 digits that ends in six, and a price whose product with it ends in 27 zeros. */
  const CANCELLING_COUNT: nat := 79_228_162_514_264_337_593_543_950_336

  const CANCELLING_PRICE := Amount(363_797_880_709_171_295_166_015_625, 0)

  const CANCELLING_COST: nat := 2_882_303_761_517_117_440_000_000_000

  lemma CountIsRounded()
    ensures Millionths(CANCELLING_COUNT) == Amount(7_922_816_251_426_433_759_354_395_034, -5)
  {
    assert Pow10(0) == 1 && Pow10(1) == 10;
    assert Excess(CANCELLING_COUNT) == 1;
  }

  lemma ProductIsRounded()
    ensures Times(Amount(7_922_816_251_426_433_759_354_395_034, -5), CANCELLING_PRICE) == Amount(CANCELLING_COST, 22)
  {
    var r := 145_519_152_283_668_518_066_406_250;
    TenToThe27();
    ExcessOf(CANCELLING_COST, 27, r);
    RoundedDown(CANCELLING_COST, Pow10(27), r);
  }

  /**
   Beyond 28 digits no condition on the digits dropped decides: here a count loses
   its last digit, and rounding the product makes up for it.
   */
  lemma TwoRoundingsMayCancel()
    ensures Millionths(CANCELLING_COUNT).coefficient * 10 != CANCELLING_COUNT
    ensures Times(Millionths(CANCELLING_COUNT), CANCELLING_PRICE) == Amount(CANCELLING_COST, 22)
    ensures Exact(CANCELLING_COUNT, CANCELLING_PRICE) == Amount(CANCELLING_COST * Pow10(28), -6)
  {
    CountIsRounded();
    ProductIsRounded();
    TenToThe27();
  }

  /** At the table's prices: 0.150 and 0.600 dollars a million tokens for the one hosted model, else nothing. */
  lemma {:induction false} TableTariff(model: string, i: nat, o: nat)
    requires i < 1_000_000_000_000_000_000 && o < 1_000_000_000_000_000_000
    ensures CostFor(model, i, o, PRICING_TABLE) == None <==>
            model != "gpt-4o-mini" && model != "qwen2.5:7b" && model != "nomic-embed-text:v1.5"
    ensures model == "gpt-4o-mini" ==>
              CostFor(model, i, o, PRICING_TABLE) ==
              Some(Breakdown(Amount(150 * i, -9), Amount(600 * o, -9), Amount(150 * i + 600 * o, -9)))
    ensures model == "qwen2.5:7b" || model == "nomic-embed-text:v1.5" ==>
              CostFor(model, i, o, PRICING_TABLE) == Some(Breakdown(Amount(0, -6), Amount(0, -6), Amount(0, -6)))
  {
    if model in PRICING_TABLE {
      TableFits(model, i, o);
      CostIsExact(model, i, o, PRICING_TABLE);
      assert Pow10(0) == 1;
    }
  }
}

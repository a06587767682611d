/** Position sizing: the largest number of lots whose rounded, charge-inclusive amounts fit a
    budget, found by binary search. Amounts are exact reals; only the explicit rounding to
    paise is kept. */
module PositionSizing {
  import opened Outcomes

  const EPSILON := 1.0 / 4503599627370496.0
  const MAX_SAFE_INTEGER := 9007199254740991

  /** Rounds to two decimals, halves up, after a nudge of one epsilon. */
  function RoundMoney(v: real): real {
    ((v + EPSILON) * 100.0 + 0.5).Floor as real / 100.0
  }

  datatype Charges = Charges(fixedPerOrder: real, entryRate: real, exitRate: real) {
    predicate Valid() {
      fixedPerOrder >= 0.0 && 0.0 <= entryRate < 1.0 && 0.0 <= exitRate < 1.0
    }
  }

  datatype Request = Request(capital: real, riskPercent: real, allocationPercent: real, entryAsk: real, stop: real, lotSize: int) {
    predicate Valid() {
      && capital > 0.0 && 0.0 < riskPercent <= 2.0 && 0.0 < allocationPercent <= 100.0
      && entryAsk > 0.0 && 0.0 < stop < entryAsk
      && 0 < lotSize <= MAX_SAFE_INTEGER
    }
  }

  datatype Kind = EstimatedRisk | CapitalRequired

  datatype Amounts = Amounts(lots: int, quantity: int, entryPremium: real, entryCharges: real,
                             exitCharges: real, charges: real, capitalRequired: real, estimatedRisk: real)

  /** A quantity valued at a price. */
  function Price(price: real, quantity: int): real {
    price * (quantity as real)
  }

  /** A share of an amount. */
  function Share(amount: real, rate: real): real {
    amount * rate
  }

  function Quantity(lots: int, lotSize: int): int {
    lots * lotSize
  }

  function AmountsForLots(lots: int, r: Request, c: Charges): Amounts {
    if lots == 0 then Amounts(0, 0, 0.0, 0.0, 0.0, 0.0, 0.0, 0.0)
    else
      var quantity := Quantity(lots, r.lotSize);
      var entryPremium := RoundMoney(Price(r.entryAsk, quantity));
      var exitNotional := RoundMoney(Price(r.stop, quantity));
      var entryCharges := RoundMoney(c.fixedPerOrder + Share(entryPremium, c.entryRate));
      var exitCharges := RoundMoney(c.fixedPerOrder + Share(exitNotional, c.exitRate));
      var charges := RoundMoney(entryCharges + exitCharges);
      Amounts(lots, quantity, entryPremium, entryCharges, exitCharges, charges,
              RoundMoney(entryPremium + charges),
              RoundMoney(Price(r.entryAsk - r.stop, quantity) + charges))
  }

  /** The amount that is compared with the budget. */
  function Amount(lots: int, r: Request, c: Charges, kind: Kind): real {
    var a := AmountsForLots(lots, r, c);
    if kind == EstimatedRisk then a.estimatedRisk else a.capitalRequired
  }

  function BasePerLot(r: Request, kind: Kind): real {
    Price(if kind == EstimatedRisk then r.entryAsk - r.stop else r.entryAsk, r.lotSize)
  }

  function SafeLots(r: Request): int
    requires r.lotSize > 0
  {
    MAX_SAFE_INTEGER / r.lotSize
  }

  /** Where the search starts from above. */
  function SearchTop(budget: real, r: Request, kind: Kind): int
    requires r.Valid() && BasePerLot(r, kind) > 0.0
  {
    var guess := (budget / BasePerLot(r, kind)).Floor;
    var top := if guess < 0 then 0 else guess;
    if top < SafeLots(r) then top else SafeLots(r)
  }

  // ----- rounding -----

  lemma FloorMonotone(a: real, b: real)
    requires a <= b
    ensures a.Floor <= b.Floor
  {
  }

  lemma RoundMonotone(a: real, b: real)
    requires a <= b
    ensures RoundMoney(a) <= RoundMoney(b)
  {
    FloorMonotone((a + EPSILON) * 100.0 + 0.5, (b + EPSILON) * 100.0 + 0.5);
  }

  /** Rounding moves a value by at most half a paisa and the epsilon. */
  lemma RoundNear(v: real)
    ensures v - 0.005 < RoundMoney(v) <= v + 0.005 + EPSILON
  {
  }

  lemma RoundNonNegative(v: real)
    requires v >= 0.0
    ensures RoundMoney(v) >= 0.0
  {
  }

  /** A whole number of paise rounds to itself. */
  lemma RoundPaise(n: int)
    ensures RoundMoney(n as real / 100.0) == n as real / 100.0
  {
    var x := (n as real / 100.0 + EPSILON) * 100.0 + 0.5;
    assert x.Floor == n;
  }

  // ----- monotone amounts -----

  lemma PriceMonotone(x: real, a: int, b: int)
    requires x >= 0.0 && 0 <= a <= b
    ensures 0.0 <= Price(x, a) <= Price(x, b)
  {
    NonNegativeProduct(x, a as real);
    NonNegativeProduct(x, (b - a) as real);
    assert x * (b as real) == x * (a as real) + x * ((b - a) as real);
  }

  lemma ShareMonotone(a: real, b: real, rate: real)
    requires rate >= 0.0 && 0.0 <= a <= b
    ensures 0.0 <= Share(a, rate) <= Share(b, rate)
  {
    NonNegativeProduct(a, rate);
    NonNegativeProduct(b - a, rate);
    assert b * rate == a * rate + (b - a) * rate;
  }

  lemma {:induction false} QuantityMonotone(a: int, b: int, m: int)
    requires m > 0 && 0 <= a <= b
    ensures 0 <= Quantity(a, m) <= Quantity(b, m)
    ensures 0 < a ==> 0 < Quantity(a, m)
    decreases b
  {
    if a < b {
      QuantityMonotone(a, b - 1, m);
      assert b * m == (b - 1) * m + m;
    } else if 0 < a {
      QuantityMonotone(a - 1, a - 1, m);
      assert a * m == (a - 1) * m + m;
    }
  }

  lemma NonNegativeProduct(x: real, y: real)
    requires x >= 0.0 && y >= 0.0
    ensures x * y >= 0.0
  {
  }

  /** One charge of an order: its size follows the rounded notional. */
  lemma ChargeMonotone(x: real, y: real, fixed: real, rate: real)
    requires 0.0 <= x <= y && fixed >= 0.0 && rate >= 0.0
    ensures 0.0 <= RoundMoney(x) <= RoundMoney(y)
    ensures 0.0 <= RoundMoney(fixed + Share(RoundMoney(x), rate)) <= RoundMoney(fixed + Share(RoundMoney(y), rate))
  {
    hide RoundMoney, Share;
    RoundMonotone(x, y);
    RoundNonNegative(x);
    ShareMonotone(RoundMoney(x), RoundMoney(y), rate);
    RoundMonotone(fixed + Share(RoundMoney(x), rate), fixed + Share(RoundMoney(y), rate));
    RoundNonNegative(fixed + Share(RoundMoney(x), rate));
  }

  /** More lots never cost less. */
  lemma ChargesMonotone(a: int, b: int, r: Request, c: Charges)
    requires r.Valid() && c.Valid() && 0 < a <= b
    ensures var x, y := AmountsForLots(a, r, c), AmountsForLots(b, r, c);
      0.0 <= x.entryPremium <= y.entryPremium && 0.0 <= x.charges <= y.charges && 0 < x.quantity <= y.quantity
  {
    hide RoundMoney, Price, Share, Quantity;
    var qa, qb := Quantity(a, r.lotSize), Quantity(b, r.lotSize);
    QuantityMonotone(a, b, r.lotSize);
    PriceMonotone(r.entryAsk, qa, qb);
    PriceMonotone(r.stop, qa, qb);
    ChargeMonotone(Price(r.entryAsk, qa), Price(r.entryAsk, qb), c.fixedPerOrder, c.entryRate);
    ChargeMonotone(Price(r.stop, qa), Price(r.stop, qb), c.fixedPerOrder, c.exitRate);
    var x, y := AmountsForLots(a, r, c), AmountsForLots(b, r, c);
    RoundMonotone(x.entryCharges + x.exitCharges, y.entryCharges + y.exitCharges);
    RoundNonNegative(x.entryCharges + x.exitCharges);
  }

  lemma AmountMonotone(a: int, b: int, r: Request, c: Charges, kind: Kind)
    requires r.Valid() && c.Valid() && 0 <= a <= b
    ensures 0.0 <= Amount(a, r, c, kind) <= Amount(b, r, c, kind)
  {
    hide RoundMoney, Price, Share, Quantity;
    if b > 0 {
      var low := if a > 0 then a else 1;
      ChargesMonotone(low, b, r, c);
      var x, y := AmountsForLots(low, r, c), AmountsForLots(b, r, c);
      var gap := r.entryAsk - r.stop;
      PriceMonotone(gap, x.quantity, y.quantity);
      RoundMonotone(x.entryPremium + x.charges, y.entryPremium + y.charges);
      RoundMonotone(Price(gap, x.quantity) + x.charges, Price(gap, y.quantity) + y.charges);
      RoundNonNegative(x.entryPremium + x.charges);
      RoundNonNegative(Price(gap, x.quantity) + x.charges);
    }
  }

  // ----- the search -----

  predicate Fits(lots: int, budget: real, r: Request, c: Charges, kind: Kind) {
    Amount(lots, r, c, kind) <= budget
  }

  /** The greatest count up to `cap` that fits. */
  ghost predicate Greatest(best: int, cap: int, budget: real, r: Request, c: Charges, kind: Kind) {
    && 0 <= best <= cap && Fits(best, budget, r, c, kind)
    && forall n :: best < n <= cap ==> !Fits(n, budget, r, c, kind)
  }

  lemma BasePositive(r: Request, kind: Kind)
    requires r.Valid()
    ensures BasePerLot(r, kind) > 0.0
  {
    PositiveProduct(if kind == EstimatedRisk then r.entryAsk - r.stop else r.entryAsk, r.lotSize as real);
  }

  lemma PositiveProduct(x: real, y: real)
    requires x > 0.0 && y > 0.0
    ensures x * y > 0.0
  {
  }

  /** Binary search: the greatest fitting count not above the starting bound. */
  method MaximumLotsFor(budget: real, r: Request, c: Charges, kind: Kind) returns (best: int)
    requires r.Valid() && c.Valid() && budget >= 0.0
    ensures BasePerLot(r, kind) > 0.0
    ensures Greatest(best, SearchTop(budget, r, kind), budget, r, c, kind)
  {
    hide Fits, BasePerLot, SearchTop;
    BasePositive(r, kind);
    var top := SearchTop(budget, r, kind);
    TopNonNegative(budget, r, kind);
    var lower, upper := 0, top;
    best := 0;
    FitsNone(budget, r, c, kind);
    while lower <= upper
      invariant 0 <= lower <= upper + 1 <= top + 1
      invariant 0 <= best <= top && Fits(best, budget, r, c, kind)
      invariant best < lower || lower == 0
      invariant forall n :: best < n < lower ==> !Fits(n, budget, r, c, kind)
      invariant forall n :: upper < n <= top ==> !Fits(n, budget, r, c, kind)
      decreases upper - lower
    {
      var candidate := lower + (upper - lower) / 2;
      if Fits(candidate, budget, r, c, kind) {
        best := candidate;
        lower := candidate + 1;
      } else {
        forall n | candidate <= n <= top ensures !Fits(n, budget, r, c, kind) {
          TooMany(candidate, n, budget, r, c, kind);
        }
        upper := candidate - 1;
      }
    }
  }

  lemma TopNonNegative(budget: real, r: Request, kind: Kind)
    requires r.Valid() && BasePerLot(r, kind) > 0.0
    ensures 0 <= SearchTop(budget, r, kind) <= SafeLots(r)
  {
    hide BasePerLot;
    assert SafeLots(r) >= 0;
  }

  /** What does not fit, fits no better with more lots. */
  lemma TooMany(lots: int, more: int, budget: real, r: Request, c: Charges, kind: Kind)
    requires r.Valid() && c.Valid() && 0 <= lots <= more && !Fits(lots, budget, r, c, kind)
    ensures !Fits(more, budget, r, c, kind)
  {
    hide Amount;
    AmountMonotone(lots, more, r, c, kind);
  }

  lemma FitsNone(budget: real, r: Request, c: Charges, kind: Kind)
    requires budget >= 0.0
    ensures Fits(0, budget, r, c, kind)
  {
  }

  /** Exactly when the answer is the greatest count up to the safe cap: the starting bound is the
      cap itself, or one lot more than the bound is too much. */
  lemma GreatestUpToCap(best: int, budget: real, r: Request, c: Charges, kind: Kind)
    requires r.Valid() && c.Valid() && BasePerLot(r, kind) > 0.0
    requires Greatest(best, SearchTop(budget, r, kind), budget, r, c, kind)
    ensures Greatest(best, SafeLots(r), budget, r, c, kind)
       <==> SearchTop(budget, r, kind) == SafeLots(r) || !Fits(SearchTop(budget, r, kind) + 1, budget, r, c, kind)
  {
    hide Amount, BasePerLot;
    var top, cap := SearchTop(budget, r, kind), SafeLots(r);
    if top < cap && !Fits(top + 1, budget, r, c, kind) {
      forall n | best < n <= cap ensures !Fits(n, budget, r, c, kind) {
        if top < n { AmountMonotone(top + 1, n, r, c, kind); }
      }
    }
  }

  // ----- a fixed charge of one paisa is enough -----

  lemma ChargeAtLeast(lots: int, r: Request, c: Charges)
    requires r.Valid() && c.Valid() && c.fixedPerOrder >= 0.01 && lots > 0
    ensures AmountsForLots(lots, r, c).charges >= 0.02
  {
    hide RoundMoney, Price, Share, Quantity;
    var a := AmountsForLots(lots, r, c);
    var q := a.quantity;
    QuantityMonotone(lots, lots, r.lotSize);
    PriceMonotone(r.entryAsk, q, q);
    PriceMonotone(r.stop, q, q);
    RoundNonNegative(Price(r.entryAsk, q));
    RoundNonNegative(Price(r.stop, q));
    var exit := RoundMoney(Price(r.stop, q));
    ShareMonotone(a.entryPremium, a.entryPremium, c.entryRate);
    ShareMonotone(exit, exit, c.exitRate);
    assert RoundMoney(0.01) == 0.01 && RoundMoney(0.02) == 0.02 by { RoundPaise(1); RoundPaise(2); }
    RoundMonotone(0.01, c.fixedPerOrder + Share(a.entryPremium, c.entryRate));
    RoundMonotone(0.01, c.fixedPerOrder + Share(exit, c.exitRate));
    RoundMonotone(0.02, a.entryCharges + a.exitCharges);
  }

  /** Past the starting bound the unrounded price part alone exceeds the budget. */
  lemma PastTop(n: int, budget: real, r: Request, kind: Kind)
    requires r.Valid() && BasePerLot(r, kind) > 0.0 && budget >= 0.0
    requires SearchTop(budget, r, kind) < n <= SafeLots(r)
    ensures Price(BasePerLot(r, kind), n) > budget
  {
    hide BasePerLot;
    var base := BasePerLot(r, kind);
    var q := budget / base;
    assert n as real >= (q.Floor + 1) as real > q;
    assert base * (n as real) > base * q by { PositiveProduct(base, n as real - q); }
    assert base * q == budget;
  }

  /** With at least one paisa of fixed charge per order, the search bound never cuts off a
      fitting count. */
  lemma PaisaIsEnough(budget: real, r: Request, c: Charges, kind: Kind)
    requires r.Valid() && c.Valid() && budget >= 0.0 && c.fixedPerOrder >= 0.01 && BasePerLot(r, kind) > 0.0
    ensures SearchTop(budget, r, kind) == SafeLots(r) || !Fits(SearchTop(budget, r, kind) + 1, budget, r, c, kind)
  {
    hide RoundMoney, Price, Share, Quantity;
    var top := SearchTop(budget, r, kind);
    if top < SafeLots(r) {
      var n := top + 1;
      PastTop(n, budget, r, kind);
      ChargeAtLeast(n, r, c);
      var a := AmountsForLots(n, r, c);
      BaseTimesLots(n, r, kind);
      if kind == EstimatedRisk {
        RoundNear(Price(r.entryAsk - r.stop, a.quantity) + a.charges);
      } else {
        RoundNear(Price(r.entryAsk, a.quantity));
        RoundNear(a.entryPremium + a.charges);
      }
    }
  }

  lemma BaseTimesLots(n: int, r: Request, kind: Kind)
    ensures Price(BasePerLot(r, kind), n)
         == Price(if kind == EstimatedRisk then r.entryAsk - r.stop else r.entryAsk, Quantity(n, r.lotSize))
  {
    var price := if kind == EstimatedRisk then r.entryAsk - r.stop else r.entryAsk;
    assert (n * r.lotSize) as real == (r.lotSize as real) * (n as real);
    assert price * ((r.lotSize as real) * (n as real)) == price * (r.lotSize as real) * (n as real);
  }

  /** Without charges the bound can be one lot short: at an ask of 1.004 and a budget of 1.00 one
      lot rounds to exactly the budget, yet the search answers zero. */
  lemma BoundCanCutOff()
    ensures var r, c := Request(100.0, 1.0, 1.0, 1.004, 0.5, 1), Charges(0.0, 0.0, 0.0);
      && r.Valid() && c.Valid() && BasePerLot(r, CapitalRequired) > 0.0
      && SearchTop(1.0, r, CapitalRequired) == 0 && Fits(1, 1.0, r, c, CapitalRequired)
      && !Greatest(0, SafeLots(r), 1.0, r, c, CapitalRequired)
  {
    var r, c := Request(100.0, 1.0, 1.0, 1.004, 0.5, 1), Charges(0.0, 0.0, 0.0);
    assert BasePerLot(r, CapitalRequired) == 1.004;
    assert (1.0 / 1.004).Floor == 0;
    assert RoundMoney(1.004) == 1.0;
    assert RoundMoney(0.5) == 0.5;
    assert RoundMoney(0.0) == 0.0;
    assert RoundMoney(1.0) == 1.0;
    assert Amount(1, r, c, CapitalRequired) == 1.0;
    assert Fits(1, 1.0, r, c, CapitalRequired) && 0 < 1 <= SafeLots(r);
  }

  // ----- the recommendation -----

  datatype Sizing = Sizing(maximumRisk: real, maximumAllocation: real, lotsByRisk: int, lotsByAllocation: int,
                           oneLot: Amounts, recommendedLots: int, recommended: Amounts, riskPerUnit: real,
                           targets: seq<real>, unaffordable: bool)

  function Target(r: Request, multiple: int): real {
    RoundMoney(r.entryAsk + Share(RoundMoney(r.entryAsk - r.stop), multiple as real))
  }

  /** Profit targets never fall back: at one, two and three times the risk, from the ask upwards. */
  lemma TargetsAscend(r: Request)
    requires r.Valid()
    ensures RoundMoney(r.entryAsk) <= Target(r, 1) <= Target(r, 2) <= Target(r, 3)
  {
    hide RoundMoney;
    var risk := RoundMoney(r.entryAsk - r.stop);
    RoundNonNegative(r.entryAsk - r.stop);
    assert Share(risk, 1.0) == risk && Share(risk, 2.0) == risk + risk && Share(risk, 3.0) == risk + risk + risk;
    RoundMonotone(r.entryAsk, r.entryAsk + risk);
    RoundMonotone(r.entryAsk + risk, r.entryAsk + (risk + risk));
    RoundMonotone(r.entryAsk + (risk + risk), r.entryAsk + (risk + risk + risk));
  }

  function RiskBudget(r: Request): real {
    RoundMoney(Share(r.capital, r.riskPercent / 100.0))
  }

  function AllocationBudget(r: Request): real {
    RoundMoney(Share(r.capital, r.allocationPercent / 100.0))
  }

  lemma BudgetsNonNegative(r: Request)
    requires r.Valid()
    ensures RiskBudget(r) >= 0.0 && AllocationBudget(r) >= 0.0
  {
    hide RoundMoney, Share;
    ShareMonotone(r.capital, r.capital, r.riskPercent / 100.0);
    ShareMonotone(r.capital, r.capital, r.allocationPercent / 100.0);
    RoundNonNegative(Share(r.capital, r.riskPercent / 100.0));
    RoundNonNegative(Share(r.capital, r.allocationPercent / 100.0));
  }

  predicate FitsBoth(n: int, r: Request, c: Charges) {
    Fits(n, RiskBudget(r), r, c, EstimatedRisk) && Fits(n, AllocationBudget(r), r, c, CapitalRequired)
  }

  /** The greatest count up to the safe cap that meets both budgets. */
  ghost predicate Recommended(n: int, r: Request, c: Charges)
    requires r.lotSize > 0
  {
    0 <= n <= SafeLots(r) && FitsBoth(n, r, c) && forall m :: n < m <= SafeLots(r) ==> !FitsBoth(m, r, c)
  }

  /** What the two searches return, and the smaller of their starting bounds. */
  ghost predicate Searched(byRisk: int, byAllocation: int, r: Request, c: Charges)
    requires r.Valid()
  {
    && BasePerLot(r, EstimatedRisk) > 0.0 && BasePerLot(r, CapitalRequired) > 0.0
    && Greatest(byRisk, SearchTop(RiskBudget(r), r, EstimatedRisk), RiskBudget(r), r, c, EstimatedRisk)
    && Greatest(byAllocation, SearchTop(AllocationBudget(r), r, CapitalRequired), AllocationBudget(r), r, c, CapitalRequired)
  }

  function Min(a: int, b: int): int { if a < b then a else b }

  function BothTop(r: Request): int
    requires r.Valid() && BasePerLot(r, EstimatedRisk) > 0.0 && BasePerLot(r, CapitalRequired) > 0.0
  {
    Min(SearchTop(RiskBudget(r), r, EstimatedRisk), SearchTop(AllocationBudget(r), r, CapitalRequired))
  }

  lemma BothMonotone(m: int, n: int, r: Request, c: Charges)
    requires r.Valid() && c.Valid() && 0 <= m <= n && FitsBoth(n, r, c)
    ensures FitsBoth(m, r, c)
  {
    hide RoundMoney, Amount, AmountsForLots, RiskBudget, AllocationBudget;
    AmountMonotone(m, n, r, c, EstimatedRisk);
    AmountMonotone(m, n, r, c, CapitalRequired);
  }

  /** The recommendation meets both budgets, and is the greatest count up to the safe cap that
      does exactly when one lot above the smaller starting bound is too much, or that bound is
      the cap. */
  lemma RecommendedExactly(byRisk: int, byAllocation: int, r: Request, c: Charges)
    requires r.Valid() && c.Valid() && Searched(byRisk, byAllocation, r, c)
    ensures FitsBoth(Min(byRisk, byAllocation), r, c)
    ensures Recommended(Min(byRisk, byAllocation), r, c) <==> BothTop(r) == SafeLots(r) || !FitsBoth(BothTop(r) + 1, r, c)
  {
    hide RoundMoney, Amount, AmountsForLots, BasePerLot, RiskBudget, AllocationBudget;
    var n, top, cap := Min(byRisk, byAllocation), BothTop(r), SafeLots(r);
    AmountMonotone(n, byRisk, r, c, EstimatedRisk);
    AmountMonotone(n, byAllocation, r, c, CapitalRequired);
    if top == cap || !FitsBoth(top + 1, r, c) {
      forall m | n < m <= cap ensures !FitsBoth(m, r, c) {
        if top < m && FitsBoth(m, r, c) { BothMonotone(top + 1, m, r, c); }
      }
    }
  }

  // ----- the numbers -----

  /** `x` is `exact` in whole paise: the nearest, the upper of two after a nudge of 2^-52. */
  ghost predicate Paise(x: real, exact: real) {
    exists n: int :: x == n as real / 100.0 && NearestPaise(n, exact)
  }

  ghost predicate NearestPaise(n: int, exact: real) {
    n as real - 0.5 <= (exact + 1.0 / 4503599627370496.0) * 100.0 < n as real + 0.5
  }

  lemma RoundLaw(v: real)
    ensures Paise(RoundMoney(v), v)
  {
    var n := ((v + EPSILON) * 100.0 + 0.5).Floor;
    assert NearestPaise(n, v);
  }

  /** There is one such amount. */
  lemma PaiseUnique(x: real, y: real, exact: real)
    requires Paise(x, exact) && Paise(y, exact)
    ensures x == y
  {
    hide NearestPaise;
    var n: int :| x == n as real / 100.0 && NearestPaise(n, exact);
    var m: int :| y == m as real / 100.0 && NearestPaise(m, exact);
    OnePaise(n, m, exact);
  }

  lemma OnePaise(n: int, m: int, exact: real)
    requires NearestPaise(n, exact) && NearestPaise(m, exact)
    ensures n == m
  {
    assert n as real - 0.5 < m as real + 0.5 && m as real - 0.5 < n as real + 0.5;
  }

  /** A quantity at a price, in paise. */
  ghost predicate Worth(x: real, price: real, quantity: int) {
    Paise(x, price * (quantity as real))
  }

  /** A fixed charge and a share of a value, in paise. */
  ghost predicate Charged(x: real, fixed: real, value: real, rate: real) {
    Paise(x, fixed + value * rate)
  }

  /** The exit is charged on the value at the stop. */
  ghost predicate ExitCharged(a: Amounts, r: Request, c: Charges) {
    exists value :: Worth(value, r.stop, a.quantity) && Charged(a.exitCharges, c.fixedPerOrder, value, c.exitRate)
  }

  /** What a number of lots amounts to: the premium at the ask, one charge for the entry on that
      premium and one for the exit on the value at the stop, each rounded to paise, and from these the
      capital needed and the money at risk. */
  ghost predicate Costed(a: Amounts, lots: int, r: Request, c: Charges) {
    && a.lots == lots && a.quantity == lots * r.lotSize
    && Worth(a.entryPremium, r.entryAsk, a.quantity)
    && Charged(a.entryCharges, c.fixedPerOrder, a.entryPremium, c.entryRate)
    && ExitCharged(a, r, c)
    && Paise(a.charges, a.entryCharges + a.exitCharges)
    && Paise(a.capitalRequired, a.entryPremium + a.charges)
    && Charged(a.estimatedRisk, a.charges, r.entryAsk - r.stop, a.quantity as real)
  }

  lemma WorthLaw(price: real, quantity: int)
    ensures Worth(RoundMoney(Price(price, quantity)), price, quantity)
  {
    RoundLaw(Price(price, quantity));
  }

  lemma ChargedLaw(fixed: real, value: real, rate: real)
    ensures Charged(RoundMoney(fixed + Share(value, rate)), fixed, value, rate)
  {
    RoundLaw(fixed + Share(value, rate));
  }

  lemma RiskedLaw(gap: real, quantity: int, charges: real)
    ensures Charged(RoundMoney(Price(gap, quantity) + charges), charges, gap, quantity as real)
  {
    RoundLaw(Price(gap, quantity) + charges);
  }

  lemma AmountsLaw(lots: int, r: Request, c: Charges)
    ensures lots != 0 ==> Costed(AmountsForLots(lots, r, c), lots, r, c)
    ensures AmountsForLots(0, r, c) == Amounts(0, 0, 0.0, 0.0, 0.0, 0.0, 0.0, 0.0)
  {
    hide RoundMoney, Paise, Worth, Charged, Price, Share;
    if lots != 0 {
      var a := AmountsForLots(lots, r, c);
      var value := RoundMoney(Price(r.stop, a.quantity));
      WorthLaw(r.entryAsk, a.quantity);
      WorthLaw(r.stop, a.quantity);
      ChargedLaw(c.fixedPerOrder, a.entryPremium, c.entryRate);
      ChargedLaw(c.fixedPerOrder, value, c.exitRate);
      assert Worth(value, r.stop, a.quantity) && Charged(a.exitCharges, c.fixedPerOrder, value, c.exitRate);
      RoundLaw(a.entryCharges + a.exitCharges);
      RoundLaw(a.entryPremium + a.charges);
      RiskedLaw(r.entryAsk - r.stop, a.quantity, a.charges);
    }
  }

  /** The targets lie one, two and three rounded risks above the ask. */
  ghost predicate TargetsFrom(r: Request, unit: real) {
    && Paise(unit, r.entryAsk - r.stop)
    && Paise(Target(r, 1), r.entryAsk + unit) && Paise(Target(r, 2), r.entryAsk + 2.0 * unit) && Paise(Target(r, 3), r.entryAsk + 3.0 * unit)
  }

  lemma ShareLaw(amount: real, rate: real)
    ensures Charged(RoundMoney(Share(amount, rate)), 0.0, amount, rate)
  {
    RoundLaw(Share(amount, rate));
  }

  /** Both budgets are percentages of the capital; the targets follow from the risk of one unit. */
  lemma BudgetLaw(r: Request)
    ensures Charged(RiskBudget(r), 0.0, r.capital, r.riskPercent / 100.0)
    ensures Charged(AllocationBudget(r), 0.0, r.capital, r.allocationPercent / 100.0)
    ensures exists unit :: TargetsFrom(r, unit)
  {
    hide RoundMoney, Paise, Charged;
    ShareLaw(r.capital, r.riskPercent / 100.0);
    ShareLaw(r.capital, r.allocationPercent / 100.0);
    var unit := RoundMoney(r.entryAsk - r.stop);
    RoundLaw(r.entryAsk - r.stop);
    assert Share(unit, 1.0) == unit && Share(unit, 2.0) == 2.0 * unit && Share(unit, 3.0) == 3.0 * unit;
    RoundLaw(r.entryAsk + unit);
    RoundLaw(r.entryAsk + 2.0 * unit);
    RoundLaw(r.entryAsk + 3.0 * unit);
    assert TargetsFrom(r, unit);
  }

  /** The safe cap is the greatest number of lots whose quantity is still an exact integer. */
  lemma SafeCap(r: Request)
    requires r.lotSize > 0
    ensures SafeLots(r) >= 0 && SafeLots(r) * r.lotSize <= 9007199254740991 < (SafeLots(r) + 1) * r.lotSize
  {
    var q := 9007199254740991 / r.lotSize;
    assert 9007199254740991 == q * r.lotSize + 9007199254740991 % r.lotSize;
    assert (q + 1) * r.lotSize == q * r.lotSize + r.lotSize;
  }

  // ----- what is refused -----

  datatype Violation = NoCapital | NoRisk | RiskOverCap | BadAllocation | NoEntry | NoStop | StopNotBelowEntry | BadLotSize | BadCharges

  /** When a request is at fault in this way. */
  ghost predicate Faulty(v: Violation, r: Request, c: Charges) {
    match v
    case NoCapital => r.capital <= 0.0
    case NoRisk => r.riskPercent <= 0.0
    case RiskOverCap => r.riskPercent > 2.0
    case BadAllocation => r.allocationPercent <= 0.0 || r.allocationPercent > 100.0
    case NoEntry => r.entryAsk <= 0.0
    case NoStop => r.stop <= 0.0
    case StopNotBelowEntry => 0.0 < r.stop && r.entryAsk <= r.stop
    case BadLotSize => r.lotSize <= 0 || r.lotSize > 9007199254740991
    case BadCharges => c.fixedPerOrder < 0.0 || c.entryRate < 0.0 || c.entryRate >= 1.0 || c.exitRate < 0.0 || c.exitRate >= 1.0
  }

  /** Lists everything that is wrong with a request, each fault once. */
  method ValidateRequest(r: Request, c: Charges) returns (errors: seq<Violation>)
    ensures forall v :: v in errors <==> Faulty(v, r, c)
    ensures forall i, k :: 0 <= i < k < |errors| ==> errors[i] != errors[k]
    ensures errors == [] <==> r.Valid() && c.Valid()
  {
    hide Faulty;
    var first := AccountFaults(r, c);
    var second := InstrumentFaults(r, c);
    errors := first + second;
    NoFaults(r, c);
    if errors != [] { assert errors[0] in errors; }
    forall v ensures v in errors <==> Faulty(v, r, c) { assert v in errors <==> v in first || v in second; }
    forall i, k | 0 <= i < |first| && 0 <= k < |second| ensures first[i] != second[k] {
      assert first[i] in first && second[k] in second;
    }
  }

  predicate OfAccount(v: Violation) {
    v == NoCapital || v == NoRisk || v == RiskOverCap || v == BadAllocation
  }

  method AccountFaults(r: Request, c: Charges) returns (errors: seq<Violation>)
    ensures forall v :: v in errors <==> OfAccount(v) && Faulty(v, r, c)
    ensures forall i, k :: 0 <= i < k < |errors| ==> errors[i] != errors[k]
  {
    errors := [];
    if r.capital <= 0.0 { errors := errors + [NoCapital]; }
    if r.riskPercent <= 0.0 { errors := errors + [NoRisk]; } else if r.riskPercent > 2.0 { errors := errors + [RiskOverCap]; }
    if r.allocationPercent <= 0.0 || r.allocationPercent > 100.0 { errors := errors + [BadAllocation]; }
  }

  method InstrumentFaults(r: Request, c: Charges) returns (errors: seq<Violation>)
    ensures forall v :: v in errors <==> !OfAccount(v) && Faulty(v, r, c)
    ensures forall i, k :: 0 <= i < k < |errors| ==> errors[i] != errors[k]
  {
    errors := [];
    if r.entryAsk <= 0.0 { errors := errors + [NoEntry]; }
    if r.stop <= 0.0 { errors := errors + [NoStop]; } else if r.stop >= r.entryAsk { errors := errors + [StopNotBelowEntry]; }
    if r.lotSize <= 0 || r.lotSize > MAX_SAFE_INTEGER { errors := errors + [BadLotSize]; }
    if c.fixedPerOrder < 0.0 || c.entryRate < 0.0 || c.entryRate >= 1.0 || c.exitRate < 0.0 || c.exitRate >= 1.0 {
      errors := errors + [BadCharges];
    }
  }

  lemma NoFaults(r: Request, c: Charges)
    ensures r.Valid() && c.Valid() <==> forall v :: !Faulty(v, r, c)
  {
    if forall v :: !Faulty(v, r, c) {
      assert !Faulty(NoCapital, r, c) && !Faulty(NoRisk, r, c) && !Faulty(RiskOverCap, r, c) && !Faulty(BadAllocation, r, c);
      assert !Faulty(NoEntry, r, c) && !Faulty(NoStop, r, c) && !Faulty(StopNotBelowEntry, r, c) && !Faulty(BadLotSize, r, c);
      assert !Faulty(BadCharges, r, c);
    }
  }

  /** Checks a request, or lists its faults; then both budgets, both searches and what they come to.
      What is recommended keeps within the risk and the allocation that are shown, and with at least
      a paisa of fixed charge every larger safe number of lots goes over one of them. */
  method CalculatePositionSize(r: Request, c: Charges) returns (result: Result<Sizing>, errors: seq<Violation>)
    ensures result.Ok? <==> r.Valid() && c.Valid()
    ensures forall v :: v in errors <==> Faulty(v, r, c)
    ensures result.Ok? ==> result.value.recommended.estimatedRisk <= result.value.maximumRisk
    ensures result.Ok? ==> result.value.recommended.capitalRequired <= result.value.maximumAllocation
    ensures result.Ok? && c.fixedPerOrder >= 0.01 ==>
      forall m :: result.value.recommendedLots < m <= SafeLots(r) ==>
        || AmountsForLots(m, r, c).estimatedRisk > result.value.maximumRisk
        || AmountsForLots(m, r, c).capitalRequired > result.value.maximumAllocation
    ensures result.Ok? ==> Searched(result.value.lotsByRisk, result.value.lotsByAllocation, r, c)
    ensures result.Ok? ==> result.value.recommendedLots == Min(result.value.lotsByRisk, result.value.lotsByAllocation)
    ensures result.Ok? ==> FitsBoth(result.value.recommendedLots, r, c)
    ensures result.Ok? ==> result.value.recommended == AmountsForLots(result.value.recommendedLots, r, c)
    ensures result.Ok? && c.fixedPerOrder >= 0.01 ==> Recommended(result.value.recommendedLots, r, c)
    ensures result.Ok? && c.fixedPerOrder >= 0.01 ==> (result.value.unaffordable <==> !FitsBoth(1, r, c))
    ensures result.Ok? ==> result.value.maximumRisk == RiskBudget(r) && result.value.maximumAllocation == AllocationBudget(r)
    ensures result.Ok? ==> result.value.oneLot == AmountsForLots(1, r, c) && result.value.riskPerUnit == RoundMoney(r.entryAsk - r.stop)
    ensures result.Ok? ==> result.value.targets == [Target(r, 1), Target(r, 2), Target(r, 3)]
    ensures result.Ok? ==> (result.value.unaffordable <==> result.value.recommendedLots == 0)
    ensures result.Ok? ==> RoundMoney(r.entryAsk) <= result.value.targets[0] <= result.value.targets[1] <= result.value.targets[2]
  {
    hide RoundMoney, Amount, AmountsForLots, BasePerLot, SearchTop, RiskBudget, AllocationBudget, Greatest, Target;
    errors := ValidateRequest(r, c);
    if errors != [] { return Err("invalid position-sizing request"), errors; }
    BudgetsNonNegative(r);
    var byRisk := MaximumLotsFor(RiskBudget(r), r, c, EstimatedRisk);
    var byAllocation := MaximumLotsFor(AllocationBudget(r), r, c, CapitalRequired);
    var lots := Min(byRisk, byAllocation);
    RecommendedExactly(byRisk, byAllocation, r, c);
    if c.fixedPerOrder >= 0.01 {
      PaisaBoth(r, c);
      OneLotFits(lots, r, c);
    }
    TargetsAscend(r);
    WithinBudgets(lots, r, c);
    result := Ok(Sizing(RiskBudget(r), AllocationBudget(r), byRisk, byAllocation, AmountsForLots(1, r, c), lots, AmountsForLots(lots, r, c),
                     RoundMoney(r.entryAsk - r.stop), [Target(r, 1), Target(r, 2), Target(r, 3)], lots == 0));
  }

  /** What fitting both budgets says of the amounts. */
  lemma WithinBudgets(n: int, r: Request, c: Charges)
    requires FitsBoth(n, r, c) && r.lotSize > 0
    ensures AmountsForLots(n, r, c).estimatedRisk <= RiskBudget(r) && AmountsForLots(n, r, c).capitalRequired <= AllocationBudget(r)
    ensures Recommended(n, r, c) ==> forall m :: n < m <= SafeLots(r) ==>
      AmountsForLots(m, r, c).estimatedRisk > RiskBudget(r) || AmountsForLots(m, r, c).capitalRequired > AllocationBudget(r)
  {
    hide AmountsForLots, RiskBudget, AllocationBudget, SafeLots;
    if Recommended(n, r, c) {
      forall m | n < m <= SafeLots(r)
        ensures AmountsForLots(m, r, c).estimatedRisk > RiskBudget(r) || AmountsForLots(m, r, c).capitalRequired > AllocationBudget(r)
      {
        assert !FitsBoth(m, r, c);
      }
    }
  }

  /** A recommendation of nothing means that one lot is already too much. */
  lemma OneLotFits(n: int, r: Request, c: Charges)
    requires r.Valid() && c.Valid() && Recommended(n, r, c)
    ensures n == 0 <==> !FitsBoth(1, r, c)
  {
    hide RoundMoney, Amount, AmountsForLots, RiskBudget, AllocationBudget;
    assert SafeLots(r) >= 1;
    if n > 0 { BothMonotone(1, n, r, c); }
  }

  lemma PaisaBoth(r: Request, c: Charges)
    requires r.Valid() && c.Valid() && c.fixedPerOrder >= 0.01 && BasePerLot(r, EstimatedRisk) > 0.0 && BasePerLot(r, CapitalRequired) > 0.0
    ensures BothTop(r) == SafeLots(r) || !FitsBoth(BothTop(r) + 1, r, c)
  {
    hide RoundMoney, Amount, AmountsForLots, BasePerLot, RiskBudget, AllocationBudget;
    BudgetsNonNegative(r);
    PaisaIsEnough(RiskBudget(r), r, c, EstimatedRisk);
    PaisaIsEnough(AllocationBudget(r), r, c, CapitalRequired);
  }

  lemma TopMonotone(budget: real, more: real, r: Request, r': Request, kind: Kind)
    requires r.Valid() && r'.Valid() && r' == r.(capital := r'.capital) && budget <= more
    requires BasePerLot(r, kind) > 0.0 && BasePerLot(r', kind) == BasePerLot(r, kind)
    ensures SearchTop(budget, r, kind) <= SearchTop(more, r', kind)
  {
    hide BasePerLot;
    var base := BasePerLot(r, kind);
    QuotientMonotone(budget, more, base);
    FloorMonotone(budget / base, more / base);
  }

  lemma QuotientMonotone(a: real, b: real, base: real)
    requires a <= b && base > 0.0
    ensures a / base <= b / base
  {
    assert b / base - a / base == (b - a) / base;
  }

  /** A larger budget never finds fewer lots. */
  lemma SearchMonotone(best: int, best': int, budget: real, more: real, r: Request, r': Request, c: Charges, kind: Kind)
    requires r.Valid() && r'.Valid() && c.Valid() && r' == r.(capital := r'.capital) && budget <= more
    requires BasePerLot(r, kind) > 0.0 && BasePerLot(r', kind) > 0.0
    requires Greatest(best, SearchTop(budget, r, kind), budget, r, c, kind)
    requires Greatest(best', SearchTop(more, r', kind), more, r', c, kind)
    ensures best <= best'
  {
    hide RoundMoney, SearchTop, AmountsForLots;
    assert AmountsForLots(best, r', c) == AmountsForLots(best, r, c) by { SameAmounts(best, r, r', c); }
    TopMonotone(budget, more, r, r', kind);
    assert Fits(best, more, r', c, kind);
  }

  lemma SameAmounts(n: int, r: Request, r': Request, c: Charges)
    requires r' == r.(capital := r'.capital)
    ensures AmountsForLots(n, r, c) == AmountsForLots(n, r', c)
  {
  }

  /** More capital never recommends fewer lots, whatever the charges. */
  lemma MoreCapitalNeverFewer(a: int, b: int, a': int, b': int, r: Request, r': Request, c: Charges)
    requires r.Valid() && r'.Valid() && c.Valid() && r' == r.(capital := r'.capital) && r.capital <= r'.capital
    requires Searched(a, b, r, c) && Searched(a', b', r', c)
    ensures Min(a, b) <= Min(a', b')
  {
    hide RoundMoney, Price, Share, Quantity, Greatest, SearchTop, BasePerLot;
    ShareMonotone(r.capital, r'.capital, r.riskPercent / 100.0);
    ShareMonotone(r.capital, r'.capital, r.allocationPercent / 100.0);
    RoundMonotone(Share(r.capital, r.riskPercent / 100.0), Share(r'.capital, r.riskPercent / 100.0));
    RoundMonotone(Share(r.capital, r.allocationPercent / 100.0), Share(r'.capital, r.allocationPercent / 100.0));
    SearchMonotone(a, a', RiskBudget(r), RiskBudget(r'), r, r', c, EstimatedRisk);
    SearchMonotone(b, b', AllocationBudget(r), AllocationBudget(r'), r, r', c, CapitalRequired);
  }
}

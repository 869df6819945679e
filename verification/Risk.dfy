/** Position sizing from a risk amount (shared/src/risk.rs) and the order the client makes
    of it (client/src/app.rs), over exact numbers. */
module Risk {
  import opened Types

  const TAKER_FEE: real := 0.00055
  const MAKER_FEE: real := 0.0002

  datatype RiskError = InvalidRisk | InvalidSlPrice | InvalidEntryPrice | SlInvalidForSide | RiskPerUnitTooSmall

  datatype Sizing = Sizing(quantity: real, entry: real, sl: real, riskPerUnit: real, feeCost: real)

  function Fee(isLimit: bool): real { if isLimit then MAKER_FEE else TAKER_FEE }

  function Abs(x: real): real { if x < 0.0 then -x else x }

  predicate StopOnLossSide(side: Side, entry: real, sl: real) {
    match side
    case Buy => sl < entry
    case Sell => sl > entry
  }

  function CalculatePositionSize(
    risk: real, entry: real, sl: real, side: Side, isLimit: bool): Result<Sizing, RiskError>
  {
    if risk <= 0.0 then Err(InvalidRisk)
    else if entry <= 0.0 then Err(InvalidEntryPrice)
    else if sl <= 0.0 then Err(InvalidSlPrice)
    else if !StopOnLossSide(side, entry, sl) then Err(SlInvalidForSide)
    else
      var feeCost := entry * Fee(isLimit) * 2.0;
      var riskPerUnit := Abs(entry - sl) + feeCost;
      if riskPerUnit <= 0.0 then Err(RiskPerUnitTooSmall)
      else Ok(Sizing(risk / riskPerUnit, entry, sl, riskPerUnit, feeCost))
  }

  // ---------- Products of reals ----------

  lemma {:induction false} ProductMono(a: real, b: real, c: real)
    requires a <= b && c >= 0.0
    ensures a * c <= b * c && c * a <= c * b
  {
  }

  lemma {:induction false} QuotientTimes(a: real, b: real)
    requires b > 0.0
    ensures (a / b) * b == a
    ensures a > 0.0 ==> a / b > 0.0
  {
    var q := a / b;
    if a > 0.0 && q <= 0.0 { ProductMono(q, 0.0, b); }
  }

  // ---------- The loss at the stop ----------

  function CostPerUnit(move: real, traded: real, fee: real): real { move + traded * fee }

  /** What a filled position loses when stopped: the price move, the entry fee, and the exit
      fee charged at the stop price. */
  function LossAtStop(quantity: real, entry: real, sl: real, fee: real): real {
    quantity * CostPerUnit(Abs(entry - sl), entry + sl, fee)
  }

  /** A sizing is accepted exactly for a positive risk and prices with the stop on the loss
      side; the last error is never returned. */
  lemma {:induction false} SizingAcceptedIff(risk: real, entry: real, sl: real, side: Side, isLimit: bool)
    ensures CalculatePositionSize(risk, entry, sl, side, isLimit).Ok? <==>
            risk > 0.0 && entry > 0.0 && sl > 0.0 && StopOnLossSide(side, entry, sl)
    ensures CalculatePositionSize(risk, entry, sl, side, isLimit) != Err(RiskPerUnitTooSmall)
  {
    if entry > 0.0 { ProductMono(0.0, entry, Fee(isLimit)); }
  }

  /** Which error is returned: the first of risk, entry, stop price and side that is wrong. */
  lemma {:induction false} SizingErrors(risk: real, entry: real, sl: real, side: Side, isLimit: bool)
    ensures var r := CalculatePositionSize(risk, entry, sl, side, isLimit);
            && (r == Err(InvalidRisk) <==> risk <= 0.0)
            && (r == Err(InvalidEntryPrice) <==> risk > 0.0 && entry <= 0.0)
            && (r == Err(InvalidSlPrice) <==> risk > 0.0 && entry > 0.0 && sl <= 0.0)
            && (r == Err(SlInvalidForSide) <==>
                  && risk > 0.0 && entry > 0.0 && sl > 0.0
                  && ((side == Buy && sl >= entry) || (side == Sell && sl <= entry)))
  {
    SizingAcceptedIff(risk, entry, sl, side, isLimit);
  }

  lemma {:induction false} SizingFields(risk: real, entry: real, sl: real, side: Side, isLimit: bool)
    requires CalculatePositionSize(risk, entry, sl, side, isLimit).Ok?
    ensures var c := CalculatePositionSize(risk, entry, sl, side, isLimit).value;
            && c.entry == entry && c.sl == sl && c.quantity > 0.0 && c.quantity * c.riskPerUnit == risk
            && c.riskPerUnit == Abs(entry - sl) + entry * Fee(isLimit) * 2.0
            && Fee(isLimit) == (if isLimit then 0.0002 else 0.00055)
            && c.riskPerUnit > Abs(entry - sl) > 0.0 && c.feeCost == c.riskPerUnit - Abs(entry - sl)
  {
    SizingAcceptedIff(risk, entry, sl, side, isLimit);
    var c := CalculatePositionSize(risk, entry, sl, side, isLimit).value;
    QuotientTimes(risk, c.riskPerUnit);
    assert entry * Fee(isLimit) > 0.0;
  }

  lemma {:induction false} SignOfProduct(a: real, b: real)
    requires a > 0.0
    ensures b > 0.0 ==> a * b > 0.0
    ensures b < 0.0 ==> a * b < 0.0
    ensures b == 0.0 ==> a * b == 0.0
  {
  }

  lemma {:induction false} LossIdentity(q: real, move: real, entry: real, sl: real, fee: real)
    ensures q * CostPerUnit(move, entry + sl, fee) == q * (move + entry * fee * 2.0) + q * (fee * (sl - entry))
  {
    var fees := entry * fee * 2.0 + fee * (sl - entry);
    assert (entry + sl) * fee == fees;
    assert q * (move + fees) == q * (move + entry * fee * 2.0) + q * (fee * (sl - entry));
  }

  /** q * (f * d) is at most f times q * u when d is at most u. */
  lemma {:induction false} FeeOnDistance(q: real, f: real, d: real, u: real)
    requires q > 0.0 && f > 0.0 && d <= u
    ensures q * (f * d) <= (q * u) * f
  {
    ProductMono(d, u, f);
    ProductMono(f * d, f * u, q);
  }

  /** The loss differs from the risk by the fee on the distance between entry and stop: it
      is below the risk for longs and at most the risk plus its fee for shorts. */
  lemma {:induction false} SizedLoss(risk: real, entry: real, sl: real, side: Side, isLimit: bool)
    requires CalculatePositionSize(risk, entry, sl, side, isLimit).Ok?
    ensures var c := CalculatePositionSize(risk, entry, sl, side, isLimit).value; var fee := Fee(isLimit);
            && LossAtStop(c.quantity, entry, sl, fee) == risk + c.quantity * (fee * (sl - entry))
            && (side == Buy ==> LossAtStop(c.quantity, entry, sl, fee) < risk)
            && (side == Sell ==> risk < LossAtStop(c.quantity, entry, sl, fee) <= risk * (1.0 + fee))
  {
    SizingFields(risk, entry, sl, side, isLimit);
    SizingAcceptedIff(risk, entry, sl, side, isLimit);
    var c := CalculatePositionSize(risk, entry, sl, side, isLimit).value;
    LossOf(risk, c.quantity, entry, sl, Fee(isLimit), c.riskPerUnit);
  }

  lemma {:induction false} LossOf(risk: real, q: real, entry: real, sl: real, fee: real, u: real)
    requires q > 0.0 && fee > 0.0 && u > Abs(entry - sl) && q * u == risk
    requires u == Abs(entry - sl) + entry * fee * 2.0
    ensures LossAtStop(q, entry, sl, fee) == risk + q * (fee * (sl - entry))
    ensures sl < entry ==> LossAtStop(q, entry, sl, fee) < risk
    ensures sl > entry ==> risk < LossAtStop(q, entry, sl, fee) <= risk * (1.0 + fee)
  {
    LossIdentity(q, Abs(entry - sl), entry, sl, fee);
    FeeShare(q, fee, sl - entry, u, risk);
    RiskAndShare(LossAtStop(q, entry, sl, fee), risk, q * (fee * (sl - entry)), sl - entry, risk * fee,
                 risk * (1.0 + fee));
  }

  lemma {:induction false} RiskAndShare(loss: real, risk: real, share: real, d: real, most: real, bound: real)
    requires loss == risk + share && bound == risk + most
    requires (d < 0.0 ==> share < 0.0) && (d > 0.0 ==> 0.0 < share <= most)
    ensures d < 0.0 ==> loss < risk
    ensures d > 0.0 ==> risk < loss <= bound
  {
  }

  lemma {:induction false} FeeShare(q: real, fee: real, d: real, u: real, risk: real)
    requires q > 0.0 && fee > 0.0 && q * u == risk && d <= u
    ensures d < 0.0 ==> q * (fee * d) < 0.0
    ensures d > 0.0 ==> 0.0 < q * (fee * d) <= risk * fee
    ensures risk * (1.0 + fee) == risk + risk * fee
  {
    SignOfProduct(fee, d);
    SignOfProduct(q, fee * d);
    FeeOnDistance(q, fee, d, u);
  }

  // ---------- Rounding to whole units ----------

  function Power10(n: nat): (p: real)
    ensures p >= 1.0
  {
    if n == 0 then 1.0 else 10.0 * Power10(n - 1)
  }

  /** To the nearest integer, ties to the even one. */
  function HalfEven(x: real): int {
    var below := x.Floor;
    var part := x - below as real;
    if part < 0.5 then below
    else if part > 0.5 then below + 1
    else if below % 2 == 0 then below else below + 1
  }

  /** To the nearest multiple of 1 / scale. */
  function RoundTo(quantity: real, scale: real): real
    requires scale > 0.0
  {
    HalfEven(quantity * scale) as real / scale
  }

  function RoundQuantity(quantity: real, decimals: nat): real {
    RoundTo(quantity, Power10(decimals))
  }

  /** HalfEven is the only integer within one half, even when exactly one half away. */
  lemma {:induction false} HalfEvenIff(x: real, n: int)
    ensures n == HalfEven(x) <==> Abs(n as real - x) < 0.5 || (Abs(n as real - x) == 0.5 && n % 2 == 0)
  {
    var below := x.Floor;
    assert below as real <= x < below as real + 1.0;
    if n < below { assert n as real <= below as real - 1.0; }
    if n > below + 1 { assert n as real >= below as real + 2.0; }
  }

  lemma {:induction false} RoundToIsNear(quantity: real, scale: real)
    requires scale > 0.0
    ensures Abs(RoundTo(quantity, scale) - quantity) * scale <= 0.5
    ensures RoundTo(RoundTo(quantity, scale), scale) == RoundTo(quantity, scale)
  {
    var n := HalfEven(quantity * scale);
    var r := RoundTo(quantity, scale);
    HalfEvenIff(quantity * scale, n);
    QuotientTimes(n as real, scale);
    DifferenceTimes(r, quantity, scale);
    HalfEvenIff(r * scale, n);
    RoundToOf(r, scale, n);
  }

  lemma {:induction false} RoundToOf(quantity: real, scale: real, n: int)
    requires scale > 0.0 && HalfEven(quantity * scale) == n
    ensures RoundTo(quantity, scale) == n as real / scale
  {
  }

  /** Rounding to d decimals moves the quantity by at most half a unit in the last place,
      and rounding again changes nothing. */
  lemma {:induction false} RoundQuantityIsNear(quantity: real, decimals: nat)
    ensures Abs(RoundQuantity(quantity, decimals) - quantity) * Power10(decimals) <= 0.5
    ensures RoundQuantity(RoundQuantity(quantity, decimals), decimals) == RoundQuantity(quantity, decimals)
  {
    RoundToIsNear(quantity, Power10(decimals));
  }

  lemma {:induction false} RoundQuantityToUnits(quantity: real)
    ensures RoundQuantity(quantity, 0) == HalfEven(quantity) as real
    ensures Abs(RoundQuantity(quantity, 0) - quantity) <= 0.5
  {
    assert Power10(0) == 1.0;
    RoundToIsNear(quantity, 1.0);
    assert quantity * 1.0 == quantity;
  }

  lemma {:induction false} DifferenceTimes(a: real, b: real, p: real)
    requires p > 0.0
    ensures Abs(a - b) * p == Abs(a * p - b * p)
    ensures a > b <==> a * p > b * p
  {
    SignOfProduct(p, a - b);
    assert (a - b) * p == a * p - b * p;
  }

  /** The client rounds to whole units: the sized risk moves by at most half of the risk per
      unit, the order is empty exactly when at most half a unit was sized, and the order's
      nominal risk exceeds the requested one exactly when rounding went up. */
  lemma {:induction false} WholeUnits(risk: real, entry: real, sl: real, side: Side, isLimit: bool)
    requires CalculatePositionSize(risk, entry, sl, side, isLimit).Ok?
    ensures var c := CalculatePositionSize(risk, entry, sl, side, isLimit).value; var n := RoundQuantity(c.quantity, 0);
            && Abs(n * c.riskPerUnit - risk) <= c.riskPerUnit / 2.0
            && n >= 0.0
            && (n == 0.0 <==> c.quantity <= 0.5)
            && (n * c.riskPerUnit > risk <==> n > c.quantity)
  {
    SizingFields(risk, entry, sl, side, isLimit);
    var c := CalculatePositionSize(risk, entry, sl, side, isLimit).value;
    WholeUnitsOf(c.quantity, c.riskPerUnit, risk);
  }

  lemma {:induction false} WholeUnitsOf(q: real, u: real, risk: real)
    requires q > 0.0 && u > 0.0 && q * u == risk
    ensures var n := RoundQuantity(q, 0);
            && Abs(n * u - risk) <= u / 2.0 && n >= 0.0
            && (n == 0.0 <==> q <= 0.5) && (n * u > risk <==> n > q)
  {
    RoundQuantityToUnits(q);
    HalfEvenSign(q);
    BudgetMoves(RoundQuantity(q, 0), q, u, risk);
  }

  lemma {:induction false} HalfEvenSign(x: real)
    requires x > 0.0
    ensures HalfEven(x) >= 0
    ensures HalfEven(x) == 0 <==> x <= 0.5
  {
    HalfEvenIff(x, 0);
    HalfEvenIff(x, HalfEven(x));
  }

  lemma {:induction false} BudgetMoves(n: real, q: real, u: real, risk: real)
    requires q * u == risk && Abs(n - q) <= 0.5 && u > 0.0
    ensures Abs(n * u - risk) <= u / 2.0
    ensures n * u > risk <==> n > q
  {
    DifferenceTimes(n, q, u);
    HalfUnit(n, q, u);
    HalfUnit(q, n, u);
  }

  lemma {:induction false} HalfUnit(a: real, b: real, u: real)
    requires a <= b + 0.5 && u > 0.0
    ensures a * u <= b * u + u / 2.0
  {
    ProductMono(a, b + 0.5, u);
    assert (b + 0.5) * u == b * u + u / 2.0;
  }

  /** The documentation's own example, $10 on a long at 95000 with the stop at 94000, is
      sized to a small fraction of a unit, so the order the client sends is empty. */
  lemma {:induction false} DocumentedExampleIsEmpty()
    ensures CalculatePositionSize(10.0, 95000.0, 94000.0, Buy, false).Ok?
    ensures var c := CalculatePositionSize(10.0, 95000.0, 94000.0, Buy, false).value;
            c.riskPerUnit == 1104.5 && 0.009 < c.quantity < 0.0091 && RoundQuantity(c.quantity, 0) == 0.0
  {
    SizingAcceptedIff(10.0, 95000.0, 94000.0, Buy, false);
    WholeUnits(10.0, 95000.0, 94000.0, Buy, false);
  }

  // ---------- Take profit ----------

  datatype Value = Percent(percent: real) | Absolute(price: real) | Ratio(numerator: nat, denominator: nat)

  /** None stands for the abort of a division by zero: parsing guards the ratio's
      denominator, but the price divides by its numerator. */
  function TakeProfit(value: Value, side: Side, entry: real, sl: real): Option<real> {
    match value
    case Percent(pct) =>
      Some(if side == Buy then entry * (1.0 + pct / 100.0) else entry * (1.0 - pct / 100.0))
    case Absolute(price) => Some(price)
    case Ratio(n, d) =>
      if n == 0 then None
      else
        var distance := Abs(entry - sl) * (d as real / n as real);
        Some(if side == Buy then entry + distance else entry - distance)
  }

  /** A percentage puts the target that share of the entry away from it: for a positive one
      on the other side than the stop, at the entry for zero. */
  lemma {:induction false} PercentTarget(pct: real, side: Side, entry: real, sl: real)
    requires entry > 0.0 && StopOnLossSide(side, entry, sl)
    ensures TakeProfit(Percent(pct), side, entry, sl).Some?
    ensures var tp := TakeProfit(Percent(pct), side, entry, sl).value;
            && Abs(tp - entry) * 100.0 == entry * Abs(pct)
            && (pct > 0.0 <==> if side == Buy then sl < entry < tp else tp < entry < sl)
  {
    var share := pct / 100.0;
    var tp := TakeProfit(Percent(pct), side, entry, sl).value;
    SignOfProduct(entry, share);
    SignOfProduct(entry, pct);
    assert entry * (1.0 + share) == entry + entry * share;
    assert entry * (1.0 - share) == entry - entry * share;
    assert entry * share * 100.0 == entry * pct;
  }

  lemma {:induction false} FixedTarget(price: real, side: Side, entry: real, sl: real)
    ensures TakeProfit(Absolute(price), side, entry, sl) == Some(price)
  {
  }

  /** A ratio n/d puts the target d/n stop distances beyond the entry, on the other side of
      it than the stop; it has no price exactly when n is zero. */
  lemma {:induction false} RatioTarget(n: nat, d: nat, side: Side, entry: real, sl: real)
    requires StopOnLossSide(side, entry, sl)
    ensures TakeProfit(Ratio(n, d), side, entry, sl).None? <==> n == 0
    ensures n > 0 ==> (TakeProfit(Ratio(n, d), side, entry, sl).value - entry) * n as real == (entry - sl) * d as real
  {
    if n > 0 {
      var ratio := d as real / n as real;
      QuotientTimes(d as real, n as real);
      var move := entry - sl;
      assert TakeProfit(Ratio(n, d), side, entry, sl).value - entry == move * ratio;
      assert move * ratio * n as real == move * (ratio * n as real);
    }
  }
}

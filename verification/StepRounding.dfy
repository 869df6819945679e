/** Price and quantity grids of the Binance client (server/src/binance/client.rs): every
    value sent is floored to the symbol's step, some of them twice. */
module StepRounding {
  import opened Types
  import opened Risk

  datatype SymbolInfo = SymbolInfo(tick: real, step: real)

  predicate Valid(info: SymbolInfo) {
    info.tick > 0.0 && info.step > 0.0
  }

  function RoundToStep(value: real, step: real): real
    requires step > 0.0
  {
    (value / step).Floor as real * step
  }

  function Multiple(m: int, step: real): real { m as real * step }

  lemma {:induction false} RoundToStepOfMultiple(m: int, step: real)
    requires step > 0.0
    ensures RoundToStep(Multiple(m, step), step) == Multiple(m, step)
  {
    var q := Multiple(m, step) / step;
    QuotientTimes(Multiple(m, step), step);
    DifferenceTimes(q, m as real, step);
    DifferenceTimes(m as real, q, step);
    assert q == m as real;
  }

  lemma {:induction false} MultipleMono(m: int, k: int, step: real)
    requires step > 0.0
    ensures m <= k <==> Multiple(m, step) <= Multiple(k, step)
  {
    if m < k { StrictlyMore(m as real, k as real, step); }
    if m > k { StrictlyMore(k as real, m as real, step); }
  }

  lemma {:induction false} StrictlyMore(a: real, b: real, step: real)
    requires a < b && step > 0.0
    ensures a * step < b * step
  {
    SignOfProduct(step, b - a);
  }

  lemma {:induction false} OneMore(k: int, step: real)
    ensures Multiple(k + 1, step) == Multiple(k, step) + step
  {
  }

  lemma {:induction false} QuotientBelow(value: real, step: real, b: real)
    requires step > 0.0 && value / step < b
    ensures value < b * step
  {
    QuotientTimes(value, step);
    StrictlyMore(value / step, b, step);
  }

  lemma {:induction false} QuotientAtLeast(value: real, step: real, a: real)
    requires step > 0.0 && a <= value / step
    ensures a * step <= value
  {
    QuotientTimes(value, step);
    ProductMono(a, value / step, step);
  }

  /** The result is the largest multiple of the step not above the value, so rounding what
      was rounded changes nothing. */
  lemma {:induction false} RoundToStepIsFloor(value: real, step: real)
    requires step > 0.0
    ensures exists k :: RoundToStep(value, step) == Multiple(k, step)
    ensures RoundToStep(value, step) <= value < RoundToStep(value, step) + step
    ensures forall m :: Multiple(m, step) <= value ==> Multiple(m, step) <= RoundToStep(value, step)
    ensures RoundToStep(RoundToStep(value, step), step) == RoundToStep(value, step)
  {
    var k := (value / step).Floor;
    assert RoundToStep(value, step) == Multiple(k, step);
    QuotientAtLeast(value, step, k as real);
    QuotientBelow(value, step, (k + 1) as real);
    OneMore(k, step);
    forall m | Multiple(m, step) <= value ensures Multiple(m, step) <= Multiple(k, step) {
      MultipleMono(k + 1, m, step);
      MultipleMono(m, k, step);
    }
    RoundToStepOfMultiple(k, step);
  }

  ghost predicate OnGrid(value: real, step: real) {
    exists k :: value == Multiple(k, step)
  }

  lemma {:induction false} FloorOfGrid(value: real, step: real)
    requires step > 0.0
    ensures OnGrid(RoundToStep(value, step), step)
    ensures RoundToStep(value, step) <= value < RoundToStep(value, step) + step
    ensures OnGrid(value, step) ==> RoundToStep(value, step) == value
  {
    RoundToStepIsFloor(value, step);
    if OnGrid(value, step) {
      var k :| value == Multiple(k, step);
      RoundToStepOfMultiple(k, step);
    }
  }

  // ---------- Orders ----------

  datatype OrderRequest = OrderRequest(
    symbol: string, side: Side, orderType: OrderType, quantity: real, price: Option<real>,
    reduceOnly: bool, takeProfit: Option<real>, stopLoss: Option<real>)

  datatype AlgoKind = StopMarket | TakeProfitMarket

  /** A request as it leaves for the exchange. */
  datatype Sent =
    | Entry(symbol: string, side: Side, orderType: OrderType, quantity: real, price: Option<real>, reduceOnly: bool)
    | Algo(kind: AlgoKind, symbol: string, side: Side, trigger: real, quantity: real)

  method PlaceAlgoStop(symbol: string, side: Side, kind: AlgoKind, trigger: real, quantity: real, info: SymbolInfo)
    returns (sent: Sent)
    requires Valid(info)
    ensures sent == Algo(kind, symbol, side, RoundToStep(trigger, info.tick), RoundToStep(quantity, info.step))
    ensures OnGrid(sent.trigger, info.tick) && OnGrid(sent.quantity, info.step)
    ensures sent.trigger <= trigger < sent.trigger + info.tick
    ensures sent.quantity <= quantity < sent.quantity + info.step
    ensures OnGrid(trigger, info.tick) ==> sent.trigger == trigger
    ensures OnGrid(quantity, info.step) ==> sent.quantity == quantity
  {
    FloorOfGrid(trigger, info.tick);
    FloorOfGrid(quantity, info.step);
    sent := Algo(kind, symbol, side, RoundToStep(trigger, info.tick), RoundToStep(quantity, info.step));
  }

  /** The protective orders of an entry of this quantity. */
  function Protection(req: OrderRequest, quantity: real, info: SymbolInfo): seq<Sent>
    requires Valid(info)
  {
    var stop := if req.stopLoss.None? then [] else
      [Algo(StopMarket, req.symbol, Opposite(req.side), RoundToStep(req.stopLoss.value, info.tick), quantity)];
    var target := if req.takeProfit.None? then [] else
      [Algo(TakeProfitMarket, req.symbol, Opposite(req.side), RoundToStep(req.takeProfit.value, info.tick), quantity)];
    stop + target
  }

  /** A protective order of this kind: on the other side than the entry, for exactly the
      quantity sent with it, triggered at the greatest tick multiple not above the price. */
  ghost predicate Protects(o: Sent, kind: AlgoKind, price: real, entry: Sent, info: SymbolInfo) {
    && o.Algo? && o.kind == kind && o.symbol == entry.symbol && o.quantity == entry.quantity
    && o.side == (if entry.side == Buy then Sell else Buy)
    && OnGrid(o.trigger, info.tick) && o.trigger <= price < o.trigger + info.tick
    && forall m :: Multiple(m, info.tick) <= price ==> Multiple(m, info.tick) <= o.trigger
  }

  /** Sends the entry order and, once it is accepted, its protective orders. All quantities
      are the entry's, all prices and quantities lie on the symbol's grid although some are
      rounded twice, and the protective orders are on the other side. */
  method PlaceOrder(req: OrderRequest, info: SymbolInfo, accepted: bool) returns (sent: seq<Sent>)
    requires Valid(info)
    ensures sent != []
    ensures var qty := RoundToStep(req.quantity, info.step);
            sent[0] == Entry(req.symbol, req.side, req.orderType, qty,
                             if req.price.Some? then Some(RoundToStep(req.price.value, info.tick)) else None,
                             req.reduceOnly)
    ensures sent[1..] == if accepted then Protection(req, sent[0].quantity, info) else []
    ensures !accepted ==> |sent| == 1
    ensures accepted ==>
              |sent| == 1 + (if req.stopLoss.Some? then 1 else 0) + (if req.takeProfit.Some? then 1 else 0)
    ensures accepted && req.stopLoss.Some? ==> Protects(sent[1], StopMarket, req.stopLoss.value, sent[0], info)
    ensures accepted && req.takeProfit.Some? ==>
              Protects(sent[|sent| - 1], TakeProfitMarket, req.takeProfit.value, sent[0], info)
  {
    var quantity := RoundToStep(req.quantity, info.step);
    var price := if req.price.Some? then Some(RoundToStep(req.price.value, info.tick)) else None;
    sent := [Entry(req.symbol, req.side, req.orderType, quantity, price, req.reduceOnly)];
    if !accepted { return; }
    RoundToStepIsFloor(req.quantity, info.step);
    var closeSide := Opposite(req.side);
    if req.stopLoss.Some? {
      var slPrice := RoundToStep(req.stopLoss.value, info.tick);
      RoundToStepIsFloor(req.stopLoss.value, info.tick);
      var stop := PlaceAlgoStop(req.symbol, closeSide, StopMarket, slPrice, quantity, info);
      sent := sent + [stop];
    }
    if req.takeProfit.Some? {
      var tpPrice := RoundToStep(req.takeProfit.value, info.tick);
      RoundToStepIsFloor(req.takeProfit.value, info.tick);
      var target := PlaceAlgoStop(req.symbol, closeSide, TakeProfitMarket, tpPrice, quantity, info);
      sent := sent + [target];
    }
  }

  /** Closes the first position on the symbol and side, with a reducing market order for its
      quantity on the grid; rounding before and inside placing is one rounding. */
  method ClosePosition(symbol: string, side: Side, positions: seq<Position>, info: SymbolInfo)
    returns (sent: Option<Sent>)
    requires Valid(info)
    ensures sent.None? <==>
            forall i | 0 <= i < |positions| :: positions[i].symbol != symbol || positions[i].side != side
    ensures sent.Some? ==>
              exists i :: 0 <= i < |positions| && positions[i].symbol == symbol && positions[i].side == side
                          && (forall j | 0 <= j < i :: positions[j].symbol != symbol || positions[j].side != side)
                          && sent.value == Entry(symbol, if side == Buy then Sell else Buy, Market,
                                                 RoundToStep(positions[i].quantity, info.step), None, true)
  {
    var i := 0;
    while i < |positions| && !(positions[i].symbol == symbol && positions[i].side == side)
      invariant 0 <= i <= |positions|
      invariant forall j | 0 <= j < i :: positions[j].symbol != symbol || positions[j].side != side
    {
      i := i + 1;
    }
    if i == |positions| { return None; }
    var quantity := RoundToStep(positions[i].quantity, info.step);
    RoundToStepIsFloor(positions[i].quantity, info.step);
    var req := OrderRequest(symbol, Opposite(side), Market, quantity, None, true, None, None);
    var orders := PlaceOrder(req, info, true);
    return Some(orders[0]);
  }

  // ---------- From the risk amount to the exchange ----------

  lemma {:induction false} ProductBound(a: real, b: real, c: real, d: real)
    requires 0.0 <= a <= b && 0.0 <= c <= d
    ensures a * c <= b * d
  {
    ProductMono(a, b, c);
    ProductMono(c, d, b);
  }

  lemma {:induction false} SentQuantity(quantity: real, step: real)
    requires quantity >= 0.0 && step > 0.0
    ensures 0.0 <= RoundToStep(RoundQuantity(quantity, 0), step) <= quantity + 0.5
  {
    var n := RoundQuantity(quantity, 0);
    RoundQuantityToUnits(quantity);
    RoundToStepIsFloor(n, step);
    assert Multiple(0, step) == 0.0;
    assert Multiple(0, step) <= n;
  }

  /** What a sized order may lose: half a unit and, per unit, one tick more than planned,
      and for shorts the fee on the plan. */
  function LossBudget(quantity: real, riskPerUnit: real, side: Side, fee: real, tick: real): real {
    (quantity + 0.5) * ((if side == Buy then riskPerUnit else riskPerUnit * (1.0 + fee)) + tick)
  }

  /** The entry price as sent: a limit price is floored to the tick, a market order has none. */
  function SentEntry(entry: real, isLimit: bool, tick: real): real
    requires tick > 0.0
  {
    if isLimit then RoundToStep(entry, tick) else entry
  }

  lemma {:induction false} FlooredNear(price: real, tick: real)
    requires price > 0.0 && tick > 0.0
    ensures 0.0 <= RoundToStep(price, tick) <= price < RoundToStep(price, tick) + tick
  {
    RoundToStepIsFloor(price, tick);
    assert Multiple(0, tick) == 0.0;
    assert Multiple(0, tick) <= price;
  }

  /** End to end: a sized order, rounded to whole units by the client and floored to the
      symbol's grid by the server in its quantity, its stop and, for a limit order, its
      entry, loses at most its budget between the prices sent. */
  lemma {:induction false} SentLossBound(risk: real, entry: real, sl: real, side: Side, isLimit: bool, info: SymbolInfo)
    requires CalculatePositionSize(risk, entry, sl, side, isLimit).Ok? && Valid(info)
    ensures var c := CalculatePositionSize(risk, entry, sl, side, isLimit).value;
            LossAtStop(RoundToStep(RoundQuantity(c.quantity, 0), info.step), SentEntry(entry, isLimit, info.tick),
                       RoundToStep(sl, info.tick), Fee(isLimit))
            <= LossBudget(c.quantity, c.riskPerUnit, side, Fee(isLimit), info.tick)
  {
    var c := CalculatePositionSize(risk, entry, sl, side, isLimit).value;
    SizingFields(risk, entry, sl, side, isLimit);
    SizingAcceptedIff(risk, entry, sl, side, isLimit);
    SentQuantity(c.quantity, info.step);
    FlooredNear(sl, info.tick);
    FlooredNear(entry, info.tick);
    SentLossOf(c.quantity, c.riskPerUnit, RoundToStep(RoundQuantity(c.quantity, 0), info.step), entry, sl,
               SentEntry(entry, isLimit, info.tick), RoundToStep(sl, info.tick), side, Fee(isLimit), info.tick);
  }

  lemma {:induction false} SentLossOf(
    quantity: real, riskPerUnit: real, qty: real, entry: real, sl: real, sentEntry: real, stop: real, side: Side,
    fee: real, tick: real)
    requires riskPerUnit == Abs(entry - sl) + entry * fee * 2.0
    requires 0.0 <= qty <= quantity + 0.5 && entry > 0.0 && sl > 0.0 && StopOnLossSide(side, entry, sl)
    requires 0.0 < fee < 1.0 && 0.0 <= stop <= sl < stop + tick && 0.0 <= sentEntry <= entry < sentEntry + tick
    ensures LossAtStop(qty, sentEntry, stop, fee) <= LossBudget(quantity, riskPerUnit, side, fee, tick)
  {
    PerUnitBound(entry, sl, sentEntry, stop, side, fee, tick);
    LossWithin(qty, quantity + 0.5, sentEntry, stop, fee, PlannedPerUnit(entry, sl, side, fee) + tick);
  }

  lemma {:induction false} LossWithin(qty: real, most: real, entry: real, stop: real, fee: real, budget: real)
    requires 0.0 <= qty <= most && entry >= 0.0 && stop >= 0.0 && fee > 0.0
    requires CostPerUnit(Abs(entry - stop), entry + stop, fee) <= budget
    ensures LossAtStop(qty, entry, stop, fee) <= most * budget
  {
    ProductMono(0.0, entry + stop, fee);
    ProductBound(qty, most, CostPerUnit(Abs(entry - stop), entry + stop, fee), budget);
  }

  /** Moving the entry and the stop down by less than a tick each costs less than a tick per
      unit. */
  lemma {:induction false} PerUnitBound(
    entry: real, sl: real, sentEntry: real, stop: real, side: Side, fee: real, tick: real)
    requires entry > 0.0 && sl > 0.0 && StopOnLossSide(side, entry, sl) && 0.0 < fee < 1.0
    requires stop <= sl < stop + tick && sentEntry <= entry < sentEntry + tick
    ensures CostPerUnit(Abs(sentEntry - stop), sentEntry + stop, fee)
            <= PlannedPerUnit(entry, sl, side, fee) + tick
  {
    DistanceMoves(entry, sl, sentEntry, stop, tick);
    CostGrows(Abs(sentEntry - stop), Abs(entry - sl) + tick, sentEntry + stop, entry + sl, fee);
    CostWithinPlan(entry, sl, side, fee);
    CostMoves(Abs(entry - sl), tick, entry + sl, fee);
  }

  lemma {:induction false} CostGrows(a: real, b: real, x: real, y: real, fee: real)
    requires a <= b && x <= y && fee > 0.0
    ensures CostPerUnit(a, x, fee) <= CostPerUnit(b, y, fee)
  {
    ProductMono(x, y, fee);
  }

  lemma {:induction false} CostMoves(move: real, tick: real, traded: real, fee: real)
    ensures CostPerUnit(move + tick, traded, fee) == CostPerUnit(move, traded, fee) + tick
  {
  }

  lemma {:induction false} DistanceMoves(entry: real, sl: real, sentEntry: real, stop: real, tick: real)
    requires stop <= sl < stop + tick && sentEntry <= entry < sentEntry + tick
    ensures Abs(sentEntry - stop) <= Abs(entry - sl) + tick
  {
  }

  /** The risk per unit, and for shorts its fee on top. */
  function PlannedPerUnit(entry: real, sl: real, side: Side, fee: real): real {
    var riskPerUnit := Abs(entry - sl) + entry * fee * 2.0;
    if side == Buy then riskPerUnit else riskPerUnit * (1.0 + fee)
  }

  lemma {:induction false} CostWithinPlan(entry: real, sl: real, side: Side, fee: real)
    requires entry > 0.0 && sl > 0.0 && StopOnLossSide(side, entry, sl) && 0.0 < fee < 1.0
    ensures CostPerUnit(Abs(entry - sl), entry + sl, fee) <= PlannedPerUnit(entry, sl, side, fee)
  {
    var riskPerUnit := Abs(entry - sl) + entry * fee * 2.0;
    if side == Buy {
      ProductMono(entry + sl, 2.0 * entry, fee);
    } else {
      var move := sl - entry;
      assert (entry + sl) * fee == entry * fee * 2.0 + move * fee;
      assert entry * fee * fee >= 0.0;
      assert riskPerUnit * (1.0 + fee) == riskPerUnit + move * fee + entry * fee * 2.0 * fee;
    }
  }
}

/** The activity-stop and pending-autostop machine of one client connection
    (server/src/server.rs, server/src/client_handler.rs): what one atomic handler does to
    the live stop, the two tables and the charted symbol, and what it sends out.
    The class in Connection.dfy does the same step by step and is proved against this. */
module ActivityStop {
  import opened Types
  import opened StopStore

  /** The in-memory stop: a copy of its row plus the time of the last activity. The time
      may precede the clock's zero, because restoring subtracts from it. */
  datatype LiveStop = LiveStop(row: StopRow, lastTrade: int)

  datatype State = State(
    live: Option<LiveStop>,
    stops: map<string, StopRow>,
    pendings: map<string, PendingAutostop>,
    chart: Option<string>)

  datatype OrderStatus = New | PartiallyFilled | Filled | Cancelled | Rejected

  datatype OrderUpdate = OrderUpdate(id: string, status: OrderStatus)

  /** What the exchange answers when the timer asks for positions and then closes one. */
  datatype ExchangeAnswer =
    | PositionsFailed
    | PositionsAre(positions: seq<Position>, closeAccepted: bool)

  datatype Message =
    | StopRegistered(symbol: string, timeoutSecs: nat, trigger: Option<real>)
    | StopStatus(symbol: string, remainingMs: nat, active: bool, trigger: Option<real>)
    | StopTriggered(symbol: string)
    | CloseFailed(symbol: string, side: Side)
    | AutostopCreated(orderId: string)
    | AutostopUpdated(orderId: string)
    | AutostopCancelled(orderId: string)
    | AutostopActivated(orderId: string, symbol: string)
    | AutostopNotFound(orderId: string)

  /** Everything a handler does besides changing its state. */
  datatype Effect =
    | Notify(message: Message)
    | CloseOrder(symbol: string, side: Side, quantity: real, positionIdx: nat)
    | SetTrailingStop(symbol: string, side: Side, target: TrailingTarget, activePrice: Option<real>)
    | CancelLimitOrders(symbol: string)

  datatype Event =
    | Arm(symbol: string, side: Side, timeoutSecs: nat, trigger: Option<real>)
    | CancelStop(symbol: string)
    | CreatePending(cmd: PendingAutostop)
    | UpdatePending(cmd: PendingAutostop)
    | CancelPending(orderId: string)
    | OrderChanged(order: OrderUpdate)
    | PositionsChanged(positions: seq<Position>)
    | TradeBatch(prices: seq<real>)
    | SubscribeChart(symbol: string)
    | UnsubscribeChart
    | Tick(answer: ExchangeAnswer)
    | Reconnect

  datatype Outcome = Outcome(state: State, effects: seq<Effect>)

  const INITIAL := State(None, map[], map[], None)

  // ---------- Clock arithmetic ----------

  function Elapsed(since: int, now: nat): nat {
    if since <= now then now - since else 0
  }

  function Remaining(stop: LiveStop, now: nat): nat {
    var elapsed := Elapsed(stop.lastTrade, now);
    if elapsed <= stop.row.timeoutMs then stop.row.timeoutMs - elapsed else 0
  }

  function Expired(stop: LiveStop, now: nat): bool {
    Elapsed(stop.lastTrade, now) >= stop.row.timeoutMs
  }

  /** The activity time given to a stop restored from its row. */
  function RestoredActivity(row: StopRow, now: nat): int {
    var elapsed := Elapsed(row.start, now);
    now - if elapsed <= row.timeoutMs then elapsed else row.timeoutMs
  }

  // ---------- Installing and ending the live stop ----------

  function NewRow(symbol: string, side: Side, timeoutSecs: nat, trigger: Option<real>, now: nat): StopRow {
    StopRow(symbol, side, timeoutSecs * 1000, trigger, now, trigger.None?)
  }

  function Install(s: State, row: StopRow, now: nat): State {
    s.(stops := s.stops[RowKey(row) := row], live := Some(LiveStop(row, now)))
  }

  function End(s: State): State
    requires s.live.Some?
  {
    s.(stops := s.stops - {RowKey(s.live.value.row)}, live := None)
  }

  function Inactive(symbol: string): Effect {
    Notify(StopStatus(symbol, 0, false, None))
  }

  // ---------- Order updates ----------

  predicate IsFill(status: OrderStatus) {
    status == Filled || status == PartiallyFilled
  }

  /** A fill installs the recorded stop, or asks the exchange for a trailing stop, when
      the recorded parameters allow it. */
  function Activate(s: State, cmd: PendingAutostop, now: nat): Outcome {
    match cmd.kind
    case Activity =>
      if cmd.params.timeoutSecs.None? then Outcome(s, [])
      else
        var row := NewRow(cmd.symbol, cmd.side, cmd.params.timeoutSecs.value, cmd.params.trigger, now);
        Outcome(Install(s, row, now), [])
    case Trailing =>
      if cmd.params.target.None? then Outcome(s, [])
      else Outcome(s, [SetTrailingStop(cmd.symbol, cmd.side, cmd.params.target.value, cmd.params.activePrice)])
  }

  function OnOrder(s: State, order: OrderUpdate, now: nat): Outcome {
    var key := PendingKey(order.id);
    if key !in s.pendings then Outcome(s, [])
    else if IsFill(order.status) then
      var cmd := s.pendings[key];
      var activated := Activate(s, cmd, now);
      Outcome(activated.state.(pendings := s.pendings - {key}),
              activated.effects + [Notify(AutostopActivated(order.id, cmd.symbol))])
    else if order.status == Cancelled then
      Outcome(s.(pendings := s.pendings - {key}), [Notify(AutostopCancelled(order.id))])
    else Outcome(s, [])
  }

  // ---------- Position updates ----------

  /** Limit orders are cancelled on every symbol reported with zero quantity. */
  function ZeroedSymbols(positions: seq<Position>): seq<Effect> {
    if positions == [] then []
    else
      var rest := ZeroedSymbols(positions[..|positions| - 1]);
      var p := positions[|positions| - 1];
      if p.quantity == 0.0 then rest + [CancelLimitOrders(p.symbol)] else rest
  }

  predicate Matches(p: Position, row: StopRow) {
    p.symbol == row.symbol && p.side == row.side
  }

  /** The first position for the stop's symbol and side is missing or empty. */
  predicate PositionGone(positions: seq<Position>, row: StopRow) {
    positions == [] ||
    (if Matches(positions[0], row) then positions[0].quantity == 0.0
     else PositionGone(positions[1..], row))
  }

  function OnPositions(s: State, positions: seq<Position>): Outcome {
    var swept := ZeroedSymbols(positions);
    if s.live.Some? && PositionGone(positions, s.live.value.row) then
      Outcome(End(s), swept + [Inactive(s.live.value.row.symbol)])
    else Outcome(s, swept)
  }

  // ---------- Trades ----------

  predicate Crosses(row: StopRow, price: real) {
    row.trigger.Some? &&
    match row.side
    case Buy => price >= row.trigger.value
    case Sell => price <= row.trigger.value
  }

  /** A non-empty batch on the charted symbol activates a crossed stop, and counts as
      activity for an active one. Only the last price of the batch is looked at. */
  function OnTrades(s: State, prices: seq<real>, now: nat): State {
    if prices == [] || s.live.None? || s.chart != Some(s.live.value.row.symbol) then s
    else
      var row := s.live.value.row;
      if row.active || Crosses(row, prices[|prices| - 1])
      then s.(live := Some(LiveStop(row.(active := true), now)))
      else s
  }

  // ---------- The timer ----------

  /** The first open position on the symbol, whichever its side. */
  function FirstOpen(positions: seq<Position>, symbol: string): Option<Position> {
    if positions == [] then None
    else if positions[0].symbol == symbol && positions[0].quantity > 0.0 then Some(positions[0])
    else FirstOpen(positions[1..], symbol)
  }

  function CloseEffects(row: StopRow, answer: ExchangeAnswer): seq<Effect> {
    match answer
    case PositionsFailed => [Inactive(row.symbol)]
    case PositionsAre(positions, accepted) =>
      match FirstOpen(positions, row.symbol)
      case None => [Inactive(row.symbol)]
      case Some(p) =>
        [CloseOrder(row.symbol, Opposite(p.side), p.quantity, if p.side == Buy then 1 else 2),
         Notify(if accepted then StopTriggered(row.symbol) else CloseFailed(row.symbol, p.side))]
  }

  function OnTick(s: State, answer: ExchangeAnswer, now: nat): Outcome {
    if s.live.None? || !s.live.value.row.active then Outcome(s, [])
    else
      var row := s.live.value.row;
      var status := Notify(StopStatus(row.symbol, Remaining(s.live.value, now), true, row.trigger));
      if Expired(s.live.value, now)
      then Outcome(End(s), [status] + CloseEffects(row, answer))
      else Outcome(s, [status])
  }

  // ---------- Connecting ----------

  /** The memory a new connection starts with; the tables outlive the old connection. */
  ghost function Restore(s: State, now: nat): State {
    match FirstRow(s.stops)
    case None => s.(live := None, chart := None)
    case Some(row) => s.(live := Some(LiveStop(row, RestoredActivity(row, now))), chart := None)
  }

  // ---------- One handler ----------

  ghost function Step(s: State, now: nat, event: Event): Outcome {
    match event
    case Arm(symbol, side, timeoutSecs, trigger) =>
      Outcome(Install(s, NewRow(symbol, side, timeoutSecs, trigger, now), now),
              [Notify(StopRegistered(symbol, timeoutSecs, trigger))])
    case CancelStop(symbol) =>
      Outcome(if s.live.Some? then End(s) else s, [Inactive(symbol)])
    case CreatePending(cmd) =>
      Outcome(s.(pendings := s.pendings[PendingKey(cmd.orderId) := cmd]), [Notify(AutostopCreated(cmd.orderId))])
    case UpdatePending(cmd) =>
      if PendingKey(cmd.orderId) in s.pendings
      then Outcome(s.(pendings := s.pendings[PendingKey(cmd.orderId) := cmd]), [Notify(AutostopUpdated(cmd.orderId))])
      else Outcome(s, [Notify(AutostopNotFound(cmd.orderId))])
    case CancelPending(orderId) =>
      Outcome(s.(pendings := s.pendings - {PendingKey(orderId)}), [Notify(AutostopCancelled(orderId))])
    case OrderChanged(order) => OnOrder(s, order, now)
    case PositionsChanged(positions) => OnPositions(s, positions)
    case TradeBatch(prices) => Outcome(OnTrades(s, prices, now), [])
    case SubscribeChart(symbol) => Outcome(s.(chart := Some(symbol)), [])
    case UnsubscribeChart => Outcome(s.(chart := None), [])
    case Tick(answer) => OnTick(s, answer, now)
    case Reconnect => Outcome(Restore(s, now), [])
  }

  // ---------- What the two searches find ----------

  /** The close order is for the first open position on the symbol: there is one, and
      every earlier entry is of another symbol or empty. */
  lemma {:induction false} FirstOpenIsFirst(positions: seq<Position>, symbol: string)
    ensures FirstOpen(positions, symbol).None? <==>
            forall i | 0 <= i < |positions| :: positions[i].symbol == symbol ==> positions[i].quantity <= 0.0
    ensures FirstOpen(positions, symbol).Some? ==>
            exists i :: 0 <= i < |positions| && FirstOpen(positions, symbol) == Some(positions[i])
                        && positions[i].symbol == symbol && positions[i].quantity > 0.0
                        && forall j | 0 <= j < i :: positions[j].symbol == symbol ==> positions[j].quantity <= 0.0
  {
    if positions != [] && !(positions[0].symbol == symbol && positions[0].quantity > 0.0) {
      var rest := positions[1..];
      FirstOpenIsFirst(rest, symbol);
      assert forall i | 1 <= i < |positions| :: positions[i] == rest[i - 1];
      assert forall i | 0 <= i < |rest| :: rest[i] == positions[i + 1];
      if FirstOpen(rest, symbol).Some? {
        var i :| 0 <= i < |rest| && FirstOpen(rest, symbol) == Some(rest[i])
                 && rest[i].symbol == symbol && rest[i].quantity > 0.0
                 && forall j | 0 <= j < i :: rest[j].symbol == symbol ==> rest[j].quantity <= 0.0;
        assert FirstOpen(positions, symbol) == Some(positions[i + 1]);
      }
    }
  }

  /** A position update keeps the stop exactly when some entry for its symbol and side is
      non-empty and no earlier entry for them exists. */
  lemma {:induction false} PositionKeptIff(positions: seq<Position>, row: StopRow)
    ensures !PositionGone(positions, row) <==>
            exists i :: 0 <= i < |positions|
                        && positions[i].symbol == row.symbol && positions[i].side == row.side
                        && positions[i].quantity != 0.0
                        && forall j | 0 <= j < i :: positions[j].symbol != row.symbol || positions[j].side != row.side
  {
    if positions != [] && !Matches(positions[0], row) {
      var rest := positions[1..];
      PositionKeptIff(rest, row);
      assert forall i | 0 <= i < |rest| :: rest[i] == positions[i + 1];
      assert forall i | 1 <= i < |positions| :: positions[i] == rest[i - 1];
      if !PositionGone(rest, row) {
        var i :| 0 <= i < |rest| && Matches(rest[i], row) && rest[i].quantity != 0.0
                 && forall j | 0 <= j < i :: !Matches(rest[j], row);
        assert Matches(positions[i + 1], row);
      }
    }
  }
}

/** The handlers of one client connection as the server runs them: fields updated in place,
    loops over orders, positions and trades. Each is proved to do the step of ActivityStop. */
module Connection {
  import opened Types
  import opened StopStore
  import opened ActivityStop

  class ClientConnection {
    const db: Database
    var live: Option<LiveStop>
    var chart: Option<string>
    /** Everything sent to the client or asked of the exchange, in order. */
    var sent: seq<Effect>

    ghost function Model(): State
      reads this, db
    {
      State(live, db.stops, db.pendings, chart)
    }

    /** A handler did exactly one step: the new state, and what it sent. */
    twostate predicate Did(now: nat, event: Event)
      reads this, db
    {
      && Model() == Step(old(Model()), now, event).state
      && sent == old(sent) + Step(old(Model()), now, event).effects
    }

    /** Connecting reads the table and starts from its first row. */
    constructor (db: Database, now: nat)
      ensures this.db == db && sent == []
      ensures forall lost: State | lost.stops == db.stops && lost.pendings == db.pendings ::
                Model() == Step(lost, now, Reconnect).state
    {
      this.db := db;
      live, chart, sent := None, None, [];
      new;
      var first := db.LoadFirstActivityStop();
      if first.Some? {
        var row := first.value;
        var elapsed := if row.start <= now then now - row.start else 0;
        var back := if elapsed < row.timeoutMs then elapsed else row.timeoutMs;
        live := Some(LiveStop(row, now - back));
      }
    }

    method Send(effect: Effect)
      modifies this`sent
      ensures sent == old(sent) + [effect]
    {
      sent := sent + [effect];
    }

    method HandleActivityStop(symbol: string, side: Side, timeoutSecs: nat, trigger: Option<real>, now: nat)
      modifies this`live, this`sent, db`stops
      ensures Did(now, Arm(symbol, side, timeoutSecs, trigger))
    {
      var row := StopRow(symbol, side, timeoutSecs * 1000, trigger, now, trigger.None?);
      db.SaveActivityStop(row);
      live := Some(LiveStop(row, now));
      Send(Notify(StopRegistered(symbol, timeoutSecs, trigger)));
    }

    /** Takes the live stop out of memory and deletes its row. */
    method TakeStop()
      requires live.Some?
      modifies this`live, db`stops
      ensures Model() == End(old(Model()))
    {
      var row := live.value.row;
      db.DeleteActivityStop(row.symbol, row.side);
      live := None;
    }

    method HandleCancelActivityStop(symbol: string, now: nat)
      modifies this`live, this`sent, db`stops
      ensures Did(now, CancelStop(symbol))
    {
      if live.Some? {
        TakeStop();
      }
      Send(Notify(StopStatus(symbol, 0, false, None)));
    }

    method HandleCreatePendingAutostop(cmd: PendingAutostop, now: nat)
      modifies this`sent, db`pendings
      ensures Did(now, CreatePending(cmd))
    {
      db.SavePendingAutostop(cmd);
      Send(Notify(AutostopCreated(cmd.orderId)));
    }

    method HandleUpdatePendingAutostop(cmd: PendingAutostop, now: nat)
      modifies this`sent, db`pendings
      ensures Did(now, UpdatePending(cmd))
    {
      var stored := db.LoadPendingAutostop(cmd.orderId);
      if stored.Some? {
        db.SavePendingAutostop(cmd);
        Send(Notify(AutostopUpdated(cmd.orderId)));
      } else {
        Send(Notify(AutostopNotFound(cmd.orderId)));
      }
    }

    method HandleCancelPendingAutostop(orderId: string, now: nat)
      modifies this`sent, db`pendings
      ensures Did(now, CancelPending(orderId))
    {
      db.DeletePendingAutostop(orderId);
      Send(Notify(AutostopCancelled(orderId)));
    }

    // ---------- Exchange events ----------

    method ActivatePending(cmd: PendingAutostop, now: nat)
      modifies this`live, this`sent, db`stops
      ensures Model() == Activate(old(Model()), cmd, now).state
      ensures sent == old(sent) + Activate(old(Model()), cmd, now).effects
    {
      match cmd.kind
      case Trailing =>
        if cmd.params.target.Some? {
          Send(SetTrailingStop(cmd.symbol, cmd.side, cmd.params.target.value, cmd.params.activePrice));
        }
      case Activity =>
        if cmd.params.timeoutSecs.Some? {
          var trigger := cmd.params.trigger;
          var row := StopRow(cmd.symbol, cmd.side, cmd.params.timeoutSecs.value * 1000, trigger, now, trigger.None?);
          db.SaveActivityStop(row);
          live := Some(LiveStop(row, now));
        }
    }

    method OnOrderUpdate(order: OrderUpdate, now: nat)
      modifies this`live, this`sent, db`stops, db`pendings
      ensures Did(now, OrderChanged(order))
    {
      if order.status == Filled || order.status == PartiallyFilled {
        var pending := db.LoadPendingAutostop(order.id);
        if pending.Some? {
          ActivatePending(pending.value, now);
          db.DeletePendingAutostop(order.id);
          Send(Notify(AutostopActivated(order.id, pending.value.symbol)));
        }
      }
      if order.status == Cancelled {
        var pending := db.LoadPendingAutostop(order.id);
        if pending.Some? {
          db.DeletePendingAutostop(order.id);
          Send(Notify(AutostopCancelled(order.id)));
        }
      }
    }

    /** A batch of order updates is one step per order, in order. */
    method OnOrderUpdates(orders: seq<OrderUpdate>, now: nat)
      modifies this`live, this`sent, db`stops, db`pendings
      ensures Model() == Batch(old(Model()), orders, now).state
      ensures sent == old(sent) + Batch(old(Model()), orders, now).effects
    {
      var i := 0;
      while i < |orders|
        invariant 0 <= i <= |orders|
        invariant Model() == Batch(old(Model()), orders[..i], now).state
        invariant sent == old(sent) + Batch(old(Model()), orders[..i], now).effects
      {
        assert orders[..i + 1][..i] == orders[..i];
        OnOrderUpdate(orders[i], now);
        i := i + 1;
      }
      assert orders[..i] == orders;
    }

    method OnPositionUpdate(positions: seq<Position>, now: nat)
      modifies this`live, this`sent, db`stops
      ensures Did(now, PositionsChanged(positions))
    {
      var i := 0;
      while i < |positions|
        invariant 0 <= i <= |positions|
        invariant Model() == old(Model())
        invariant sent == old(sent) + ZeroedSymbols(positions[..i])
      {
        assert positions[..i + 1][..i] == positions[..i];
        if positions[i].quantity == 0.0 {
          Send(CancelLimitOrders(positions[i].symbol));
        }
        i := i + 1;
      }
      assert positions[..i] == positions;
      if live.Some? {
        var row := live.value.row;
        var j := 0;
        while j < |positions| && !Matches(positions[j], row)
          invariant 0 <= j <= |positions|
          invariant PositionGone(positions, row) == PositionGone(positions[j..], row)
        {
          j := j + 1;
        }
        if j == |positions| || positions[j].quantity == 0.0 {
          TakeStop();
          Send(Notify(StopStatus(row.symbol, 0, false, None)));
        }
      }
    }

    /** The last price that a batch reported, found by overwriting. */
    method OnTradeUpdate(prices: seq<real>, now: nat)
      modifies this`live
      ensures Did(now, TradeBatch(prices))
    {
      var lastPrice: Option<real> := None;
      var i := 0;
      while i < |prices|
        invariant 0 <= i <= |prices|
        invariant lastPrice == if i == 0 then None else Some(prices[i - 1])
      {
        lastPrice := Some(prices[i]);
        i := i + 1;
      }
      if lastPrice.Some? && live.Some? && chart == Some(live.value.row.symbol) {
        var stop := live.value;
        if stop.row.trigger.Some? {
          var triggered := if stop.row.side == Buy then lastPrice.value >= stop.row.trigger.value
                           else lastPrice.value <= stop.row.trigger.value;
          if triggered && !stop.row.active {
            live := Some(LiveStop(stop.row.(active := true), now));
          }
        }
        if live.value.row.active {
          live := Some(live.value.(lastTrade := now));
        }
      }
    }

    method HandleSubscribeChart(symbol: string, now: nat)
      modifies this`chart
      ensures Did(now, SubscribeChart(symbol))
    {
      chart := Some(symbol);
    }

    method HandleUnsubscribeChart(now: nat)
      modifies this`chart
      ensures Did(now, UnsubscribeChart)
    {
      chart := None;
    }

    /** Looks for an open position on the symbol and reports what was sent to close it. */
    method ClosePosition(row: StopRow, answer: ExchangeAnswer)
      modifies this`sent
      ensures sent == old(sent) + CloseEffects(row, answer)
    {
      match answer
      case PositionsFailed =>
        Send(Notify(StopStatus(row.symbol, 0, false, None)));
      case PositionsAre(positions, accepted) =>
        var j := 0;
        while j < |positions| && !(positions[j].symbol == row.symbol && positions[j].quantity > 0.0)
          invariant 0 <= j <= |positions|
          invariant FirstOpen(positions, row.symbol) == FirstOpen(positions[j..], row.symbol)
        {
          j := j + 1;
        }
        if j < |positions| {
          var p := positions[j];
          Send(CloseOrder(row.symbol, Opposite(p.side), p.quantity, if p.side == Buy then 1 else 2));
          if accepted {
            Send(Notify(StopTriggered(row.symbol)));
          } else {
            Send(Notify(CloseFailed(row.symbol, p.side)));
          }
        } else {
          Send(Notify(StopStatus(row.symbol, 0, false, None)));
        }
    }

    method OnTimer(answer: ExchangeAnswer, now: nat)
      modifies this`live, this`sent, db`stops
      ensures Did(now, Tick(answer))
    {
      if live.Some? && live.value.row.active {
        var stop := live.value;
        var elapsed := if stop.lastTrade <= now then now - stop.lastTrade else 0;
        var remaining := if elapsed <= stop.row.timeoutMs then stop.row.timeoutMs - elapsed else 0;
        Send(Notify(StopStatus(stop.row.symbol, remaining, true, stop.row.trigger)));
        if elapsed >= stop.row.timeoutMs {
          ClosePosition(stop.row, answer);
          TakeStop();
        }
      }
    }
  }

  ghost function Batch(s: State, orders: seq<OrderUpdate>, now: nat): Outcome {
    if orders == [] then Outcome(s, [])
    else
      var done := Batch(s, orders[..|orders| - 1], now);
      var last := Step(done.state, now, OrderChanged(orders[|orders| - 1]));
      Outcome(last.state, done.effects + last.effects)
  }
}

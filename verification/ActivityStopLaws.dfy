/** What each handler of a connection does, written out: the state it leaves, everything it
    sends, and exactly when. */
module ActivityStopLaws {
  import opened Types
  import opened StopStore
  import opened ActivityStop
  import opened ActivityStopRuns

  // ---------- The timer ----------

  predicate OpenAt(positions: seq<Position>, symbol: string, i: nat) {
    i < |positions| && positions[i].symbol == symbol && positions[i].quantity > 0.0
  }

  predicate FirstOpenAt(positions: seq<Position>, symbol: string, i: nat) {
    OpenAt(positions, symbol, i) && forall k: nat | k < i :: !OpenAt(positions, symbol, k)
  }

  lemma {:induction false} FirstOpenFinds(positions: seq<Position>, symbol: string)
    ensures FirstOpen(positions, symbol).None? <==> forall i: nat :: !OpenAt(positions, symbol, i)
    ensures forall i: nat | FirstOpenAt(positions, symbol, i) :: FirstOpen(positions, symbol) == Some(positions[i])
  {
    FirstOpenIsFirst(positions, symbol);
    if FirstOpen(positions, symbol).Some? {
      var i :| 0 <= i < |positions| && FirstOpen(positions, symbol) == Some(positions[i])
               && positions[i].symbol == symbol && positions[i].quantity > 0.0
               && forall j | 0 <= j < i :: positions[j].symbol == symbol ==> positions[j].quantity <= 0.0;
      assert OpenAt(positions, symbol, i);
      forall k: nat | FirstOpenAt(positions, symbol, k) ensures k == i { assert k >= i ==> k == i; }
    }
  }

  /** What event i makes the server send. */
  ghost function SentAt(run: Run, i: nat): seq<Effect>
    requires IsRun(run) && i < |run.events|
  {
    Step(run.states[i], run.events[i].now, run.events[i].event).effects
  }

  /** Nothing but a tick sends a market close, and a tick does if and only if it ends an
      active stop at its deadline, the exchange answers with positions, and one of them is
      open on the stop's symbol. */
  lemma {:induction false} CloseSentIff(run: Run, i: nat)
    requires IsRun(run) && i < |run.events|
    ensures var s, t := run.states[i], run.events[i];
            SendsClose(SentAt(run, i)) <==>
            && TickEnds(s, t) && t.event.answer.PositionsAre?
            && exists k :: OpenAt(t.event.answer.positions, s.live.value.row.symbol, k)
  {
    var s, t := run.states[i], run.events[i];
    CloseOnlyFromTick(s, t);
    if s.live.Some? { LiveNotLater(run, i); }
    if TickEnds(s, t) && t.event.answer.PositionsAre? {
      var symbol := s.live.value.row.symbol;
      FirstOpenFinds(t.event.answer.positions, symbol);
      if FirstOpen(t.event.answer.positions, symbol).Some? { assert SentAt(run, i)[1].CloseOrder?; }
    }
  }

  /** A tick that ends the stop for the first open position at k sends its status, the market
      order that reduces that position, on the other side and for its quantity, and then
      whether the exchange accepted it. */
  lemma {:induction false} TickCloses(run: Run, i: nat, k: nat)
    requires IsRun(run) && i < |run.events| && TickEnds(run.states[i], run.events[i])
    requires run.events[i].event.answer.PositionsAre?
    requires FirstOpenAt(run.events[i].event.answer.positions, run.states[i].live.value.row.symbol, k)
    ensures var row, answer := run.states[i].live.value.row, run.events[i].event.answer;
            var p := answer.positions[k];
            SentAt(run, i) ==
            [Notify(StopStatus(row.symbol, 0, true, row.trigger)),
             CloseOrder(row.symbol, if p.side == Buy then Sell else Buy, p.quantity, if p.side == Buy then 1 else 2),
             Notify(if answer.closeAccepted then StopTriggered(row.symbol) else CloseFailed(row.symbol, p.side))]
  {
    LiveNotLater(run, i);
    FirstOpenFinds(run.events[i].event.answer.positions, run.states[i].live.value.row.symbol);
  }

  /** A tick that ends the stop without an open position, or without an answer, sends its
      status and that it is inactive. */
  lemma {:induction false} TickDropsStop(run: Run, i: nat)
    requires IsRun(run) && i < |run.events| && TickEnds(run.states[i], run.events[i])
    requires var answer, symbol := run.events[i].event.answer, run.states[i].live.value.row.symbol;
             answer.PositionsFailed? || forall k: nat :: !OpenAt(answer.positions, symbol, k)
    ensures var row := run.states[i].live.value.row;
            SentAt(run, i) == [Notify(StopStatus(row.symbol, 0, true, row.trigger)),
                               Notify(StopStatus(row.symbol, 0, false, None))]
  {
    LiveNotLater(run, i);
    var answer := run.events[i].event.answer;
    if answer.PositionsAre? { FirstOpenFinds(answer.positions, run.states[i].live.value.row.symbol); }
  }

  /** Any other tick changes nothing: it reports the time left of an active stop, and is
      silent about a waiting one. */
  lemma {:induction false} TickReports(run: Run, i: nat)
    requires IsRun(run) && i < |run.events| && run.events[i].event.Tick? && !TickEnds(run.states[i], run.events[i])
    ensures run.states[i + 1] == run.states[i]
    ensures run.states[i].live.Some? && run.states[i].live.value.row.active ==>
              var l := run.states[i].live.value;
              var left := l.row.timeoutMs - (run.events[i].now - l.lastTrade);
              left > 0 && SentAt(run, i) == [Notify(StopStatus(l.row.symbol, left, true, l.row.trigger))]
    ensures run.states[i].live.None? || !run.states[i].live.value.row.active ==> SentAt(run, i) == []
  {
    assert run.states[i + 1] == Next(run.states[i], run.events[i]);
    if run.states[i].live.Some? { LiveNotLater(run, i); }
  }

  /** An ending tick takes exactly the stop and its own row. */
  lemma {:induction false} TickEndLeaves(run: Run, i: nat)
    requires IsRun(run) && i < |run.events| && TickEnds(run.states[i], run.events[i])
    ensures var s := run.states[i]; var row := s.live.value.row;
            run.states[i + 1] == State(None, s.stops - {MakeKey(row.symbol, row.side)}, s.pendings, s.chart)
  {
    LiveNotLater(run, i);
    assert run.states[i + 1] == Next(run.states[i], run.events[i]);
  }

  // ---------- Trades ----------

  /** The batch is not empty, the chart is on the stop's symbol, and the last price is at or
      above the trigger of a long's stop or at or below that of a short's. */
  predicate Activates(s: State, e: Event)
    requires s.live.Some?
  {
    && e.TradeBatch? && e.prices != [] && s.live.value.row.trigger.Some?
    && s.chart == Some(s.live.value.row.symbol)
    && var last, trigger := e.prices[|e.prices| - 1], s.live.value.row.trigger.value;
       (s.live.value.row.side == Buy && last >= trigger) || (s.live.value.row.side == Sell && last <= trigger)
  }

  /** A waiting stop is active after an event that neither installs nor ends a stop if and
      only if the event is such a batch; it then counts from now. */
  lemma {:induction false} ActivatesIff(run: Run, i: nat)
    requires IsRun(run) && i < |run.events|
    requires run.states[i].live.Some? && !run.states[i].live.value.row.active
    requires var s, t := run.states[i], run.events[i];
             !Installs(s, t.event) && !Ends(s, t) && !Drops(s, t.event)
    ensures var s, t, l := run.states[i], run.events[i], run.states[i].live.value;
            run.states[i + 1].live ==
            Some(if Activates(s, t.event) then LiveStop(l.row.(active := true), t.now) else l)
  {
    LiveNotLater(run, i);
    KeptStop(run.states[i], run.events[i]);
    assert run.states[i + 1] == Next(run.states[i], run.events[i]);
  }

  /** Over a run: the stop installed at j with a trigger is active before i if and only if
      some batch in between, on its symbol, ended at or beyond the trigger on its side. */
  lemma {:induction false} ActiveIffReached(run: Run, j: nat, i: nat)
    requires IsRun(run) && LiveSince(run, j, i) && Installed(run, j).row.trigger.Some?
    ensures run.states[i].live.Some?
    ensures var row := Installed(run, j).row;
            run.states[i].live.value.row.active <==>
            exists k :: && j < k < i && TradesOn(run, k, row.symbol)
                        && var prices := run.events[k].event.prices;
                           var last, trigger := prices[|prices| - 1], row.trigger.value;
                           (row.side == Buy && last >= trigger) || (row.side == Sell && last <= trigger)
  {
    LiveIsHistory(run, j, i);
    var row := Installed(run, j).row;
    assert forall k | j < k < i :: CrossesAt(run, k, row) ==> TradesOn(run, k, row.symbol);
    if k :| && j < k < i && TradesOn(run, k, row.symbol)
            && var prices := run.events[k].event.prices;
               var last, trigger := prices[|prices| - 1], row.trigger.value;
               (row.side == Buy && last >= trigger) || (row.side == Sell && last <= trigger)
    {
      assert CrossesAt(run, k, row);
    }
  }

  /** A batch changes nothing but the stop's activity, and sends nothing. */
  lemma {:induction false} TradesLeave(s: State, prices: seq<real>, now: nat)
    ensures var after := Step(s, now, TradeBatch(prices));
            after.effects == [] && after.state.stops == s.stops && after.state.pendings == s.pendings
            && after.state.chart == s.chart
  {
  }

  // ---------- Requests of the client ----------

  lemma {:induction false} ArmDoes(
    s: State, now: nat, symbol: string, side: Side, timeoutSecs: nat, trigger: Option<real>)
    ensures var row := StopRow(symbol, side, 1000 * timeoutSecs, trigger, now, trigger == None);
            Step(s, now, Arm(symbol, side, timeoutSecs, trigger)) ==
            Outcome(State(Some(LiveStop(row, now)), s.stops[MakeKey(symbol, side) := row], s.pendings, s.chart),
                    [Notify(StopRegistered(symbol, timeoutSecs, trigger))])
  {
  }

  /** Whatever symbol is named, the live stop and its own row go. */
  lemma {:induction false} CancelDoes(s: State, now: nat, symbol: string)
    ensures var after := Step(s, now, CancelStop(symbol));
            && after.effects == [Notify(StopStatus(symbol, 0, false, None))]
            && after.state.live.None? && after.state.pendings == s.pendings && after.state.chart == s.chart
            && after.state.stops == if s.live.None? then s.stops
                                    else s.stops - {MakeKey(s.live.value.row.symbol, s.live.value.row.side)}
  {
  }

  lemma {:induction false} PendingRequestsDo(s: State, now: nat, cmd: PendingAutostop)
    ensures Step(s, now, CreatePending(cmd)) ==
            Outcome(s.(pendings := s.pendings[PendingKey(cmd.orderId) := cmd]), [Notify(AutostopCreated(cmd.orderId))])
    ensures PendingKey(cmd.orderId) in s.pendings ==>
              Step(s, now, UpdatePending(cmd)) ==
              Outcome(s.(pendings := s.pendings[PendingKey(cmd.orderId) := cmd]),
                      [Notify(AutostopUpdated(cmd.orderId))])
    ensures PendingKey(cmd.orderId) !in s.pendings ==>
              Step(s, now, UpdatePending(cmd)) == Outcome(s, [Notify(AutostopNotFound(cmd.orderId))])
    ensures Step(s, now, CancelPending(cmd.orderId)) ==
            Outcome(s.(pendings := s.pendings - {PendingKey(cmd.orderId)}), [Notify(AutostopCancelled(cmd.orderId))])
  {
  }

  // ---------- Position updates ----------

  lemma {:induction false} SweepConcat(a: seq<Position>, b: seq<Position>)
    ensures ZeroedSymbols(a + b) == ZeroedSymbols(a) + ZeroedSymbols(b)
  {
    if b == [] {
      assert a + b == a && ZeroedSymbols(a) + [] == ZeroedSymbols(a);
    } else {
      var before, p := b[..|b| - 1], b[|b| - 1];
      SweepConcat(a, before);
      assert (a + b)[..|a + b| - 1] == a + before;
    }
  }

  /** The positions with quantity zero, in order. */
  function Emptied(positions: seq<Position>): seq<Position> {
    if positions == [] then []
    else (if positions[0].quantity == 0.0 then [positions[0]] else []) + Emptied(positions[1..])
  }

  function CancelsFor(positions: seq<Position>): (effects: seq<Effect>)
    ensures |effects| == |positions|
    ensures forall i | 0 <= i < |positions| :: effects[i] == CancelLimitOrders(positions[i].symbol)
  {
    seq(|positions|, i requires 0 <= i < |positions| => CancelLimitOrders(positions[i].symbol))
  }

  lemma {:induction false} SweepIsEmptied(positions: seq<Position>)
    ensures ZeroedSymbols(positions) == CancelsFor(Emptied(positions))
  {
    if positions != [] {
      var p, rest := positions[0], positions[1..];
      SweepIsEmptied(rest);
      assert positions == [p] + rest;
      SweepConcat([p], rest);
      assert [p][..0] == [];
    }
  }

  /** An update asks to cancel the limit orders of exactly the emptied entries, in order; and
      it ends the stop, saying so, if and only if the first entry of its symbol and side is
      missing or has quantity zero. Nothing else changes. */
  lemma {:induction false} PositionsDo(s: State, now: nat, positions: seq<Position>)
    ensures var after := Step(s, now, PositionsChanged(positions));
            var ended := s.live.Some? &&
                         !exists i :: && 0 <= i < |positions| && positions[i].quantity != 0.0
                                      && positions[i].symbol == s.live.value.row.symbol
                                      && positions[i].side == s.live.value.row.side
                                      && forall j | 0 <= j < i :: positions[j].symbol != s.live.value.row.symbol
                                                                  || positions[j].side != s.live.value.row.side;
            && after.effects == CancelsFor(Emptied(positions))
               + (if ended then [Notify(StopStatus(s.live.value.row.symbol, 0, false, None))] else [])
            && after.state == if ended
                              then State(None, s.stops - {MakeKey(s.live.value.row.symbol, s.live.value.row.side)},
                                         s.pendings, s.chart)
                              else s
  {
    SweepIsEmptied(positions);
    if s.live.Some? { PositionKeptIff(positions, s.live.value.row); }
    assert ZeroedSymbols(positions) + [] == ZeroedSymbols(positions);
  }

  // ---------- Connecting ----------

  /** A new connection over an empty table has no stop. */
  lemma {:induction false} ReconnectToNothing(s: State, now: nat)
    requires s.stops.Keys == {}
    ensures Step(s, now, Reconnect) == Outcome(State(None, s.stops, s.pendings, None), [])
  {
  }

  /** A new connection sends nothing and charts nothing; the tables stay. It starts with the
      row of the first key, its time counted from its creation but from no more than its
      timeout ago. */
  lemma {:induction false} ReconnectRestores(s: State, now: nat, k: string)
    requires k in s.stops && forall x | x in s.stops :: x == k || KeyLt(k, x)
    ensures var row := s.stops[k];
            var since := if row.start > now then now
                         else if now - row.start <= row.timeoutMs then row.start else now - row.timeoutMs;
            Step(s, now, Reconnect) == Outcome(State(Some(LiveStop(row, since)), s.stops, s.pendings, None), [])
  {
    FirstRowIs(s.stops, k);
  }

  lemma {:induction false} FirstRowIs(stops: map<string, StopRow>, k: string)
    requires k in stops && forall x | x in stops :: x == k || KeyLt(k, x)
    ensures FirstRow(stops) == Some(stops[k])
  {
    assert IsLeastKey(k, stops.Keys);
    LeastKeyUnique(k, LeastKey(stops.Keys), stops.Keys);
  }

  // ---------- The chart ----------

  predicate SetsChart(e: Event) { e.SubscribeChart? || e.UnsubscribeChart? || e.Reconnect? }

  /** The charted symbol is the one last subscribed, if nothing unsubscribed since and the
      connection is the same. */
  lemma {:induction false} ChartIsLastSubscribed(run: Run, i: nat, symbol: string)
    requires IsRun(run) && i <= |run.events|
    ensures run.states[i].chart == Some(symbol) <==>
            exists k :: && 0 <= k < i && run.events[k].event == SubscribeChart(symbol)
                        && forall m | k < m < i :: !SetsChart(run.events[m].event)
  {
    if i > 0 {
      var k := i - 1;
      ChartIsLastSubscribed(run, k, symbol);
      ChartAfter(run.states[k], run.events[k]);
      assert run.states[i] == Next(run.states[k], run.events[k]);
      if !SetsChart(run.events[k].event) {
        if run.states[k].chart == Some(symbol) {
          var m :| && 0 <= m < k && run.events[m].event == SubscribeChart(symbol)
                   && forall n | m < n < k :: !SetsChart(run.events[n].event);
          assert forall n | m < n < i :: !SetsChart(run.events[n].event);
        }
      }
    }
  }

  lemma {:induction false} ChartAfter(s: State, t: Timed)
    ensures Next(s, t).chart ==
            match t.event
            case SubscribeChart(symbol) => Some(symbol)
            case UnsubscribeChart => None
            case Reconnect => None
            case _ => s.chart
  {
  }

  /** Subscribing and unsubscribing leave the stops alone; a reconnect leaves the tables. */
  lemma {:induction false} ChartEventsLeave(s: State, t: Timed)
    requires SetsChart(t.event)
    ensures Step(s, t.now, t.event).effects == []
    ensures Next(s, t).stops == s.stops && Next(s, t).pendings == s.pendings
    ensures !t.event.Reconnect? ==> Next(s, t).live == s.live
  {
  }
}

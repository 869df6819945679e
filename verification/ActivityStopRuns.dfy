/** Properties of whole runs of the activity-stop machine: when the market close fires,
    how often, and how memory and tables agree across reconnects. */
module ActivityStopRuns {
  import opened Types
  import opened StopStore
  import opened ActivityStop

  datatype Timed = Timed(now: nat, event: Event)

  datatype Run = Run(states: seq<State>, events: seq<Timed>)

  ghost function Next(s: State, t: Timed): State {
    Step(s, t.now, t.event).state
  }

  /** Any sequence of handlers from an empty database, at clock readings that never go
      back. Reconnect ends one connection and begins the next. */
  ghost predicate IsRun(run: Run) {
    && |run.states| == |run.events| + 1
    && run.states[0] == INITIAL
    && (forall i | 0 <= i < |run.events| :: run.states[i + 1] == Next(run.states[i], run.events[i]))
    && (forall i, j | 0 <= i <= j < |run.events| :: run.events[i].now <= run.events[j].now)
  }

  function TimeBefore(run: Run, i: nat): nat
    requires i <= |run.events|
  {
    if i == 0 then 0 else run.events[i - 1].now
  }

  // ---------- Memory and tables ----------

  /** Every row is filed under its own key, and its `active` flag is never written after
      the row was created. */
  ghost predicate RowsInv(s: State, now: nat) {
    forall k | k in s.stops ::
      RowKey(s.stops[k]) == k && s.stops[k].active == s.stops[k].trigger.None? && s.stops[k].start <= now
  }

  /** The live stop has a row under its own key that agrees on every field but `active`. */
  ghost predicate LiveInv(s: State, now: nat) {
    s.live.Some? ==>
      var l := s.live.value;
      && RowKey(l.row) in s.stops
      && s.stops[RowKey(l.row)].(active := l.row.active) == l.row
      && (s.stops[RowKey(l.row)].active ==> l.row.active)
      && l.row.start <= l.lastTrade <= now
  }

  ghost predicate PendingInv(s: State) {
    forall k | k in s.pendings :: PendingKey(s.pendings[k].orderId) == k
  }

  ghost predicate Inv(s: State, now: nat) {
    RowsInv(s, now) && LiveInv(s, now) && PendingInv(s)
  }

  lemma {:induction false} InstallKeepsInv(s: State, row: StopRow, now: nat)
    requires RowsInv(s, now) && PendingInv(s)
    requires row.active == row.trigger.None? && row.start == now
    ensures Inv(Install(s, row, now), now)
  {
  }

  lemma {:induction false} EndKeepsInv(s: State, now: nat)
    requires Inv(s, now) && s.live.Some?
    ensures Inv(End(s), now)
  {
  }

  lemma {:induction false} RestoreKeepsInv(s: State, now: nat)
    requires Inv(s, now)
    ensures Inv(Restore(s, now), now)
  {
  }

  lemma {:induction false} StepKeepsInv(s: State, before: nat, now: nat, event: Event)
    requires Inv(s, before) && before <= now
    ensures Inv(Step(s, now, event).state, now)
  {
    assert Inv(s, now);
    match event
    case Arm(symbol, side, timeoutSecs, trigger) =>
      InstallKeepsInv(s, NewRow(symbol, side, timeoutSecs, trigger, now), now);
    case OrderChanged(order) =>
      if PendingKey(order.id) in s.pendings && IsFill(order.status) {
        var cmd := s.pendings[PendingKey(order.id)];
        if cmd.kind == Activity && cmd.params.timeoutSecs.Some? {
          InstallKeepsInv(s, NewRow(cmd.symbol, cmd.side, cmd.params.timeoutSecs.value, cmd.params.trigger, now), now);
        }
      }
    case Reconnect => RestoreKeepsInv(s, now);
    case CancelStop(_) => if s.live.Some? { EndKeepsInv(s, now); }
    case PositionsChanged(_) => if s.live.Some? { EndKeepsInv(s, now); }
    case Tick(_) => if s.live.Some? { EndKeepsInv(s, now); }
    case _ =>
  }

  /** In every reachable state a live stop has a row under its own key that agrees on
      every field but `active`, an active row means an active live stop, every row is
      active exactly when it has no trigger, and the last activity is never before the
      stop was created. */
  lemma {:induction false} ReachableInv(run: Run, i: nat)
    requires IsRun(run) && i <= |run.events|
    ensures Inv(run.states[i], TimeBefore(run, i))
  {
    if i > 0 {
      ReachableInv(run, i - 1);
      assert run.states[i] == Next(run.states[i - 1], run.events[i - 1]);
      assert i > 1 ==> run.events[i - 2].now <= run.events[i - 1].now;
      StepKeepsInv(run.states[i - 1], TimeBefore(run, i - 1), run.events[i - 1].now, run.events[i - 1].event);
    }
  }

  // ---------- Installing, ending, dropping ----------

  predicate Installs(s: State, e: Event) {
    match e
    case Arm(_, _, _, _) => true
    case Reconnect => s.stops.Keys != {}
    case OrderChanged(o) =>
      PendingKey(o.id) in s.pendings && (o.status == Filled || o.status == PartiallyFilled) &&
      s.pendings[PendingKey(o.id)].kind == Activity && s.pendings[PendingKey(o.id)].params.timeoutSecs.Some?
    case _ => false
  }

  /** The timer has an active stop and its timeout has passed since the last activity. */
  predicate TickEnds(s: State, t: Timed) {
    t.event.Tick? && s.live.Some? && s.live.value.row.active
    && t.now - s.live.value.lastTrade >= s.live.value.row.timeoutMs
  }

  predicate PositionEnds(s: State, e: Event) {
    e.PositionsChanged? && s.live.Some? && PositionGone(e.positions, s.live.value.row)
  }

  predicate CancelEnds(s: State, e: Event) {
    e.CancelStop? && s.live.Some?
  }

  predicate Ends(s: State, t: Timed) {
    TickEnds(s, t) || PositionEnds(s, t.event) || CancelEnds(s, t.event)
  }

  predicate Overwrites(s: State, e: Event) {
    !e.Reconnect? && Installs(s, e) && s.live.Some?
  }

  predicate Drops(s: State, e: Event) {
    e.Reconnect? && s.live.Some?
  }

  /** Whether a live stop exists after a handler depends only on these classes. */
  lemma {:induction false} LiveAfter(s: State, before: nat, t: Timed)
    requires Inv(s, before) && before <= t.now
    ensures Next(s, t).live.Some? <==> Installs(s, t.event) || (s.live.Some? && !Ends(s, t) && !t.event.Reconnect?)
  {
  }

  /** When a stop ends, its own row goes and no other does. */
  lemma {:induction false} EndRemovesOwnRow(s: State, before: nat, t: Timed)
    requires Inv(s, before) && before <= t.now && Ends(s, t)
    ensures Next(s, t) == End(s) && Next(s, t).live.None?
    ensures RowKey(s.live.value.row) in s.stops && Next(s, t).stops == s.stops - {RowKey(s.live.value.row)}
    ensures forall sym, sd | MakeKey(sym, sd) in s.stops ::
              MakeKey(sym, sd) !in Next(s, t).stops <==>
              sym == s.live.value.row.symbol && sd == s.live.value.row.side
  {
    var row := s.live.value.row;
    assert Next(s, t) == End(s);
    forall sym, sd | MakeKey(sym, sd) in s.stops
      ensures MakeKey(sym, sd) !in End(s).stops <==> sym == row.symbol && sd == row.side
    {
      MakeKeyInjective(sym, sd, row.symbol, row.side);
    }
  }

  /** No handler but an ending one removes a row, and only installing adds or replaces one,
      under the new stop's own key. */
  lemma {:induction false} RowsAfter(s: State, before: nat, t: Timed)
    requires Inv(s, before) && before <= t.now
    ensures Installs(s, t.event) && !t.event.Reconnect? ==>
              Next(s, t).live.Some?
              && Next(s, t).stops == s.stops[RowKey(Next(s, t).live.value.row) := Next(s, t).live.value.row]
    ensures !Ends(s, t) && (t.event.Reconnect? || !Installs(s, t.event)) ==> Next(s, t).stops == s.stops
  {
    if Installs(s, t.event) && !t.event.Reconnect? { InstallsItsRow(s, t); }
  }

  lemma {:induction false} InstallsItsRow(s: State, t: Timed)
    requires Installs(s, t.event) && !t.event.Reconnect?
    ensures Next(s, t).live.Some? && Next(s, t).live.value.lastTrade == t.now
    ensures Next(s, t).stops == s.stops[RowKey(Next(s, t).live.value.row) := Next(s, t).live.value.row]
  {
  }

  // ---------- When the close fires ----------

  /** The stop live just before event i was installed by event j and has neither ended
      nor been replaced since. */
  ghost predicate LiveSince(run: Run, j: nat, i: nat)
    requires IsRun(run)
  {
    && j < i <= |run.events|
    && Installs(run.states[j], run.events[j].event)
    && forall k | j < k < i :: !Installs(run.states[k], run.events[k].event)
                               && !Ends(run.states[k], run.events[k]) && !Drops(run.states[k], run.events[k].event)
  }

  /** Event k is a non-empty trade batch received while the chart is on the symbol. */
  predicate TradesOn(run: Run, k: nat, symbol: string)
    requires k < |run.events| && k < |run.states|
  {
    run.events[k].event.TradeBatch? && run.events[k].event.prices != [] && run.states[k].chart == Some(symbol)
  }

  /** The price is at or beyond the trigger on the stop's side. */
  predicate Reaches(row: StopRow, price: real) {
    && row.trigger.Some?
    && ((row.side == Buy && price >= row.trigger.value) || (row.side == Sell && price <= row.trigger.value))
  }

  /** Event k is such a batch and its last price is at or beyond the trigger. */
  predicate CrossesAt(run: Run, k: nat, row: StopRow)
    requires k < |run.events| && k < |run.states|
  {
    TradesOn(run, k, row.symbol)
    && Reaches(row, run.events[k].event.prices[|run.events[k].event.prices| - 1])
  }

  /** By the history alone: no trigger, or some batch after j and before i crossed it. */
  ghost predicate ActivatedBy(run: Run, j: nat, i: nat, row: StopRow)
    requires i <= |run.events| && i <= |run.states|
  {
    row.trigger.None? || exists k :: j < k < i && CrossesAt(run, k, row)
  }

  /** A batch that postpones the close: on the symbol, and activating or after activation. */
  ghost predicate Postpones(run: Run, j: nat, k: nat, row: StopRow)
    requires k < |run.events| && k < |run.states|
  {
    TradesOn(run, k, row.symbol) && ActivatedBy(run, j, k + 1, row)
  }

  /** What installing at event j makes live. */
  ghost function Installed(run: Run, j: nat): LiveStop
    requires IsRun(run) && j < |run.events| && Installs(run.states[j], run.events[j].event)
  {
    ReachableInv(run, j);
    LiveAfter(run.states[j], TimeBefore(run, j), run.events[j]);
    run.states[j + 1].live.value
  }

  /** What a request, or the record of a filled order, asks for. */
  predicate AskedFor(s: State, e: Event, symbol: string, side: Side, timeoutSecs: nat, trigger: Option<real>) {
    e == Arm(symbol, side, timeoutSecs, trigger) ||
    (e.OrderChanged? && PendingKey(e.order.id) in s.pendings &&
     var p := s.pendings[PendingKey(e.order.id)];
     p.symbol == symbol && p.side == side && p.params.timeoutSecs == Some(timeoutSecs) && p.params.trigger == trigger)
  }

  /** An installed stop is for the symbol, side and trigger asked for, times out after the
      seconds asked for, and is active at once exactly when it has no trigger. */
  lemma {:induction false} InstalledIsAskedFor(
    run: Run, j: nat, symbol: string, side: Side, timeoutSecs: nat, trigger: Option<real>)
    requires IsRun(run) && j < |run.events| && Installs(run.states[j], run.events[j].event)
    requires AskedFor(run.states[j], run.events[j].event, symbol, side, timeoutSecs, trigger)
    ensures Installed(run, j).row
            == StopRow(symbol, side, 1000 * timeoutSecs, trigger, run.events[j].now, trigger == None)
  {
    assert run.states[j + 1] == Next(run.states[j], run.events[j]);
  }

  /** A fresh stop counts from its installation; a restored one from its creation, but
      never from more than its timeout ago. */
  lemma {:induction false} InstalledActivity(run: Run, j: nat)
    requires IsRun(run) && j < |run.events| && Installs(run.states[j], run.events[j].event)
    ensures var l := Installed(run, j);
            && l.row.active == l.row.trigger.None?
            && (!run.events[j].event.Reconnect? ==>
                  l.row.start == run.events[j].now && l.lastTrade == run.events[j].now)
            && (run.events[j].event.Reconnect? ==>
                  l.row == run.states[j].stops[LeastKey(run.states[j].stops.Keys)]
                  && l.lastTrade == if run.events[j].now - l.row.start <= l.row.timeoutMs
                                    then l.row.start else run.events[j].now - l.row.timeoutMs)
  {
    ReachableInv(run, j);
  }

  /** A handler that neither installs nor ends leaves the live stop alone, except for a
      trade batch on its symbol that finds it active or crosses its trigger. */
  lemma {:induction false} KeptStop(s: State, t: Timed)
    requires s.live.Some? && s.live.value.lastTrade <= t.now
    requires !Installs(s, t.event) && !Ends(s, t) && !Drops(s, t.event)
    ensures Next(s, t).live ==
            if t.event.TradeBatch? && t.event.prices != [] && s.chart == Some(s.live.value.row.symbol)
               && (s.live.value.row.active || Reaches(s.live.value.row, t.event.prices[|t.event.prices| - 1]))
            then Some(LiveStop(s.live.value.row.(active := true), t.now)) else s.live
  {
  }

  /** The last activity of a stop with base l0, as read off the history. */
  ghost predicate ActivityIs(run: Run, j: nat, i: nat, l0: LiveStop, at: int)
    requires i <= |run.events| && i <= |run.states|
  {
    && l0.lastTrade <= at
    && (forall k | j < k < i && Postpones(run, j, k, l0.row) :: run.events[k].now <= at)
    && (at == l0.lastTrade || exists k :: j < k < i && Postpones(run, j, k, l0.row) && run.events[k].now == at)
  }

  lemma {:induction false} ActivityExtends(run: Run, j: nat, k: nat, l0: LiveStop, at: int)
    requires IsRun(run) && j < k < |run.events| && ActivityIs(run, j, k, l0, at)
    requires at <= run.events[k].now
    ensures ActivityIs(run, j, k + 1, l0, if Postpones(run, j, k, l0.row) then run.events[k].now else at)
  {
    if Postpones(run, j, k, l0.row) {
      assert forall m | j < m < k + 1 :: run.events[m].now <= run.events[k].now;
    }
  }

  lemma {:induction false} ActivatedExtends(run: Run, j: nat, k: nat, row: StopRow)
    requires IsRun(run) && j < k < |run.events|
    ensures ActivatedBy(run, j, k + 1, row) <==> ActivatedBy(run, j, k, row) || CrossesAt(run, k, row)
  {
  }

  lemma {:induction false} LiveNotLater(run: Run, k: nat)
    requires IsRun(run) && k < |run.events| && run.states[k].live.Some?
    ensures run.states[k].live.value.lastTrade <= run.events[k].now
  {
    ReachableInv(run, k);
    assert k > 0;
    assert run.events[k - 1].now <= run.events[k].now;
  }

  /** The live stop is a function of the history since it was installed: it is active
      exactly when it has no trigger or a batch on its symbol crossed it, and its last
      activity is the latest of its starting point and the batches that postpone it. */
  lemma {:induction false} LiveIsHistory(run: Run, j: nat, i: nat)
    requires IsRun(run) && LiveSince(run, j, i)
    ensures run.states[i].live.Some?
    ensures var l := run.states[i].live.value; var l0 := Installed(run, j);
            && l.row == l0.row.(active := l.row.active)
            && (l.row.active <==> ActivatedBy(run, j, i, l0.row))
            && ActivityIs(run, j, i, l0, l.lastTrade)
    decreases i
  {
    InstalledActivity(run, j);
    if i == j + 1 {
      return;
    }
    var k := i - 1;
    LiveIsHistory(run, j, k);
    LiveNotLater(run, k);
    var l0 := Installed(run, j);
    var l := run.states[k].live.value;
    assert run.states[i] == Next(run.states[k], run.events[k]);
    KeptStop(run.states[k], run.events[k]);
    ActivatedExtends(run, j, k, l0.row);
    ActivityExtends(run, j, k, l0, l.lastTrade);
  }

  /** Every live stop was installed by some event of the run. */
  lemma {:induction false} LiveWasInstalled(run: Run, i: nat) returns (j: nat)
    requires IsRun(run) && i <= |run.events| && run.states[i].live.Some?
    ensures LiveSince(run, j, i)
  {
    assert i > 0;
    var k := i - 1;
    ReachableInv(run, k);
    LiveAfter(run.states[k], TimeBefore(run, k), run.events[k]);
    if Installs(run.states[k], run.events[k].event) {
      j := k;
    } else {
      j := LiveWasInstalled(run, k);
    }
  }

  /** Exactly when a tick ends the stop: it is active by the history, and its timeout has
      passed since its starting point and since every batch that postpones it. */
  lemma {:induction false} CloseFiresIff(run: Run, j: nat, i: nat)
    requires IsRun(run) && LiveSince(run, j, i) && i < |run.events| && run.events[i].event.Tick?
    ensures TickEnds(run.states[i], run.events[i]) <==>
            && ActivatedBy(run, j, i, Installed(run, j).row)
            && run.events[i].now - Installed(run, j).lastTrade >= Installed(run, j).row.timeoutMs
            && forall k | j < k < i && Postpones(run, j, k, Installed(run, j).row) ::
                 run.events[i].now - run.events[k].now >= Installed(run, j).row.timeoutMs
  {
    LiveIsHistory(run, j, i);
  }

  predicate SendsClose(effects: seq<Effect>) {
    exists n :: 0 <= n < |effects| && effects[n].CloseOrder?
  }

  /** A market close is sent only by a tick that ends a stop, at most one per step, and it
      reduces the first open position found on the stop's symbol: the other side, the
      whole quantity. */
  lemma {:induction false} CloseOnlyFromTick(s: State, t: Timed)
    ensures SendsClose(Step(s, t.now, t.event).effects) ==>
              t.event.Tick? && s.live.Some? && s.live.value.row.active && Expired(s.live.value, t.now)
              && t.event.answer.PositionsAre?
              && FirstOpen(t.event.answer.positions, s.live.value.row.symbol).Some?
    ensures forall m, n | 0 <= m < |Step(s, t.now, t.event).effects| && 0 <= n < |Step(s, t.now, t.event).effects|
                          && Step(s, t.now, t.event).effects[m].CloseOrder?
                          && Step(s, t.now, t.event).effects[n].CloseOrder? :: m == n
    ensures forall n | 0 <= n < |Step(s, t.now, t.event).effects| && Step(s, t.now, t.event).effects[n].CloseOrder? ::
              var p := FirstOpen(t.event.answer.positions, s.live.value.row.symbol).value;
              p.quantity > 0.0 && p.symbol == s.live.value.row.symbol
              && Step(s, t.now, t.event).effects[n]
                 == CloseOrder(p.symbol, Opposite(p.side), p.quantity, if p.side == Buy then 1 else 2)
  {
    match t.event
    case PositionsChanged(positions) => SweepOnlyCancels(positions);
    case Tick(answer) =>
      if answer.PositionsAre? && s.live.Some? {
        FirstOpenIsFirst(answer.positions, s.live.value.row.symbol);
      }
    case _ =>
  }

  lemma {:induction false} SweepOnlyCancels(positions: seq<Position>)
    ensures forall n | 0 <= n < |ZeroedSymbols(positions)| :: ZeroedSymbols(positions)[n].CancelLimitOrders?
  {
    if positions != [] {
      SweepOnlyCancels(positions[..|positions| - 1]);
    }
  }

  /** In every run, when the market close is sent for a stop installed by a request or a
      fill, at least the timeout has passed since it was installed and since every trade
      batch on its symbol that activated it or came while it was active. Conversely any
      tick at or past that deadline leaves no live stop, whatever the exchange answers. */
  lemma {:induction false} CloseOnlyAfterQuiet(run: Run, j: nat, i: nat)
    requires IsRun(run) && LiveSince(run, j, i) && i < |run.events|
    requires !run.events[j].event.Reconnect?
    ensures SendsClose(Step(run.states[i], run.events[i].now, run.events[i].event).effects) ==>
              && ActivatedBy(run, j, i, Installed(run, j).row)
              && run.events[i].now - run.events[j].now >= Installed(run, j).row.timeoutMs
              && forall k | j < k < i && Postpones(run, j, k, Installed(run, j).row) ::
                   run.events[i].now - run.events[k].now >= Installed(run, j).row.timeoutMs
    ensures run.events[i].event.Tick?
            && ActivatedBy(run, j, i, Installed(run, j).row)
            && run.events[i].now - run.events[j].now >= Installed(run, j).row.timeoutMs
            && (forall k | j < k < i && Postpones(run, j, k, Installed(run, j).row) ::
                  run.events[i].now - run.events[k].now >= Installed(run, j).row.timeoutMs)
            ==> run.states[i + 1].live.None?
  {
    InstalledActivity(run, j);
    CloseOnlyFromTick(run.states[i], run.events[i]);
    LiveIsHistory(run, j, i);
    if run.events[i].event.Tick? {
      CloseFiresIff(run, j, i);
      ReachableInv(run, i);
      LiveAfter(run.states[i], TimeBefore(run, i), run.events[i]);
      assert run.states[i + 1] == Next(run.states[i], run.events[i]);
    }
  }

  /** Once active, a stop stays active while it is live, and one with a trigger is active
      only if a batch crossed it since it was installed. */
  lemma {:induction false} ActivationIsPermanent(run: Run, j: nat, i: nat, k: nat)
    requires IsRun(run) && LiveSince(run, j, k) && j < i <= k
    ensures run.states[i].live.Some? && run.states[k].live.Some?
    ensures run.states[i].live.value.row.active ==> run.states[k].live.value.row.active
    ensures run.states[k].live.value.row.active && Installed(run, j).row.trigger.Some? ==>
              exists m :: j < m < k && CrossesAt(run, m, Installed(run, j).row)
  {
    assert LiveSince(run, j, i);
    LiveIsHistory(run, j, i);
    LiveIsHistory(run, j, k);
  }

  /** Whenever a market close is sent, the stop it is for was installed by some event of the
      run and has been quiet for its timeout since its starting point, which is its
      installation unless it was restored. */
  lemma {:induction false} CloseMeansQuiet(run: Run, i: nat) returns (j: nat)
    requires IsRun(run) && i < |run.events|
    requires SendsClose(Step(run.states[i], run.events[i].now, run.events[i].event).effects)
    ensures LiveSince(run, j, i) && ActivatedBy(run, j, i, Installed(run, j).row)
    ensures run.events[i].now - Installed(run, j).lastTrade >= Installed(run, j).row.timeoutMs
    ensures !run.events[j].event.Reconnect? ==> Installed(run, j).lastTrade == run.events[j].now
    ensures forall k | j < k < i && Postpones(run, j, k, Installed(run, j).row) ::
              run.events[i].now - run.events[k].now >= Installed(run, j).row.timeoutMs
  {
    CloseOnlyFromTick(run.states[i], run.events[i]);
    LiveNotLater(run, i);
    j := LiveWasInstalled(run, i);
    InstalledActivity(run, j);
    CloseFiresIff(run, j, i);
  }

  // ---------- When the stop is gone ----------

  ghost predicate TicksIn(run: Run, i: nat, e: nat, at: nat, gap: nat)
    requires i <= e < |run.events|
  {
    exists m :: i <= m <= e && run.events[m].event.Tick? && at <= run.events[m].now <= at + gap
  }

  /** The timer ticks in every stretch of this many milliseconds between two events. */
  ghost predicate TicksWithin(run: Run, i: nat, e: nat, gap: nat)
    requires i <= e < |run.events|
  {
    forall at: nat | run.events[i].now <= at && at + gap <= run.events[e].now :: TicksIn(run, i, e, at, gap)
  }

  /** Nothing between the two events touches the stop of this symbol but what may end it. */
  ghost predicate Quiet(run: Run, i: nat, e: nat, symbol: string)
    requires i <= e <= |run.events| && e <= |run.states|
  {
    forall k | i <= k < e ::
      !Installs(run.states[k], run.events[k].event) && !run.events[k].event.Reconnect? && !TradesOn(run, k, symbol)
  }

  lemma {:induction false} QuietKeeps(run: Run, i: nat, m: nat)
    requires IsRun(run) && i <= m < |run.events| && run.states[i].live.Some?
    requires Quiet(run, i, m, run.states[i].live.value.row.symbol)
    requires forall k | i <= k < m :: !Ends(run.states[k], run.events[k])
    ensures run.states[m].live == run.states[i].live
  {
    if i < m {
      QuietKeeps(run, i, m - 1);
      LiveNotLater(run, m - 1);
      KeptStop(run.states[m - 1], run.events[m - 1]);
      assert run.states[m] == Next(run.states[m - 1], run.events[m - 1]);
    }
  }

  /** If the timer ticks at least every `gap` milliseconds and no trade on its symbol comes,
      an active stop ends by its deadline plus the gap: some event between leaves none. */
  lemma {:induction false} GoneByDeadline(run: Run, i: nat, e: nat, gap: nat, deadline: nat)
    requires IsRun(run) && i <= e < |run.events|
    requires run.states[i].live.Some? && run.states[i].live.value.row.active
    requires deadline >= run.events[i].now
    requires deadline >= run.states[i].live.value.lastTrade + run.states[i].live.value.row.timeoutMs
    requires Quiet(run, i, e + 1, run.states[i].live.value.row.symbol)
    requires TicksWithin(run, i, e, gap) && deadline + gap <= run.events[e].now
    ensures exists k :: i <= k <= e && Ends(run.states[k], run.events[k])
                        && run.events[k].now <= deadline + gap && run.states[k + 1].live.None?
  {
    assert TicksIn(run, i, e, deadline, gap);
    var m :| i <= m <= e && run.events[m].event.Tick? && deadline <= run.events[m].now <= deadline + gap;
    var k := m;
    if forall k | i <= k < m :: !Ends(run.states[k], run.events[k]) {
      QuietKeeps(run, i, m);
    } else {
      k :| i <= k < m && Ends(run.states[k], run.events[k]);
    }
    ReachableInv(run, k);
    assert k > 0 ==> run.events[k - 1].now <= run.events[k].now;
    LiveAfter(run.states[k], TimeBefore(run, k), run.events[k]);
    assert run.states[k + 1] == Next(run.states[k], run.events[k]);
  }
}

/** Conservation over whole runs: every installed stop and every recorded pending autostop
    is accounted for exactly once. */
module ActivityStopLedger {
  import opened Types
  import opened StopStore
  import opened ActivityStop
  import opened ActivityStopRuns

  // ---------- Counting ----------

  /** The kinds of effect that are counted: closes, activation notices, and requests for a
      trailing stop. */
  datatype Kind = CloseSent | Notice | TrailingSet

  predicate Is(e: Effect, kind: Kind) {
    match kind
    case CloseSent => e.CloseOrder?
    case Notice => e.Notify? && e.message.AutostopActivated?
    case TrailingSet => e.SetTrailingStop?
  }

  function Count(effects: seq<Effect>, kind: Kind): nat {
    if effects == [] then 0 else (if Is(effects[0], kind) then 1 else 0) + Count(effects[1..], kind)
  }

  lemma {:induction false} CountOfConcat(a: seq<Effect>, b: seq<Effect>, kind: Kind)
    ensures Count(a + b, kind) == Count(a, kind) + Count(b, kind)
  {
    if a == [] {
      assert a + b == b;
    } else {
      CountOfConcat(a[1..], b, kind);
      assert (a + b)[1..] == a[1..] + b;
    }
  }

  lemma {:induction false} CountOfOne(e: Effect, kind: Kind)
    ensures Count([e], kind) == One(Is(e, kind))
  {
    assert [e][1..] == [];
  }

  lemma {:induction false} CountOfSweep(positions: seq<Position>, kind: Kind)
    ensures Count(ZeroedSymbols(positions), kind) == 0
  {
    if positions != [] {
      var n := |positions| - 1;
      CountOfSweep(positions[..n], kind);
      CountOfOne(CancelLimitOrders(positions[n].symbol), kind);
      CountOfConcat(ZeroedSymbols(positions[..n]), [CancelLimitOrders(positions[n].symbol)], kind);
    }
  }

  lemma {:induction false} CountOfClose(row: StopRow, answer: ExchangeAnswer, kind: Kind)
    ensures Count(CloseEffects(row, answer), kind) <= One(kind == CloseSent)
  {
    var effects := CloseEffects(row, answer);
    CountOfOne(effects[0], kind);
    if |effects| == 1 {
      assert effects == [effects[0]];
    } else {
      assert effects == [effects[0]] + [effects[1]];
      CountOfOne(effects[1], kind);
      CountOfConcat([effects[0]], [effects[1]], kind);
    }
  }

  function One(b: bool): nat { if b then 1 else 0 }

  lemma {:induction false} CountOfTick(s: State, answer: ExchangeAnswer, now: nat, kind: Kind)
    requires s.live.Some? ==> s.live.value.lastTrade <= now
    ensures Count(OnTick(s, answer, now).effects, kind)
            <= One(kind == CloseSent && TickEnds(s, Timed(now, Tick(answer))))
  {
    if s.live.Some? && s.live.value.row.active {
      var row := s.live.value.row;
      var status := Notify(StopStatus(row.symbol, Remaining(s.live.value, now), true, row.trigger));
      CountOfOne(status, kind);
      if Expired(s.live.value, now) {
        CountOfConcat([status], CloseEffects(row, answer), kind);
        CountOfClose(row, answer, kind);
      }
    }
  }

  lemma {:induction false} CountOfPositions(s: State, positions: seq<Position>, kind: Kind)
    ensures Count(OnPositions(s, positions).effects, kind) == 0
  {
    CountOfSweep(positions, kind);
    if s.live.Some? {
      var notice := Inactive(s.live.value.row.symbol);
      CountOfOne(notice, kind);
      CountOfConcat(ZeroedSymbols(positions), [notice], kind);
    }
  }

  // ---------- What a fill does ----------

  predicate Has(s: State, id: string) { PendingKey(id) in s.pendings }

  predicate Fills(s: State, e: Event) {
    e.OrderChanged? && (e.order.status == Filled || e.order.status == PartiallyFilled) && Has(s, e.order.id)
  }

  /** The fill of an order whose record asks for a trailing stop at a known target. */
  predicate SetsTrailing(s: State, e: Event) {
    Fills(s, e) &&
    var p := s.pendings[PendingKey(e.order.id)];
    p.kind == Trailing && p.params.target.Some?
  }

  /** The fill of an order whose record asks for an activity stop with a timeout. */
  predicate InstallsByFill(s: State, e: Event) {
    e.OrderChanged? && Installs(s, e)
  }

  /** The request for the trailing stop: the record's symbol, side, target and price. */
  function TrailingRequest(p: PendingAutostop): Effect
    requires p.params.target.Some?
  {
    SetTrailingStop(p.symbol, p.side, p.params.target.value, p.params.activePrice)
  }

  lemma {:induction false} CountOfOrder(s: State, order: OrderUpdate, now: nat, kind: Kind)
    ensures var e := OrderChanged(order);
            Count(OnOrder(s, order, now).effects, kind)
            == One(kind == Notice && Fills(s, e)) + One(kind == TrailingSet && SetsTrailing(s, e))
  {
    var e := OrderChanged(order);
    if Fills(s, e) {
      var p := s.pendings[PendingKey(order.id)];
      var notice := Notify(AutostopActivated(order.id, p.symbol));
      CountOfOne(notice, kind);
      CountOfConcat(Activate(s, p, now).effects, [notice], kind);
      if SetsTrailing(s, e) { CountOfOne(TrailingRequest(p), kind); }
    } else if order.status == Cancelled && Has(s, order.id) {
      CountOfOne(Notify(AutostopCancelled(order.id)), kind);
    }
  }

  /** A step sends a close at most when a tick ends the stop, and one; it reports exactly one
      activation for a fill of an order with a record and none otherwise; and it sends
      exactly one request for a trailing stop for such a fill of a record that asks for it,
      and none otherwise. */
  lemma {:induction false} CountsOfStep(s: State, t: Timed)
    requires s.live.Some? ==> s.live.value.lastTrade <= t.now
    ensures var effects := Step(s, t.now, t.event).effects;
            && Count(effects, CloseSent) <= One(TickEnds(s, t))
            && Count(effects, Notice) == One(Fills(s, t.event))
            && Count(effects, TrailingSet) == One(SetsTrailing(s, t.event))
  {
    CountOfStep(s, t, CloseSent);
    CountOfStep(s, t, Notice);
    CountOfStep(s, t, TrailingSet);
  }

  lemma {:induction false} CountOfStep(s: State, t: Timed, kind: Kind)
    requires s.live.Some? ==> s.live.value.lastTrade <= t.now
    ensures var n := Count(Step(s, t.now, t.event).effects, kind);
            match kind
            case CloseSent => n <= One(TickEnds(s, t))
            case Notice => n == One(Fills(s, t.event))
            case TrailingSet => n == One(SetsTrailing(s, t.event))
  {
    match t.event
    case OrderChanged(order) => CountOfOrder(s, order, t.now, kind);
    case PositionsChanged(positions) => CountOfPositions(s, positions, kind);
    case Tick(answer) => CountOfTick(s, answer, t.now, kind);
    case _ =>
  }

  /** What a fill of an order with a record does, and it does nothing else: it sends the
      request for the trailing stop if the record asks for one and then the notice, or it
      installs the activity stop if the record asks for one; and the record goes. */
  lemma {:induction false} FillDoes(s: State, t: Timed)
    requires Fills(s, t.event)
    ensures var p := s.pendings[PendingKey(t.event.order.id)]; var after := Step(s, t.now, t.event);
            && after.effects == (if p.kind == Trailing && p.params.target.Some?
                                 then [SetTrailingStop(p.symbol, p.side, p.params.target.value, p.params.activePrice)]
                                 else [])
                                + [Notify(AutostopActivated(t.event.order.id, p.symbol))]
            && (InstallsByFill(s, t.event) <==> p.kind == Activity && p.params.timeoutSecs.Some?)
            && (InstallsByFill(s, t.event) ==>
                  && after.state.live.Some? && p.params.timeoutSecs.Some?
                  && after.state.live.value.row == StopRow(p.symbol, p.side, 1000 * p.params.timeoutSecs.value,
                                                           p.params.trigger, t.now, p.params.trigger.None?))
            && (!InstallsByFill(s, t.event) ==> after.state.live == s.live && after.state.stops == s.stops)
            && !Has(after.state, t.event.order.id)
  {
  }

  /** An order update that is no fill of an order with a record sends at most the notice of
      its cancellation, and touches no stop. */
  lemma {:induction false} OtherUpdatesDoNothing(s: State, t: Timed)
    requires t.event.OrderChanged? && !Fills(s, t.event)
    ensures var after := Step(s, t.now, t.event);
            && after.state.live == s.live && after.state.stops == s.stops && !InstallsByFill(s, t.event)
            && after.effects == if t.event.order.status == Cancelled && Has(s, t.event.order.id)
                                then [Notify(AutostopCancelled(t.event.order.id))] else []
  {
  }

  // ---------- Stops over a run ----------

  datatype StopLedger = StopLedger(
    installed: nat, tickEnded: nat, positionEnded: nat, cancelEnded: nat,
    overwritten: nat, dropped: nat, closesSent: nat)

  /** Tallies over the first i handlers; closes are counted in what was sent out. */
  ghost function Stops(run: Run, i: nat): StopLedger
    requires IsRun(run) && i <= |run.events|
  {
    if i == 0 then StopLedger(0, 0, 0, 0, 0, 0, 0)
    else
      var l := Stops(run, i - 1);
      var s, t := run.states[i - 1], run.events[i - 1];
      StopLedger(
        l.installed + One(Installs(s, t.event)),
        l.tickEnded + One(TickEnds(s, t)),
        l.positionEnded + One(PositionEnds(s, t.event)),
        l.cancelEnded + One(CancelEnds(s, t.event)),
        l.overwritten + One(Overwrites(s, t.event)),
        l.dropped + One(Drops(s, t.event)),
        l.closesSent + Count(Step(s, t.now, t.event).effects, CloseSent))
  }

  /** Over every run, the stops installed (requested, filled or restored) are those ended by
      a tick, a position update or a cancel, those overwritten, those lost with a
      connection, plus the live one; so closes sent never exceed stops installed. */
  lemma {:induction false} StopsConserved(run: Run, i: nat)
    requires IsRun(run) && i <= |run.events|
    ensures var l := Stops(run, i);
            && l.installed == l.tickEnded + l.positionEnded + l.cancelEnded + l.overwritten + l.dropped
                              + One(run.states[i].live.Some?)
            && l.closesSent <= l.tickEnded <= l.installed
  {
    if i > 0 {
      StopsConserved(run, i - 1);
      ReachableInv(run, i - 1);
      var s, t := run.states[i - 1], run.events[i - 1];
      assert i > 1 ==> run.events[i - 2].now <= t.now;
      LiveAfter(s, TimeBefore(run, i - 1), t);
      CountsOfStep(s, t);
      assert run.states[i] == Next(s, t);
    }
  }

  // ---------- Pending autostops ----------

  predicate Records(s: State, e: Event) {
    e.CreatePending? || (e.UpdatePending? && Has(s, e.cmd.orderId))
  }

  predicate Replaces(s: State, e: Event) {
    (e.CreatePending? || e.UpdatePending?) && Has(s, e.cmd.orderId)
  }

  predicate Withdraws(s: State, e: Event) {
    (e.CancelPending? && Has(s, e.orderId)) ||
    (e.OrderChanged? && e.order.status == Cancelled && Has(s, e.order.id))
  }

  /** A filled record without a target or timeout has nothing to set or install. */
  datatype PendingLedger = PendingLedger(
    recorded: nat, activated: nat, trailingSet: nat, installed: nat, idle: nat, withdrawn: nat, overwritten: nat)

  /** Tallies over the first i handlers; notices and trailing stops are counted in what was
      sent out. */
  ghost function Pendings(run: Run, i: nat): PendingLedger
    requires IsRun(run) && i <= |run.events|
  {
    if i == 0 then PendingLedger(0, 0, 0, 0, 0, 0, 0)
    else
      var l := Pendings(run, i - 1);
      var s, t := run.states[i - 1], run.events[i - 1];
      PendingLedger(
        l.recorded + One(Records(s, t.event)),
        l.activated + Count(Step(s, t.now, t.event).effects, Notice),
        l.trailingSet + Count(Step(s, t.now, t.event).effects, TrailingSet),
        l.installed + One(InstallsByFill(s, t.event)),
        l.idle + One(Fills(s, t.event) && !SetsTrailing(s, t.event) && !InstallsByFill(s, t.event)),
        l.withdrawn + One(Withdraws(s, t.event)),
        l.overwritten + One(Replaces(s, t.event)))
  }

  lemma {:induction false} PendingsAfter(s: State, t: Timed)
    ensures Next(s, t).pendings ==
            if Records(s, t.event) then s.pendings[PendingKey(t.event.cmd.orderId) := t.event.cmd]
            else if Fills(s, t.event) || (t.event.OrderChanged? && Withdraws(s, t.event))
                 then s.pendings - {PendingKey(t.event.order.id)}
            else if t.event.CancelPending? then s.pendings - {PendingKey(t.event.orderId)}
            else s.pendings
  {
  }

  lemma {:induction false} PendingsOfStep(s: State, t: Timed)
    ensures |Next(s, t).pendings| + One(Fills(s, t.event)) + One(Withdraws(s, t.event)) + One(Replaces(s, t.event))
            == |s.pendings| + One(Records(s, t.event))
  {
    PendingsAfter(s, t);
    match t.event
    case CreatePending(cmd) => UpdateSize(s.pendings, PendingKey(cmd.orderId), cmd);
    case UpdatePending(cmd) => UpdateSize(s.pendings, PendingKey(cmd.orderId), cmd);
    case CancelPending(id) => RemoveSize(s.pendings, PendingKey(id));
    case OrderChanged(order) => RemoveSize(s.pendings, PendingKey(order.id));
    case _ =>
  }

  lemma {:induction false} UpdateSize<V>(m: map<string, V>, k: string, v: V)
    ensures |m[k := v]| == |m| + One(k !in m)
  {
    assert m[k := v].Keys == m.Keys + {k};
  }

  lemma {:induction false} RemoveSize<V>(m: map<string, V>, k: string)
    ensures |m - {k}| == |m| - One(k in m)
  {
    assert (m - {k}).Keys == m.Keys - {k};
  }

  /** Over every run, recorded = activated + withdrawn + overwritten + still pending, and the
      activated ones each set one trailing stop, installed one stop, or had nothing to do. */
  lemma {:induction false} PendingsConserved(run: Run, i: nat)
    requires IsRun(run) && i <= |run.events|
    ensures var l := Pendings(run, i);
            && l.recorded == l.activated + l.withdrawn + l.overwritten + |run.states[i].pendings|
            && l.activated == l.trailingSet + l.installed + l.idle
  {
    if i > 0 {
      PendingsConserved(run, i - 1);
      if run.states[i - 1].live.Some? { LiveNotLater(run, i - 1); }
      var s, t := run.states[i - 1], run.events[i - 1];
      CountsOfStep(s, t);
      PendingsOfStep(s, t);
      assert run.states[i] == Next(s, t);
    }
  }

  /** The handler at i acts on the autostop of this order: it handles an update of the order
      and sets a trailing stop, changes the live stop or a row, or tells the client that the
      autostop was activated. */
  ghost predicate ActivatesAt(run: Run, i: nat, id: string)
    requires IsRun(run) && i < |run.events|
  {
    var s, t := run.states[i], run.events[i];
    var after := Step(s, t.now, t.event);
    && t.event.OrderChanged? && t.event.order.id == id
    && (|| after.state.live != s.live || after.state.stops != s.stops
        || exists n :: 0 <= n < |after.effects|
                       && (Is(after.effects[n], Notice) || Is(after.effects[n], TrailingSet)))
  }

  /** The event at i is a fill, a cancellation or a client's withdrawal for the order. */
  predicate RetiresAt(run: Run, i: nat, id: string)
    requires i < |run.events|
  {
    var e := run.events[i].event;
    (e.OrderChanged? && e.order.id == id && e.order.status in {Filled, PartiallyFilled, Cancelled})
    || (e.CancelPending? && e.orderId == id)
  }

  predicate CreatesAt(run: Run, i: nat, id: string)
    requires i < |run.events|
  {
    run.events[i].event.CreatePending? && run.events[i].event.cmd.orderId == id
  }

  /** Only a partial or full fill of an order with a record acts on its autostop, never a
      cancelled, new or rejected one. */
  lemma {:induction false} ActivationNeedsRecord(run: Run, i: nat, id: string)
    requires IsRun(run) && i < |run.events|
    ensures ActivatesAt(run, i, id) <==>
            run.events[i].event.OrderChanged? && run.events[i].event.order.id == id
            && run.events[i].event.order.status in {Filled, PartiallyFilled} && Has(run.states[i], id)
  {
    var s, t := run.states[i], run.events[i];
    if t.event.OrderChanged? {
      if Fills(s, t.event) {
        FillDoes(s, t);
        var effects := Step(s, t.now, t.event).effects;
        assert Is(effects[|effects| - 1], Notice);
      } else {
        OtherUpdatesDoNothing(s, t);
      }
    }
  }

  /** A retired order stays without an autostop until one is created for it again. */
  lemma {:induction false} StaysRetired(run: Run, i: nat, k: nat, id: string)
    requires IsRun(run) && i < k <= |run.events| && RetiresAt(run, i, id)
    requires forall m | i < m < k :: !CreatesAt(run, m, id)
    ensures !Has(run.states[k], id)
  {
    var m := k - 1;
    assert run.states[k] == Next(run.states[m], run.events[m]);
    if m > i {
      StaysRetired(run, i, m, id);
      PendingsAfter(run.states[m], run.events[m]);
      assert !CreatesAt(run, m, id);
      var e := run.events[m].event;
      if e.CreatePending? || e.UpdatePending? { PendingKeyInjective(e.cmd.orderId, id); }
    }
  }

  /** Each recorded autostop is activated at most once: after a fill (partial or full), a
      cancellation of its order or a withdrawal, no later update of the order sets a trailing
      stop, installs a stop or reports an activation, even in the same batch, unless the
      autostop was created again in between. */
  lemma {:induction false} ActivatedAtMostOnce(run: Run, i: nat, k: nat, id: string)
    requires IsRun(run) && i < k < |run.events|
    requires RetiresAt(run, i, id) && ActivatesAt(run, k, id)
    ensures exists m :: i < m < k && CreatesAt(run, m, id)
  {
    ActivationNeedsRecord(run, k, id);
    if forall m | i < m < k :: !CreatesAt(run, m, id) {
      StaysRetired(run, i, k, id);
      assert false;
    }
  }

  /** So between two acts on the same order's autostop it was created again; and no step
      acts twice. */
  lemma {:induction false} ActsAreSeparated(run: Run, i: nat, k: nat, id: string)
    requires IsRun(run) && i < k < |run.events| && ActivatesAt(run, i, id) && ActivatesAt(run, k, id)
    ensures exists m :: i < m < k && CreatesAt(run, m, id)
    ensures Count(Step(run.states[i], run.events[i].now, run.events[i].event).effects, TrailingSet)
            + One(InstallsByFill(run.states[i], run.events[i].event)) <= 1
  {
    ActivationNeedsRecord(run, i, id);
    ActivatedAtMostOnce(run, i, k, id);
    if run.states[i].live.Some? { LiveNotLater(run, i); }
    CountsOfStep(run.states[i], run.events[i]);
  }
}

/** What survives a reconnect of the client: the tables do, the memory does not. */
module ActivityStopRestarts {
  import opened Types
  import opened StopStore
  import opened ActivityStop
  import opened ActivityStopRuns

  /** The row restored by a reconnect is the live stop's own row. */
  ghost predicate RestoresTheSameStop(s: State, now: nat)
    requires s.live.Some?
  {
    Restore(s, now).live.Some? && RowKey(Restore(s, now).live.value.row) == RowKey(s.live.value.row)
  }

  /** In every reachable state, a reconnect at any later time that restores the live stop
      never gives it more time than the lost connection would have shown, then or at any
      time after. This rests on the last activity never being before the creation. */
  lemma {:induction false} RestoredNeverLonger(run: Run, i: nat, now: nat, later: nat)
    requires IsRun(run) && i <= |run.events| && run.states[i].live.Some?
    requires TimeBefore(run, i) <= now <= later
    requires RestoresTheSameStop(run.states[i], now)
    ensures Remaining(Restore(run.states[i], now).live.value, later) <= Remaining(run.states[i].live.value, later)
    ensures Restore(run.states[i], now).live.value.row.start <= Restore(run.states[i], now).live.value.lastTrade
  {
    ReachableInv(run, i);
  }

  /** A reconnect brings back the live stop exactly when its key is the least in the
      table, and brings it back unchanged exactly when, besides, it was not activated by
      its trigger: that activation is not in the table. */
  lemma {:induction false} RestoresLiveStopIff(run: Run, i: nat, now: nat)
    requires IsRun(run) && i <= |run.events| && run.states[i].live.Some? && TimeBefore(run, i) <= now
    ensures RestoresTheSameStop(run.states[i], now) <==>
            IsLeastKey(RowKey(run.states[i].live.value.row), run.states[i].stops.Keys)
    ensures Restore(run.states[i], now).live.Some?
            && Restore(run.states[i], now).live.value.row == run.states[i].live.value.row <==>
            IsLeastKey(RowKey(run.states[i].live.value.row), run.states[i].stops.Keys)
            && (run.states[i].live.value.row.active ==> run.states[i].live.value.row.trigger.None?)
  {
    ReachableInv(run, i);
    var s := run.states[i];
    var least := LeastKey(s.stops.Keys);
    if IsLeastKey(RowKey(s.live.value.row), s.stops.Keys) {
      LeastKeyUnique(least, RowKey(s.live.value.row), s.stops.Keys);
    }
  }

  /** A restored stop starts active exactly when it has no trigger, whatever the lost
      connection had seen. */
  lemma {:induction false} RestoredActiveIff(run: Run, i: nat, now: nat)
    requires IsRun(run) && i <= |run.events| && TimeBefore(run, i) <= now
    requires Restore(run.states[i], now).live.Some?
    ensures Restore(run.states[i], now).live.value.row.active <==>
            Restore(run.states[i], now).live.value.row.trigger.None?
  {
    ReachableInv(run, i);
  }

  /** Ending the live stop leaves nothing to restore exactly when its row was the only
      one: a row left behind by arming over it comes back. */
  lemma {:induction false} EndIsFinalIff(run: Run, i: nat, t: Timed, now: nat)
    requires IsRun(run) && i <= |run.events| && TimeBefore(run, i) <= t.now
    requires Ends(run.states[i], t)
    ensures Restore(Next(run.states[i], t), now).live.None? <==>
            run.states[i].stops.Keys == {RowKey(run.states[i].live.value.row)}
  {
    ReachableInv(run, i);
    RowsAfter(run.states[i], TimeBefore(run, i), t);
    var s := run.states[i];
    var key := RowKey(s.live.value.row);
    assert Next(s, t).stops.Keys == s.stops.Keys - {key};
    assert s.stops.Keys == (s.stops.Keys - {key}) + {key};
  }

  // ---------- When the table mirrors the memory ----------

  /** The table holds the live stop's row and nothing else. */
  ghost predicate Mirrors(s: State) {
    s.stops.Keys == if s.live.Some? then {RowKey(s.live.value.row)} else {}
  }

  /** A request or a fill replaces a live stop of another symbol or side. */
  ghost predicate ArmsOverAnother(run: Run, k: nat)
    requires IsRun(run) && k < |run.events|
  {
    Overwrites(run.states[k], run.events[k].event)
    && run.states[k + 1].live.Some?
    && RowKey(run.states[k + 1].live.value.row) != RowKey(run.states[k].live.value.row)
  }

  lemma {:induction false} MirrorsWhileNot(run: Run, i: nat)
    requires IsRun(run) && i <= |run.events|
    requires forall k | 0 <= k < i :: !ArmsOverAnother(run, k)
    ensures Mirrors(run.states[i])
  {
    if i > 0 {
      var k := i - 1;
      MirrorsWhileNot(run, k);
      ReachableInv(run, k);
      var s, t := run.states[k], run.events[k];
      assert k > 0 ==> run.events[k - 1].now <= t.now;
      LiveAfter(s, TimeBefore(run, k), t);
      RowsAfter(s, TimeBefore(run, k), t);
      assert run.states[i] == Next(s, t);
      assert !ArmsOverAnother(run, k);
      if s.live.Some? {
        if !t.event.Reconnect? && !Installs(s, t.event) && !Ends(s, t) {
          LiveNotLater(run, k);
          KeptStop(s, t);
        }
      }
    }
  }

  /** Throughout a run the table is exactly the live stop's row if and only if no stop is
      ever armed over a live one of another symbol or side. */
  lemma {:induction false} MirrorsIff(run: Run)
    requires IsRun(run)
    ensures (forall i | 0 <= i <= |run.events| :: Mirrors(run.states[i])) <==>
            (forall k | 0 <= k < |run.events| :: !ArmsOverAnother(run, k))
  {
    if forall k | 0 <= k < |run.events| :: !ArmsOverAnother(run, k) {
      forall i | 0 <= i <= |run.events| ensures Mirrors(run.states[i]) { MirrorsWhileNot(run, i); }
    } else {
      var k :| 0 <= k < |run.events| && ArmsOverAnother(run, k);
      if Mirrors(run.states[k]) {
        ReachableInv(run, k);
        assert k > 0 ==> run.events[k - 1].now <= run.events[k].now;
        RowsAfter(run.states[k], TimeBefore(run, k), run.events[k]);
        assert run.states[k + 1] == Next(run.states[k], run.events[k]);
        assert RowKey(run.states[k].live.value.row) in run.states[k + 1].stops.Keys;
        assert !Mirrors(run.states[k + 1]);
      }
    }
  }

  // ---------- A concrete run ----------

  const ARM_BTC := Timed(0, Arm("BTC", Buy, 5, None))
  const ARM_ETH := Timed(1, Arm("ETH", Buy, 5, None))
  const CANCEL_ETH := Timed(2, CancelStop("ETH"))
  const AGAIN := Timed(3, Reconnect)

  ghost function FourStates(): seq<State> {
    var s1 := Next(INITIAL, ARM_BTC);
    var s2 := Next(s1, ARM_ETH);
    var s3 := Next(s2, CANCEL_ETH);
    [INITIAL, s1, s2, s3, Next(s3, AGAIN)]
  }

  /** Arming one symbol over another, cancelling and reconnecting: the cancelled client
      finds the first stop live again. */
  lemma {:induction false} CancelledStopComesBack()
    ensures IsRun(Run(FourStates(), [ARM_BTC, ARM_ETH, CANCEL_ETH, AGAIN]))
    ensures FourStates()[2].live.Some? && FourStates()[2].live.value.row.symbol == "ETH"
    ensures FourStates()[3].live.None?
    ensures FourStates()[4].live.Some? && FourStates()[4].live.value.row.symbol == "BTC"
  {
    MakeKeyInjective("BTC", Buy, "ETH", Buy);
    var btc := MakeKey("BTC", Buy);
    assert FourStates()[3].stops.Keys == {btc};
    assert IsLeastKey(btc, {btc});
    LeastKeyUnique(btc, LeastKey({btc}), {btc});
  }
}

/** Piped commands over whole runs: the actions typed act in order, each at most once. */
module PipelineRuns {
  import opened Types
  import opened Risk
  import opened CommandText
  import opened ActionPipeline

  // ---------- What one action makes ----------

  /** A positions message is taken over before the pipe continues. */
  function Seen(app: App, m: Message): App {
    if m.PositionsAre? then app.(positions := m.positions) else app
  }

  /** What a waiting action of a pipe for this side makes when the message handles it. */
  function Made(n: Numbers, app: App, m: Message, side: Side, action: string): seq<Effect> {
    var words := Words(action);
    if words == [] then []
    else if m.OrderPlaced? then
      match Record(n, m.orderId, m.symbol, m.side, action)
      case None => []
      case Some(made) => made
    else
      match MatchCommand(words[0])
      case Some(TrailingStop) => if |words| >= 3 then AskTrailing(Seen(app, m), n, words[1..], Some(side)) else []
      case Some(ActivityStop) => if |words| >= 2 then AskActivity(Seen(app, m), n, words[1..], Some(side)) else []
      case _ => [RanCommand(action, app.symbol)]
  }

  lemma {:induction false} MadeAtMostOnce(n: Numbers, app: App, m: Message, side: Side, action: string)
    ensures |Made(n, app, m, side, action)| <= 1
  {
    if Words(action) != [] && |Words(action)| >= 2 {
      AsksAtMostOnce(Seen(app, m), n, Words(action)[1..], Some(side));
    }
  }

  lemma {:induction false} AsksAtMostOnce(app: App, n: Numbers, args: seq<string>, side: Option<Side>)
    requires |args| >= 1
    ensures |AskActivity(app, n, args, side)| <= 1
    ensures forall e | e in AskActivity(app, n, args, side) :: !e.RanCommand?
    ensures |args| >= 2 ==> |AskTrailing(app, n, args, side)| <= 1
    ensures |args| >= 2 ==> forall e | e in AskTrailing(app, n, args, side) :: !e.RanCommand?
  {
  }

  function MadeEach(n: Numbers, app: App, m: Message, side: Side, actions: seq<string>): seq<Effect> {
    if actions == [] then []
    else Made(n, app, m, side, actions[0]) + MadeEach(n, app, m, side, actions[1..])
  }

  lemma {:induction false} MadeEachOfOne(n: Numbers, app: App, m: Message, side: Side, actions: seq<string>)
    requires actions != []
    ensures MadeEach(n, app, m, side, actions[..1]) == Made(n, app, m, side, actions[0])
  {
    assert actions[..1][1..] == [];
    assert actions[..1][0] == actions[0];
  }

  lemma {:induction false} MadeEachOfMore(
    n: Numbers, app: App, m: Message, side: Side, actions: seq<string>, k: nat)
    requires k < |actions|
    ensures MadeEach(n, app, m, side, actions[..k + 1]) ==
            Made(n, app, m, side, actions[0]) + MadeEach(n, app, m, side, actions[1..][..k])
  {
    assert actions[..k + 1][1..] == actions[1..][..k];
    assert actions[..k + 1][0] == actions[0];
  }

  /** For a limit order the actions up to and including the first whose numbers do not parse
      are handled, each making its record once; the ones after it are lost. */
  lemma {:induction false} RecordAllMakes(app: App, n: Numbers, m: Message, side: Side, actions: seq<string>, from: App)
    returns (k: nat)
    requires m.OrderPlaced?
    ensures k <= |actions|
    ensures RecordAll(app, n, m.orderId, m.symbol, m.side, actions)
            == Add(app, MadeEach(n, from, m, side, actions[..k]))
    ensures forall i | 0 <= i < k :: Record(n, m.orderId, m.symbol, m.side, actions[i]).None? ==> i == k - 1
    ensures k < |actions| ==> k > 0 && Record(n, m.orderId, m.symbol, m.side, actions[k - 1]).None?
    decreases |actions|
  {
    k := 0;
    if actions != [] {
      var made := Record(n, m.orderId, m.symbol, m.side, actions[0]);
      MadeFromRecord(n, m, side, actions[0], from);
      if made.None? {
        k := 1;
        MadeEachOfOne(n, from, m, side, actions);
      } else {
        var k' := RecordAllMakes(Add(app, made.value), n, m, side, actions[1..], from);
        k := k' + 1;
        MadeEachOfMore(n, from, m, side, actions, k');
        AddTwice(app, made.value, MadeEach(n, from, m, side, actions[1..][..k']));
        assert forall i | 1 <= i < |actions| :: actions[i] == actions[1..][i - 1];
      }
    }
  }

  lemma {:induction false} MadeFromRecord(n: Numbers, m: Message, side: Side, action: string, from: App)
    requires m.OrderPlaced?
    ensures Made(n, from, m, side, action) ==
            match Record(n, m.orderId, m.symbol, m.side, action) case None => [] case Some(made) => made
  {
  }

  lemma {:induction false} AddTwice(app: App, a: seq<Effect>, b: seq<Effect>)
    ensures Add(Add(app, a), b) == Add(app, a + b)
  {
    assert (app.effects + a) + b == app.effects + (a + b);
  }

  /** A continuation handles at most the first action, makes exactly what it makes, and
      leaves exactly the others waiting. */
  lemma {:induction false} ContinueMakes(app: App, n: Numbers, m: Message, p: PendingAction) returns (k: nat)
    requires app.pending.None? && !m.OrderPlaced? && Seen(app, m) == app
    ensures k <= |p.actions| && k <= 1
    ensures k == 1 <==> p.actions != [] && Words(p.actions[0]) != []
    ensures Continue(app, n, p).effects == app.effects + MadeEach(n, app, m, p.side, p.actions[..k])
    ensures Continue(app, n, p).pending
            == if k == 1 && |p.actions| > 1 then Some(p.(actions := p.actions[1..])) else None
  {
    k := if p.actions == [] || Words(p.actions[0]) == [] then 0 else 1;
    if k == 1 {
      MadeEachOfOne(n, app, m, p.side, p.actions);
      ContinueMakesFirst(app, n, m, p);
    }
  }

  lemma {:induction false} ContinueMakesFirst(app: App, n: Numbers, m: Message, p: PendingAction)
    requires app.pending.None? && !m.OrderPlaced? && Seen(app, m) == app
    requires p.actions != [] && Words(p.actions[0]) != []
    ensures Continue(app, n, p).effects == app.effects + Made(n, app, m, p.side, p.actions[0])
    ensures Continue(app, n, p).pending == if |p.actions| > 1 then Some(p.(actions := p.actions[1..])) else None
  {
    var a := app.(pending := if |p.actions| > 1 then Some(p.(actions := p.actions[1..])) else app.pending);
    AskIgnores(app, a, n, Words(p.actions[0])[1..], Some(p.side));
  }

  // ---------- One message ----------

  /** Some position is on the symbol. */
  predicate HasOn(positions: seq<Position>, symbol: string) {
    Held(positions, symbol, None).Some?
  }

  /** The position found is the first on the symbol, and on the side if one is given; none is
      found exactly when there is none. */
  lemma {:induction false} HeldMeans(positions: seq<Position>, symbol: string, side: Option<Side>)
    ensures Held(positions, symbol, side).None? <==>
            forall p | p in positions :: p.symbol != symbol || (side.Some? && p.side != side.value)
    ensures Held(positions, symbol, side).Some? ==>
              exists i :: && 0 <= i < |positions| && Held(positions, symbol, side) == Some(positions[i])
                          && positions[i].symbol == symbol && (side.Some? ==> positions[i].side == side.value)
                          && forall k | 0 <= k < i ::
                               positions[k].symbol != symbol || (side.Some? && positions[k].side != side.value)
  {
    if positions != [] {
      var rest := positions[1..];
      HeldMeans(rest, symbol, side);
      assert forall p :: p in positions <==> p == positions[0] || p in rest;
      if OnSymbol(positions[0], symbol, side) {
        assert Held(positions, symbol, side) == Some(positions[0]);
      } else if Held(rest, symbol, side).Some? {
        var i :| && 0 <= i < |rest| && Held(rest, symbol, side) == Some(rest[i])
                 && rest[i].symbol == symbol && (side.Some? ==> rest[i].side == side.value)
                 && forall k | 0 <= k < i :: rest[k].symbol != symbol || (side.Some? && rest[k].side != side.value);
        assert rest[i] == positions[i + 1];
        assert forall k | 1 <= k < i + 1 :: positions[k] == rest[k - 1];
      }
    }
  }

  lemma {:induction false} HasOnMeans(positions: seq<Position>, symbol: string)
    ensures HasOn(positions, symbol) <==> exists p :: p in positions && p.symbol == symbol
  {
    HeldMeans(positions, symbol, None);
  }

  /** The position on the shown symbol is gone while a stop is shown as running. */
  predicate Cancels(app: App, m: Message) {
    && m.PositionsAre? && app.stopShown
    && HasOn(app.positions, app.symbol) && !HasOn(m.positions, app.symbol)
  }

  /** A position opens on the shown symbol. */
  predicate Opens(app: App, m: Message) {
    m.PositionsAre? && !HasOn(app.positions, app.symbol) && HasOn(m.positions, app.symbol)
  }

  predicate Confirms(m: Message) { m.TrailingStopSet? || m.ActivityStopActivated? }

  /** The message continues the pipe: it confirms a stop for the pipe's symbol, or a position
      opens on the shown symbol and that is the pipe's. */
  predicate Continues(app: App, m: Message)
    requires app.pending.Some?
  {
    var symbol := app.pending.value.symbol;
    (Confirms(m) && m.symbol == symbol) || (Opens(app, m) && app.symbol == symbol)
  }

  /** The message places the limit order the pipe waits for. */
  predicate Places(app: App, m: Message)
    requires app.pending.Some?
  {
    m.OrderPlaced? && m.orderType == Limit && app.symbol == app.pending.value.symbol
  }

  /** The message concerns a pipe of another symbol. */
  predicate Mismatches(app: App, m: Message)
    requires app.pending.Some?
  {
    var symbol := app.pending.value.symbol;
    || (Confirms(m) && m.symbol != symbol)
    || (Opens(app, m) && app.symbol != symbol)
    || (m.OrderPlaced? && m.orderType == Limit && app.symbol != symbol)
  }

  /** The message handles some waiting action. */
  predicate Advances(app: App, m: Message) {
    && app.pending.Some? && app.pending.value.actions != []
    && (Places(app, m) || (Continues(app, m) && Words(app.pending.value.actions[0]) != []))
  }

  function CancelOf(app: App, m: Message): seq<Effect> {
    if Cancels(app, m) then [CancelledStop(app.symbol)] else []
  }

  /** What a message may leave waiting of p after handling its first k actions. */
  predicate Leaves(pending: Option<PendingAction>, p: PendingAction, k: nat) {
    || pending.None?
    || (k == 0 && pending == Some(p))
    || (k == 1 < |p.actions| && pending == Some(p.(actions := p.actions[1..])))
  }

  /** The message handles the first k waiting actions: the client has sent exactly what these
      make and the cancel, if any, and the others wait or are dropped. */
  predicate Handles(n: Numbers, app: App, m: Message, after: App, k: nat) {
    && app.pending.Some? && k <= |app.pending.value.actions|
    && Leaves(after.pending, app.pending.value, k)
    && after.effects == app.effects
       + MadeEach(n, app, m, app.pending.value.side, app.pending.value.actions[..k]) + CancelOf(app, m)
    && (Cancels(app, m) ==> k == 0)
  }

  lemma {:induction false} ContinueForMakes(app: App, from: App, n: Numbers, m: Message, symbol: string)
    returns (k: nat)
    requires app.pending.Some? && !m.OrderPlaced?
    requires Seen(from, m) == app.(stopShown := from.stopShown) && Seen(app, m) == app
    ensures var p := app.pending.value; var after := ContinueFor(app, n, symbol);
            && k == (if p.symbol == symbol && p.actions != [] && Words(p.actions[0]) != [] then 1 else 0)
            && after.pending == (if k == 1 < |p.actions| then Some(p.(actions := p.actions[1..])) else None)
            && after.effects == app.effects + MadeEach(n, from, m, p.side, p.actions[..k])
  {
    var p := app.pending.value;
    k := 0;
    if p.symbol == symbol {
      k := ContinueMakes(Take(app), n, m, p);
      if k == 1 {
        MadeEachOfOne(n, Take(app), m, p.side, p.actions);
        MadeEachOfOne(n, from, m, p.side, p.actions);
        MadeIgnores(n, Take(app), from, m, p.side, p.actions[0]);
      }
    }
  }

  lemma {:induction false} MadeIgnores(n: Numbers, a: App, b: App, m: Message, side: Side, action: string)
    requires !m.OrderPlaced? && a.symbol == b.symbol && a.lastPrice == b.lastPrice
    requires Seen(a, m).positions == Seen(b, m).positions
    ensures Made(n, a, m, side, action) == Made(n, b, m, side, action)
  {
    var x, y := Seen(a, m), Seen(b, m);
    var words := Words(action);
    if |words| >= 2 { AskIgnores(x, y, n, words[1..], Some(side)); }
  }

  lemma {:induction false} AskIgnores(x: App, y: App, n: Numbers, args: seq<string>, side: Option<Side>)
    requires x.symbol == y.symbol && x.lastPrice == y.lastPrice && x.positions == y.positions
    ensures |args| >= 1 ==> AskActivity(x, n, args, side) == AskActivity(y, n, args, side)
    ensures |args| >= 2 ==> AskTrailing(x, n, args, side) == AskTrailing(y, n, args, side)
  {
  }

  /** Which actions are handled and what is left waiting: a continuing message handles the
      first action unless it is empty; the limit order handles all up to and including the
      first that does not parse; a message for a pipe of another symbol drops the pipe; any
      other message leaves it as it is. */
  predicate Decides(n: Numbers, app: App, m: Message, pending: Option<PendingAction>, k: nat)
    requires app.pending.Some?
  {
    var p := app.pending.value;
    if Continues(app, m) then
      && k == (if p.actions != [] && Words(p.actions[0]) != [] then 1 else 0)
      && pending == if k == 1 < |p.actions| then Some(p.(actions := p.actions[1..])) else None
    else if Places(app, m) then
      && pending == None && k <= |p.actions|
      && (forall i | 0 <= i < k :: Record(n, m.orderId, m.symbol, m.side, p.actions[i]).None? ==> i == k - 1)
      && (k < |p.actions| ==> k > 0 && Record(n, m.orderId, m.symbol, m.side, p.actions[k - 1]).None?)
    else k == 0 && pending == if Mismatches(app, m) then None else app.pending
  }

  lemma {:induction false} OrderMakes(app: App, n: Numbers, m: Message) returns (k: nat)
    requires app.pending.Some? && m.OrderPlaced?
    ensures Handles(n, app, m, Receive(app, n, m), k) && Decides(n, app, m, Receive(app, n, m).pending, k)
  {
    var p := app.pending.value;
    k := 0;
    if Places(app, m) { k := RecordAllMakes(Take(app), n, m, p.side, p.actions, app); }
  }

  lemma {:induction false} PositionsMake(app: App, n: Numbers, m: Message) returns (k: nat)
    requires app.pending.Some? && m.PositionsAre?
    ensures Handles(n, app, m, Receive(app, n, m), k) && Decides(n, app, m, Receive(app, n, m).pending, k)
  {
    k := 0;
    if Opens(app, m) { k := ContinueForMakes(app.(positions := m.positions), app, n, m, app.symbol); }
  }

  lemma {:induction false} ConfirmMakes(app: App, n: Numbers, m: Message) returns (k: nat)
    requires app.pending.Some? && Confirms(m)
    ensures Handles(n, app, m, Receive(app, n, m), k) && Decides(n, app, m, Receive(app, n, m).pending, k)
  {
    var shown := if m.ActivityStopActivated? then app.(stopShown := true) else app;
    k := ContinueForMakes(shown, app, n, m, m.symbol);
  }

  /** A message handles a prefix of the waiting actions, sends exactly what these make, in
      order, and the cancel of a stop if the position is gone. How many it handles and what
      it leaves waiting is decided by the message and the symbols alone. */
  lemma {:induction false} ReceiveMakes(app: App, n: Numbers, m: Message) returns (k: nat)
    requires app.pending.Some?
    ensures Handles(n, app, m, Receive(app, n, m), k) && Decides(n, app, m, Receive(app, n, m).pending, k)
  {
    if m.OrderPlaced? {
      k := OrderMakes(app, n, m);
    } else if m.PositionsAre? {
      k := PositionsMake(app, n, m);
    } else if Confirms(m) {
      k := ConfirmMakes(app, n, m);
    } else {
      k := 0;
    }
  }

  lemma {:induction false} AdvancesIff(n: Numbers, app: App, m: Message, pending: Option<PendingAction>, k: nat)
    requires app.pending.Some? && Decides(n, app, m, pending, k)
    ensures k > 0 <==> Advances(app, m)
  {
  }

  lemma {:induction false} NothingWaiting(app: App, n: Numbers, m: Message)
    requires app.pending.None?
    ensures Receive(app, n, m).pending.None? && Receive(app, n, m).effects == app.effects + CancelOf(app, m)
  {
  }

  // ---------- Runs ----------

  datatype Event = Typed(command: string) | Received(message: Message)

  datatype Run = Run(numbers: Numbers, states: seq<App>, events: seq<Event>)

  function Next(app: App, n: Numbers, e: Event): App {
    match e
    case Typed(command) => Type(app, n, command)
    case Received(m) => Receive(app, n, m)
  }

  /** Any sequence of commands and messages, from any state of the client, until it dies. */
  ghost predicate IsRun(run: Run) {
    |run.states| == |run.events| + 1 && forall i | 0 <= i < |run.events| :: IsStep(run, i)
  }

  predicate IsStep(run: Run, i: nat) {
    && i < |run.events| && i + 1 < |run.states|
    && Aborted !in run.states[i].effects
    && run.states[i + 1] == Next(run.states[i], run.numbers, run.events[i])
  }

  predicate SetsPipe(e: Event) { e.Typed? && Piped(e.command) }

  lemma {:induction false} RunSingleKeeps(app: App, n: Numbers, command: string)
    ensures RunSingle(app, n, command).pending == app.pending
  {
  }

  lemma {:induction false} RunEachKeeps(app: App, n: Numbers, commands: seq<string>)
    ensures RunEach(app, n, commands).pending == app.pending
    decreases |commands|
  {
    if commands != [] {
      RunEachKeeps(app, n, commands[..|commands| - 1]);
      RunSingleKeeps(RunEach(app, n, commands[..|commands| - 1]), n, Trim(commands[|commands| - 1]));
    }
  }

  /** A command with a semicolon never sets up a pipe, even where it contains one. */
  lemma {:induction false} OnlyPipesWait(app: App, n: Numbers, command: string)
    ensures !Piped(command) ==> Type(app, n, command).pending == app.pending
    ensures Piped(command) ==>
              && Type(app, n, command).pending.Some?
              && Type(app, n, command).pending.value.actions == Waiting(command)
              && Type(app, n, command).pending.value.symbol == app.symbol
              && (Type(app, n, command).pending.value.side == Sell
                  <==> StartsWithSell(TrimAll(SplitOn(command, '|'))[0]))
  {
    if ';' in command {
      RunEachKeeps(app, n, SplitOn(command, ';'));
    } else if '|' in command {
      var first := TrimAll(SplitOn(command, '|'))[0];
      RunSingleKeeps(app.(pending := Some(PendingAction(app.symbol, SideOf(first), Waiting(command)))), n, first);
    } else {
      RunSingleKeeps(app, n, command);
    }
  }

  /** What was sent on account of messages between a and b, apart from cancels of a stop
      whose position is gone. */
  ghost function Sent(run: Run, a: nat, b: nat): seq<Effect>
    requires a <= b <= |run.events| && b < |run.states|
  {
    if a == b then []
    else
      var before, after, e := run.states[b - 1], run.states[b], run.events[b - 1];
      Sent(run, a, b - 1) +
      if e.Received? && !Cancels(before, e.message) && |before.effects| <= |after.effects|
      then after.effects[|before.effects|..] else []
  }

  /** An action handled by the message at this event of a run, and what it made. */
  datatype Handling = Handling(action: string, at: nat, made: seq<Effect>)

  predicate IsHandling(run: Run, side: Side, h: Handling) {
    && h.at < |run.events| && h.at < |run.states| && run.events[h.at].Received?
    && h.made == Made(run.numbers, run.states[h.at], run.events[h.at].message, side, h.action)
  }

  ghost predicate HandledBetween(run: Run, side: Side, hs: seq<Handling>, a: nat, b: nat) {
    && (forall i | 0 <= i < |hs| :: IsHandling(run, side, hs[i]) && a <= hs[i].at < b)
    && (forall i, k | 0 <= i < k < |hs| :: hs[i].at <= hs[k].at)
  }

  /** All that these actions made, in order. */
  function AllMade(hs: seq<Handling>): seq<Effect> {
    if hs == [] then [] else AllMade(hs[..|hs| - 1]) + hs[|hs| - 1].made
  }

  function Actions(hs: seq<Handling>): (actions: seq<string>)
    ensures |actions| == |hs| && forall i | 0 <= i < |hs| :: actions[i] == hs[i].action
  {
    seq(|hs|, i requires 0 <= i < |hs| => hs[i].action)
  }

  /** The actions as handled by this message. */
  function Handlings(n: Numbers, app: App, m: Message, side: Side, actions: seq<string>, at: nat): (hs: seq<Handling>)
    ensures |hs| == |actions|
    ensures forall i | 0 <= i < |hs| :: hs[i] == Handling(actions[i], at, Made(n, app, m, side, actions[i]))
  {
    seq(|actions|, i requires 0 <= i < |actions| => Handling(actions[i], at, Made(n, app, m, side, actions[i])))
  }

  lemma {:induction false} AllMadeOfMore(hs: seq<Handling>, h: Handling)
    ensures AllMade(hs + [h]) == AllMade(hs) + h.made
  {
    assert (hs + [h])[..|hs|] == hs;
  }

  lemma {:induction false} AllMadeAppend(
    hs: seq<Handling>, n: Numbers, app: App, m: Message, side: Side, actions: seq<string>, at: nat)
    ensures AllMade(hs + Handlings(n, app, m, side, actions, at)) == AllMade(hs) + MadeEach(n, app, m, side, actions)
    decreases |actions|
  {
    if actions == [] {
      assert hs + Handlings(n, app, m, side, actions, at) == hs;
      assert AllMade(hs) + [] == AllMade(hs);
    } else {
      var made, rest := Made(n, app, m, side, actions[0]), actions[1..];
      var h := Handling(actions[0], at, made);
      HandlingsOfFirst(hs, n, app, m, side, actions, at);
      AllMadeOfMore(hs, h);
      AllMadeAppend(hs + [h], n, app, m, side, rest, at);
      Reassociate(AllMade(hs), made, MadeEach(n, app, m, side, rest));
    }
  }

  lemma {:induction false} HandlingsOfFirst(
    hs: seq<Handling>, n: Numbers, app: App, m: Message, side: Side, actions: seq<string>, at: nat)
    requires actions != []
    ensures hs + Handlings(n, app, m, side, actions, at) ==
            (hs + [Handling(actions[0], at, Made(n, app, m, side, actions[0]))])
            + Handlings(n, app, m, side, actions[1..], at)
  {
  }

  lemma {:induction false} Reassociate(x: seq<Effect>, y: seq<Effect>, z: seq<Effect>)
    ensures (x + y) + z == x + (y + z)
  {
  }

  lemma {:induction false} AllMadeAtMostOnceEach(run: Run, side: Side, hs: seq<Handling>)
    requires forall i | 0 <= i < |hs| :: IsHandling(run, side, hs[i])
    ensures |AllMade(hs)| <= |hs|
  {
    if hs != [] {
      var h := hs[|hs| - 1];
      AllMadeAtMostOnceEach(run, side, hs[..|hs| - 1]);
      MadeAtMostOnce(run.numbers, run.states[h.at], run.events[h.at].message, side, h.action);
    }
  }

  /** Since the pipe at j: these handlings are a prefix of the actions typed, in order and
      each once; what messages made the client send is what these made, nothing else and
      nothing twice; what waits, if anything, is exactly the other actions; and the messages
      that handled them are exactly those that continue the pipe or place its order. */
  ghost predicate Consumed(run: Run, j: nat, i: nat, typed: PendingAction, hs: seq<Handling>) {
    && HandledInOrder(run, j, i, typed, hs)
    && Sent(run, j + 1, i) == AllMade(hs)
    && Complete(run, hs, j, i)
  }

  /** The messages between that handled something are exactly those that should. */
  ghost predicate Complete(run: Run, hs: seq<Handling>, j: nat, i: nat) {
    forall m | j < m < i :: HandlesAt(hs, m) <==> AdvancesAt(run, m)
  }

  lemma {:induction false} CompleteMore(
    run: Run, side: Side, hs: seq<Handling>, more: seq<Handling>, j: nat, i: nat)
    requires Complete(run, hs, j, i) && HandledBetween(run, side, hs, j + 1, i)
    requires forall x | 0 <= x < |more| :: more[x].at == i
    requires more != [] <==> AdvancesAt(run, i)
    ensures Complete(run, hs + more, j, i + 1)
  {
    HandlesAtMore(run, side, hs, more, j + 1, i);
  }

  /** Event m is a message that handles some waiting action. */
  predicate AdvancesAt(run: Run, m: nat) {
    m < |run.events| && m < |run.states| && run.events[m].Received? && Advances(run.states[m], run.events[m].message)
  }

  predicate HandlesAt(hs: seq<Handling>, m: nat) {
    exists x :: 0 <= x < |hs| && hs[x].at == m
  }

  lemma {:induction false} HandlesAtMore(run: Run, side: Side, hs: seq<Handling>, more: seq<Handling>, a: nat, i: nat)
    requires HandledBetween(run, side, hs, a, i) && forall x | 0 <= x < |more| :: more[x].at == i
    ensures forall m | 0 <= m < i :: HandlesAt(hs + more, m) <==> HandlesAt(hs, m)
    ensures HandlesAt(hs + more, i) <==> more != []
  {
    forall m | 0 <= m < i && HandlesAt(hs, m) ensures HandlesAt(hs + more, m) {
      var x :| 0 <= x < |hs| && hs[x].at == m;
      assert (hs + more)[x].at == m;
    }
    if more != [] { assert (hs + more)[|hs|].at == i; }
  }

  ghost predicate HandledInOrder(run: Run, j: nat, i: nat, typed: PendingAction, hs: seq<Handling>) {
    && j < i <= |run.events| < |run.states|
    && HandledBetween(run, typed.side, hs, j + 1, i)
    && |hs| <= |typed.actions| && Actions(hs) == typed.actions[..|hs|]
    && Waits(run.states[i].pending, typed, |hs|)
  }

  predicate Waits(pending: Option<PendingAction>, typed: PendingAction, k: nat) {
    pending.Some? ==> k < |typed.actions| && pending.value == typed.(actions := typed.actions[k..])
  }

  lemma {:induction false} SentOfReceived(run: Run, a: nat, i: nat, made: seq<Effect>)
    requires a <= i < |run.events| < |run.states| && run.events[i].Received?
    requires var m := run.events[i].message;
             && run.states[i + 1].effects == run.states[i].effects + made + CancelOf(run.states[i], m)
             && (Cancels(run.states[i], m) ==> made == [])
    ensures Sent(run, a, i + 1) == Sent(run, a, i) + made
  {
    var app, m := run.states[i], run.events[i].message;
    if !Cancels(app, m) { assert run.states[i + 1].effects[|app.effects|..] == made; }
  }

  lemma {:induction false} ConsumedMore(run: Run, j: nat, i: nat, typed: PendingAction, hs: seq<Handling>)
    returns (hs': seq<Handling>)
    requires IsRun(run) && j < i < |run.events| && run.events[i].Received? && run.states[i].pending.Some?
    requires Consumed(run, j, i, typed, hs)
    ensures hs <= hs' && Consumed(run, j, i + 1, typed, hs') && (|hs| < |hs'| <==> AdvancesAt(run, i))
  {
    assert IsStep(run, i);
    var k := ReceiveMakes(run.states[i], run.numbers, run.events[i].message);
    AdvancesIff(run.numbers, run.states[i], run.events[i].message, run.states[i + 1].pending, k);
    ConsumedBy(run, j, i, typed, hs, k);
    hs' := hs + HandlingsAt(run, i, k);
  }

  /** The first k waiting actions as handled by event i. */
  function HandlingsAt(run: Run, i: nat, k: nat): seq<Handling>
    requires i < |run.events| < |run.states| && run.events[i].Received?
    requires run.states[i].pending.Some? && k <= |run.states[i].pending.value.actions|
  {
    var p := run.states[i].pending.value;
    Handlings(run.numbers, run.states[i], run.events[i].message, p.side, p.actions[..k], i)
  }

  lemma {:induction false} ConsumedBy(run: Run, j: nat, i: nat, typed: PendingAction, hs: seq<Handling>, k: nat)
    requires j < i < |run.events| < |run.states| && run.events[i].Received?
    requires Consumed(run, j, i, typed, hs)
    requires Handles(run.numbers, run.states[i], run.events[i].message, run.states[i + 1], k)
    requires k > 0 <==> AdvancesAt(run, i)
    ensures Consumed(run, j, i + 1, typed, hs + HandlingsAt(run, i, k))
  {
    InOrderMore(run, j, i, typed, hs, k);
    SentMore(run, j + 1, i, hs, k);
    CompleteMore(run, typed.side, hs, HandlingsAt(run, i, k), j, i);
  }

  lemma {:induction false} SentMore(run: Run, a: nat, i: nat, hs: seq<Handling>, k: nat)
    requires a <= i < |run.events| < |run.states| && run.events[i].Received?
    requires Handles(run.numbers, run.states[i], run.events[i].message, run.states[i + 1], k)
    requires Sent(run, a, i) == AllMade(hs)
    ensures Sent(run, a, i + 1) == AllMade(hs + HandlingsAt(run, i, k))
  {
    var n, app, m := run.numbers, run.states[i], run.events[i].message;
    var p := app.pending.value;
    AllMadeAppend(hs, n, app, m, p.side, p.actions[..k], i);
    SentOfReceived(run, a, i, MadeEach(n, app, m, p.side, p.actions[..k]));
  }

  lemma {:induction false} InOrderMore(run: Run, j: nat, i: nat, typed: PendingAction, hs: seq<Handling>, k: nat)
    requires j < i < |run.events| < |run.states| && run.events[i].Received? && run.states[i].pending.Some?
    requires HandledInOrder(run, j, i, typed, hs)
    requires k <= |run.states[i].pending.value.actions|
    requires Leaves(run.states[i + 1].pending, run.states[i].pending.value, k)
    ensures HandledInOrder(run, j, i + 1, typed, hs + HandlingsAt(run, i, k))
  {
    HandledMore(run, typed.side, hs, run.states[i].pending.value.actions[..k], j + 1, i);
    PrefixMore(run.states[i].pending, run.states[i + 1].pending, typed, Actions(hs), k);
  }

  lemma {:induction false} PrefixMore(
    pending: Option<PendingAction>, after: Option<PendingAction>, typed: PendingAction, done: seq<string>, k: nat)
    requires pending.Some? && |done| <= |typed.actions| && done == typed.actions[..|done|]
    requires Waits(pending, typed, |done|)
    requires k <= |pending.value.actions| && Leaves(after, pending.value, k)
    ensures |done| + k <= |typed.actions| && Waits(after, typed, |done| + k)
    ensures done + pending.value.actions[..k] == typed.actions[..|done| + k]
  {
    var d := |done|;
    assert typed.actions[..d + k] == typed.actions[..d] + typed.actions[d..][..k];
    if k == 1 { assert typed.actions[d..][1..] == typed.actions[d + 1..]; }
  }

  lemma {:induction false} HandledMore(run: Run, side: Side, hs: seq<Handling>, acts: seq<string>, a: nat, i: nat)
    requires a <= i < |run.events| < |run.states| && run.events[i].Received?
    requires HandledBetween(run, side, hs, a, i)
    ensures var hs' := hs + Handlings(run.numbers, run.states[i], run.events[i].message, side, acts, i);
            HandledBetween(run, side, hs', a, i + 1) && Actions(hs') == Actions(hs) + acts
  {
    var more := Handlings(run.numbers, run.states[i], run.events[i].message, side, acts, i);
    HandlingsMade(run, side, acts, i);
    BetweenMore(run, side, hs, more, a, i);
    assert Actions(hs + more) == Actions(hs) + acts;
  }

  lemma {:induction false} HandlingsMade(run: Run, side: Side, acts: seq<string>, i: nat)
    requires i < |run.events| < |run.states| && run.events[i].Received?
    ensures var more := Handlings(run.numbers, run.states[i], run.events[i].message, side, acts, i);
            forall k | 0 <= k < |more| :: IsHandling(run, side, more[k]) && more[k].at == i
  {
  }

  lemma {:induction false} BetweenMore(run: Run, side: Side, hs: seq<Handling>, more: seq<Handling>, a: nat, i: nat)
    requires a <= i && HandledBetween(run, side, hs, a, i)
    requires forall k | 0 <= k < |more| :: IsHandling(run, side, more[k]) && more[k].at == i
    ensures HandledBetween(run, side, hs + more, a, i + 1)
  {
  }

  lemma {:induction false} ConsumedIdle(run: Run, j: nat, i: nat, typed: PendingAction, hs: seq<Handling>)
    requires IsRun(run) && j < i < |run.events| && !SetsPipe(run.events[i])
    requires run.events[i].Typed? || run.states[i].pending.None?
    requires Consumed(run, j, i, typed, hs)
    ensures Consumed(run, j, i + 1, typed, hs)
  {
    var app, n := run.states[i], run.numbers;
    assert hs + [] == hs;
    CompleteMore(run, typed.side, hs, [], j, i);
    assert IsStep(run, i);
    if run.events[i].Typed? {
      OnlyPipesWait(app, n, run.events[i].command);
      assert Sent(run, j + 1, i + 1) == Sent(run, j + 1, i) + [];
    } else {
      NothingWaiting(app, n, run.events[i].message);
      assert app.effects + [] == app.effects;
      SentOfReceived(run, j + 1, i, []);
      assert Sent(run, j + 1, i + 1) == Sent(run, j + 1, i) + [];
    }
  }

  lemma {:induction false} PipeStarts(run: Run, j: nat)
    requires IsRun(run) && j < |run.events| && SetsPipe(run.events[j])
    ensures var pending := run.states[j + 1].pending;
            && pending.Some? && pending.value.actions == Waiting(run.events[j].command)
            && pending.value.symbol == run.states[j].symbol
            && Consumed(run, j, j + 1, pending.value, [])
  {
    assert IsStep(run, j);
    OnlyPipesWait(run.states[j], run.numbers, run.events[j].command);
    var typed := run.states[j + 1].pending.value;
    assert typed.actions[0..] == typed.actions;
  }

  /** One event other than a new pipe handles more of the typed actions exactly when it is a
      message that continues the pipe or places its order. */
  lemma {:induction false} ConsumedStep(run: Run, j: nat, i: nat, typed: PendingAction, hs: seq<Handling>)
    returns (hs': seq<Handling>)
    requires IsRun(run) && j < i < |run.events| && !SetsPipe(run.events[i])
    requires Consumed(run, j, i, typed, hs)
    ensures hs <= hs' && Consumed(run, j, i + 1, typed, hs') && (|hs| < |hs'| <==> AdvancesAt(run, i))
  {
    if run.events[i].Typed? || run.states[i].pending.None? {
      hs' := hs;
      ConsumedIdle(run, j, i, typed, hs);
    } else {
      hs' := ConsumedMore(run, j, i, typed, hs);
    }
  }

  lemma {:induction false} ConsumedUntil(run: Run, j: nat, i: nat, typed: PendingAction) returns (hs: seq<Handling>)
    requires IsRun(run) && j < i <= |run.events| && Consumed(run, j, j + 1, typed, [])
    requires forall m | j < m < i :: !SetsPipe(run.events[m])
    ensures Consumed(run, j, i, typed, hs)
  {
    hs := [];
    if i > j + 1 {
      hs := ConsumedUntil(run, j, i - 1, typed);
      hs := ConsumedStep(run, j, i - 1, typed, hs);
    }
  }

  /** After a piped command, over every sequence of messages and other commands and until
      the next piped one: messages handle a prefix of the actions typed, in order and each
      once; all they make the client send is what each of these makes, at most one request
      or record each; and what waits is exactly the remaining suffix. */
  lemma {:induction false} HandledIsPrefix(run: Run, j: nat, i: nat) returns (hs: seq<Handling>)
    requires IsRun(run) && j < i <= |run.events| && SetsPipe(run.events[j])
    requires forall m | j < m < i :: !SetsPipe(run.events[m])
    ensures run.states[j + 1].pending.Some?
    ensures var typed := run.states[j + 1].pending.value;
            && typed.actions == Waiting(run.events[j].command) && typed.symbol == run.states[j].symbol
            && Consumed(run, j, i, typed, hs)
    ensures |Sent(run, j + 1, i)| <= |hs| <= |Waiting(run.events[j].command)|
  {
    PipeStarts(run, j);
    var typed := run.states[j + 1].pending.value;
    hs := ConsumedUntil(run, j, i, typed);
    AllMadeAtMostOnceEach(run, typed.side, hs);
  }

  // ---------- The cancel of a stop whose position is gone ----------

  predicate ShowsStop(e: Event) {
    e.Received? && (e.message.ActivityStopActivated? || (e.message.ActivityStopStatus? && e.message.active))
  }

  lemma {:induction false} NotShown(run: Run, i: nat, k: nat)
    requires IsRun(run) && i <= k <= |run.events| && !run.states[i].stopShown
    requires forall m | i <= m < k :: !ShowsStop(run.events[m])
    ensures !run.states[k].stopShown
  {
    if i < k {
      NotShown(run, i, k - 1);
      assert IsStep(run, k - 1);
      ShownOnlyBy(run.states[k - 1], run.numbers, run.events[k - 1]);
    }
  }

  lemma {:induction false} ShownOnlyBy(app: App, n: Numbers, e: Event)
    requires !app.stopShown && !ShowsStop(e)
    ensures !Next(app, n, e).stopShown
  {
    if e.Typed? {
      if ';' in e.command { RunEachShown(app, n, SplitOn(e.command, ';')); }
    } else if e.message.OrderPlaced? && app.pending.Some? {
      var k := RecordAllMakes(Take(app), n, e.message, Buy, app.pending.value.actions, app);
    }
  }

  lemma {:induction false} RunEachShown(app: App, n: Numbers, commands: seq<string>)
    ensures RunEach(app, n, commands).stopShown == app.stopShown
    decreases |commands|
  {
    if commands != [] { RunEachShown(app, n, commands[..|commands| - 1]); }
  }

  /** A stop is asked to be cancelled at most once for each time the server reports it as
      activated or active. */
  lemma {:induction false} CancelsAreSeparated(run: Run, i: nat, k: nat)
    requires IsRun(run) && i < k < |run.events|
    requires run.events[i].Received? && Cancels(run.states[i], run.events[i].message)
    requires run.events[k].Received? && Cancels(run.states[k], run.events[k].message)
    ensures exists m :: i < m < k && ShowsStop(run.events[m])
  {
    assert IsStep(run, i);
    if forall m | i < m < k :: !ShowsStop(run.events[m]) {
      NotShown(run, i + 1, k);
    }
  }
}

/** For which symbol a piped stop is asked: over whole runs, the client shows the symbol that
    was named last, and a continued stop is for the symbol shown. */
module PipelineSymbols {
  import opened Types
  import opened CommandText
  import opened ActionPipeline
  import opened PipelineRuns

  /** The symbol that an effective `symbol` command named. */
  function Named(e: Effect): Option<string> {
    if e.RanCommand? && |Words(e.command)| >= 2 && MatchCommand(Words(e.command)[0]) == Some(SetSymbol)
    then Some(UpperCase(Words(e.command)[1])) else None
  }

  /** The symbol named last, or the given one if none was named. */
  function LastNamed(effects: seq<Effect>, symbol: string): string {
    if effects == [] then symbol
    else
      match Named(effects[|effects| - 1])
      case None => LastNamed(effects[..|effects| - 1], symbol)
      case Some(named) => named
  }

  /** The effect at k named this symbol, and none after it named one. */
  predicate NamesLast(effects: seq<Effect>, k: nat, symbol: string) {
    && k < |effects| && Named(effects[k]) == Some(symbol)
    && forall m | k < m < |effects| :: Named(effects[m]).None?
  }

  predicate NamesNothing(effects: seq<Effect>) {
    forall m | 0 <= m < |effects| :: Named(effects[m]).None?
  }

  lemma {:induction false} LastNamedMeans(effects: seq<Effect>, symbol: string, which: string)
    ensures LastNamed(effects, symbol) == which <==>
            (which == symbol && NamesNothing(effects)) || exists k :: NamesLast(effects, k, which)
  {
    if effects != [] {
      var n := |effects| - 1;
      var before := effects[..n];
      LastNamedMeans(before, symbol, which);
      if Named(effects[n]).None? {
        NamesBefore(effects, before, which);
      } else {
        assert LastNamed(effects, symbol) == which <==> NamesLast(effects, n, which);
        forall k: nat | NamesLast(effects, k, which) ensures k == n { }
      }
    }
  }

  lemma {:induction false} NamesBefore(effects: seq<Effect>, before: seq<Effect>, which: string)
    requires effects != [] && Named(effects[|effects| - 1]).None? && before == effects[..|effects| - 1]
    ensures NamesNothing(effects) <==> NamesNothing(before)
    ensures (exists k :: NamesLast(effects, k, which)) <==> exists k :: NamesLast(before, k, which)
  {
    forall k: nat ensures NamesLast(effects, k, which) <==> NamesLast(before, k, which) { }
  }

  /** Only sent more, and shows the symbol named last since. */
  predicate Follows(a: App, b: App) {
    a.effects <= b.effects && b.symbol == LastNamed(b.effects[|a.effects|..], a.symbol)
  }

  lemma {:induction false} LastNamedConcat(a: seq<Effect>, b: seq<Effect>, symbol: string)
    ensures LastNamed(a + b, symbol) == LastNamed(b, LastNamed(a, symbol))
  {
    if b == [] {
      assert a + b == a;
    } else {
      LastNamedConcat(a, b[..|b| - 1], symbol);
      assert (a + b)[..|a + b| - 1] == a + b[..|b| - 1];
    }
  }

  lemma {:induction false} FollowsTrans(a: App, b: App, c: App)
    requires Follows(a, b) && Follows(b, c)
    ensures Follows(a, c)
  {
    var x, y := b.effects[|a.effects|..], c.effects[|b.effects|..];
    assert c.effects[|a.effects|..] == x + y;
    LastNamedConcat(x, y, a.symbol);
  }

  lemma {:induction false} FollowsAdd(a: App, b: App, made: seq<Effect>)
    requires b.effects == a.effects + made && b.symbol == LastNamed(made, a.symbol)
    ensures Follows(a, b)
  {
    assert b.effects[|a.effects|..] == made;
  }

  lemma {:induction false} RunSingleFollows(app: App, n: Numbers, command: string)
    ensures Follows(app, RunSingle(app, n, command))
  {
    var after := RunSingle(app, n, command);
    var words := Words(command);
    if words == [] {
      FollowsNothing(app, after);
    } else if MatchCommand(words[0]) == Some(TrailingStop) {
      if |words| >= 3 { AsksFollow(app, n, words[1..], None); } else { FollowsNothing(app, after); }
    } else if MatchCommand(words[0]) == Some(ActivityStop) {
      if |words| >= 2 { AsksFollow(app, n, words[1..], None); } else { FollowsNothing(app, after); }
    } else {
      RanFollows(app, n, command);
    }
  }

  lemma {:induction false} RanFollows(app: App, n: Numbers, command: string)
    requires Words(command) != []
    requires MatchCommand(Words(command)[0]) != Some(TrailingStop)
    requires MatchCommand(Words(command)[0]) != Some(ActivityStop)
    ensures Follows(app, RunSingle(app, n, command))
  {
    var e := RanCommand(command, app.symbol);
    LastNamedOfOne(e, app.symbol);
    FollowsAdd(app, RunSingle(app, n, command), [e]);
  }

  lemma {:induction false} LastNamedOfOne(e: Effect, symbol: string)
    ensures LastNamed([e], symbol) == if Named(e).Some? then Named(e).value else symbol
  {
    assert [e][..0] == [];
  }

  lemma {:induction false} FollowsNothing(a: App, b: App)
    requires b.effects == a.effects && b.symbol == a.symbol
    ensures Follows(a, b)
  {
    assert b.effects[|a.effects|..] == [];
  }

  /** Requests and records name no symbol, and there is at most one. */
  lemma {:induction false} OneFollows(app: App, made: seq<Effect>)
    requires |made| <= 1 && (made != [] ==> !made[0].RanCommand?)
    ensures LastNamed(made, app.symbol) == app.symbol && Follows(app, Add(app, made))
  {
    if made != [] {
      assert made == [made[0]];
      LastNamedOfOne(made[0], app.symbol);
    }
    FollowsAdd(app, Add(app, made), made);
  }

  lemma {:induction false} AsksFollow(app: App, n: Numbers, args: seq<string>, side: Option<Side>)
    requires |args| >= 1
    ensures |args| >= 2 ==> Follows(app, Add(app, AskTrailing(app, n, args, side)))
    ensures Follows(app, Add(app, AskActivity(app, n, args, side)))
  {
    AsksAtMostOnce(app, n, args, side);
    if |args| >= 2 { OneFollows(app, AskTrailing(app, n, args, side)); }
    OneFollows(app, AskActivity(app, n, args, side));
  }

  lemma {:induction false} RunEachFollows(app: App, n: Numbers, commands: seq<string>)
    ensures Follows(app, RunEach(app, n, commands))
    decreases |commands|
  {
    if commands == [] {
      FollowsNothing(app, app);
    } else {
      var before := RunEach(app, n, commands[..|commands| - 1]);
      RunEachFollows(app, n, commands[..|commands| - 1]);
      RunSingleFollows(before, n, Trim(commands[|commands| - 1]));
      FollowsTrans(app, before, RunEach(app, n, commands));
    }
  }

  lemma {:induction false} TypeFollows(app: App, n: Numbers, command: string)
    ensures Follows(app, Type(app, n, command))
  {
    if ';' in command {
      RunEachFollows(app, n, SplitOn(command, ';'));
    } else if '|' in command {
      var first := TrimAll(SplitOn(command, '|'))[0];
      RunSingleFollows(app.(pending := Some(PendingAction(app.symbol, SideOf(first), Waiting(command)))), n, first);
    } else {
      RunSingleFollows(app, n, command);
    }
  }

  lemma {:induction false} RecordsNameNothing(
    n: Numbers, from: App, m: Message, side: Side, actions: seq<string>, symbol: string)
    requires m.OrderPlaced?
    ensures LastNamed(MadeEach(n, from, m, side, actions), symbol) == symbol
  {
    if actions != [] {
      var made := Made(n, from, m, side, actions[0]);
      MadeAtMostOnce(n, from, m, side, actions[0]);
      OneFollows(from.(symbol := symbol), made);
      RecordsNameNothing(n, from, m, side, actions[1..], symbol);
      LastNamedConcat(made, MadeEach(n, from, m, side, actions[1..]), symbol);
    }
  }

  lemma {:induction false} ContinueFollows(app: App, n: Numbers, p: PendingAction)
    ensures Follows(app, Continue(app, n, p))
  {
    var after := Continue(app, n, p);
    if p.actions == [] || Words(p.actions[0]) == [] {
      FollowsNothing(app, after);
    } else {
      var a := app.(pending := if |p.actions| > 1 then Some(p.(actions := p.actions[1..])) else app.pending);
      ContinueWithFollows(app, a, n, p, MatchCommand(Words(p.actions[0])[0]));
    }
  }

  lemma {:induction false} ContinueWithFollows(app: App, a: App, n: Numbers, p: PendingAction, command: Option<Command>)
    requires p.actions != [] && Words(p.actions[0]) != [] && command == MatchCommand(Words(p.actions[0])[0])
    requires a == app.(pending := if |p.actions| > 1 then Some(p.(actions := p.actions[1..])) else app.pending)
    ensures Follows(app, Continue(app, n, p))
  {
    var after, words := Continue(app, n, p), Words(p.actions[0]);
    if command == Some(TrailingStop) && |words| >= 3 {
      assert after == Add(a, AskTrailing(a, n, words[1..], Some(p.side)));
      AsksFollow(a, n, words[1..], Some(p.side));
    } else if command == Some(ActivityStop) && |words| >= 2 {
      assert after == Add(a, AskActivity(a, n, words[1..], Some(p.side)));
      AsksFollow(a, n, words[1..], Some(p.side));
    } else if command == Some(TrailingStop) || command == Some(ActivityStop) {
      FollowsNothing(app, after);
    } else {
      assert after == RunSingle(a, n, p.actions[0]);
      RunSingleFollows(a, n, p.actions[0]);
    }
  }

  lemma {:induction false} ContinueForFollows(app: App, n: Numbers, symbol: string)
    ensures Follows(app, ContinueFor(app, n, symbol))
  {
    if app.pending.Some? && app.pending.value.symbol == symbol {
      ContinueFollows(Take(app), n, app.pending.value);
    } else {
      FollowsNothing(app, ContinueFor(app, n, symbol));
    }
  }

  lemma {:induction false} ReceiveFollows(app: App, n: Numbers, m: Message)
    ensures Follows(app, Receive(app, n, m))
  {
    var after := Receive(app, n, m);
    match m
    case OrderPlaced(_, orderType, _, _) =>
      if orderType == Limit && app.pending.Some? && app.pending.value.symbol == app.symbol {
        var p := app.pending.value;
        var k := RecordAllMakes(Take(app), n, m, p.side, p.actions, app);
        RecordsNameNothing(n, app, m, p.side, p.actions[..k], app.symbol);
        FollowsAdd(app, after, MadeEach(n, app, m, p.side, p.actions[..k]));
      } else {
        FollowsNothing(app, after);
      }
    case PositionsAre(positions) =>
      var had, has := Held(app.positions, app.symbol, None).Some?, Held(positions, app.symbol, None).Some?;
      if !had && has {
        ContinueForFollows(app.(positions := positions), n, app.symbol);
      } else if had && !has && app.stopShown {
        LastNamedOfOne(CancelledStop(app.symbol), app.symbol);
        FollowsAdd(app, after, [CancelledStop(app.symbol)]);
      } else {
        FollowsNothing(app, after);
      }
    case TrailingStopSet(symbol) => ContinueForFollows(app, n, symbol);
    case ActivityStopActivated(symbol) => ContinueForFollows(app.(stopShown := true), n, symbol);
    case _ => FollowsNothing(app, after);
  }

  lemma {:induction false} StepFollows(run: Run, i: nat)
    requires IsStep(run, i)
    ensures Follows(run.states[i], run.states[i + 1])
  {
    match run.events[i]
    case Typed(command) => TypeFollows(run.states[i], run.numbers, command);
    case Received(m) => ReceiveFollows(run.states[i], run.numbers, m);
  }

  /** Over every run, the client only sends more, and shows the symbol named last since. */
  lemma {:induction false} ShownIsNamedLast(run: Run, j: nat, i: nat)
    requires IsRun(run) && j <= i <= |run.events|
    ensures Follows(run.states[j], run.states[i])
  {
    if i == j {
      FollowsNothing(run.states[j], run.states[i]);
    } else {
      ShownIsNamedLast(run, j, i - 1);
      StepFollows(run, i - 1);
      FollowsTrans(run.states[j], run.states[i - 1], run.states[i]);
    }
  }

  /** The symbol of a stop asked for. */
  function AskedSymbol(e: Effect): Option<string> {
    match e
    case AskedTrailingStop(symbol, _, _, _) => Some(symbol)
    case AskedActivityStop(symbol, _, _, _) => Some(symbol)
    case _ => None
  }

  lemma {:induction false} AsksForShown(app: App, n: Numbers, args: seq<string>, side: Option<Side>)
    requires |args| >= 1
    ensures forall e | e in AskActivity(app, n, args, side) && AskedSymbol(e).Some? ::
              AskedSymbol(e) == Some(app.symbol)
    ensures |args| >= 2 ==>
              forall e | e in AskTrailing(app, n, args, side) && AskedSymbol(e).Some? ::
                AskedSymbol(e) == Some(app.symbol)
  {
  }

  lemma {:induction false} MadeForShown(n: Numbers, app: App, m: Message, side: Side, action: string, e: Effect)
    requires e in Made(n, app, m, side, action) && AskedSymbol(e).Some?
    ensures !m.OrderPlaced? && AskedSymbol(e) == Some(app.symbol)
  {
    if !m.OrderPlaced? && |Words(action)| >= 2 { AsksForShown(Seen(app, m), n, Words(action)[1..], Some(side)); }
  }

  lemma {:induction false} MadeEachForShown(
    n: Numbers, app: App, m: Message, side: Side, actions: seq<string>, e: Effect)
    requires e in MadeEach(n, app, m, side, actions) && AskedSymbol(e).Some?
    ensures !m.OrderPlaced? && AskedSymbol(e) == Some(app.symbol)
  {
    if e in Made(n, app, m, side, actions[0]) {
      MadeForShown(n, app, m, side, actions[0], e);
    } else {
      MadeEachForShown(n, app, m, side, actions[1..], e);
    }
  }

  /** A stop is asked for on account of a message only for the symbol shown, and on account
      of positions only if that is the symbol of the pipe. */
  lemma {:induction false} ReceiveAsksForShown(app: App, n: Numbers, m: Message, e: Effect)
    requires app.effects <= Receive(app, n, m).effects
    ensures e in Receive(app, n, m).effects[|app.effects|..] && AskedSymbol(e).Some? ==>
              && app.pending.Some? && AskedSymbol(e) == Some(app.symbol)
              && (m.PositionsAre? ==> app.pending.value.symbol == app.symbol)
  {
    if app.pending.None? {
      NothingWaiting(app, n, m);
      AddedIs(app, Receive(app, n, m), CancelOf(app, m));
    } else {
      var k := ReceiveMakes(app, n, m);
      HandledAsksForShown(n, app, m, Receive(app, n, m), k, e);
      if m.PositionsAre? && app.pending.value.symbol != app.symbol { OtherSymbolDrops(app, n, m); }
    }
  }

  lemma {:induction false} AddedIs(app: App, after: App, made: seq<Effect>)
    requires after.effects == app.effects + made
    ensures after.effects[|app.effects|..] == made
  {
  }

  lemma {:induction false} HandledAsksForShown(n: Numbers, app: App, m: Message, after: App, k: nat, e: Effect)
    requires Handles(n, app, m, after, k) && app.effects <= after.effects
    ensures e in after.effects[|app.effects|..] && AskedSymbol(e).Some? ==> AskedSymbol(e) == Some(app.symbol)
  {
    var p := app.pending.value;
    var made := MadeEach(n, app, m, p.side, p.actions[..k]);
    assert app.effects + made + CancelOf(app, m) == app.effects + (made + CancelOf(app, m));
    AddedIs(app, after, made + CancelOf(app, m));
    if e in made && AskedSymbol(e).Some? { MadeEachForShown(n, app, m, p.side, p.actions[..k], e); }
  }

  lemma {:induction false} OtherSymbolDrops(app: App, n: Numbers, m: Message)
    requires m.PositionsAre? && app.pending.Some? && app.pending.value.symbol != app.symbol
    ensures app.effects <= Receive(app, n, m).effects
    ensures Receive(app, n, m).effects[|app.effects|..] == CancelOf(app, m)
  {
  }

  /** In every run, a stop that a message makes a pipe ask for is for the symbol shown then.
      That is the symbol the pipe was typed for exactly when no effective `symbol` command
      ran in between or the last one named that symbol again. Only the message that reports
      the positions checks it. */
  lemma {:induction false} AskedForTypedSymbolIff(run: Run, j: nat, i: nat, e: Effect)
    requires IsRun(run) && j < i < |run.events| && SetsPipe(run.events[j]) && run.events[i].Received?
    requires forall m | j < m < i :: !SetsPipe(run.events[m])
    requires run.states[i].effects <= run.states[i + 1].effects
    requires e in run.states[i + 1].effects[|run.states[i].effects|..] && AskedSymbol(e).Some?
    ensures AskedSymbol(e) == Some(run.states[i].symbol)
    ensures run.states[j].effects <= run.states[i].effects
    ensures var since := run.states[i].effects[|run.states[j].effects|..];
            AskedSymbol(e) == Some(run.states[j].symbol) <==>
            || NamesNothing(since)
            || exists k :: NamesLast(since, k, run.states[j].symbol)
    ensures run.events[i].message.PositionsAre? ==> AskedSymbol(e) == Some(run.states[j].symbol)
  {
    ShownIsNamedLast(run, j, i);
    var since := run.states[i].effects[|run.states[j].effects|..];
    LastNamedMeans(since, run.states[j].symbol, run.states[j].symbol);
    assert IsStep(run, i);
    ReceiveAsksForShown(run.states[i], run.numbers, run.events[i].message, e);
    PipeSymbolStays(run, j, i);
  }

  lemma {:induction false} PipeSymbolStays(run: Run, j: nat, i: nat)
    requires IsRun(run) && j < i <= |run.events| && SetsPipe(run.events[j])
    requires forall m | j < m < i :: !SetsPipe(run.events[m])
    ensures run.states[i].pending.Some? ==> run.states[i].pending.value.symbol == run.states[j].symbol
  {
    var hs := HandledIsPrefix(run, j, i);
  }

  // ---------- A run in which it is not ----------

  /** A trimmed command whose first word is a name of the buy command. */
  predicate IsBuy(first: string) {
    Trim(first) == first && Words(first) != [] && MatchCommand(Words(first)[0]) == Some(BuyCmd)
  }

  predicate Plain(s: string) { '|' !in s && ';' !in s }

  lemma {:induction false} TypePipe(app: App, n: Numbers, first: string, actions: seq<string>)
    requires actions != [] && forall part | part in [first] + actions :: '|' !in part && ';' !in part
    ensures Type(app, n, Join([first] + actions, '|')) ==
            RunSingle(app.(pending := Some(PendingAction(app.symbol, SideOf(Trim(first)), TrimAll(actions)))), n,
                      Trim(first))
  {
    TypedPartsWait(first, actions);
  }

  lemma {:induction false} BuyRuns(app: App, n: Numbers, first: string)
    requires IsBuy(first)
    ensures RunSingle(app, n, first) == Add(app, [RanCommand(first, app.symbol)]) && SideOf(first) == Buy
  {
  }

  lemma {:induction false} TypeBuyPipe(n: Numbers, first: string, a: string, b: string)
    requires IsBuy(first) && Plain(first) && IsWord(a) && IsWord(b) && Plain(a) && Plain(b)
    ensures Piped(BuyPipe(first, a, b))
    ensures Type(START, n, BuyPipe(first, a, b)) ==
            START.(pending := Some(PendingAction("BTCUSDT", Buy, ["as" + " " + a, "as" + " " + b])),
                   effects := [RanCommand(first, "BTCUSDT")])
  {
    var actions := ["as" + " " + a, "as" + " " + b];
    TypePipe(START, n, first, actions);
    TypedPartsWait(first, actions);
    TrimOfTwo("as", a);
    TrimOfTwo("as", b);
    assert TrimAll(actions) == actions;
    BuyRuns(START.(pending := Some(PendingAction("BTCUSDT", Buy, actions))), n, first);
  }

  function BuyPipe(first: string, a: string, b: string): string {
    Join([first] + ["as" + " " + a, "as" + " " + b], '|')
  }

  lemma {:induction false} ContinueAsks(app: App, n: Numbers, p: PendingAction, a: string)
    requires app.pending == Some(p) && p.actions != [] && p.actions[0] == "as" + " " + a
    requires IsWord(a) && n.unsigned(a).Some?
    ensures ContinueFor(app, n, p.symbol) ==
            Add(app, [AskedActivityStop(app.symbol, p.side, n.unsigned(a).value, None)])
            .(pending := if |p.actions| > 1 then Some(p.(actions := p.actions[1..])) else None)
  {
    WordsOfTwo("as", a);
    NamesOfStops();
    assert ["as", a][1..] == [a];
  }

  lemma {:induction false} SwitchesTo(app: App, n: Numbers, other: string)
    requires IsWord(other) && Plain(other)
    ensures !Piped("sym" + " " + other)
    ensures Type(app, n, "sym" + " " + other) ==
            Add(app, [RanCommand("sym" + " " + other, app.symbol)]).(symbol := UpperCase(other), lastPrice := None)
  {
    WordsOfTwo("sym", other);
    NamesOfStops();
  }

  /** A pipe of two stops behind a buy, the position it opens, a switch to another symbol,
      and the confirmation of the first stop. */
  function SwitchEvents(first: string, a: string, b: string, other: string, p: Position): seq<Event> {
    [Typed(BuyPipe(first, a, b)), Received(PositionsAre([p])),
     Typed("sym" + " " + other), Received(ActivityStopActivated(p.symbol))]
  }

  function SwitchStates(n: Numbers, events: seq<Event>): seq<App>
    requires |events| == 4
  {
    var s1 := Next(START, n, events[0]);
    var s2 := Next(s1, n, events[1]);
    var s3 := Next(s2, n, events[2]);
    [START, s1, s2, s3, Next(s3, n, events[3])]
  }

  lemma {:induction false} OpenedContinues(app: App, n: Numbers, p: Position)
    requires app.positions == [] && p.symbol == app.symbol
    ensures Receive(app, n, PositionsAre([p])) == ContinueFor(app.(positions := [p]), n, app.symbol)
  {
  }

  lemma {:induction false} FirstStopAsked(
    n: Numbers, first: string, a: string, b: string, p: Position, s1: App, s2: App)
    requires IsBuy(first) && Plain(first) && IsWord(a) && IsWord(b) && Plain(a) && Plain(b)
    requires p.symbol == "BTCUSDT" && n.unsigned(a).Some?
    requires s1 == Type(START, n, BuyPipe(first, a, b)) && s2 == Receive(s1, n, PositionsAre([p]))
    ensures SetsPipe(Typed(BuyPipe(first, a, b))) && s1.effects == [RanCommand(first, "BTCUSDT")]
    ensures s2 == App("BTCUSDT", Some(PendingAction("BTCUSDT", Buy, ["as" + " " + b])), [p], None, false,
                      s1.effects + [AskedActivityStop("BTCUSDT", Buy, n.unsigned(a).value, None)])
  {
    TypeBuyPipe(n, first, a, b);
    OpenedContinues(s1, n, p);
    ContinueAsks(s1.(positions := [p]), n, s1.pending.value, a);
  }

  lemma {:induction false} SecondStopAsked(n: Numbers, b: string, other: string, s2: App, s3: App, s4: App)
    requires IsWord(b) && n.unsigned(b).Some? && IsWord(other) && Plain(other)
    requires s2.pending == Some(PendingAction("BTCUSDT", Buy, ["as" + " " + b]))
    requires s3 == Type(s2, n, "sym" + " " + other) && s4 == Receive(s3, n, ActivityStopActivated("BTCUSDT"))
    ensures s3.effects == s2.effects + [RanCommand("sym" + " " + other, s2.symbol)]
    ensures s4.effects == s3.effects + [AskedActivityStop(UpperCase(other), Buy, n.unsigned(b).value, None)]
  {
    SwitchesTo(s2, n, other);
    ContinueAsks(s3.(stopShown := true), n, s3.pending.value, b);
  }

  /** From the client's first state: for any other symbol, the second stop of a pipe typed
      for BTCUSDT is asked for that other symbol, on which nothing was bought. */
  lemma {:induction false} SwitchedSymbolGetsTheStop(
    n: Numbers, first: string, a: string, b: string, other: string, p: Position)
    requires IsBuy(first) && Plain(first) && IsWord(a) && IsWord(b) && Plain(a) && Plain(b)
    requires IsWord(other) && Plain(other) && UpperCase(other) != "BTCUSDT" && p.symbol == "BTCUSDT"
    requires n.unsigned(a).Some? && n.unsigned(b).Some?
    ensures var events := SwitchEvents(first, a, b, other, p); var states := SwitchStates(n, events);
            && IsRun(Run(n, states, events)) && SetsPipe(events[0])
            && states[2].effects == states[1].effects + [AskedActivityStop("BTCUSDT", Buy, n.unsigned(a).value, None)]
            && states[4].effects
               == states[3].effects + [AskedActivityStop(UpperCase(other), Buy, n.unsigned(b).value, None)]
  {
    var events := SwitchEvents(first, a, b, other, p);
    var states := SwitchStates(n, events);
    FirstStopAsked(n, first, a, b, p, states[1], states[2]);
    SecondStopAsked(n, b, other, states[2], states[3], states[4]);
    SwitchIsRun(n, events, states, RanCommand(first, "BTCUSDT"),
                AskedActivityStop("BTCUSDT", Buy, n.unsigned(a).value, None),
                RanCommand("sym" + " " + other, states[2].symbol));
  }

  lemma {:induction false} SwitchIsRun(
    n: Numbers, events: seq<Event>, states: seq<App>, e1: Effect, e2: Effect, e3: Effect)
    requires |events| == 4 && states == SwitchStates(n, events)
    requires states[1].effects == [e1] && states[2].effects == states[1].effects + [e2]
    requires states[3].effects == states[2].effects + [e3] && e1 != Aborted && e2 != Aborted && e3 != Aborted
    ensures IsRun(Run(n, states, events))
  {
    var run := Run(n, states, events);
    assert IsStep(run, 0) && IsStep(run, 1) && IsStep(run, 2) && IsStep(run, 3);
  }
}

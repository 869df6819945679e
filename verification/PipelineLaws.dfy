/** What each message and each typed command does to the client, written out: what it sends
    and what it leaves waiting, and exactly when. */
module PipelineLaws {
  import opened Types
  import opened CommandText
  import opened ActionPipeline
  import opened PipelineRuns
  import opened PipelineSymbols

  // ---------- Orders placed ----------

  /** A limit order on the pipe's symbol records the waiting actions up to and including the
      first that does not parse, in order, and nothing waits any more. */
  lemma {:induction false} LimitOrderRecords(app: App, n: Numbers, orderId: string, symbol: string, side: Side)
    returns (k: nat)
    requires app.pending.Some? && app.pending.value.symbol == app.symbol
    ensures var p := app.pending.value; var m := OrderPlaced(orderId, Limit, symbol, side);
            && k <= |p.actions|
            && (forall i | 0 <= i < k :: Record(n, orderId, symbol, side, p.actions[i]).None? ==> i == k - 1)
            && (k < |p.actions| ==> k > 0 && Record(n, orderId, symbol, side, p.actions[k - 1]).None?)
            && Next(app, n, Received(m))
               == app.(pending := None, effects := app.effects + MadeEach(n, app, m, p.side, p.actions[..k]))
  {
    var p := app.pending.value;
    k := RecordAllMakes(Take(app), n, OrderPlaced(orderId, Limit, symbol, side), p.side, p.actions, app);
  }

  /** A limit order drops a pipe of another symbol and sends nothing. */
  lemma {:induction false} LimitOrderDrops(app: App, n: Numbers, orderId: string, symbol: string, side: Side)
    requires app.pending.Some? && app.pending.value.symbol != app.symbol
    ensures Next(app, n, Received(OrderPlaced(orderId, Limit, symbol, side))) == app.(pending := None)
  {
  }

  /** Any other order, and any order while nothing waits, does nothing. */
  lemma {:induction false} OtherOrdersDoNothing(
    app: App, n: Numbers, orderId: string, orderType: OrderType, symbol: string, side: Side)
    requires orderType == Market || app.pending.None?
    ensures Next(app, n, Received(OrderPlaced(orderId, orderType, symbol, side))) == app
  {
  }

  /** What an action that is no stop records for a limit order: nothing. */
  lemma {:induction false} OtherActionsRecordNothing(
    n: Numbers, orderId: string, symbol: string, side: Side, action: string)
    requires Words(action) == [] || Words(action)[0] !in ["ts", "as", "activityStop"]
    ensures Record(n, orderId, symbol, side, action) == Some([])
  {
    if Words(action) != [] { StopNames(Words(action)[0]); }
  }

  // ---------- Confirmations and positions ----------

  /** The client as the message itself leaves it, before any pipe goes on. */
  function TakenOver(app: App, m: Message): App {
    match m
    case ActivityStopActivated(_) => app.(stopShown := true)
    case PositionsAre(positions) => app.(positions := positions)
    case _ => app
  }

  /** A message that continues the pipe handles exactly the first action, if it is not empty:
      it sends what that makes, once, and exactly the others wait on. After an empty one
      nothing waits and nothing is sent. */
  lemma {:induction false} ContinueDoes(app: App, n: Numbers, m: Message)
    requires app.pending.Some? && Continues(app, m)
    ensures var p, after := app.pending.value, Next(app, n, Received(m));
            && (p.actions == [] || Words(p.actions[0]) == [] ==> after == TakenOver(app, m).(pending := None))
            && (p.actions != [] && Words(p.actions[0]) != [] ==>
                  && after.effects == app.effects + Made(n, app, m, p.side, p.actions[0])
                  && after.pending == if |p.actions| == 1 then None else Some(p.(actions := p.actions[1..])))
            && after.positions == TakenOver(app, m).positions && after.stopShown == TakenOver(app, m).stopShown
  {
    var p := app.pending.value;
    var k := ReceiveMakes(app, n, m);
    assert CancelOf(app, m) == [];
    if k == 1 { MadeEachOfOne(n, app, m, p.side, p.actions); }
    ContinueForLeaves(TakenOver(app, m), n, if m.PositionsAre? then app.symbol else m.symbol);
  }

  lemma {:induction false} ContinueForLeaves(app: App, n: Numbers, symbol: string)
    ensures ContinueFor(app, n, symbol).positions == app.positions
    ensures ContinueFor(app, n, symbol).stopShown == app.stopShown
  {
  }

  /** A confirmation for another symbol, or a position that opens while the pipe is of
      another symbol, drops the pipe and sends nothing. */
  lemma {:induction false} MismatchDrops(app: App, n: Numbers, m: Message)
    requires app.pending.Some? && Mismatches(app, m)
    ensures Next(app, n, Received(m)) == TakenOver(app, m).(pending := None)
  {
  }

  /** When nothing waits, a confirmation or positions only leave their own mark. */
  lemma {:induction false} NothingContinues(app: App, n: Numbers, m: Message)
    requires app.pending.None? && (Confirms(m) || Opens(app, m))
    ensures Next(app, n, Received(m)) == TakenOver(app, m)
  {
  }

  /** When the position on the shown symbol goes while a stop is shown as running, exactly its
      cancel is sent; the pipe waits on. */
  lemma {:induction false} PositionGoneDoes(app: App, n: Numbers, positions: seq<Position>)
    requires exists p :: p in app.positions && p.symbol == app.symbol
    requires forall p | p in positions :: p.symbol != app.symbol
    ensures Next(app, n, Received(PositionsAre(positions))) ==
            if app.stopShown
            then app.(positions := positions, stopShown := false,
                      effects := app.effects + [CancelledStop(app.symbol)])
            else app.(positions := positions)
  {
    HasOnMeans(app.positions, app.symbol);
    HasOnMeans(positions, app.symbol);
  }

  /** When a position on the shown symbol neither opens nor goes, positions are only shown. */
  lemma {:induction false} SamePositionsDoNothing(app: App, n: Numbers, positions: seq<Position>)
    requires (exists p :: p in app.positions && p.symbol == app.symbol) <==>
             (exists p :: p in positions && p.symbol == app.symbol)
    ensures Next(app, n, Received(PositionsAre(positions))) == app.(positions := positions)
  {
    HasOnMeans(app.positions, app.symbol);
    HasOnMeans(positions, app.symbol);
  }

  /** A position opens exactly when none was on the shown symbol and now one is. */
  lemma {:induction false} OpensIff(app: App, positions: seq<Position>)
    ensures Opens(app, PositionsAre(positions)) <==>
            && (forall p | p in app.positions :: p.symbol != app.symbol)
            && (exists p :: p in positions && p.symbol == app.symbol)
  {
    HasOnMeans(app.positions, app.symbol);
    HasOnMeans(positions, app.symbol);
  }

  lemma {:induction false} OtherMessagesDo(app: App, n: Numbers, active: bool, price: real)
    ensures Next(app, n, Received(ActivityStopStatus(active))) == app.(stopShown := active)
    ensures Next(app, n, Received(ActivityStopTriggered)) == app.(stopShown := false)
    ensures Next(app, n, Received(PriceIs(price))) == app.(lastPrice := Some(price))
    ensures Next(app, n, Received(Other)) == app
  {
  }

  // ---------- Commands typed ----------

  lemma {:induction false} StopNames(word: string)
    ensures MatchCommand(word) == Some(TrailingStop) <==> word == "ts"
    ensures MatchCommand(word) == Some(ActivityStop) <==> word in ["as", "activityStop"]
    ensures MatchCommand(word) == Some(SetSymbol) <==> word in ["sym", "symbol"]
  {
  }

  /** A command that is no stop and no switch runs once, for the symbol shown, and changes
      nothing that the pipe looks at; a switch shows the named symbol, without a price. */
  lemma {:induction false} SingleCommandDoes(app: App, n: Numbers, command: string)
    requires Words(command) != [] && Words(command)[0] !in ["ts", "as", "activityStop"]
    ensures var words := Words(command); var ran := app.effects + [RanCommand(command, app.symbol)];
            RunSingle(app, n, command) ==
            if words[0] in ["sym", "symbol"] && |words| >= 2
            then app.(symbol := UpperCase(words[1]), lastPrice := None, effects := ran)
            else app.(effects := ran)
  {
    StopNames(Words(command)[0]);
  }

  /** A stop typed by itself asks once, for the side of the first position on the symbol
      shown, if it has its arguments. */
  lemma {:induction false} SingleStopDoes(app: App, n: Numbers, command: string)
    requires Words(command) != [] && Words(command)[0] in ["ts", "as", "activityStop"]
    ensures var words := Words(command);
            RunSingle(app, n, command) == app.(effects := app.effects +
              if words[0] == "ts" then (if |words| >= 3 then AskTrailing(app, n, words[1..], None) else [])
              else if |words| >= 2 then AskActivity(app, n, words[1..], None) else [])
  {
    StopNames(Words(command)[0]);
    assert app.effects + [] == app.effects;
  }

  lemma {:induction false} SingleIsRun(app: App, n: Numbers, command: string)
    requires ';' !in command && '|' !in command
    ensures Type(app, n, command) == RunSingle(app, n, command)
  {
  }

  /** A chain runs its trimmed parts one after another, pipes in them notwithstanding. */
  lemma {:induction false} ChainRuns(app: App, n: Numbers, parts: seq<string>, last: string)
    requires |parts| >= 2 && ';' !in last && forall i | 0 <= i < |parts| :: ';' !in parts[i]
    ensures Type(app, n, Join(parts + [last], ';')) == RunSingle(Type(app, n, Join(parts, ';')), n, Trim(last))
  {
    JoinHas(parts, ';');
    JoinHas(parts + [last], ';');
    SplitOfJoin(parts, ';');
    SplitOfJoin(parts + [last], ';');
    assert (parts + [last])[..|parts|] == parts;
  }

  lemma {:induction false} ShortChainRuns(app: App, n: Numbers, first: string, second: string)
    requires ';' !in first && ';' !in second
    ensures Type(app, n, Join([first, second], ';')) == RunSingle(RunSingle(app, n, Trim(first)), n, Trim(second))
  {
    JoinHas([first, second], ';');
    SplitOfJoin([first, second], ';');
    assert [first, second][..1] == [first] && [first][..0] == [];
    assert RunEach(app, n, [first]) == RunSingle(RunEach(app, n, []), n, Trim(first));
  }

  lemma {:induction false} JoinHas(parts: seq<string>, separator: char)
    requires |parts| >= 2
    ensures separator in Join(parts, separator)
  {
    assert Join(parts, separator)[|parts[0]|] == separator;
  }
}

/** Piped commands of the client (client/src/app.rs): the first command runs at once, the
    others wait for the server messages that continue them. */
module ActionPipeline {
  import opened Types
  import opened Risk
  import opened CommandText

  // ---------- State ----------

  datatype PendingAction = PendingAction(symbol: string, side: Side, actions: seq<string>)

  datatype Callback = Fixed(distance: real) | Share(percent: real)

  /** What leaves the client, or, for commands not followed further, that they ran. */
  datatype Effect =
    | RanCommand(command: string, symbol: string)
    | AskedTrailingStop(symbol: string, side: Side, callback: Callback, activePrice: real)
    | AskedActivityStop(symbol: string, side: Side, timeoutSecs: nat, trigger: Option<real>)
    | RecordedTrailing(orderId: string, symbol: string, side: Side, activePrice: real, distance: real)
    | RecordedActivity(orderId: string, symbol: string, side: Side, timeoutSecs: nat, trigger: Option<real>)
    | CancelledStop(symbol: string)
    /** The client dies of a division by zero. */
    | Aborted

  /** stopShown says that the client shows an activity stop as running. */
  datatype App = App(
    symbol: string, pending: Option<PendingAction>, positions: seq<Position>,
    lastPrice: Option<real>, stopShown: bool, effects: seq<Effect>)

  const START := App("BTCUSDT", None, [], None, false, [])

  datatype Message =
    | OrderPlaced(orderId: string, orderType: OrderType, symbol: string, side: Side)
    | PositionsAre(positions: seq<Position>)
    | TrailingStopSet(symbol: string)
    | ActivityStopActivated(symbol: string)
    | ActivityStopStatus(active: bool)
    | ActivityStopTriggered
    /** Any message whose price the client takes over. */
    | PriceIs(price: real)
    | Other

  function Add(app: App, effects: seq<Effect>): (r: App)
    ensures effects == [] ==> r == app
  {
    assert app.effects + [] == app.effects;
    app.(effects := app.effects + effects)
  }

  // ---------- Asking for stops ----------

  predicate OnSymbol(p: Position, symbol: string, side: Option<Side>) {
    p.symbol == symbol && (side.None? || side.value == p.side)
  }

  /** The first position on the symbol, and on the side if one is given. */
  function Held(positions: seq<Position>, symbol: string, side: Option<Side>): Option<Position> {
    if positions == [] then None
    else if OnSymbol(positions[0], symbol, side) then Some(positions[0])
    else Held(positions[1..], symbol, side)
  }

  function SideFor(app: App, side: Option<Side>): Option<Side> {
    if side.Some? then side
    else
      match Held(app.positions, app.symbol, None)
      case None => None
      case Some(p) => Some(p.side)
  }

  datatype Trigger = Price(price: real) | Unknown | DividesByZero

  /** The price of a ratio comes from the position and its stop loss. */
  function RatioTrigger(app: App, side: Side, ratio: Value): Trigger
    requires ratio.Ratio?
  {
    match Held(app.positions, app.symbol, Some(side))
    case None => Unknown
    case Some(p) =>
      if p.stopLoss.None? then Unknown
      else
        match TakeProfit(ratio, side, p.entry, p.stopLoss.value)
        case None => DividesByZero
        case Some(price) => Price(price)
  }

  function PercentPrice(side: Side, lastPrice: real, pct: real): real {
    match side
    case Buy => lastPrice * (1.0 + pct / 100.0)
    case Sell => lastPrice * (1.0 - pct / 100.0)
  }

  function TrailingTrigger(app: App, side: Side, value: Value, lastPrice: real): Trigger {
    match value
    case Ratio(_, _) => RatioTrigger(app, side, value)
    case Absolute(price) => Price(price)
    case Percent(pct) => Price(PercentPrice(side, lastPrice, pct))
  }

  /** What `ts` with two arguments sends: one request, or nothing when it is refused. */
  function AskTrailing(app: App, n: Numbers, args: seq<string>, side: Option<Side>): seq<Effect>
    requires |args| >= 2
  {
    var trigger, callback := ParseValue(n, args[0]), ParseValue(n, args[1]);
    if trigger.None? || callback.None? || app.lastPrice.None? || SideFor(app, side).None? then []
    else
      var positionSide := SideFor(app, side).value;
      match TrailingTrigger(app, positionSide, trigger.value, app.lastPrice.value)
      case Unknown => []
      case DividesByZero => [Aborted]
      case Price(price) =>
        match callback.value
        case Percent(pct) => [AskedTrailingStop(app.symbol, positionSide, Share(pct), price)]
        case Absolute(distance) => [AskedTrailingStop(app.symbol, positionSide, Fixed(distance), price)]
        case Ratio(_, _) => []
  }

  /** What `as` with at least one argument sends. */
  function AskActivity(app: App, n: Numbers, args: seq<string>, side: Option<Side>): seq<Effect>
    requires |args| >= 1
  {
    if n.unsigned(args[0]).None? || SideFor(app, side).None? then []
    else
      var seconds, positionSide := n.unsigned(args[0]).value, SideFor(app, side).value;
      if |args| == 1 then [AskedActivityStop(app.symbol, positionSide, seconds, None)]
      else
        match ParseValue(n, args[1])
        case None => []
        case Some(Percent(_)) => []
        case Some(Absolute(price)) => [AskedActivityStop(app.symbol, positionSide, seconds, Some(price))]
        case Some(Ratio(a, b)) =>
          match RatioTrigger(app, positionSide, Ratio(a, b))
          case Unknown => []
          case DividesByZero => [Aborted]
          case Price(price) => [AskedActivityStop(app.symbol, positionSide, seconds, Some(price))]
  }

  // ---------- Commands typed ----------

  function RunSingle(app: App, n: Numbers, command: string): App {
    var words := Words(command);
    if words == [] then app
    else
      match MatchCommand(words[0])
      case Some(TrailingStop) => if |words| >= 3 then Add(app, AskTrailing(app, n, words[1..], None)) else app
      case Some(ActivityStop) => if |words| >= 2 then Add(app, AskActivity(app, n, words[1..], None)) else app
      case Some(SetSymbol) =>
        var ran := Add(app, [RanCommand(command, app.symbol)]);
        if |words| >= 2 then ran.(symbol := UpperCase(words[1]), lastPrice := None) else ran
      case _ => Add(app, [RanCommand(command, app.symbol)])
  }

  function RunEach(app: App, n: Numbers, commands: seq<string>): App
    decreases |commands|
  {
    if commands == [] then app
    else RunSingle(RunEach(app, n, commands[..|commands| - 1]), n, Trim(commands[|commands| - 1]))
  }

  function Type(app: App, n: Numbers, command: string): App {
    if ';' in command then RunEach(app, n, SplitOn(command, ';'))
    else if '|' in command then
      var first := TrimAll(SplitOn(command, '|'))[0];
      RunSingle(app.(pending := Some(PendingAction(app.symbol, SideOf(first), Waiting(command)))), n, first)
    else RunSingle(app, n, command)
  }

  // ---------- Messages received ----------

  /** Runs the first waiting action and keeps the rest waiting. The pending action has been
      taken already; an empty first action loses the rest. */
  function Continue(app: App, n: Numbers, p: PendingAction): App {
    if p.actions == [] || Words(p.actions[0]) == [] then app
    else
      var action := p.actions[0];
      var words := Words(action);
      var a := app.(pending := if |p.actions| > 1 then Some(p.(actions := p.actions[1..])) else app.pending);
      match MatchCommand(words[0])
      case Some(TrailingStop) => if |words| >= 3 then Add(a, AskTrailing(a, n, words[1..], Some(p.side))) else a
      case Some(ActivityStop) => if |words| >= 2 then Add(a, AskActivity(a, n, words[1..], Some(p.side))) else a
      case _ => RunSingle(a, n, action)
  }

  /** What one action records for a limit order; None stops the rest with an error. */
  function Record(n: Numbers, orderId: string, symbol: string, side: Side, action: string): Option<seq<Effect>> {
    var words := Words(action);
    if words == [] then Some([])
    else
      match MatchCommand(words[0])
      case Some(TrailingStop) =>
        if |words| < 3 then Some([])
        else if n.decimal(words[1]).None? || n.decimal(words[2]).None? then None
        else Some([RecordedTrailing(orderId, symbol, side, n.decimal(words[1]).value, n.decimal(words[2]).value)])
      case Some(ActivityStop) =>
        if |words| < 2 then Some([])
        else if n.unsigned(words[1]).None? then None
        else if |words| == 2 then Some([RecordedActivity(orderId, symbol, side, n.unsigned(words[1]).value, None)])
        else if n.decimal(words[2]).None? then None
        else Some([RecordedActivity(orderId, symbol, side, n.unsigned(words[1]).value, n.decimal(words[2]))])
      case _ => Some([])
  }

  function RecordAll(
    app: App, n: Numbers, orderId: string, symbol: string, side: Side, actions: seq<string>): App
    decreases |actions|
  {
    if actions == [] then app
    else
      match Record(n, orderId, symbol, side, actions[0])
      case None => app
      case Some(made) => RecordAll(Add(app, made), n, orderId, symbol, side, actions[1..])
  }

  lemma {:induction false} RecordTurn(
    app: App, n: Numbers, orderId: string, symbol: string, side: Side, actions: seq<string>, i: nat)
    requires i < |actions|
    ensures RecordAll(app, n, orderId, symbol, side, actions[i..]) ==
            match Record(n, orderId, symbol, side, actions[i])
            case None => app
            case Some(made) => RecordAll(Add(app, made), n, orderId, symbol, side, actions[i + 1..])
  {
    assert actions[i..][1..] == actions[i + 1..];
  }

  function Take(app: App): App { app.(pending := None) }

  function ContinueFor(app: App, n: Numbers, symbol: string): App {
    if app.pending.None? then app
    else if app.pending.value.symbol != symbol then Take(app)
    else Continue(Take(app), n, app.pending.value)
  }

  function Receive(app: App, n: Numbers, m: Message): App {
    match m
    case OrderPlaced(orderId, orderType, symbol, side) =>
      if orderType != Limit || app.pending.None? then app
      else if app.pending.value.symbol != app.symbol then Take(app)
      else RecordAll(Take(app), n, orderId, symbol, side, app.pending.value.actions)
    case PositionsAre(positions) =>
      var had, has := Held(app.positions, app.symbol, None).Some?, Held(positions, app.symbol, None).Some?;
      var a := app.(positions := positions);
      if !had && has then ContinueFor(a, n, a.symbol)
      else if had && !has && a.stopShown then Add(a, [CancelledStop(a.symbol)]).(stopShown := false)
      else a
    case TrailingStopSet(symbol) => ContinueFor(app, n, symbol)
    case ActivityStopActivated(symbol) => ContinueFor(app.(stopShown := true), n, symbol)
    case ActivityStopStatus(active) => app.(stopShown := active)
    case ActivityStopTriggered => app.(stopShown := false)
    case PriceIs(price) => app.(lastPrice := Some(price))
    case Other => app
  }

  // ---------- The client object ----------

  class Client {
    const numbers: Numbers
    var symbol: string
    var pending: Option<PendingAction>
    var positions: seq<Position>
    var lastPrice: Option<real>
    var stopShown: bool
    var effects: seq<Effect>

    function View(): App
      reads this
    {
      App(symbol, pending, positions, lastPrice, stopShown, effects)
    }

    constructor (numbers: Numbers)
      ensures this.numbers == numbers && View() == START
    {
      this.numbers := numbers;
      symbol, pending, positions, lastPrice, stopShown, effects := "BTCUSDT", None, [], None, false, [];
    }

    method Send(effect: Effect)
      modifies this`effects
      ensures effects == old(effects) + [effect]
    {
      effects := effects + [effect];
    }

    method Find(positions: seq<Position>, symbol: string, side: Option<Side>) returns (found: Option<Position>)
      ensures found == Held(positions, symbol, side)
    {
      var i := 0;
      while i < |positions| && !OnSymbol(positions[i], symbol, side)
        invariant 0 <= i <= |positions|
        invariant Held(positions, symbol, side) == Held(positions[i..], symbol, side)
      {
        i := i + 1;
      }
      found := if i < |positions| then Some(positions[i]) else None;
    }

    method FindSide(side: Option<Side>) returns (found: Option<Side>)
      ensures found == SideFor(View(), side)
    {
      found := side;
      if side.None? {
        var p := Find(positions, symbol, None);
        if p.Some? {
          found := Some(p.value.side);
        }
      }
    }

    /** The ratio's price, from the distance between the position's entry and its stop. */
    method FindRatioTrigger(side: Side, numerator: nat, denominator: nat) returns (trigger: Trigger)
      ensures trigger == RatioTrigger(View(), side, Ratio(numerator, denominator))
    {
      var p := Find(positions, symbol, Some(side));
      if p.None? || p.value.stopLoss.None? { return Unknown; }
      if numerator == 0 { return DividesByZero; }
      var distance := Abs(p.value.entry - p.value.stopLoss.value) * (denominator as real / numerator as real);
      return Price(if side == Buy then p.value.entry + distance else p.value.entry - distance);
    }

    method FindTrailingTrigger(side: Side, value: Value, price: real) returns (trigger: Trigger)
      ensures trigger == TrailingTrigger(View(), side, value, price)
    {
      match value
      case Percent(pct) =>
        match side {
          case Buy => trigger := Price(price * (1.0 + pct / 100.0));
          case Sell => trigger := Price(price * (1.0 - pct / 100.0));
        }
      case Absolute(fixed) =>
        trigger := Price(fixed);
      case Ratio(a, b) =>
        trigger := FindRatioTrigger(side, a, b);
    }

    method SetTrailingStop(args: seq<string>, side: Option<Side>)
      requires |args| >= 2
      modifies this`effects
      ensures View() == Add(old(View()), AskTrailing(old(View()), numbers, args, side))
    {
      var value := ParseValue(numbers, args[0]);
      if value.None? { return; }
      var callback := ParseValue(numbers, args[1]);
      if callback.None? || lastPrice.None? { return; }
      var positionSide := FindSide(side);
      if positionSide.None? { return; }
      var trigger := FindTrailingTrigger(positionSide.value, value.value, lastPrice.value);
      if trigger.DividesByZero? {
        Send(Aborted);
      } else if trigger.Price? {
        match callback.value
        case Percent(pct) => Send(AskedTrailingStop(symbol, positionSide.value, Share(pct), trigger.price));
        case Absolute(distance) => Send(AskedTrailingStop(symbol, positionSide.value, Fixed(distance), trigger.price));
        case Ratio(_, _) =>
      }
    }

    method SetActivityStop(args: seq<string>, side: Option<Side>)
      requires |args| >= 1
      modifies this`effects
      ensures View() == Add(old(View()), AskActivity(old(View()), numbers, args, side))
    {
      var seconds := numbers.unsigned(args[0]);
      if seconds.None? { return; }
      var positionSide := FindSide(side);
      if positionSide.None? { return; }
      var triggerPrice: Option<real> := None;
      if |args| >= 2 {
        var value := ParseValue(numbers, args[1]);
        match value
        case None => return;
        case Some(Percent(_)) => return;
        case Some(Absolute(price)) => triggerPrice := Some(price);
        case Some(Ratio(a, b)) =>
          var trigger := FindRatioTrigger(positionSide.value, a, b);
          if trigger.Unknown? { return; }
          if trigger.DividesByZero? {
            Send(Aborted);
            return;
          }
          triggerPrice := Some(trigger.price);
      }
      Send(AskedActivityStop(symbol, positionSide.value, seconds.value, triggerPrice));
    }

    method ExecuteSingleCommand(command: string)
      modifies this
      ensures View() == RunSingle(old(View()), numbers, command)
    {
      var words := Words(command);
      if words == [] { return; }
      match MatchCommand(words[0])
      case Some(TrailingStop) =>
        if |words| >= 3 {
          SetTrailingStop(words[1..], None);
        }
      case Some(ActivityStop) =>
        if |words| >= 2 {
          SetActivityStop(words[1..], None);
        }
      case Some(SetSymbol) =>
        Send(RanCommand(command, symbol));
        if |words| >= 2 {
          symbol := UpperCase(words[1]);
          lastPrice := None;
        }
      case _ =>
        Send(RanCommand(command, symbol));
    }

    method ExecuteCommand(command: string)
      modifies this
      ensures View() == Type(old(View()), numbers, command)
    {
      if ';' in command {
        var parts := SplitOn(command, ';');
        var i := 0;
        while i < |parts|
          invariant 0 <= i <= |parts|
          invariant View() == RunEach(old(View()), numbers, parts[..i])
        {
          assert parts[..i + 1][..i] == parts[..i];
          var sub := Trim(parts[i]);
          if sub != "" {
            ExecuteSingleCommand(sub);
          }
          i := i + 1;
        }
        assert parts[..i] == parts;
        return;
      }
      if '|' in command {
        var parts := TrimAll(SplitOn(command, '|'));
        pending := Some(PendingAction(symbol, SideOf(parts[0]), parts[1..]));
        ExecuteSingleCommand(parts[0]);
        return;
      }
      ExecuteSingleCommand(command);
    }

    method ExecutePendingAction(p: PendingAction)
      modifies this
      ensures View() == Continue(old(View()), numbers, p)
    {
      if p.actions == [] { return; }
      var action := p.actions[0];
      var words := Words(action);
      if words == [] { return; }
      if |p.actions| > 1 {
        pending := Some(PendingAction(p.symbol, p.side, p.actions[1..]));
      }
      match MatchCommand(words[0])
      case Some(TrailingStop) =>
        if |words| >= 3 {
          SetTrailingStop(words[1..], Some(p.side));
        }
      case Some(ActivityStop) =>
        if |words| >= 2 {
          SetActivityStop(words[1..], Some(p.side));
        }
      case _ =>
        ExecuteSingleCommand(action);
    }

    method CreatePendingAutostops(orderId: string, sym: string, side: Side, actions: seq<string>)
      modifies this`effects
      ensures View() == RecordAll(old(View()), numbers, orderId, sym, side, actions)
    {
      var i := 0;
      assert actions[0..] == actions;
      while i < |actions|
        invariant 0 <= i <= |actions|
        invariant RecordAll(old(View()), numbers, orderId, sym, side, actions)
                  == RecordAll(View(), numbers, orderId, sym, side, actions[i..])
      {
        RecordTurn(View(), numbers, orderId, sym, side, actions, i);
        var words := Words(actions[i]);
        if words != [] {
          match MatchCommand(words[0])
          case Some(TrailingStop) =>
            if |words| >= 3 {
              var trigger, distance := numbers.decimal(words[1]), numbers.decimal(words[2]);
              if trigger.None? || distance.None? { return; }
              Send(RecordedTrailing(orderId, sym, side, trigger.value, distance.value));
            }
          case Some(ActivityStop) =>
            if |words| >= 2 {
              var seconds := numbers.unsigned(words[1]);
              if seconds.None? { return; }
              var triggerPrice: Option<real> := None;
              if |words| >= 3 {
                triggerPrice := numbers.decimal(words[2]);
                if triggerPrice.None? { return; }
              }
              Send(RecordedActivity(orderId, sym, side, seconds.value, triggerPrice));
            }
          case _ =>
        }
        i := i + 1;
      }
    }

    method TakeAndContinue(sym: string)
      modifies this
      ensures View() == ContinueFor(old(View()), numbers, sym)
    {
      if pending.Some? {
        var p := pending.value;
        pending := None;
        if p.symbol == sym {
          ExecutePendingAction(p);
        }
      }
    }

    method ProcessMessage(m: Message)
      modifies this
      ensures View() == Receive(old(View()), numbers, m)
    {
      match m
      case OrderPlaced(orderId, orderType, sym, side) =>
        if orderType == Limit && pending.Some? {
          var p := pending.value;
          pending := None;
          if p.symbol == symbol {
            CreatePendingAutostops(orderId, sym, side, p.actions);
          }
        }
      case PositionsAre(now) =>
        var had := Find(positions, symbol, None);
        var has := Find(now, symbol, None);
        positions := now;
        if had.None? && has.Some? {
          TakeAndContinue(symbol);
        } else if had.Some? && has.None? && stopShown {
          Send(CancelledStop(symbol));
          stopShown := false;
        }
      case TrailingStopSet(sym) =>
        TakeAndContinue(sym);
      case ActivityStopActivated(sym) =>
        stopShown := true;
        TakeAndContinue(sym);
      case ActivityStopStatus(active) =>
        stopShown := active;
      case ActivityStopTriggered =>
        stopShown := false;
      case PriceIs(price) =>
        lastPrice := Some(price);
      case Other =>
    }
  }
}

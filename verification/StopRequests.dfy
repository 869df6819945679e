/** What stops typed behind a pipe record for a limit order, and what they ask for when a
    message continues them. */
module StopRequests {
  import opened Types
  import opened Risk
  import opened CommandText
  import opened ActionPipeline
  import opened PipelineRuns

  /** A stop typed as two or three words records exactly its numbers for the limit order, for
      a trailing stop first the activation price and then the distance; it fails, and the
      actions after it are lost, exactly when one of the numbers does not parse as such. */
  lemma {:induction false} TypedStopIsRecorded(
    n: Numbers, orderId: string, symbol: string, side: Side, a: string, b: string)
    requires IsWord(a) && IsWord(b)
    ensures Record(n, orderId, symbol, side, "ts" + " " + (a + " " + b)) ==
            if n.decimal(a).None? || n.decimal(b).None? then None
            else Some([RecordedTrailing(orderId, symbol, side, n.decimal(a).value, n.decimal(b).value)])
    ensures Record(n, orderId, symbol, side, "as" + " " + (a + " " + b)) ==
            if n.unsigned(a).None? || n.decimal(b).None? then None
            else Some([RecordedActivity(orderId, symbol, side, n.unsigned(a).value, n.decimal(b))])
    ensures Record(n, orderId, symbol, side, "as" + " " + a) ==
            if n.unsigned(a).None? then None
            else Some([RecordedActivity(orderId, symbol, side, n.unsigned(a).value, None)])
    ensures Record(n, orderId, symbol, side, "ts" + " " + a) == Some([])
  {
    WordsOfThree("ts", a, b);
    WordsOfThree("as", a, b);
    WordsOfTwo("as", a);
    WordsOfTwo("ts", a);
    NamesOfStops();
    RecordOfWords(n, orderId, symbol, side, "ts" + " " + (a + " " + b), ["ts", a, b]);
    RecordOfWords(n, orderId, symbol, side, "as" + " " + (a + " " + b), ["as", a, b]);
    RecordOfWords(n, orderId, symbol, side, "as" + " " + a, ["as", a]);
    RecordOfWords(n, orderId, symbol, side, "ts" + " " + a, ["ts", a]);
  }

  lemma {:induction false} RecordOfWords(
    n: Numbers, orderId: string, symbol: string, side: Side, action: string, words: seq<string>)
    requires Words(action) == words && 2 <= |words| <= 3
    ensures MatchCommand(words[0]) == Some(TrailingStop) ==>
              Record(n, orderId, symbol, side, action) ==
              if |words| == 2 then Some([])
              else if n.decimal(words[1]).None? || n.decimal(words[2]).None? then None
              else Some([RecordedTrailing(orderId, symbol, side, n.decimal(words[1]).value, n.decimal(words[2]).value)])
    ensures MatchCommand(words[0]) == Some(ActivityStop) ==>
              Record(n, orderId, symbol, side, action) ==
              if n.unsigned(words[1]).None? || (|words| == 3 && n.decimal(words[2]).None?) then None
              else Some([RecordedActivity(orderId, symbol, side, n.unsigned(words[1]).value,
                                          if |words| == 3 then n.decimal(words[2]) else None)])
  {
  }

  /** The documented stop with two percentages, continued by a message, asks for a trailing
      stop that counts from the last price. */
  lemma {:induction false} PercentStopIsAsked(n: Numbers, app: App, m: Message, side: Side, a: string, b: string)
    requires IsWord(a) && IsWord(b) && a[|a| - 1] != '%' && b[|b| - 1] != '%'
    requires n.decimal(a).Some? && n.decimal(b).Some? && app.lastPrice.Some? && !m.OrderPlaced?
    ensures Made(n, app, m, side, "ts" + " " + (a + "%" + " " + (b + "%"))) ==
            [AskedTrailingStop(app.symbol, side, Share(n.decimal(b).value),
                               PercentPrice(side, app.lastPrice.value, n.decimal(a).value))]
  {
    var x, y := a + "%", b + "%";
    PercentParses(n, a);
    PercentParses(n, b);
    WordsOfThree("ts", x, y);
    NamesOfStops();
    MadeOfTrailing(n, app, m, side, "ts" + " " + (x + " " + y), ["ts", x, y]);
    assert ["ts", x, y][1..] == [x, y];
    AskOfPercents(Seen(app, m), n, [x, y], side, n.decimal(a).value, n.decimal(b).value);
  }

  lemma {:induction false} AskOfPercents(
    app: App, n: Numbers, args: seq<string>, side: Side, pct: real, callback: real)
    requires |args| >= 2 && app.lastPrice.Some?
    requires ParseValue(n, args[0]) == Some(Percent(pct)) && ParseValue(n, args[1]) == Some(Percent(callback))
    ensures AskTrailing(app, n, args, Some(side)) ==
            [AskedTrailingStop(app.symbol, side, Share(callback), PercentPrice(side, app.lastPrice.value, pct))]
  {
    assert SideFor(app, Some(side)) == Some(side);
  }

  lemma {:induction false} MadeOfTrailing(
    n: Numbers, app: App, m: Message, side: Side, action: string, words: seq<string>)
    requires Words(action) == words && |words| >= 3 && MatchCommand(words[0]) == Some(TrailingStop) && !m.OrderPlaced?
    ensures Made(n, app, m, side, action) == AskTrailing(Seen(app, m), n, words[1..], Some(side))
  {
  }

  /** The activation price is that share of the last price away from it: above for a long,
      below for a short when the percentage is positive. */
  lemma {:induction false} PercentPriceMeans(side: Side, lastPrice: real, pct: real)
    ensures (PercentPrice(side, lastPrice, pct) - lastPrice) * 100.0 ==
            (if side == Buy then 1.0 else -1.0) * (lastPrice * pct)
  {
    var share := pct / 100.0;
    assert lastPrice * (1.0 + share) == lastPrice + lastPrice * share;
    assert lastPrice * (1.0 - share) == lastPrice - lastPrice * share;
    assert lastPrice * share * 100.0 == lastPrice * pct;
  }

  /** The client dies asking for a trailing stop exactly when the trigger is a ratio with a
      zero first number, the other argument is a value, a price is known, and the position
      it is for has a stop loss. */
  lemma {:induction false} TrailingAbortsIff(app: App, n: Numbers, args: seq<string>, side: Option<Side>)
    requires |args| >= 2
    ensures Aborted in AskTrailing(app, n, args, side) <==>
            && ParseValue(n, args[0]).Some? && ParseValue(n, args[0]).value.Ratio?
            && ParseValue(n, args[0]).value.numerator == 0 && ParseValue(n, args[1]).Some?
            && app.lastPrice.Some? && SideFor(app, side).Some?
            && Held(app.positions, app.symbol, SideFor(app, side)).Some?
            && Held(app.positions, app.symbol, SideFor(app, side)).value.stopLoss.Some?
  {
  }

  lemma {:induction false} ActivityAbortsIff(app: App, n: Numbers, args: seq<string>, side: Option<Side>)
    requires |args| >= 1
    ensures Aborted in AskActivity(app, n, args, side) <==>
            && |args| >= 2 && n.unsigned(args[0]).Some?
            && ParseValue(n, args[1]).Some? && ParseValue(n, args[1]).value.Ratio?
            && ParseValue(n, args[1]).value.numerator == 0 && SideFor(app, side).Some?
            && Held(app.positions, app.symbol, SideFor(app, side)).Some?
            && Held(app.positions, app.symbol, SideFor(app, side)).value.stopLoss.Some?
  {
  }

  /** A ratio n/d asks for a trigger d/n stop distances beyond the entry of the first
      position on the shown symbol and that side. */
  lemma {:induction false} RatioRequestMeans(
    app: App, n: Numbers, args: seq<string>, side: Option<Side>, a: nat, b: nat)
    requires |args| >= 2 && ParseValue(n, args[1]) == Some(Ratio(a, b))
    requires AskActivity(app, n, args, side) != [] && a > 0
    ensures var e := AskActivity(app, n, args, side)[0]; var p := Held(app.positions, app.symbol, SideFor(app, side));
            && e.AskedActivityStop? && e.symbol == app.symbol && Some(e.side) == SideFor(app, side) && e.trigger.Some?
            && p.Some? && p.value.stopLoss.Some?
            && (e.trigger.value - p.value.entry) * a as real
               == (if e.side == Buy then 1.0 else -1.0) * Abs(p.value.entry - p.value.stopLoss.value) * b as real
  {
    var positionSide := SideFor(app, side).value;
    var p := Held(app.positions, app.symbol, Some(positionSide)).value;
    var ratio := b as real / a as real;
    QuotientTimes(b as real, a as real);
    var distance := Abs(p.entry - p.stopLoss.value);
    assert distance * ratio * a as real == distance * (ratio * a as real);
  }

  /** A stop continued with a given side is for it; one typed by itself is for the side of
      the first position on the shown symbol. */
  lemma {:induction false} SideForIs(app: App, side: Side)
    ensures SideFor(app, Some(side)) == Some(side)
    ensures SideFor(app, None).None? <==> forall p | p in app.positions :: p.symbol != app.symbol
    ensures SideFor(app, None).Some? ==>
              exists i :: && 0 <= i < |app.positions| && SideFor(app, None) == Some(app.positions[i].side)
                          && app.positions[i].symbol == app.symbol
                          && forall k | 0 <= k < i :: app.positions[k].symbol != app.symbol
  {
    HeldMeans(app.positions, app.symbol, None);
  }

  /** A fixed price asks for exactly that activation price, with the callback as a distance or
      a percentage; still a price must be known. */
  lemma {:induction false} FixedTrailingIsAsked(
    app: App, n: Numbers, args: seq<string>, side: Option<Side>, price: real)
    requires |args| >= 2 && ParseValue(n, args[0]) == Some(Absolute(price))
    requires app.lastPrice.Some? && SideFor(app, side).Some?
    ensures var asked := AskTrailing(app, n, args, side); var s := SideFor(app, side).value;
            match ParseValue(n, args[1])
            case None => asked == []
            case Some(Ratio(_, _)) => asked == []
            case Some(Absolute(distance)) => asked == [AskedTrailingStop(app.symbol, s, Fixed(distance), price)]
            case Some(Percent(pct)) => asked == [AskedTrailingStop(app.symbol, s, Share(pct), price)]
  {
  }

  /** Exactly when nothing is asked: an argument that is no value, no price known, no side, a
      ratio without a position or its stop loss, or, where that does not abort, a ratio as
      the callback. */
  lemma {:induction false} TrailingRefusedIff(app: App, n: Numbers, args: seq<string>, side: Option<Side>)
    requires |args| >= 2
    ensures var trigger, callback, s := ParseValue(n, args[0]), ParseValue(n, args[1]), SideFor(app, side);
            AskTrailing(app, n, args, side) == [] <==>
            || trigger.None? || callback.None? || app.lastPrice.None? || s.None?
            || (trigger.value.Ratio? && (|| Held(app.positions, app.symbol, s).None?
                                         || Held(app.positions, app.symbol, s).value.stopLoss.None?))
            || (callback.value.Ratio? && !(trigger.value.Ratio? && trigger.value.numerator == 0))
  {
  }

  /** What `as` asks for, with a fixed trigger or none, and exactly when it asks. */
  lemma {:induction false} FixedActivityIsAsked(app: App, n: Numbers, args: seq<string>, side: Option<Side>)
    requires |args| >= 1
    ensures n.unsigned(args[0]).None? || SideFor(app, side).None? ==> AskActivity(app, n, args, side) == []
    ensures n.unsigned(args[0]).Some? && SideFor(app, side).Some? ==>
              var seconds, s := n.unsigned(args[0]).value, SideFor(app, side).value;
              && (|args| == 1 ==>
                    AskActivity(app, n, args, side) == [AskedActivityStop(app.symbol, s, seconds, None)])
              && (|args| >= 2 ==>
                    match ParseValue(n, args[1])
                    case None => AskActivity(app, n, args, side) == []
                    case Some(Percent(_)) => AskActivity(app, n, args, side) == []
                    case Some(Absolute(price)) =>
                      AskActivity(app, n, args, side) == [AskedActivityStop(app.symbol, s, seconds, Some(price))]
                    case Some(Ratio(_, _)) =>
                      AskActivity(app, n, args, side) == [] <==>
                      || Held(app.positions, app.symbol, Some(s)).None?
                      || Held(app.positions, app.symbol, Some(s)).value.stopLoss.None?)
  {
  }

  /** A trailing stop typed as two prices asks, when a message continues the pipe, for
      activation at the first and the second as the distance. */
  lemma {:induction false} TypedPricesAreAsked(n: Numbers, app: App, m: Message, side: Side, a: string, b: string)
    requires IsPrice(n, a) && IsPrice(n, b) && app.lastPrice.Some? && !m.OrderPlaced?
    ensures Made(n, app, m, side, "ts" + " " + (a + " " + b)) ==
            [AskedTrailingStop(app.symbol, side, Fixed(n.decimal(b).value), n.decimal(a).value)]
  {
    PriceParses(n, a);
    PriceParses(n, b);
    WordsOfThree("ts", a, b);
    NamesOfStops();
    MadeOfTrailing(n, app, m, side, "ts" + " " + (a + " " + b), ["ts", a, b]);
    assert ["ts", a, b][1..] == [a, b];
    FixedTrailingIsAsked(Seen(app, m), n, [a, b], Some(side), n.decimal(a).value);
  }

  predicate IsPrice(n: Numbers, a: string) {
    IsWord(a) && a[|a| - 1] != '%' && '/' !in a && n.decimal(a).Some?
  }

  /** An activity stop typed as seconds and a price asks for exactly these. */
  lemma {:induction false} TypedSecondsAreAsked(n: Numbers, app: App, m: Message, side: Side, a: string, b: string)
    requires IsWord(a) && n.unsigned(a).Some? && IsPrice(n, b) && !m.OrderPlaced?
    ensures Made(n, app, m, side, "as" + " " + (a + " " + b)) ==
            [AskedActivityStop(app.symbol, side, n.unsigned(a).value, Some(n.decimal(b).value))]
    ensures Made(n, app, m, side, "as" + " " + a) ==
            [AskedActivityStop(app.symbol, side, n.unsigned(a).value, None)]
  {
    PriceParses(n, b);
    WordsOfThree("as", a, b);
    WordsOfTwo("as", a);
    NamesOfStops();
    MadeOfActivity(n, app, m, side, "as" + " " + (a + " " + b), ["as", a, b]);
    MadeOfActivity(n, app, m, side, "as" + " " + a, ["as", a]);
    assert ["as", a, b][1..] == [a, b] && ["as", a][1..] == [a];
    FixedActivityIsAsked(Seen(app, m), n, [a, b], Some(side));
    FixedActivityIsAsked(Seen(app, m), n, [a], Some(side));
  }

  lemma {:induction false} MadeOfActivity(
    n: Numbers, app: App, m: Message, side: Side, action: string, words: seq<string>)
    requires Words(action) == words && |words| >= 2 && MatchCommand(words[0]) == Some(ActivityStop) && !m.OrderPlaced?
    ensures Made(n, app, m, side, action) == AskActivity(Seen(app, m), n, words[1..], Some(side))
  {
  }

  /** An action that is no stop runs once, when a message continues the pipe. */
  lemma {:induction false} OtherActionsRun(n: Numbers, app: App, m: Message, side: Side, action: string)
    requires Words(action) != [] && !m.OrderPlaced?
    requires MatchCommand(Words(action)[0]) !in {Some(TrailingStop), Some(ActivityStop)}
    ensures Made(n, app, m, side, action) == [RanCommand(action, app.symbol)]
  {
  }
}

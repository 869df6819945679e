/** The exact reply to every cached request (server/src/client_handler.rs): the last answer
    fetched for it while that is usable, and otherwise what the exchange says now. */
module CacheLaws {
  import opened Types
  import opened CacheHistory
  import opened HandlerCache

  // ---------- What a request means to each cache ----------

  /** Orders and closes make the positions invalid; a failed account-info fetch counts as an
      answer without positions. */
  function PositionsTouch(r: Request): Touch<seq<Position>> {
    match r
    case GetPositions(found) => Ask("", found)
    case GetAccountInfo(found) => Ask("", Some(if found.None? then [] else found.value))
    case PlaceOrder(accepted) => if accepted then Clear else Pass
    case ClosePosition(accepted) => if accepted then Clear else Pass
    case _ => Pass
  }

  /** Orders, closes and cancels make the orders invalid; only the request for all of them is
      cached. */
  function OrdersTouch(r: Request): Touch<seq<OpenOrder>> {
    match r
    case GetOrders(only, open) => if only.None? then Ask("", open) else Pass
    case PlaceOrder(accepted) => if accepted then Clear else Pass
    case ClosePosition(accepted) => if accepted then Clear else Pass
    case CancelOrder(accepted) => if accepted then Clear else Pass
    case CancelAllOrders(accepted) => if accepted then Clear else Pass
    case _ => Pass
  }

  /** The ticker is asked for by symbol, and no write makes it invalid. */
  function TickerTouch(r: Request): Touch<Ticker> {
    match r
    case GetTicker(symbol, quote) =>
      Ask(symbol, match quote case None => None case Some(q) => Some(Ticker(symbol, q)))
    case _ => Pass
  }

  function PositionsHistory(run: Run): (h: seq<TimedTouch<seq<Position>>>)
    ensures |h| == |run.requests|
    ensures forall i | 0 <= i < |h| :: h[i] == TimedTouch(run.requests[i].now, PositionsTouch(run.requests[i].request))
  {
    seq(|run.requests|, i requires 0 <= i < |run.requests| =>
      TimedTouch(run.requests[i].now, PositionsTouch(run.requests[i].request)))
  }

  function OrdersHistory(run: Run): (h: seq<TimedTouch<seq<OpenOrder>>>)
    ensures |h| == |run.requests|
    ensures forall i | 0 <= i < |h| :: h[i] == TimedTouch(run.requests[i].now, OrdersTouch(run.requests[i].request))
  {
    seq(|run.requests|, i requires 0 <= i < |run.requests| =>
      TimedTouch(run.requests[i].now, OrdersTouch(run.requests[i].request)))
  }

  function TickerHistory(run: Run): (h: seq<TimedTouch<Ticker>>)
    ensures |h| == |run.requests|
    ensures forall i | 0 <= i < |h| :: h[i] == TimedTouch(run.requests[i].now, TickerTouch(run.requests[i].request))
  {
    seq(|run.requests|, i requires 0 <= i < |run.requests| =>
      TimedTouch(run.requests[i].now, TickerTouch(run.requests[i].request)))
  }

  // ---------- The caches of a run ----------

  function Unkeyed<T>(e: Option<Entry<T>>): Option<Cached<T>> {
    match e case None => None case Some(entry) => Some(entry.cached)
  }

  lemma {:induction false} PositionsCacheIs(run: Run, i: nat)
    requires IsRun(run) && i <= |run.requests|
    ensures run.states[i].positions == Unkeyed(Before(PositionsHistory(run), i))
    ensures Before(PositionsHistory(run), i).Some? ==> Before(PositionsHistory(run), i).value.key == ""
  {
    if i > 0 {
      var k := i - 1;
      PositionsCacheIs(run, k);
      var h, r := PositionsHistory(run), run.requests[k];
      assert h[k] == TimedTouch(r.now, PositionsTouch(r.request));
      assert run.states[i] == Serve(run.states[k], r.now, r.request).caches;
    }
  }

  lemma {:induction false} OrdersCacheIs(run: Run, i: nat)
    requires IsRun(run) && i <= |run.requests|
    ensures run.states[i].orders == Unkeyed(Before(OrdersHistory(run), i))
    ensures Before(OrdersHistory(run), i).Some? ==> Before(OrdersHistory(run), i).value.key == ""
  {
    if i > 0 {
      var k := i - 1;
      OrdersCacheIs(run, k);
      var h, r := OrdersHistory(run), run.requests[k];
      assert h[k] == TimedTouch(r.now, OrdersTouch(r.request));
      assert run.states[i] == Serve(run.states[k], r.now, r.request).caches;
    }
  }

  lemma {:induction false} TickerCacheIs(run: Run, i: nat)
    requires IsRun(run) && i <= |run.requests|
    ensures run.states[i].ticker == Unkeyed(Before(TickerHistory(run), i))
    ensures var e := Before(TickerHistory(run), i); e.Some? ==> e.value.key == e.value.cached.data.symbol
  {
    if i > 0 {
      var k := i - 1;
      TickerCacheIs(run, k);
      var h, r := TickerHistory(run), run.requests[k];
      assert h[k] == TimedTouch(r.now, TickerTouch(r.request));
      assert run.states[i] == Serve(run.states[k], r.now, r.request).caches;
    }
  }

  // ---------- The replies ----------

  /** A positions request is answered with the last positions fetched while they are usable,
      whatever the exchange would say; otherwise with what it says now, and with a failure if
      and only if that fetch fails. */
  lemma {:induction false} PositionsReplyIs(run: Run, fetched: seq<bool>, i: nat)
    requires IsRun(run) && i < |run.requests| && run.requests[i].request.GetPositions?
    requires IsFetchLog(PositionsHistory(run), fetched)
    ensures forall j: nat | Usable(PositionsHistory(run), fetched, j, i) ::
              ReplyAt(run, i) == Positions(PositionsHistory(run)[j].touch.answer.value)
    ensures (!exists j :: Usable(PositionsHistory(run), fetched, j, i)) ==>
              ReplyAt(run, i) == match run.requests[i].request.found
                                 case None => Failed
                                 case Some(positions) => Positions(positions)
  {
    var h := PositionsHistory(run);
    assert h[i] == TimedTouch(run.requests[i].now, PositionsTouch(run.requests[i].request));
    AnsweredIff(h, fetched, i);
    PositionsCacheIs(run, i);
  }

  /** The same for account info, which never fails: without an answer it shows no positions. */
  lemma {:induction false} AccountReplyIs(run: Run, fetched: seq<bool>, i: nat)
    requires IsRun(run) && i < |run.requests| && run.requests[i].request.GetAccountInfo?
    requires IsFetchLog(PositionsHistory(run), fetched)
    ensures forall j: nat | Usable(PositionsHistory(run), fetched, j, i) ::
              ReplyAt(run, i) == Account(PositionsHistory(run)[j].touch.answer.value)
    ensures (!exists j :: Usable(PositionsHistory(run), fetched, j, i)) ==>
              ReplyAt(run, i) == Account(match run.requests[i].request.found
                                         case None => []
                                         case Some(positions) => positions)
  {
    var h := PositionsHistory(run);
    assert h[i] == TimedTouch(run.requests[i].now, PositionsTouch(run.requests[i].request));
    AnsweredIff(h, fetched, i);
    PositionsCacheIs(run, i);
  }

  /** The same for all orders; for the orders of one symbol always what the exchange says. */
  lemma {:induction false} OrdersReplyIs(run: Run, fetched: seq<bool>, i: nat)
    requires IsRun(run) && i < |run.requests| && run.requests[i].request.GetOrders?
    requires IsFetchLog(OrdersHistory(run), fetched)
    ensures forall j: nat | Usable(OrdersHistory(run), fetched, j, i) ::
              ReplyAt(run, i) == Orders(OrdersHistory(run)[j].touch.answer.value)
    ensures run.requests[i].request.only.Some? || (!exists j :: Usable(OrdersHistory(run), fetched, j, i)) ==>
              ReplyAt(run, i) == match run.requests[i].request.open
                                 case None => Failed
                                 case Some(orders) => Orders(orders)
  {
    var h := OrdersHistory(run);
    assert h[i] == TimedTouch(run.requests[i].now, OrdersTouch(run.requests[i].request));
    if run.requests[i].request.only.None? { AnsweredIff(h, fetched, i); }
    OrdersCacheIs(run, i);
  }

  /** The same for a ticker, where only a quote of the same symbol is usable. */
  lemma {:induction false} TickerReplyIs(run: Run, fetched: seq<bool>, i: nat)
    requires IsRun(run) && i < |run.requests| && run.requests[i].request.GetTicker?
    requires IsFetchLog(TickerHistory(run), fetched)
    ensures forall j: nat | Usable(TickerHistory(run), fetched, j, i) ::
              ReplyAt(run, i) == TickerUpdate(TickerHistory(run)[j].touch.answer.value)
    ensures (!exists j :: Usable(TickerHistory(run), fetched, j, i)) ==>
              ReplyAt(run, i) == match run.requests[i].request.quote
                                 case None => Failed
                                 case Some(quote) => TickerUpdate(Ticker(run.requests[i].request.symbol, quote))
  {
    var h := TickerHistory(run);
    assert h[i] == TimedTouch(run.requests[i].now, TickerTouch(run.requests[i].request));
    AnsweredIff(h, fetched, i);
    TickerCacheIs(run, i);
  }

  /** A write is acknowledged if and only if the exchange accepts it, and fails otherwise. */
  lemma {:induction false} WriteReplyIs(c: Caches, now: nat, r: Request)
    requires r.PlaceOrder? || r.CancelOrder? || r.CancelAllOrders? || r.ClosePosition?
    ensures Serve(c, now, r).reply == if r.accepted then Acknowledged else Failed
  {
  }
}

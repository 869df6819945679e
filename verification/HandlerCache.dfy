/** The three two-second caches of the request handler (server/src/client_handler.rs). The
    exchange's answer comes with each request; it is used only when a fetch is made. */
module HandlerCache {
  import opened Types
  import opened CacheHistory

  datatype OpenOrder = OpenOrder(id: string, symbol: string)

  datatype Quote = Quote(last: real, bid: real, ask: real)

  datatype Ticker = Ticker(symbol: string, quote: Quote)

  datatype Caches = Caches(
    positions: Option<Cached<seq<Position>>>,
    orders: Option<Cached<seq<OpenOrder>>>,
    ticker: Option<Cached<Ticker>>)

  datatype Request =
    | PlaceOrder(accepted: bool)
    | CancelOrder(accepted: bool)
    | CancelAllOrders(accepted: bool)
    | ClosePosition(accepted: bool)
    | GetPositions(found: Option<seq<Position>>)
    | GetOrders(only: Option<string>, open: Option<seq<OpenOrder>>)
    | GetAccountInfo(found: Option<seq<Position>>)
    | GetTicker(symbol: string, quote: Option<Quote>)

  datatype Reply =
    | Positions(positions: seq<Position>)
    | Orders(orders: seq<OpenOrder>)
    | Account(positions: seq<Position>)
    | TickerUpdate(ticker: Ticker)
    | Acknowledged
    | Failed

  datatype Served = Served(caches: Caches, reply: Reply)

  const EMPTY := Caches(None, None, None)

  predicate TickerHit(c: Option<Cached<Ticker>>, symbol: string, now: nat) {
    IsFresh(c, now) && c.value.data.symbol == symbol
  }

  function Serve(c: Caches, now: nat, r: Request): Served {
    match r
    case PlaceOrder(ok) => if ok then Served(c.(orders := None, positions := None), Acknowledged) else Served(c, Failed)
    case CancelOrder(ok) => if ok then Served(c.(orders := None), Acknowledged) else Served(c, Failed)
    case CancelAllOrders(ok) => if ok then Served(c.(orders := None), Acknowledged) else Served(c, Failed)
    case ClosePosition(ok) =>
      if ok then Served(c.(orders := None, positions := None), Acknowledged) else Served(c, Failed)
    case GetPositions(found) =>
      if IsFresh(c.positions, now) then Served(c, Positions(c.positions.value.data))
      else if found.None? then Served(c, Failed)
      else Served(c.(positions := Some(Cached(found.value, now))), Positions(found.value))
    case GetOrders(only, open) =>
      if only.None? && IsFresh(c.orders, now) then Served(c, Orders(c.orders.value.data))
      else if open.None? then Served(c, Failed)
      else Served(if only.None? then c.(orders := Some(Cached(open.value, now))) else c, Orders(open.value))
    case GetAccountInfo(found) =>
      if IsFresh(c.positions, now) then Served(c, Account(c.positions.value.data))
      else
        var data := if found.None? then [] else found.value;
        Served(c.(positions := Some(Cached(data, now))), Account(data))
    case GetTicker(symbol, quote) =>
      if TickerHit(c.ticker, symbol, now) then Served(c, TickerUpdate(c.ticker.value.data))
      else if quote.None? then Served(c, Failed)
      else
        var ticker := Ticker(symbol, quote.value);
        Served(c.(ticker := Some(Cached(ticker, now))), TickerUpdate(ticker))
  }

  class ClientHandler {
    var cachePositions: Option<Cached<seq<Position>>>
    var cacheOrders: Option<Cached<seq<OpenOrder>>>
    var cacheTicker: Option<Cached<Ticker>>

    function View(): Caches
      reads this
    {
      Caches(cachePositions, cacheOrders, cacheTicker)
    }

    constructor ()
      ensures View() == EMPTY
    {
      cachePositions, cacheOrders, cacheTicker := None, None, None;
    }

    method Handle(r: Request, now: nat) returns (reply: Reply)
      modifies this
      ensures Served(View(), reply) == Serve(old(View()), now, r)
    {
      reply := Failed;
      match r
      case PlaceOrder(ok) =>
        if ok {
          cacheOrders := None;
          cachePositions := None;
          reply := Acknowledged;
        }
      case CancelOrder(ok) =>
        if ok {
          cacheOrders := None;
          reply := Acknowledged;
        }
      case CancelAllOrders(ok) =>
        if ok {
          cacheOrders := None;
          reply := Acknowledged;
        }
      case ClosePosition(ok) =>
        if ok {
          cachePositions := None;
          cacheOrders := None;
          reply := Acknowledged;
        }
      case GetPositions(found) =>
        if IsFresh(cachePositions, now) {
          reply := Positions(cachePositions.value.data);
        } else if found.Some? {
          cachePositions := Some(Cached(found.value, now));
          reply := Positions(found.value);
        }
      case GetOrders(only, open) =>
        if only.None? && IsFresh(cacheOrders, now) {
          reply := Orders(cacheOrders.value.data);
        } else if open.Some? {
          if only.None? {
            cacheOrders := Some(Cached(open.value, now));
          }
          reply := Orders(open.value);
        }
      case GetAccountInfo(found) =>
        var positions: seq<Position> := [];
        if IsFresh(cachePositions, now) {
          positions := cachePositions.value.data;
        } else {
          if found.Some? {
            positions := found.value;
          }
          cachePositions := Some(Cached(positions, now));
        }
        reply := Account(positions);
      case GetTicker(symbol, quote) =>
        if TickerHit(cacheTicker, symbol, now) {
          reply := TickerUpdate(cacheTicker.value.data);
        } else if quote.Some? {
          var ticker := Ticker(symbol, quote.value);
          cacheTicker := Some(Cached(ticker, now));
          reply := TickerUpdate(ticker);
        }
    }
  }

  // ---------- Runs ----------

  datatype Timed = Timed(now: nat, request: Request)

  datatype Run = Run(states: seq<Caches>, requests: seq<Timed>)

  ghost predicate IsRun(run: Run) {
    && |run.states| == |run.requests| + 1
    && run.states[0] == EMPTY
    && (forall i | 0 <= i < |run.requests| ::
          run.states[i + 1] == Serve(run.states[i], run.requests[i].now, run.requests[i].request).caches)
    && (forall i, j | 0 <= i <= j < |run.requests| :: run.requests[i].now <= run.requests[j].now)
  }

  function ReplyAt(run: Run, i: nat): Reply
    requires i < |run.requests| && i < |run.states|
  {
    Serve(run.states[i], run.requests[i].now, run.requests[i].request).reply
  }

  // ---------- Positions ----------

  /** Request k completed an order or a close. */
  predicate Trades(run: Run, k: nat)
    requires k < |run.requests|
  {
    var r := run.requests[k].request;
    (r.PlaceOrder? || r.ClosePosition?) && r.accepted
  }

  /** Request k asked the exchange for positions and got them, or got an account-info
      failure, which is stored as no positions. */
  predicate PositionsSnapshot(run: Run, k: nat, data: seq<Position>)
    requires k < |run.requests| && k < |run.states|
  {
    var r := run.requests[k].request;
    && (r.GetPositions? || r.GetAccountInfo?)
    && !IsFresh(run.states[k].positions, run.requests[k].now)
    && (r.found == Some(data) || (r.GetAccountInfo? && r.found.None? && data == []))
  }

  lemma {:induction false} PositionsCacheIsSnapshot(run: Run, i: nat) returns (j: nat)
    requires IsRun(run) && i <= |run.requests| && run.states[i].positions.Some?
    ensures j < i && PositionsSnapshot(run, j, run.states[i].positions.value.data)
    ensures run.requests[j].now == run.states[i].positions.value.fetchedAt
    ensures forall k | j < k < i :: !Trades(run, k)
  {
    assert i > 0;
    var k := i - 1;
    assert run.states[i] == Serve(run.states[k], run.requests[k].now, run.requests[k].request).caches;
    if run.states[i].positions == run.states[k].positions
       && !PositionsSnapshot(run, k, run.states[i].positions.value.data) {
      j := PositionsCacheIsSnapshot(run, k);
    } else {
      j := k;
    }
  }

  /** Every positions reply is the answer to a fetch made less than two seconds earlier,
      with no order or close completed since that fetch. */
  lemma {:induction false} PositionsReplyIsRecent(run: Run, i: nat) returns (j: nat)
    requires IsRun(run) && i < |run.requests| && (ReplyAt(run, i).Positions? || ReplyAt(run, i).Account?)
    ensures j <= i && PositionsSnapshot(run, j, ReplyAt(run, i).positions)
    ensures run.requests[i].now - run.requests[j].now < 2000
    ensures forall k | j < k < i :: !Trades(run, k)
    ensures (run.requests[j].request.GetAccountInfo? ==> run.requests[j].request.found.Some?)
            ==> run.requests[j].request.found == Some(ReplyAt(run, i).positions)
  {
    if IsFresh(run.states[i].positions, run.requests[i].now) {
      j := PositionsCacheIsSnapshot(run, i);
    } else {
      j := i;
    }
  }

  /** A failed account-info fetch is shown as no positions, and for two seconds so is every
      later positions request, whatever the exchange holds. */
  lemma {:induction false} FailedAccountHidesPositions(c: Caches, now: nat, later: nat, held: seq<Position>)
    requires !IsFresh(c.positions, now) && now <= later
    ensures var failed := Serve(c, now, GetAccountInfo(None));
            && failed.reply == Account([])
            && (Serve(failed.caches, later, GetPositions(Some(held))).reply == Positions(held) <==>
                held == [] || later - now >= 2000)
  {
  }

  // ---------- Orders ----------

  predicate ChangesOrders(run: Run, k: nat)
    requires k < |run.requests|
  {
    var r := run.requests[k].request;
    (r.PlaceOrder? || r.ClosePosition? || r.CancelOrder? || r.CancelAllOrders?) && r.accepted
  }

  /** Request k asked the exchange for all open orders and got them. */
  predicate OrdersSnapshot(run: Run, k: nat, data: seq<OpenOrder>)
    requires k < |run.requests| && k < |run.states|
  {
    run.requests[k].request == GetOrders(None, Some(data)) && !IsFresh(run.states[k].orders, run.requests[k].now)
  }

  lemma {:induction false} OrdersCacheIsSnapshot(run: Run, i: nat) returns (j: nat)
    requires IsRun(run) && i <= |run.requests| && run.states[i].orders.Some?
    ensures j < i && OrdersSnapshot(run, j, run.states[i].orders.value.data)
    ensures run.requests[j].now == run.states[i].orders.value.fetchedAt
    ensures forall k | j < k < i :: !ChangesOrders(run, k)
  {
    assert i > 0;
    var k := i - 1;
    assert run.states[i] == Serve(run.states[k], run.requests[k].now, run.requests[k].request).caches;
    if run.states[k].orders.Some? && run.states[i].orders == run.states[k].orders {
      j := OrdersCacheIsSnapshot(run, k);
    } else {
      j := k;
    }
  }

  /** Every all-orders reply answers a fetch made less than two seconds earlier, with no
      order, close or cancel completed since; a reply for one symbol is always a fetch. */
  lemma {:induction false} OrdersReplyIsRecent(run: Run, i: nat) returns (j: nat)
    requires IsRun(run) && i < |run.requests| && ReplyAt(run, i).Orders?
    ensures run.requests[i].request.GetOrders?
    ensures run.requests[i].request.only.Some? ==> run.requests[i].request.open == Some(ReplyAt(run, i).orders)
    ensures run.requests[i].request.only.None? ==>
              && j <= i && OrdersSnapshot(run, j, ReplyAt(run, i).orders)
              && run.requests[i].now - run.requests[j].now < 2000
              && forall k | j < k < i :: !ChangesOrders(run, k)
  {
    if run.requests[i].request.only.None? && IsFresh(run.states[i].orders, run.requests[i].now) {
      j := OrdersCacheIsSnapshot(run, i);
    } else {
      j := i;
    }
  }

  // ---------- Ticker ----------

  /** Request k asked the exchange for the symbol's quote and got it. */
  predicate TickerSnapshot(run: Run, k: nat, t: Ticker)
    requires k < |run.requests| && k < |run.states|
  {
    && run.requests[k].request == GetTicker(t.symbol, Some(t.quote))
    && !TickerHit(run.states[k].ticker, t.symbol, run.requests[k].now)
  }

  lemma {:induction false} TickerCacheIsSnapshot(run: Run, i: nat) returns (j: nat)
    requires IsRun(run) && i <= |run.requests| && run.states[i].ticker.Some?
    ensures j < i && run.requests[j].now == run.states[i].ticker.value.fetchedAt
    ensures TickerSnapshot(run, j, run.states[i].ticker.value.data)
  {
    assert i > 0;
    var k := i - 1;
    assert run.states[i] == Serve(run.states[k], run.requests[k].now, run.requests[k].request).caches;
    if run.states[k].ticker.Some? && run.states[i].ticker == run.states[k].ticker {
      j := TickerCacheIsSnapshot(run, k);
    } else {
      j := k;
    }
  }

  /** Every ticker reply is for the requested symbol and was fetched for it less than two
      seconds earlier. */
  lemma {:induction false} TickerReplyIsRecent(run: Run, i: nat) returns (j: nat)
    requires IsRun(run) && i < |run.requests| && ReplyAt(run, i).TickerUpdate?
    ensures run.requests[i].request.GetTicker? && ReplyAt(run, i).ticker.symbol == run.requests[i].request.symbol
    ensures j <= i && run.requests[i].now - run.requests[j].now < 2000
    ensures TickerSnapshot(run, j, ReplyAt(run, i).ticker)
  {
    if TickerHit(run.states[i].ticker, run.requests[i].request.symbol, run.requests[i].now) {
      j := TickerCacheIsSnapshot(run, i);
    } else {
      j := i;
    }
  }
}

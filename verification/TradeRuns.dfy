/** Trades, buckets and candles of the client's tick aggregation
    (client/src/tick_aggregator.rs), defined from the trade history alone: the maximal runs
    of consecutive same-bucket trades, and the group-by of all trades by bucket. */
module TradeRuns {

  datatype Trade = Trade(timestamp: int, price: real, qty: real)

  /** When a bucket starts, in milliseconds: the key of a candle. */
  datatype BucketStart = At(ms: int)

  datatype Candle = Candle(timestamp: BucketStart, open: real, high: real, low: real, close: real, volume: real)

  datatype Interval = Sec1 | Sec5 | Sec10 | Sec30

  function Seconds(interval: Interval): (n: nat)
    ensures n > 0
  {
    match interval
    case Sec1 => 1
    case Sec5 => 5
    case Sec10 => 10
    case Sec30 => 30
  }

  function WidthMs(interval: Interval): (w: int)
    ensures w > 0
  { Seconds(interval) * 1000 }

  /** Integer division as the client's language does it: towards zero. */
  function TruncDiv(a: int, b: nat): int
    requires b > 0
  {
    if a >= 0 then a / b else -(-a / b)
  }

  function IntervalStart(interval: Interval, timestamp: int): int {
    var seconds := Seconds(interval);
    TruncDiv(TruncDiv(timestamp, 1000), seconds) * seconds * 1000
  }

  lemma {:induction false} IntervalStartOfNat(interval: Interval, n: int) returns (q: int, r: int)
    requires n >= 0
    ensures 0 <= r < WidthMs(interval) && n == q * WidthMs(interval) + r
    ensures IntervalStart(interval, n) == q * WidthMs(interval)
    ensures IntervalStart(interval, 0 - n) == 0 - q * WidthMs(interval)
  {
    var seconds := Seconds(interval);
    var whole := n / 1000;
    q := whole / seconds;
    r := (whole % seconds) * 1000 + n % 1000;
    assert whole == q * seconds + whole % seconds;
    assert TruncDiv(TruncDiv(n, 1000), seconds) == q;
    assert TruncDiv(TruncDiv(0 - n, 1000), seconds) == 0 - q;
  }

  lemma {:induction false} MultipleIsFar(w: int, d: int)
    requires w > 0
    ensures d >= 1 ==> w * d >= w
    ensures d <= -1 ==> w * d <= -w
  {
    if d >= 1 { assert w * (d - 1) >= 0; }
    if d <= -1 { assert w * (d + 1) <= 0; }
  }

  lemma {:induction false} RemainderOf(k: int, w: int, r: int)
    requires 0 <= r < w
    ensures (k * w + r) % w == r
  {
    var n := k * w + r;
    var d := n / w - k;
    assert n == w * (n / w) + n % w;
    assert w * d == r - n % w;
    MultipleIsFar(w, d);
  }

  /** The start is a multiple of the width, less than one width away, and it is the start
      of the half-open interval holding the timestamp exactly when the timestamp is not
      negative or is itself such a start: division rounds other negative times up. */
  lemma {:induction false} IntervalStartMeaning(interval: Interval, timestamp: int)
    ensures StartsOrRoundsUp(WidthMs(interval), IntervalStart(interval, timestamp), timestamp)
  {
    var w := WidthMs(interval);
    if timestamp >= 0 {
      var q, r := IntervalStartOfNat(interval, timestamp);
      RemainderOf(q, w, 0);
    } else {
      var q, r := IntervalStartOfNat(interval, 0 - timestamp);
      NegativeStart(q, w, r);
    }
  }

  predicate StartsOrRoundsUp(width: int, start: int, timestamp: int)
    requires width > 0
  {
    && start % width == 0
    && -width < timestamp - start < width
    && (start <= timestamp < start + width <==> timestamp >= 0 || timestamp % width == 0)
  }

  lemma {:induction false} NegativeStart(q: int, w: int, r: int)
    requires 0 <= r < w && q * w + r > 0
    ensures StartsOrRoundsUp(w, 0 - q * w, 0 - (q * w + r))
  {
    NegativeRemainder(q, w, r);
    RemainderOf(-q, w, 0);
    assert -q * w + 0 == 0 - q * w;
  }

  lemma {:induction false} NegativeRemainder(q: int, w: int, r: int)
    requires 0 <= r < w
    ensures (0 - (q * w + r)) % w == if r == 0 then 0 else w - r
  {
    if r == 0 {
      RemainderOf(-q, w, 0);
    } else {
      RemainderOf(-q - 1, w, w - r);
      assert (-q - 1) * w + (w - r) == 0 - (q * w + r);
    }
  }

  /** What the aggregation uses of a trade: its bucket's start, its price and quantity. */
  datatype Tick = Tick(start: BucketStart, price: real, qty: real)

  function ToTick(interval: Interval, t: Trade): Tick {
    Tick(At(IntervalStart(interval, t.timestamp)), t.price, t.qty)
  }

  /** The tick of a trade has its price and quantity, and starts at the multiple of the
      interval's width at or before the trade, less than a width away, if the trade's time is
      not negative. */
  lemma {:induction false} TickMeans(interval: Interval, t: Trade)
    ensures var tick := ToTick(interval, t); var width := WidthMs(interval);
            && tick.price == t.price && tick.qty == t.qty && tick.start.ms % width == 0
            && width == 1000 * (match interval case Sec1 => 1 case Sec5 => 5 case Sec10 => 10 case Sec30 => 30)
            && (t.timestamp >= 0 ==> tick.start.ms <= t.timestamp < tick.start.ms + width)
  {
    IntervalStartMeaning(interval, t.timestamp);
  }

  // ---------- The candle of a run of trades ----------

  function Highest(run: seq<Tick>): real
    requires run != []
  {
    var last := run[|run| - 1].price;
    if |run| == 1 then last
    else
      var h := Highest(run[..|run| - 1]);
      if last > h then last else h
  }

  function Lowest(run: seq<Tick>): real
    requires run != []
  {
    var last := run[|run| - 1].price;
    if |run| == 1 then last
    else
      var l := Lowest(run[..|run| - 1]);
      if last < l then last else l
  }

  /** Highest and Lowest are the maximum and minimum price of the run. */
  lemma {:induction false} ExtremesMean(run: seq<Tick>)
    requires run != []
    ensures forall i | 0 <= i < |run| :: Lowest(run) <= run[i].price <= Highest(run)
    ensures exists i :: 0 <= i < |run| && run[i].price == Highest(run)
    ensures exists i :: 0 <= i < |run| && run[i].price == Lowest(run)
  {
    var n := |run| - 1;
    assert run[n].price == run[n].price;
    if n > 0 {
      ExtremesMean(run[..n]);
      assert forall i | 0 <= i < n :: run[..n][i] == run[i];
      var h :| 0 <= h < n && run[..n][h].price == Highest(run[..n]);
      var l :| 0 <= l < n && run[..n][l].price == Lowest(run[..n]);
      assert run[h].price == Highest(run[..n]) && run[l].price == Lowest(run[..n]);
    }
  }

  function Quantity(trades: seq<Tick>): real {
    if trades == [] then 0.0 else Quantity(trades[..|trades| - 1]) + trades[|trades| - 1].qty
  }

  function Summary(start: BucketStart, run: seq<Tick>): Candle
    requires run != []
  {
    Candle(start, run[0].price, Highest(run), Lowest(run), run[|run| - 1].price, Quantity(run))
  }

  /** A candle opens with the first price and closes with the last, its high and low are the
      greatest and least price, and its volume is the sum of the quantities. */
  lemma {:induction false} CandleMeans(start: BucketStart, run: seq<Tick>)
    requires run != []
    ensures var c := Summary(start, run);
            && c.timestamp == start && c.open == run[0].price && c.close == run[|run| - 1].price
            && (forall t | t in run :: c.low <= t.price <= c.high)
            && (exists t :: t in run && t.price == c.high) && (exists t :: t in run && t.price == c.low)
            && c.volume == Quantity(run)
  {
    ExtremesMean(run);
    var h :| 0 <= h < |run| && run[h].price == Highest(run);
    var l :| 0 <= l < |run| && run[l].price == Lowest(run);
    assert run[h] in run && run[l] in run;
  }

  // ---------- Maximal runs ----------

  function Concat(runs: seq<seq<Tick>>): seq<Tick> {
    if runs == [] then [] else Concat(runs[..|runs| - 1]) + runs[|runs| - 1]
  }

  /** Every run is one bucket's, and the next run is another's. */
  ghost predicate Alternate(runs: seq<seq<Tick>>) {
    && (forall i | 0 <= i < |runs| :: runs[i] != [])
    && (forall i, k | 0 <= i < |runs| && 0 <= k < |runs[i]| :: runs[i][k].start == runs[i][0].start)
    && (forall i | 0 < i < |runs| :: runs[i][0].start != runs[i - 1][0].start)
  }

  ghost predicate IsRunSplit(runs: seq<seq<Tick>>, trades: seq<Tick>) {
    Concat(runs) == trades && Alternate(runs)
  }

  /** Splits a history after every trade whose successor is in another bucket. */
  function Runs(trades: seq<Tick>): (runs: seq<seq<Tick>>)
    ensures runs == [] <==> trades == []
    ensures forall i | 0 <= i < |runs| :: runs[i] != []
  {
    if trades == [] then []
    else
      var before := Runs(trades[..|trades| - 1]);
      var t := trades[|trades| - 1];
      if before != [] && before[|before| - 1][0].start == t.start
      then before[..|before| - 1] + [before[|before| - 1] + [t]]
      else before + [[t]]
  }

  function LastRun(trades: seq<Tick>): (run: seq<Tick>)
    requires trades != []
    ensures run != []
  {
    Runs(trades)[|Runs(trades)| - 1]
  }

  lemma {:induction false} RunsStart(trades: seq<Tick>, t: Tick)
    requires trades != [] ==> LastRun(trades)[0].start != t.start
    ensures Runs(trades + [t]) == Runs(trades) + [[t]]
  {
    assert (trades + [t])[..|trades|] == trades;
  }

  lemma {:induction false} RunsContinue(trades: seq<Tick>, t: Tick)
    requires trades != [] && LastRun(trades)[0].start == t.start
    ensures Runs(trades + [t]) == Runs(trades)[..|Runs(trades)| - 1] + [LastRun(trades) + [t]]
  {
    assert (trades + [t])[..|trades|] == trades;
  }

  lemma {:induction false} ConcatPush(before: seq<seq<Tick>>, run: seq<Tick>)
    ensures Concat(before + [run]) == Concat(before) + run
  {
    assert (before + [run])[..|before|] == before;
  }

  lemma {:induction false} SplitGrows(before: seq<seq<Tick>>, run: seq<Tick>, trades: seq<Tick>, t: Tick)
    requires IsRunSplit(before + [run], trades) && run != [] && run[0].start == t.start
    ensures IsRunSplit(before + [run + [t]], trades + [t])
  {
    ConcatPush(before, run);
    ConcatPush(before, run + [t]);
    assert Concat(before) + (run + [t]) == (Concat(before) + run) + [t];
    GrownRunsAlternate(before, run, t);
  }

  lemma {:induction false} GrownRunsAlternate(before: seq<seq<Tick>>, run: seq<Tick>, t: Tick)
    requires Alternate(before + [run]) && run != [] && run[0].start == t.start
    ensures Alternate(before + [run + [t]])
  {
    var runs: seq<seq<Tick>>, grown: seq<seq<Tick>> := before + [run], before + [run + [t]];
    forall i | 0 <= i < |grown| ensures grown[i] != [] && grown[i][0] == runs[i][0] {
      if i < |before| { assert grown[i] == runs[i]; } else { assert grown[i] == run + [t] && runs[i] == run; }
    }
    forall i, k | 0 <= i < |grown| && 0 <= k < |grown[i]|
      ensures grown[i][k].start == grown[i][0].start
    {
      if k < |runs[i]| { assert grown[i][k] == runs[i][k]; }
    }
  }

  lemma {:induction false} SplitStarts(runs: seq<seq<Tick>>, trades: seq<Tick>, t: Tick)
    requires IsRunSplit(runs, trades)
    requires runs == [] || runs[|runs| - 1][0].start != t.start
    ensures IsRunSplit(runs + [[t]], trades + [t])
  {
    var longer: seq<seq<Tick>> := runs + [[t]];
    assert longer[..|runs|] == runs;
    assert forall i | 0 <= i < |runs| :: longer[i] == runs[i];
  }

  lemma {:induction false} RunsSplit(trades: seq<Tick>)
    ensures IsRunSplit(Runs(trades), trades)
  {
    if trades != [] {
      var prefix := trades[..|trades| - 1];
      var t := trades[|trades| - 1];
      RunsSplit(prefix);
      var before: seq<seq<Tick>> := Runs(prefix);
      assert trades == prefix + [t];
      if before != [] && before[|before| - 1][0].start == t.start {
        var n := |before| - 1;
        assert before == before[..n] + [before[n]];
        SplitGrows(before[..n], before[n], prefix, t);
      } else {
        SplitStarts(before, prefix, t);
      }
    }
  }

  /** The last trade of a split is a run of its own, after a run of another bucket. */
  lemma {:induction false} SplitDropsRun(runs: seq<seq<Tick>>, trades: seq<Tick>)
    returns (before: seq<seq<Tick>>, prefix: seq<Tick>, t: Tick)
    requires IsRunSplit(runs, trades) && runs != [] && |runs[|runs| - 1]| == 1
    ensures runs == before + [[t]] && trades == prefix + [t] && IsRunSplit(before, prefix)
    ensures before != [] ==> before[|before| - 1] != [] && before[|before| - 1][0].start != t.start
  {
    var n := |runs| - 1;
    before, prefix, t := runs[..n], Concat(runs[..n]), runs[n][0];
    assert runs[n] == [t];
    assert n > 0 ==> runs[n][0].start != runs[n - 1][0].start;
  }

  /** The last trade of a split continues its last run. */
  lemma {:induction false} SplitShrinks(runs: seq<seq<Tick>>, trades: seq<Tick>)
    returns (before: seq<seq<Tick>>, run: seq<Tick>, prefix: seq<Tick>, t: Tick)
    requires IsRunSplit(runs, trades) && runs != [] && |runs[|runs| - 1]| > 1
    ensures runs == before + [run + [t]] && trades == prefix + [t] && IsRunSplit(before + [run], prefix)
    ensures run != [] && run[0].start == t.start
  {
    var n := |runs| - 1;
    var last := runs[n];
    before, run, t := runs[..n], last[..|last| - 1], last[|last| - 1];
    prefix := Concat(before) + run;
    var shorter: seq<seq<Tick>> := before + [run];
    assert last == run + [t];
    assert shorter[..n] == before;
    assert forall i | 0 <= i < |shorter| :: shorter[i][0] == runs[i][0];
    forall i, k | 0 <= i < |shorter| && 0 <= k < |shorter[i]|
      ensures shorter[i][k].start == shorter[i][0].start
    {
      assert shorter[i][k] == runs[i][k];
    }
  }

  /** There is only one such split, so Runs is the list of maximal runs. */
  lemma {:induction false} RunSplitUnique(runs: seq<seq<Tick>>, trades: seq<Tick>)
    requires IsRunSplit(runs, trades)
    ensures runs == Runs(trades)
    decreases |trades|
  {
    if runs == [] {
    } else if |runs[|runs| - 1]| == 1 {
      var before, prefix, t := SplitDropsRun(runs, trades);
      RunSplitUnique(before, prefix);
      RunsStart(prefix, t);
    } else {
      var before, run, prefix, t := SplitShrinks(runs, trades);
      RunSplitUnique(before + [run], prefix);
      RunsContinue(prefix, t);
    }
  }

  // ---------- Candles of a history ----------

  function RunCandle(run: seq<Tick>): Candle
    requires run != []
  {
    Summary(run[0].start, run)
  }

  function Candles(runs: seq<seq<Tick>>): (cs: seq<Candle>)
    requires forall i | 0 <= i < |runs| :: runs[i] != []
    ensures |cs| == |runs|
    ensures forall i | 0 <= i < |runs| :: cs[i] == RunCandle(runs[i])
  {
    seq(|runs|, i requires 0 <= i < |runs| => RunCandle(runs[i]))
  }

  function Volume(candles: seq<Candle>): real {
    if candles == [] then 0.0 else Volume(candles[..|candles| - 1]) + candles[|candles| - 1].volume
  }

  lemma {:induction false} QuantityConcat(a: seq<Tick>, b: seq<Tick>)
    ensures Quantity(a + b) == Quantity(a) + Quantity(b)
  {
    if b == [] {
      assert a + b == a;
    } else {
      QuantityConcat(a, b[..|b| - 1]);
      assert (a + b)[..|a + b| - 1] == a + b[..|b| - 1];
    }
  }

  lemma {:induction false} VolumeOfRuns(runs: seq<seq<Tick>>)
    requires forall i | 0 <= i < |runs| :: runs[i] != []
    ensures Volume(Candles(runs)) == Quantity(Concat(runs))
  {
    if runs != [] {
      var n := |runs| - 1;
      VolumeOfRuns(runs[..n]);
      QuantityConcat(Concat(runs[..n]), runs[n]);
      assert Candles(runs)[..n] == Candles(runs[..n]);
    }
  }

  /** For trades in any order, the candles of the maximal runs hold all the traded quantity,
      and open and close lie between low and high. */
  lemma {:induction false} RunCandlesConserve(trades: seq<Tick>)
    ensures Volume(Candles(Runs(trades))) == Quantity(trades)
    ensures forall c | c in Candles(Runs(trades)) ::
              c.low <= c.open <= c.high && c.low <= c.close <= c.high
  {
    RunsSplit(trades);
    VolumeOfRuns(Runs(trades));
    var cs, runs := Candles(Runs(trades)), Runs(trades);
    forall c | c in cs ensures c.low <= c.open <= c.high && c.low <= c.close <= c.high {
      var i :| 0 <= i < |cs| && cs[i] == c;
      ExtremesMean(runs[i]);
    }
  }

  // ---------- Ascending lists of a set ----------

  ghost predicate StrictlyAscending(ks: seq<BucketStart>) {
    forall i, j | 0 <= i < j < |ks| :: ks[i].ms < ks[j].ms
  }

  ghost predicate Lists(ks: seq<BucketStart>, keys: set<BucketStart>) {
    && StrictlyAscending(ks)
    && forall k :: k in keys <==> k in ks
  }

  lemma {:induction false} ListsPrefix(ks: seq<BucketStart>, keys: set<BucketStart>)
    requires Lists(ks, keys) && ks != []
    ensures Lists(ks[..|ks| - 1], keys - {ks[|ks| - 1]})
    ensures forall k | k in keys :: k.ms <= ks[|ks| - 1].ms
  {
    var n := |ks| - 1;
    assert ks == ks[..n] + [ks[n]];
    forall k | k in ks[..n] ensures k != ks[n] {
      var i :| 0 <= i < n && ks[..n][i] == k;
      assert ks[i].ms < ks[n].ms;
    }
  }

  lemma {:induction false} ListsUnique(a: seq<BucketStart>, b: seq<BucketStart>, keys: set<BucketStart>)
    requires Lists(a, keys) && Lists(b, keys)
    ensures a == b
    decreases |a|
  {
    assert a != [] ==> a[|a| - 1] in a;
    assert b != [] ==> b[|b| - 1] in b;
    if a != [] && b != [] {
      var m, n := |a| - 1, |b| - 1;
      ListsPrefix(a, keys);
      ListsPrefix(b, keys);
      assert a[m].ms == b[n].ms;
      ListsUnique(a[..m], b[..n], keys - {a[m]});
      assert a == a[..m] + [a[m]] && b == b[..n] + [b[n]];
    }
  }

  lemma {:induction false} GreatestExists(keys: set<BucketStart>) returns (m: BucketStart)
    requires keys != {}
    ensures m in keys && forall x | x in keys :: x.ms <= m.ms
  {
    var x :| x in keys;
    var rest := keys - {x};
    if rest == {} {
      m := x;
      assert keys == {x};
    } else {
      var m' := GreatestExists(rest);
      m := if x.ms > m'.ms then x else m';
      assert keys == rest + {x};
    }
  }

  lemma {:induction false} ListingExists(keys: set<BucketStart>)
    ensures exists ks :: Lists(ks, keys)
  {
    if keys == {} {
      assert Lists([], keys);
    } else {
      var m := GreatestExists(keys);
      var rest := keys - {m};
      ListingExists(rest);
      var ks: seq<BucketStart> :| Lists(ks, rest);
      forall i | 0 <= i < |ks| ensures ks[i].ms < m.ms { assert ks[i] in rest; }
      assert Lists(ks + [m], keys);
    }
  }

  /** The elements of a set in ascending order. */
  ghost function Ascending(keys: set<BucketStart>): (ks: seq<BucketStart>)
    ensures Lists(ks, keys)
  {
    ListingExists(keys);
    var ks :| Lists(ks, keys); ks
  }

  // ---------- Group-by ----------

  function InBucket(trades: seq<Tick>, b: BucketStart): seq<Tick> {
    if trades == [] then []
    else
      var rest := InBucket(trades[..|trades| - 1], b);
      var t := trades[|trades| - 1];
      if t.start == b then rest + [t] else rest
  }

  lemma {:induction false} Reassociate(x: seq<Tick>, y: seq<Tick>, z: seq<Tick>)
    ensures (x + y) + z == x + (y + z)
    ensures z == [] ==> (x + y) + z == x + y
  {
  }

  /** The trades of a bucket are those with its start, in their order: a concatenation's are
      the concatenation, and a single trade is in it or not. */
  lemma {:induction false} InBucketMeans(a: seq<Tick>, c: seq<Tick>, t: Tick, b: BucketStart)
    ensures InBucket(a + c, b) == InBucket(a, b) + InBucket(c, b)
    ensures InBucket([t], b) == if t.start == b then [t] else []
  {
    assert [t][..0] == [];
    if c == [] {
      assert a + c == a && InBucket(a, b) + [] == InBucket(a, b);
    } else {
      var before, last := c[..|c| - 1], c[|c| - 1];
      InBucketMeans(a, before, t, b);
      assert a + c == (a + before) + [last] && c == before + [last];
      InBucketGrows(a + before, last, b);
      InBucketGrows(before, last, b);
      Reassociate(InBucket(a, b), InBucket(before, b), if last.start == b then [last] else []);
    }
  }

  function Buckets(trades: seq<Tick>): set<BucketStart> {
    set i | 0 <= i < |trades| :: trades[i].start
  }

  lemma {:induction false} InBucketNonEmpty(trades: seq<Tick>, b: BucketStart)
    ensures InBucket(trades, b) != [] <==> b in Buckets(trades)
  {
    if trades != [] {
      var n := |trades| - 1;
      InBucketNonEmpty(trades[..n], b);
      if b in Buckets(trades) {
        var i :| 0 <= i < |trades| && b == trades[i].start;
        if i < n { assert trades[..n][i] == trades[i]; }
      }
    }
  }

  /** The reference: one candle per bucket of the whole history, in ascending order, made
      of all the trades of that bucket wherever they occur. */
  ghost function GroupBy(trades: seq<Tick>): seq<Candle> {
    var bs := Ascending(Buckets(trades));
    seq(|bs|, i requires 0 <= i < |bs| =>
      (assert bs[i] in Buckets(trades);
       InBucketNonEmpty(trades, bs[i]);
       Summary(bs[i], InBucket(trades, bs[i]))))
  }

  ghost predicate InBucketOrder(trades: seq<Tick>) {
    forall i, j | 0 <= i <= j < |trades| :: trades[i].start.ms <= trades[j].start.ms
  }

  function Starts(runs: seq<seq<Tick>>): (ks: seq<BucketStart>)
    requires forall i | 0 <= i < |runs| :: runs[i] != []
    ensures |ks| == |runs| && forall i | 0 <= i < |runs| :: ks[i] == runs[i][0].start
  {
    seq(|runs|, i requires 0 <= i < |runs| => runs[i][0].start)
  }

  lemma {:induction false} BucketsGrow(prefix: seq<Tick>, t: Tick)
    ensures Buckets(prefix + [t]) == Buckets(prefix) + {t.start}
  {
    var trades := prefix + [t];
    assert forall i | 0 <= i < |prefix| :: trades[i] == prefix[i];
    assert trades[|prefix|] == t;
    forall k | k in Buckets(prefix) + {t.start} ensures k in Buckets(trades) {
      if k in Buckets(prefix) {
        var i :| 0 <= i < |prefix| && k == prefix[i].start;
        assert k == trades[i].start;
      } else {
        assert k == trades[|prefix|].start;
      }
    }
  }

  lemma {:induction false} ListsAppend(ks: seq<BucketStart>, keys: set<BucketStart>, b: BucketStart)
    requires Lists(ks, keys) && (ks != [] ==> ks[|ks| - 1].ms < b.ms)
    ensures Lists(ks + [b], keys + {b})
  {
    forall i | 0 <= i < |ks| ensures ks[i].ms < b.ms {
      assert i < |ks| - 1 ==> ks[i].ms < ks[|ks| - 1].ms;
    }
  }

  lemma {:induction false} StartsOfLast(trades: seq<Tick>)
    requires trades != []
    ensures var ks := Starts(Runs(trades)); ks != [] && ks[|ks| - 1] == LastRun(trades)[0].start
  {
  }

  lemma {:induction false} StartsGrow(trades: seq<Tick>, t: Tick)
    ensures Starts(Runs(trades + [t])) ==
            if trades != [] && LastRun(trades)[0].start == t.start then Starts(Runs(trades))
            else Starts(Runs(trades)) + [t.start]
  {
    var runs: seq<seq<Tick>> := Runs(trades);
    if trades != [] && LastRun(trades)[0].start == t.start {
      RunsContinue(trades, t);
      StartsOfGrown(runs, t);
    } else {
      RunsStart(trades, t);
      assert Starts(runs + [[t]]) == Starts(runs) + [t.start];
    }
  }

  lemma {:induction false} StartsOfGrown(runs: seq<seq<Tick>>, t: Tick)
    requires runs != [] && forall i | 0 <= i < |runs| :: runs[i] != []
    ensures Starts(runs[..|runs| - 1] + [runs[|runs| - 1] + [t]]) == Starts(runs)
  {
  }

  lemma {:induction false} LastStarts(trades: seq<Tick>, t: Tick)
    ensures LastRun(trades + [t])[0].start == t.start
  {
    if trades != [] && LastRun(trades)[0].start == t.start { RunsContinue(trades, t); } else { RunsStart(trades, t); }
  }

  /** The last run is of the last trade's bucket. */
  lemma {:induction false} LastRunStarts(trades: seq<Tick>)
    requires trades != []
    ensures LastRun(trades)[0].start == trades[|trades| - 1].start
  {
    LastStarts(trades[..|trades| - 1], trades[|trades| - 1]);
    assert trades == trades[..|trades| - 1] + [trades[|trades| - 1]];
  }

  lemma {:induction false} StartsStep(trades: seq<Tick>, t: Tick, longer: seq<Tick>)
    requires Lists(Starts(Runs(trades)), Buckets(trades)) && longer == trades + [t]
    requires trades != [] ==> LastRun(trades)[0].start.ms <= t.start.ms
    ensures Lists(Starts(Runs(longer)), Buckets(longer))
    ensures LastRun(longer)[0].start == t.start
  {
    BucketsGrow(trades, t);
    StartsGrow(trades, t);
    LastStarts(trades, t);
    if trades != [] { StartsOfLast(trades); }
    ListsGrow(Starts(Runs(trades)), Buckets(trades), t.start, Starts(Runs(longer)));
  }

  lemma {:induction false} ListsGrow(
    ks: seq<BucketStart>, keys: set<BucketStart>, b: BucketStart, ks': seq<BucketStart>)
    requires Lists(ks, keys) && (ks != [] ==> ks[|ks| - 1].ms <= b.ms)
    requires ks' == if ks != [] && ks[|ks| - 1] == b then ks else ks + [b]
    ensures Lists(ks', keys + {b})
  {
    if ks != [] && ks[|ks| - 1] == b {
      assert b in ks;
    } else {
      ListsAppend(ks, keys, b);
    }
  }

  /** In bucket order, the runs are listed by ascending start and the last one is current. */
  lemma {:induction false} OrderedStarts(trades: seq<Tick>)
    requires InBucketOrder(trades)
    ensures Lists(Starts(Runs(trades)), Buckets(trades))
    ensures trades != [] ==> LastRun(trades)[0].start == trades[|trades| - 1].start
  {
    if trades == [] { return; }
    var n := |trades| - 1;
    OrderedStarts(trades[..n]);
    assert trades == trades[..n] + [trades[n]];
    assert n > 0 ==> trades[n - 1].start.ms <= trades[n].start.ms;
    StartsStep(trades[..n], trades[n], trades);
  }

  lemma {:induction false} InBucketGrows(prefix: seq<Tick>, t: Tick, b: BucketStart)
    ensures InBucket(prefix + [t], b) == if t.start == b then InBucket(prefix, b) + [t] else InBucket(prefix, b)
  {
    assert (prefix + [t])[..|prefix|] == prefix;
  }

  ghost predicate RunsAreGroups(runs: seq<seq<Tick>>, trades: seq<Tick>) {
    forall i | 0 <= i < |runs| :: runs[i] != [] && runs[i] == InBucket(trades, runs[i][0].start)
  }

  lemma {:induction false} LastGroupGrows(runs: seq<seq<Tick>>, trades: seq<Tick>, t: Tick)
    requires RunsAreGroups(runs, trades) && runs != []
    requires StrictlyAscending(Starts(runs)) && t.start == runs[|runs| - 1][0].start
    ensures RunsAreGroups(runs[..|runs| - 1] + [runs[|runs| - 1] + [t]], trades + [t])
  {
    var n := |runs| - 1;
    var ks := Starts(runs);
    var grown: seq<seq<Tick>> := runs[..n] + [runs[n] + [t]];
    forall i | 0 <= i < |grown| ensures grown[i] == InBucket(trades + [t], grown[i][0].start) {
      InBucketGrows(trades, t, ks[i]);
      assert grown[i][0].start == ks[i];
      assert i < n ==> ks[i].ms < ks[n].ms;
    }
  }

  lemma {:induction false} GroupStarts(runs: seq<seq<Tick>>, trades: seq<Tick>, t: Tick)
    requires RunsAreGroups(runs, trades) && Lists(Starts(runs), Buckets(trades))
    requires t.start !in Buckets(trades)
    ensures RunsAreGroups(runs + [[t]], trades + [t])
  {
    var ks := Starts(runs);
    var longer: seq<seq<Tick>> := runs + [[t]];
    forall i | 0 <= i < |longer| ensures longer[i] == InBucket(trades + [t], longer[i][0].start) {
      InBucketGrows(trades, t, longer[i][0].start);
      if i < |runs| {
        assert ks[i] in ks;
      } else {
        InBucketNonEmpty(trades, t.start);
      }
    }
  }

  lemma {:induction false} GroupsStep(prefix: seq<Tick>, t: Tick)
    requires Lists(Starts(Runs(prefix)), Buckets(prefix)) && RunsAreGroups(Runs(prefix), prefix)
    requires prefix != [] ==> LastRun(prefix)[0].start.ms <= t.start.ms
    ensures RunsAreGroups(Runs(prefix + [t]), prefix + [t])
  {
    if prefix != [] { StartsOfLast(prefix); }
    if prefix != [] && LastRun(prefix)[0].start == t.start {
      LastGroupGrows(Runs(prefix), prefix, t);
      RunsContinue(prefix, t);
    } else {
      if prefix != [] { ListsPrefix(Starts(Runs(prefix)), Buckets(prefix)); }
      GroupStarts(Runs(prefix), prefix, t);
      RunsStart(prefix, t);
    }
  }

  /** When bucket starts never go back, each run is its bucket's whole group. */
  lemma {:induction false} OrderedRuns(trades: seq<Tick>)
    requires InBucketOrder(trades)
    ensures RunsAreGroups(Runs(trades), trades)
  {
    if trades == [] { return; }
    var n := |trades| - 1;
    var prefix, t := trades[..n], trades[n];
    assert trades == prefix + [t];
    OrderedRuns(prefix);
    OrderedStarts(prefix);
    assert n > 0 ==> trades[n - 1].start.ms <= trades[n].start.ms;
    GroupsStep(prefix, t);
  }

  /** For a history whose bucket starts never decrease, the candles of the maximal runs are
      exactly the group-by, strictly ascending in time. */
  lemma {:induction false} OrderedRunsAreGroupBy(trades: seq<Tick>)
    requires InBucketOrder(trades)
    ensures Candles(Runs(trades)) == GroupBy(trades)
    ensures forall i, j | 0 <= i < j < |GroupBy(trades)| ::
              GroupBy(trades)[i].timestamp.ms < GroupBy(trades)[j].timestamp.ms
  {
    OrderedRuns(trades);
    OrderedStarts(trades);
    ListsUnique(Starts(Runs(trades)), Ascending(Buckets(trades)), Buckets(trades));
  }
}

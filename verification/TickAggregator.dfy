/** The bounded, incremental candle index of client/src/tick_aggregator.rs: a builder
    updated in place and a map of completed candles that keeps the newest 500. */
module TickAggregator {
  import opened Types
  import opened TradeRuns

  const MAX_CANDLES: nat := 500

  type Index = map<BucketStart, Candle>

  // ---------- The capped map ----------

  /** Every completed candle ever stored, the last write to a bucket winning. */
  function LastWrites(emitted: seq<Candle>): Index {
    if emitted == [] then map[]
    else LastWrites(emitted[..|emitted| - 1])[emitted[|emitted| - 1].timestamp := emitted[|emitted| - 1]]
  }

  /** c is w restricted to its n largest keys. */
  ghost predicate IsCapOf(c: Index, w: Index, n: nat) {
    && (forall k | k in c :: k in w && c[k] == w[k])
    && |c| == (if |w| <= n then |w| else n)
    && (forall a, b | a in c && b in w && b !in c :: b.ms < a.ms)
  }

  lemma {:induction false} SameSize(a: set<BucketStart>, b: set<BucketStart>)
    requires a <= b && |a| == |b|
    ensures a == b
  {
    assert b == a + (b - a);
    assert |b| == |a| + |b - a|;
  }

  lemma {:induction false} MapSizes(m: Index, w: Index)
    requires forall k | k in m :: k in w
    ensures m.Keys <= w.Keys && |m| == |m.Keys| && |w| == |w.Keys|
  {
  }

  lemma {:induction false} CapUnique(c1: Index, c2: Index, w: Index, n: nat)
    requires IsCapOf(c1, w, n) && IsCapOf(c2, w, n)
    ensures c1 == c2
  {
    if k :| k in c1 && k !in c2 {
      forall x | x in c2 ensures x in c1 { }
      SameSize(c2.Keys, c1.Keys);
    } else {
      assert c1.Keys <= c2.Keys;
      SameSize(c1.Keys, c2.Keys);
    }
  }

  /** Removes the least key when the map is over its limit. */
  ghost predicate IsEvicted(c: Index, full: Index, n: nat) {
    if |full| <= n then c == full
    else exists k :: k in full && (forall x | x in full :: k.ms <= x.ms) && c == full - {k}
  }

  lemma {:induction false} GrownSize(m: Index, k: BucketStart, v: Candle)
    ensures |m[k := v]| == |m| + if k in m then 0 else 1
  {
    assert m[k := v].Keys == m.Keys + {k};
  }

  lemma {:induction false} CapAtMost(c: Index, w: Index, n: nat)
    requires IsCapOf(c, w, n)
    ensures |c| <= n
    ensures |c| < n || |w| <= n ==> c == w
    ensures forall k | k in w && k !in c :: |w| > n
  {
    MapSizes(c, w);
    if |c| == |w| { SameSize(c.Keys, w.Keys); }
  }

  lemma {:induction false} InsertReplacing(c: Index, w: Index, k: BucketStart, v: Candle, n: nat)
    requires IsCapOf(c, w, n) && k in c
    ensures |c[k := v]| <= n && IsCapOf(c[k := v], w[k := v], n)
  {
    GrownSize(c, k, v);
    GrownSize(w, k, v);
  }

  lemma {:induction false} InsertWithRoom(c: Index, w: Index, k: BucketStart, v: Candle, n: nat)
    requires IsCapOf(c, w, n) && k !in c && |c| < n
    ensures c == w && |c[k := v]| <= n && IsCapOf(c[k := v], w[k := v], n)
  {
    CapAtMost(c, w, n);
    GrownSize(c, k, v);
  }

  /** At the limit the least key goes: the new one itself when it is older than all kept. */
  lemma {:induction false} InsertWhenFull(c: Index, w: Index, k: BucketStart, v: Candle, n: nat, least: BucketStart)
    requires IsCapOf(c, w, n) && k !in c && |c| == n > 0
    requires least in c[k := v] && forall x | x in c[k := v] :: least.ms <= x.ms
    ensures IsCapOf(c[k := v] - {least}, w[k := v], n)
    ensures k in w ==> c[k := v] - {least} == c
  {
    var full, w' := c[k := v], w[k := v];
    var kept := full - {least};
    GrownSize(c, k, v);
    GrownSize(w, k, v);
    MapSizes(c, w);
    assert kept.Keys == full.Keys - {least};
    assert |kept| == n;
    if k in w {
      assert c.Keys != {} by { assert |c.Keys| == n; }
      var a :| a in c.Keys;
      assert k.ms < a.ms;
      assert k in full && a in full;
      assert least in c ==> k.ms < least.ms;
      assert least == k;
      assert kept == c;
      CapAtMost(c, w, n);
    }
    forall a, b | a in kept && b in w' && b !in kept ensures b.ms < a.ms {
      assert a in full && a != least;
      assert least.ms <= a.ms;
      if b != least {
        assert b in w && b !in c;
        if least in c { assert b.ms < least.ms; } else { assert a in c; }
      }
    }
    assert |w'| >= n by { MapSizes(kept, w'); SubsetSize(kept.Keys, w'.Keys); }
  }

  lemma {:induction false} SubsetSize(a: set<BucketStart>, b: set<BucketStart>)
    requires a <= b
    ensures |a| <= |b|
  {
    assert b == a + (b - a);
  }

  /** Inserting a candle and evicting the oldest entry keeps the map the cap of all writes.
      A bucket that was evicted before and is inserted again displaces nothing. */
  lemma {:induction false} InsertKeepsCap(c: Index, w: Index, k: BucketStart, v: Candle, evicted: Index)
    requires IsCapOf(c, w, MAX_CANDLES) && IsEvicted(evicted, c[k := v], MAX_CANDLES)
    ensures IsCapOf(evicted, w[k := v], MAX_CANDLES)
    ensures k in w && k !in c ==> evicted == c
  {
    CapAtMost(c, w, MAX_CANDLES);
    if k in c {
      InsertReplacing(c, w, k, v, MAX_CANDLES);
    } else if |c| < MAX_CANDLES {
      InsertWithRoom(c, w, k, v, MAX_CANDLES);
    } else {
      GrownSize(c, k, v);
      var least :| least in c[k := v] && (forall x | x in c[k := v] :: least.ms <= x.ms)
                   && evicted == c[k := v] - {least};
      InsertWhenFull(c, w, k, v, MAX_CANDLES, least);
    }
  }

  // ---------- What a history looks like from outside ----------

  function Emitted(history: seq<Tick>): seq<Candle> {
    var runs := Runs(history);
    if runs == [] then [] else Candles(runs)[..|runs| - 1]
  }

  ghost function Stored(history: seq<Tick>): Index {
    Capped(Emitted(history))
  }

  /** The capped map reached by storing candles one after another. */
  ghost function Capped(emitted: seq<Candle>): (c: Index)
    ensures IsCapOf(c, LastWrites(emitted), MAX_CANDLES)
  {
    CapExists(emitted);
    var c :| IsCapOf(c, LastWrites(emitted), MAX_CANDLES); c
  }

  lemma {:induction false} LeastKeyExists(m: Index) returns (k: BucketStart)
    requires m.Keys != {}
    ensures k in m && forall x | x in m :: k.ms <= x.ms
  {
    var ks := Ascending(m.Keys);
    var any :| any in m.Keys;
    assert any in ks;
    k := ks[0];
    assert k in ks;
    forall x | x in m ensures k.ms <= x.ms {
      assert x in m.Keys;
      assert x in ks;
      var i :| 0 <= i < |ks| && ks[i] == x;
      if i > 0 { assert ks[0].ms < ks[i].ms; }
    }
  }

  lemma {:induction false} CapExists(emitted: seq<Candle>)
    ensures exists c :: IsCapOf(c, LastWrites(emitted), MAX_CANDLES)
  {
    if emitted == [] {
      assert IsCapOf(map[], LastWrites(emitted), MAX_CANDLES);
    } else {
      var before, v := emitted[..|emitted| - 1], emitted[|emitted| - 1];
      CapExists(before);
      var c :| IsCapOf(c, LastWrites(before), MAX_CANDLES);
      var full := c[v.timestamp := v];
      var evicted := full;
      if |full| > MAX_CANDLES {
        assert v.timestamp in full.Keys;
        var k := LeastKeyExists(full);
        evicted := full - {k};
      }
      InsertKeepsCap(c, LastWrites(before), v.timestamp, v, evicted);
      assert LastWrites(emitted) == LastWrites(before)[v.timestamp := v];
    }
  }

  /** The candles shown: the stored ones by ascending time, then the current one. */
  ghost function Shown(history: seq<Tick>): seq<Candle> {
    var runs := Runs(history);
    Values(Stored(history)) + if runs == [] then [] else [RunCandle(runs[|runs| - 1])]
  }

  ghost function Values(m: Index): (vs: seq<Candle>)
    ensures |vs| == |Ascending(m.Keys)|
    ensures forall i | 0 <= i < |vs| :: Ascending(m.Keys)[i] in m && vs[i] == m[Ascending(m.Keys)[i]]
  {
    var ks := Ascending(m.Keys);
    assert forall i | 0 <= i < |ks| :: ks[i] in ks && ks[i] in m.Keys;
    seq(|ks|, i requires 0 <= i < |ks| => m[ks[i]])
  }

  // ---------- Histories in bucket order ----------

  ghost predicate Chronological(cs: seq<Candle>) {
    forall i, j | 0 <= i < j < |cs| :: cs[i].timestamp.ms < cs[j].timestamp.ms
  }

  function Times(cs: seq<Candle>): (ks: seq<BucketStart>)
    ensures |ks| == |cs| && forall i | 0 <= i < |cs| :: ks[i] == cs[i].timestamp
  {
    seq(|cs|, i requires 0 <= i < |cs| => cs[i].timestamp)
  }

  lemma {:induction false} WritesLookup(cs: seq<Candle>, i: nat)
    requires Chronological(cs) && i < |cs|
    ensures cs[i].timestamp in LastWrites(cs) && LastWrites(cs)[cs[i].timestamp] == cs[i]
  {
    var n := |cs| - 1;
    if i < n {
      WritesLookup(cs[..n], i);
      assert cs[..n][i] == cs[i];
      assert cs[i].timestamp.ms < cs[n].timestamp.ms;
    }
  }

  lemma {:induction false} OneMoreWrite(before: seq<Candle>, c: Candle)
    ensures LastWrites(before + [c]) == LastWrites(before)[c.timestamp := c]
    ensures LastWrites(before + [c]).Keys == LastWrites(before).Keys + {c.timestamp}
    ensures Times(before + [c]) == Times(before) + [c.timestamp]
  {
    assert (before + [c])[..|before|] == before;
  }

  lemma {:induction false} WritesAppend(before: seq<Candle>, c: Candle)
    requires Lists(Times(before), LastWrites(before).Keys) && |LastWrites(before)| == |before|
    requires before != [] ==> before[|before| - 1].timestamp.ms < c.timestamp.ms
    ensures Lists(Times(before + [c]), LastWrites(before + [c]).Keys) && |LastWrites(before + [c])| == |before| + 1
  {
    var m, ks := LastWrites(before), Times(before);
    OneMoreWrite(before, c);
    ListsAppend(ks, m.Keys, c.timestamp);
    if ks != [] { ListsPrefix(ks, m.Keys); }
    assert c.timestamp !in ks;
    GrownSize(m, c.timestamp, c);
  }

  lemma {:induction false} ChronologicalWrites(cs: seq<Candle>)
    requires Chronological(cs)
    ensures Lists(Times(cs), LastWrites(cs).Keys)
    ensures |LastWrites(cs)| == |cs|
  {
    if cs != [] {
      var n := |cs| - 1;
      ChronologicalWrites(cs[..n]);
      assert cs == cs[..n] + [cs[n]];
      assert n > 0 ==> cs[n - 1].timestamp.ms < cs[n].timestamp.ms;
      WritesAppend(cs[..n], cs[n]);
    }
  }

  function Newest(cs: seq<Candle>, n: nat): seq<Candle> {
    if |cs| <= n then cs else cs[|cs| - n..]
  }

  lemma {:induction false} KeptLookup(cs: seq<Candle>, n: nat, k: BucketStart)
    requires Chronological(cs) && Chronological(Newest(cs, n)) && k in LastWrites(Newest(cs, n))
    ensures k in LastWrites(cs) && LastWrites(Newest(cs, n))[k] == LastWrites(cs)[k]
  {
    var kept := Newest(cs, n);
    var i := TimeIndex(kept, k);
    assert kept[i] == cs[i + |cs| - |kept|];
    WritesLookup(kept, i);
    WritesLookup(cs, i + |cs| - |kept|);
  }

  /** Position i of the newest n candles is position i + skip of all of them. */
  lemma {:induction false} NewestSubmap(cs: seq<Candle>, n: nat)
    requires Chronological(cs)
    ensures Chronological(Newest(cs, n))
    ensures forall k | k in LastWrites(Newest(cs, n)) ::
              k in LastWrites(cs) && LastWrites(Newest(cs, n))[k] == LastWrites(cs)[k]
  {
    var kept := Newest(cs, n);
    var skip := |cs| - |kept|;
    assert forall i | 0 <= i < |kept| :: kept[i] == cs[i + skip];
    assert Chronological(kept);
    forall k | k in LastWrites(kept) ensures k in LastWrites(cs) && LastWrites(kept)[k] == LastWrites(cs)[k] {
      KeptLookup(cs, n, k);
    }
  }

  lemma {:induction false} OlderIsDropped(cs: seq<Candle>, n: nat, a: BucketStart, b: BucketStart)
    requires Chronological(cs) && Chronological(Newest(cs, n))
    requires a in LastWrites(Newest(cs, n)) && b in LastWrites(cs) && b !in LastWrites(Newest(cs, n))
    ensures b.ms < a.ms
  {
    var kept := Newest(cs, n);
    var skip := |cs| - |kept|;
    var i := TimeIndex(kept, a);
    var j := TimeIndex(cs, b);
    assert kept[i] == cs[i + skip];
    if j >= skip {
      assert kept[j - skip] == cs[j];
      WritesLookup(kept, j - skip);
    }
    assert cs[j].timestamp.ms < cs[i + skip].timestamp.ms;
  }

  lemma {:induction false} NewestIsCap(cs: seq<Candle>, n: nat)
    requires Chronological(cs)
    ensures Chronological(Newest(cs, n)) && IsCapOf(LastWrites(Newest(cs, n)), LastWrites(cs), n)
  {
    NewestSubmap(cs, n);
    var kept := Newest(cs, n);
    ChronologicalWrites(cs);
    ChronologicalWrites(kept);
    var w, c := LastWrites(cs), LastWrites(kept);
    forall a, b | a in c && b in w && b !in c ensures b.ms < a.ms { OlderIsDropped(cs, n, a, b); }
  }

  lemma {:induction false} TimeIndex(cs: seq<Candle>, k: BucketStart) returns (i: nat)
    requires Chronological(cs) && k in LastWrites(cs)
    ensures i < |cs| && cs[i].timestamp == k
  {
    ChronologicalWrites(cs);
    assert k in LastWrites(cs).Keys;
    assert k in Times(cs);
    i :| 0 <= i < |Times(cs)| && Times(cs)[i] == k;
  }

  /** The cap of chronological writes is their last 500. */
  lemma {:induction false} ChronologicalCap(cs: seq<Candle>)
    requires Chronological(cs)
    ensures Values(Capped(cs)) == Newest(cs, MAX_CANDLES)
  {
    var kept := Newest(cs, MAX_CANDLES);
    var c := LastWrites(kept);
    NewestIsCap(cs, MAX_CANDLES);
    CapUnique(c, Capped(cs), LastWrites(cs), MAX_CANDLES);
    ChronologicalWrites(kept);
    ListsUnique(Times(kept), Ascending(c.Keys), c.Keys);
    forall i | 0 <= i < |kept| ensures Values(c)[i] == kept[i] {
      WritesLookup(kept, i);
    }
  }

  /** For any history whose bucket starts never decrease, what is shown is strictly
      ascending in time and is exactly the last at most 501 buckets of the group-by over the
      whole history. */
  lemma {:induction false} ShownIsNewestGroups(history: seq<Tick>)
    requires InBucketOrder(history)
    ensures Shown(history) == Newest(GroupBy(history), 501)
    ensures Chronological(Shown(history))
  {
    OrderedRunsAreGroupBy(history);
    var all := Candles(Runs(history));
    assert Chronological(all);
    if history == [] {
      ChronologicalCap(Emitted(history));
    } else {
      var n := |all| - 1;
      ChronologicalCap(all[..n]);
      assert Shown(history) == Newest(all[..n], MAX_CANDLES) + [all[n]];
      NewestOfLonger(all, MAX_CANDLES);
    }
  }

  lemma {:induction false} NewestOfLonger(cs: seq<Candle>, n: nat)
    requires cs != [] && Chronological(cs)
    ensures Newest(cs, n + 1) == Newest(cs[..|cs| - 1], n) + [cs[|cs| - 1]]
    ensures Chronological(Newest(cs, n + 1))
  {
  }

  // ---------- How one trade changes what a history looks like ----------

  lemma {:induction false} CandleOfOne(t: Tick)
    ensures RunCandle([t]) == Candle(t.start, t.price, t.price, t.price, t.price, t.qty)
  {
    var run := [t];
    assert run[..|run| - 1] == [];
    assert Quantity(run) == Quantity([]) + t.qty;
  }

  lemma {:induction false} CandleGrows(run: seq<Tick>, t: Tick)
    requires run != []
    ensures var c := RunCandle(run);
            RunCandle(run + [t]) == Candle(c.timestamp, c.open, if t.price > c.high then t.price else c.high,
                                           if t.price < c.low then t.price else c.low, t.price, c.volume + t.qty)
  {
    assert (run + [t])[..|run|] == run;
  }

  lemma {:induction false} TradeInBucket(history: seq<Tick>, t: Tick)
    requires history != []
    requires LastRun(history)[0].start == t.start
    ensures LastRun(history + [t]) == LastRun(history) + [t]
    ensures Emitted(history + [t]) == Emitted(history)
    ensures history[|history| - 1].start == t.start
  {
    LastRunStarts(history);
    RunsContinue(history, t);
  }

  lemma {:induction false} FirstTrade(history: seq<Tick>, t: Tick)
    requires history == []
    ensures LastRun(history + [t]) == [t] && Emitted(history + [t]) == Emitted(history)
  {
    RunsStart(history, t);
  }

  lemma {:induction false} TradeOpensBucket(history: seq<Tick>, t: Tick)
    requires history != []
    requires LastRun(history)[0].start != t.start
    ensures LastRun(history + [t]) == [t]
    ensures Emitted(history + [t]) == Emitted(history) + [RunCandle(LastRun(history))]
    ensures history[|history| - 1].start != t.start
  {
    LastRunStarts(history);
    RunsStart(history, t);
    var runs, runs' := Runs(history), Runs(history + [t]);
    assert Candles(runs')[..|runs|] == Candles(runs);
    assert Candles(runs) == Candles(runs)[..|runs| - 1] + [RunCandle(runs[|runs| - 1])];
  }

  // ---------- The classes ----------

  class CandleBuilder {
    var timestamp: BucketStart
    var open: real
    var high: real
    var low: real
    var close: real
    var volume: real
    ghost var run: seq<Tick>

    ghost predicate Valid()
      reads this
    {
      run != [] && View() == RunCandle(run) && forall i | 0 <= i < |run| :: run[i].start == timestamp
    }

    function View(): Candle
      reads this
    {
      Candle(timestamp, open, high, low, close, volume)
    }

    constructor (trade: Trade, start: BucketStart)
      ensures Valid() && run == [Tick(start, trade.price, trade.qty)]
    {
      timestamp, open, high, low, close, volume := start, trade.price, trade.price, trade.price, trade.price, trade.qty;
      run := [Tick(start, trade.price, trade.qty)];
      CandleOfOne(Tick(start, trade.price, trade.qty));
    }

    method Update(trade: Trade)
      requires Valid()
      modifies this
      ensures Valid() && run == old(run) + [Tick(old(timestamp), trade.price, trade.qty)] && timestamp == old(timestamp)
    {
      CandleGrows(run, Tick(timestamp, trade.price, trade.qty));
      high := if trade.price > high then trade.price else high;
      low := if trade.price < low then trade.price else low;
      close := trade.price;
      volume := volume + trade.qty;
      run := run + [Tick(timestamp, trade.price, trade.qty)];
    }
  }

  /** The first key in ascending order, found by a scan. */
  method Oldest(keys: set<BucketStart>) returns (oldest: BucketStart)
    requires keys != {}
    ensures oldest in keys && forall x | x in keys :: oldest.ms <= x.ms
  {
    oldest :| oldest in keys;
    var rest := keys - {oldest};
    while rest != {}
      invariant rest <= keys && oldest in keys
      invariant forall x | x in keys && x !in rest :: oldest.ms <= x.ms
      decreases rest
    {
      var k :| k in rest;
      rest := rest - {k};
      if k.ms < oldest.ms { oldest := k; }
    }
  }

  /** All keys but the rest have been read in ascending order, and the rest come later. */
  ghost predicate ReadSoFar(m: Index, rest: set<BucketStart>, ks: seq<BucketStart>, candles: seq<Candle>) {
    && Lists(ks, m.Keys - rest)
    && (forall b | b in rest && ks != [] :: ks[|ks| - 1].ms < b.ms)
    && |candles| == |ks| && forall i | 0 <= i < |ks| :: ks[i] in m && candles[i] == m[ks[i]]
  }

  lemma {:induction false} ReadMore(
    m: Index, rest: set<BucketStart>, ks: seq<BucketStart>, candles: seq<Candle>, oldest: BucketStart)
    requires ReadSoFar(m, rest, ks, candles) && rest <= m.Keys
    requires oldest in rest && forall x | x in rest :: oldest.ms <= x.ms
    ensures ReadSoFar(m, rest - {oldest}, ks + [oldest], candles + [m[oldest]])
  {
    ListsAppend(ks, m.Keys - rest, oldest);
    assert m.Keys - (rest - {oldest}) == m.Keys - rest + {oldest};
  }

  lemma {:induction false} ReadAll(m: Index, ks: seq<BucketStart>, candles: seq<Candle>)
    requires ReadSoFar(m, {}, ks, candles)
    ensures candles == Values(m)
  {
    assert m.Keys - {} == m.Keys;
    ListsUnique(ks, Ascending(m.Keys), m.Keys);
  }

  class TickAggregator {
    const interval: Interval
    var current: CandleBuilder?
    var completed: Index
    /** Every trade since creation or the last clear. */
    ghost var history: seq<Tick>

    /** The fields are what the history determines. */
    ghost predicate Valid()
      reads this, current
    {
      && completed == Stored(history)
      && (current == null ==> history == [])
      && (current != null ==> current.Valid() && history != [] && current.run == LastRun(history))
    }

    constructor (interval: Interval)
      ensures Valid() && history == [] && this.interval == interval
    {
      this.interval := interval;
      current, completed, history := null, map[], [];
      new;
      CapUnique(map[], Capped([]), LastWrites([]), MAX_CANDLES);
    }

    /** Stores a completed candle and drops the oldest one beyond the limit. */
    method Store(candle: Candle, ghost emitted: seq<Candle>)
      requires completed == Capped(emitted)
      modifies this`completed
      ensures completed == Capped(emitted + [candle])
    {
      completed := completed[candle.timestamp := candle];
      ghost var full := completed;
      if |completed| > MAX_CANDLES {
        assert candle.timestamp in completed.Keys;
        var oldest := Oldest(completed.Keys);
        completed := completed - {oldest};
      }
      assert IsEvicted(completed, full, MAX_CANDLES);
      assert (emitted + [candle])[..|emitted|] == emitted;
      InsertKeepsCap(Capped(emitted), LastWrites(emitted), candle.timestamp, candle, completed);
      CapUnique(completed, Capped(emitted + [candle]), LastWrites(emitted + [candle]), MAX_CANDLES);
    }

    /** Adds a trade; the candle it completes, if any, is the next one emitted. */
    method AddTrade(trade: Trade) returns (finished: Option<Candle>)
      requires Valid()
      modifies this`current, this`completed, this`history, current
      ensures Valid() && history == old(history) + [ToTick(interval, trade)]
      ensures Emitted(history) == Emitted(old(history)) + if finished.Some? then [finished.value] else []
      ensures finished.Some? <==>
              && old(history) != []
              && old(history)[|old(history)| - 1].start.ms != IntervalStart(interval, trade.timestamp)
    {
      var start := At(IntervalStart(interval, trade.timestamp));
      ghost var before, tick := history, ToTick(interval, trade);
      finished := None;
      history := history + [tick];
      if current != null {
        if current.timestamp == start {
          TradeInBucket(before, tick);
          current.Update(trade);
        } else {
          TradeOpensBucket(before, tick);
          var candle := current.View();
          current := new CandleBuilder(trade, start);
          Store(candle, Emitted(before));
          finished := Some(candle);
        }
      } else {
        current := new CandleBuilder(trade, start);
        FirstTrade(before, tick);
      }
    }

    method GetCandles() returns (candles: seq<Candle>)
      requires Valid()
      ensures candles == Shown(history)
    {
      candles := [];
      ghost var ks: seq<BucketStart> := [];
      var rest := completed.Keys;
      while rest != {}
        invariant rest <= completed.Keys && ReadSoFar(completed, rest, ks, candles)
        decreases rest
      {
        var oldest := Oldest(rest);
        ReadMore(completed, rest, ks, candles, oldest);
        candles := candles + [completed[oldest]];
        ks := ks + [oldest];
        rest := rest - {oldest};
      }
      ReadAll(completed, ks, candles);
      if current != null {
        candles := candles + [current.View()];
      }
    }

    method Clear()
      modifies this`current, this`completed, this`history
      ensures Valid() && history == []
    {
      current, completed, history := null, map[], [];
      CapUnique(map[], Capped([]), LastWrites([]), MAX_CANDLES);
    }
  }
}

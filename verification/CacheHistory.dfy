/** One cached answer with a time to live (server/src/client_handler.rs), against the history of
    the requests alone: which of them really asked, and which earlier answer each one shows. */
module CacheHistory {
  import opened Types

  const CACHE_TTL_MS: nat := 2000

  datatype Cached<T> = Cached(data: T, fetchedAt: nat)

  predicate IsFresh<T>(c: Option<Cached<T>>, now: nat) {
    c.Some? && now < c.value.fetchedAt + CACHE_TTL_MS
  }

  /** What a request means to the cache: it asks for a key, and this is what a fetch would
      give; or it makes the cached answer invalid; or it does not touch it. */
  datatype Touch<T> = Ask(key: string, answer: Option<T>) | Clear | Pass

  datatype TimedTouch<T> = TimedTouch(now: nat, touch: Touch<T>)

  /** The cached answer and the key it was asked for. */
  datatype Entry<T> = Entry(key: string, cached: Cached<T>)

  ghost predicate InOrder<T>(history: seq<TimedTouch<T>>) {
    forall i, k | 0 <= i <= k < |history| :: history[i].now <= history[k].now
  }

  // ---------- By the history ----------

  /** Request j asks, and a fetch would give an answer. */
  predicate Answered<T>(history: seq<TimedTouch<T>>, j: nat) {
    j < |history| && history[j].touch.Ask? && history[j].touch.answer.Some?
  }

  /** The answer fetched by j still stands before request k: nothing has made it invalid and
      no later request has fetched another. */
  ghost predicate Stands<T>(history: seq<TimedTouch<T>>, fetched: seq<bool>, j: nat, k: nat) {
    && j < k <= |history| == |fetched| && Answered(history, j) && fetched[j]
    && forall m | j < m < k :: !history[m].touch.Clear? && !fetched[m]
  }

  /** It stands, is for the same key, and is less than two seconds old. */
  ghost predicate Usable<T>(history: seq<TimedTouch<T>>, fetched: seq<bool>, j: nat, k: nat) {
    && Stands(history, fetched, j, k) && k < |history| && history[k].touch.Ask?
    && history[j].touch.key == history[k].touch.key && history[k].now - history[j].now < 2000
  }

  /** Which requests fetched an answer: those that would get one and have none usable. */
  ghost predicate IsFetchLog<T>(history: seq<TimedTouch<T>>, fetched: seq<bool>) {
    && |fetched| == |history|
    && forall k | 0 <= k < |history| ::
         fetched[k] <==> Answered(history, k) && !exists j :: Usable(history, fetched, j, k)
  }

  // ---------- By the cache ----------

  predicate Hit<T>(c: Option<Entry<T>>, key: string, now: nat) {
    c.Some? && c.value.key == key && IsFresh(Some(c.value.cached), now)
  }

  function After<T>(c: Option<Entry<T>>, t: TimedTouch<T>): Option<Entry<T>> {
    match t.touch
    case Clear => None
    case Pass => c
    case Ask(key, answer) =>
      if Hit(c, key, t.now) || answer.None? then c else Some(Entry(key, Cached(answer.value, t.now)))
  }

  /** The cache before request i. */
  function Before<T>(history: seq<TimedTouch<T>>, i: nat): Option<Entry<T>>
    requires i <= |history|
  {
    if i == 0 then None else After(Before(history, i - 1), history[i - 1])
  }

  function EntryOf<T>(history: seq<TimedTouch<T>>, j: nat): Entry<T>
    requires Answered(history, j)
  {
    Entry(history[j].touch.key, Cached(history[j].touch.answer.value, history[j].now))
  }

  /** The cache holds exactly the answer that stands. */
  ghost predicate Holds<T>(history: seq<TimedTouch<T>>, fetched: seq<bool>, i: nat, c: Option<Entry<T>>) {
    && (c.Some? ==> exists j :: Stands(history, fetched, j, i))
    && forall j | Stands(history, fetched, j, i) :: c == Some(EntryOf(history, j))
  }

  lemma {:induction false} HitIffUsable<T>(history: seq<TimedTouch<T>>, fetched: seq<bool>, i: nat, c: Option<Entry<T>>)
    requires i < |history| && Holds(history, fetched, i, c) && history[i].touch.Ask?
    ensures Hit(c, history[i].touch.key, history[i].now) <==> exists j :: Usable(history, fetched, j, i)
    ensures forall j | Usable(history, fetched, j, i) :: c == Some(EntryOf(history, j))
  {
    if Hit(c, history[i].touch.key, history[i].now) {
      var j :| Stands(history, fetched, j, i);
      assert Usable(history, fetched, j, i);
    }
  }

  lemma {:induction false} HoldsNext<T>(history: seq<TimedTouch<T>>, fetched: seq<bool>, i: nat, c: Option<Entry<T>>)
    requires IsFetchLog(history, fetched) && i < |history| && Holds(history, fetched, i, c)
    ensures Holds(history, fetched, i + 1, After(c, history[i]))
  {
    var t := history[i];
    if t.touch.Ask? { HitIffUsable(history, fetched, i, c); }
    forall j: nat
      ensures Stands(history, fetched, j, i + 1) <==>
              if j == i then fetched[i] else Stands(history, fetched, j, i) && !t.touch.Clear? && !fetched[i]
    {
    }
    if After(c, t).Some? {
      if fetched[i] {
        assert Stands(history, fetched, i, i + 1);
      } else {
        var j :| Stands(history, fetched, j, i);
        assert Stands(history, fetched, j, i + 1);
      }
    }
  }

  lemma {:induction false} BeforeHolds<T>(history: seq<TimedTouch<T>>, fetched: seq<bool>, i: nat)
    requires IsFetchLog(history, fetched) && i <= |history|
    ensures Holds(history, fetched, i, Before(history, i))
  {
    if i > 0 {
      BeforeHolds(history, fetched, i - 1);
      HoldsNext(history, fetched, i - 1, Before(history, i - 1));
    }
  }

  /** The cache answers a request exactly when some earlier answer is usable for it, and then
      with that answer. */
  lemma {:induction false} AnsweredIff<T>(history: seq<TimedTouch<T>>, fetched: seq<bool>, i: nat)
    requires IsFetchLog(history, fetched) && i < |history| && history[i].touch.Ask?
    ensures Hit(Before(history, i), history[i].touch.key, history[i].now) <==>
            exists j :: Usable(history, fetched, j, i)
    ensures forall j | Usable(history, fetched, j, i) :: Before(history, i) == Some(EntryOf(history, j))
  {
    BeforeHolds(history, fetched, i);
    HitIffUsable(history, fetched, i, Before(history, i));
  }

  // ---------- The log exists and is unique ----------

  ghost predicate LogUpTo<T>(history: seq<TimedTouch<T>>, fetched: seq<bool>, n: nat) {
    && n <= |history| == |fetched|
    && forall k | 0 <= k < n ::
         fetched[k] <==> Answered(history, k) && !exists j :: Usable(history, fetched, j, k)
  }

  /** Whether an answer is usable for k depends on the log before k only. */
  lemma {:induction false} UsableBefore<T>(history: seq<TimedTouch<T>>, f: seq<bool>, g: seq<bool>, k: nat)
    requires |f| == |g| == |history| && k < |history| && forall m | 0 <= m < k :: f[m] == g[m]
    ensures (exists j :: Usable(history, f, j, k)) <==> exists j :: Usable(history, g, j, k)
  {
    forall j: nat ensures Usable(history, f, j, k) <==> Usable(history, g, j, k) { }
  }

  lemma {:induction false} LogExists<T>(history: seq<TimedTouch<T>>, n: nat) returns (fetched: seq<bool>)
    requires n <= |history|
    ensures LogUpTo(history, fetched, n)
  {
    if n == 0 {
      fetched := seq(|history|, _ => false);
    } else {
      var k := n - 1;
      var before := LogExists(history, k);
      fetched := before[k := Answered(history, k) && !exists j :: Usable(history, before, j, k)];
      forall m | 0 <= m <= k
        ensures fetched[m] <==> Answered(history, m) && !exists j :: Usable(history, fetched, j, m)
      {
        UsableBefore(history, fetched, before, m);
      }
    }
  }

  lemma {:induction false} LogUnique<T>(history: seq<TimedTouch<T>>, f: seq<bool>, g: seq<bool>, n: nat)
    requires IsFetchLog(history, f) && IsFetchLog(history, g) && n <= |history|
    ensures forall m | 0 <= m < n :: f[m] == g[m]
  {
    if n > 0 {
      LogUnique(history, f, g, n - 1);
      UsableBefore(history, f, g, n - 1);
    }
  }

  /** Every history has exactly one such log. */
  lemma {:induction false} OneLog<T>(history: seq<TimedTouch<T>>) returns (fetched: seq<bool>)
    ensures IsFetchLog(history, fetched)
    ensures forall other | IsFetchLog(history, other) :: other == fetched
  {
    fetched := LogExists(history, |history|);
    forall other | IsFetchLog(history, other) ensures other == fetched {
      LogUnique(history, other, fetched, |history|);
    }
  }
}

/** The two persisted tables of the server (server/src/db.rs): activity stops keyed by
    symbol and side, and pending autostops keyed by limit order id. */
module StopStore {
  import opened Types

  /** A persisted activity stop. Times are milliseconds. */
  datatype StopRow = StopRow(
    symbol: string,
    side: Side,
    timeoutMs: nat,
    trigger: Option<real>,
    start: nat,
    active: bool)

  datatype AutostopKind = Trailing | Activity

  datatype TrailingTarget =
    | Absolute(amount: real)
    | Percentage(percent: real)
    | Ratio(numerator: nat, denominator: nat)

  datatype AutostopParams = AutostopParams(
    target: Option<TrailingTarget>,
    activePrice: Option<real>,
    timeoutSecs: Option<nat>,
    trigger: Option<real>)

  datatype PendingAutostop = PendingAutostop(
    orderId: string,
    symbol: string,
    side: Side,
    kind: AutostopKind,
    params: AutostopParams)

  // ---------- Keys ----------

  function SideName(side: Side): string {
    match side
    case Buy => "Buy"
    case Sell => "Sell"
  }

  function MakeKey(symbol: string, side: Side): string {
    symbol + ":" + SideName(side)
  }

  function RowKey(row: StopRow): string {
    MakeKey(row.symbol, row.side)
  }

  function PendingKey(orderId: string): string {
    "pending:" + orderId
  }

  /** Two stops share a table row exactly when they agree on symbol and side, whatever
      characters the symbol contains (a symbol may itself contain ":Buy"). */
  lemma {:induction false} MakeKeyInjective(s1: string, side1: Side, s2: string, side2: Side)
    ensures MakeKey(s1, side1) == MakeKey(s2, side2) <==> s1 == s2 && side1 == side2
  {
    var k1, k2 := MakeKey(s1, side1), MakeKey(s2, side2);
    if k1 == k2 {
      assert k1[|k1| - 1] == SideName(side1)[|SideName(side1)| - 1];
      assert k2[|k2| - 1] == SideName(side2)[|SideName(side2)| - 1];
      assert side1 == side2;
      assert |s1| == |s2|;
      assert k1[..|s1|] == s1 && k2[..|s2|] == s2;
    }
  }

  lemma {:induction false} PendingKeyInjective(id1: string, id2: string)
    ensures PendingKey(id1) == PendingKey(id2) <==> id1 == id2
  {
    assert PendingKey(id1)[8..] == id1 && PendingKey(id2)[8..] == id2;
  }

  // ---------- Key order ----------

  /** Strict lexicographic order, the order in which the table is iterated. */
  predicate KeyLt(a: string, b: string) {
    if b == "" then false
    else if a == "" then true
    else a[0] < b[0] || (a[0] == b[0] && KeyLt(a[1..], b[1..]))
  }

  /** The shorter of two keys of which one continues the other comes first, and otherwise the
      one with the smaller character where they first differ. */
  lemma {:induction false} KeyLtMeans(a: string, b: string)
    ensures KeyLt(a, b) <==>
            exists n :: && 0 <= n <= |a| && n < |b| && a[..n] == b[..n] && (n < |a| ==> a[n] < b[n])
    decreases |a|
  {
    if a == "" || b == "" {
      assert b != "" ==> a[..0] == b[..0];
    } else if a[0] == b[0] {
      KeyLtMeans(a[1..], b[1..]);
      KeyLtTails(a, b);
    } else {
      assert a[..0] == b[..0];
      forall n | 0 < n <= |a| && n < |b| ensures a[..n] != b[..n] { assert a[..n][0] == a[0] && b[..n][0] == b[0]; }
    }
  }

  lemma {:induction false} KeyLtTails(a: string, b: string)
    requires a != "" && b != "" && a[0] == b[0]
    ensures (exists n :: && 0 <= n <= |a| && n < |b| && a[..n] == b[..n] && (n < |a| ==> a[n] < b[n])) <==>
            (exists n :: && 0 <= n <= |a[1..]| && n < |b[1..]| && a[1..][..n] == b[1..][..n]
                         && (n < |a[1..]| ==> a[1..][n] < b[1..][n]))
  {
    if n :| 0 <= n <= |a| && n < |b| && a[..n] == b[..n] && (n < |a| ==> a[n] < b[n]) {
      assert n > 0;
      assert a[1..][..n - 1] == a[..n][1..] && b[1..][..n - 1] == b[..n][1..];
    }
    var x, y := a[1..], b[1..];
    if n :| 0 <= n <= |x| && n < |y| && x[..n] == y[..n] && (n < |x| ==> x[n] < y[n]) {
      assert a[..n + 1] == [a[0]] + a[1..][..n] && b[..n + 1] == [b[0]] + b[1..][..n];
    }
  }

  lemma {:induction false} KeyLtTotal(a: string, b: string)
    ensures a == b || KeyLt(a, b) || KeyLt(b, a)
    ensures !(KeyLt(a, b) && KeyLt(b, a))
    ensures KeyLt(a, b) ==> a != b
    decreases |a|
  {
    if a != "" && b != "" {
      KeyLtTotal(a[1..], b[1..]);
      assert a == [a[0]] + a[1..] && b == [b[0]] + b[1..];
    }
  }

  lemma {:induction false} KeyLtTransitive(a: string, b: string, c: string)
    requires KeyLt(a, b) && KeyLt(b, c)
    ensures KeyLt(a, c)
    decreases |a|
  {
    if a != "" && a[0] == b[0] && b[0] == c[0] {
      KeyLtTransitive(a[1..], b[1..], c[1..]);
    }
  }

  predicate IsLeastKey(k: string, keys: set<string>) {
    k in keys && forall x | x in keys :: x == k || KeyLt(k, x)
  }

  lemma {:induction false} LeastKeyUnique(k1: string, k2: string, keys: set<string>)
    requires IsLeastKey(k1, keys) && IsLeastKey(k2, keys)
    ensures k1 == k2
  {
    KeyLtTotal(k1, k2);
  }

  lemma {:induction false} LeastKeyExists(keys: set<string>)
    requires keys != {}
    ensures exists k :: IsLeastKey(k, keys)
  {
    var x :| x in keys;
    var rest := keys - {x};
    if rest == {} {
      assert keys == {x};
      assert IsLeastKey(x, keys);
    } else {
      LeastKeyExists(rest);
      var m :| IsLeastKey(m, rest);
      KeyLtTotal(x, m);
      var least := if KeyLt(x, m) then x else m;
      forall y | y in keys ensures y == least || KeyLt(least, y) {
        if y != x && y != m && least == x { KeyLtTransitive(x, m, y); }
      }
      assert IsLeastKey(least, keys);
    }
  }

  ghost function LeastKey(keys: set<string>): (k: string)
    requires keys != {}
    ensures IsLeastKey(k, keys)
  {
    LeastKeyExists(keys);
    var k :| IsLeastKey(k, keys); k
  }

  /** The first row of the table in iteration order, if there is one. */
  ghost function FirstRow(stops: map<string, StopRow>): Option<StopRow> {
    if stops.Keys == {} then None else Some(stops[LeastKey(stops.Keys)])
  }

  // ---------- The database ----------

  class Database {
    var stops: map<string, StopRow>
    var pendings: map<string, PendingAutostop>

    constructor ()
      ensures stops == map[] && pendings == map[]
    {
      stops, pendings := map[], map[];
    }

    method SaveActivityStop(row: StopRow)
      modifies this`stops
      ensures stops == old(stops)[RowKey(row) := row]
    {
      stops := stops[RowKey(row) := row];
    }

    /** Removes one row and leaves the row of every other symbol or side alone. */
    method DeleteActivityStop(symbol: string, side: Side)
      modifies this`stops
      ensures stops == old(stops) - {MakeKey(symbol, side)}
      ensures forall sym, sd | sym != symbol || sd != side ::
                MakeKey(sym, sd) in stops <==> MakeKey(sym, sd) in old(stops)
    {
      stops := stops - {MakeKey(symbol, side)};
      forall sym, sd | sym != symbol || sd != side
        ensures MakeKey(sym, sd) in stops <==> MakeKey(sym, sd) in old(stops)
      {
        MakeKeyInjective(sym, sd, symbol, side);
      }
    }

    /** Loads every row and keeps the first: the scan is in key order. */
    method LoadFirstActivityStop() returns (r: Option<StopRow>)
      ensures r == FirstRow(stops)
    {
      var rest := stops.Keys;
      if rest == {} { return None; }
      var least :| least in rest;
      rest := rest - {least};
      while rest != {}
        invariant rest < stops.Keys && least in stops
        invariant IsLeastKey(least, stops.Keys - rest)
        decreases rest
      {
        var k :| k in rest;
        rest := rest - {k};
        KeyLtTotal(k, least);
        if KeyLt(k, least) {
          forall y | y in stops.Keys - rest ensures y == k || KeyLt(k, y) {
            if y != k && y != least { KeyLtTransitive(k, least, y); }
          }
          least := k;
        }
      }
      assert stops.Keys - rest == stops.Keys;
      LeastKeyUnique(least, LeastKey(stops.Keys), stops.Keys);
      r := Some(stops[least]);
    }

    method SavePendingAutostop(cmd: PendingAutostop)
      modifies this`pendings
      ensures pendings == old(pendings)[PendingKey(cmd.orderId) := cmd]
    {
      pendings := pendings[PendingKey(cmd.orderId) := cmd];
    }

    method LoadPendingAutostop(orderId: string) returns (r: Option<PendingAutostop>)
      ensures r.Some? <==> PendingKey(orderId) in pendings
      ensures r.Some? ==> r.value == pendings[PendingKey(orderId)]
    {
      var key := PendingKey(orderId);
      r := if key in pendings then Some(pendings[key]) else None;
    }

    method DeletePendingAutostop(orderId: string)
      modifies this`pendings
      ensures pendings == old(pendings) - {PendingKey(orderId)}
      ensures forall id | id != orderId :: PendingKey(id) in pendings <==> PendingKey(id) in old(pendings)
    {
      pendings := pendings - {PendingKey(orderId)};
      forall id | id != orderId ensures PendingKey(id) in pendings <==> PendingKey(id) in old(pendings) {
        PendingKeyInjective(id, orderId);
      }
    }
  }
}

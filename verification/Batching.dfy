/** Greedy packing of messages into UDP-sized batches (shared/src/protocol.rs). The size
    test counts two header bytes per message while three are written, so a batch of several
    messages can reach 1386 bytes, one more than the room left by the packet header. */
module Batching {
  import opened Protocol

  datatype Msg = Msg(msgType: MessageType, payload: Bytes)

  const ROOM: nat := MAX_UDP_PACKET_SIZE - UDP_HEADER_SIZE

  /** The bound a batch of several messages really meets. */
  const LIMIT: nat := ROOM + 1

  function MsgBytes(m: Msg): Bytes {
    [ToU8(m.msgType)] + PutLe(|m.payload|, 2) + m.payload
  }

  function MsgSize(m: Msg): nat { 3 + |m.payload| }

  function BatchBytes(batch: seq<Msg>): (bs: Bytes)
    ensures |bs| == Size(batch)
  {
    if batch == [] then [] else BatchBytes(batch[..|batch| - 1]) + MsgBytes(batch[|batch| - 1])
  }

  function Size(batch: seq<Msg>): nat {
    if batch == [] then 0 else Size(batch[..|batch| - 1]) + MsgSize(batch[|batch| - 1])
  }

  // ---------- Splits ----------

  function Flatten(batches: seq<seq<Msg>>): seq<Msg> {
    if batches == [] then [] else batches[0] + Flatten(batches[1..])
  }

  /** One message of any size, or several that together stay within the limit. */
  predicate Fits(batch: seq<Msg>) {
    |batch| == 1 || (|batch| > 1 && Size(batch) <= LIMIT)
  }

  ghost predicate IsSplit(batches: seq<seq<Msg>>, msgs: seq<Msg>) {
    Flatten(batches) == msgs && forall i | 0 <= i < |batches| :: Fits(batches[i])
  }

  /** The greedy split that continues from a batch already begun. */
  function Greedy(open: seq<Msg>, rest: seq<Msg>): seq<seq<Msg>>
    decreases |rest|
  {
    if rest == [] then (if open == [] then [] else [open])
    else if open != [] && Size(open) + 2 + |rest[0].payload| > ROOM then [open] + Greedy([rest[0]], rest[1..])
    else Greedy(open + [rest[0]], rest[1..])
  }

  lemma {:induction false} SizeAppend(batch: seq<Msg>, m: Msg)
    ensures Size(batch + [m]) == Size(batch) + MsgSize(m)
    ensures BatchBytes(batch + [m]) == BatchBytes(batch) + MsgBytes(m)
  {
    assert (batch + [m])[..|batch|] == batch;
  }

  /** Messages come out in order, none lost, split or repeated, and every batch fits. */
  lemma {:induction false} GreedySplits(open: seq<Msg>, rest: seq<Msg>)
    requires open == [] || Fits(open)
    ensures IsSplit(Greedy(open, rest), open + rest)
    decreases |rest|
  {
    if rest == [] {
      assert open + rest == open;
      if open != [] { assert Flatten([open]) == open + Flatten([]); }
    } else {
      var m := rest[0];
      assert rest == [m] + rest[1..];
      SizeAppend(open, m);
      if open != [] && Size(open) + 2 + |m.payload| > ROOM {
        GreedySplits([m], rest[1..]);
        var later := Greedy([m], rest[1..]);
        assert ([open] + later)[1..] == later;
      } else {
        GreedySplits(open + [m], rest[1..]);
        assert open + rest == open + [m] + rest[1..];
      }
    }
  }

  // ---------- Greedy is optimal ----------

  lemma {:induction false} SizeSplit(a: seq<Msg>, b: seq<Msg>)
    ensures Size(a + b) == Size(a) + Size(b)
  {
    if b == [] {
      assert a + b == a;
    } else {
      var n := |b| - 1;
      SizeSplit(a, b[..n]);
      assert (a + b)[..|a + b| - 1] == a + b[..n];
    }
  }

  lemma {:induction false} SuffixFits(batch: seq<Msg>, n: nat)
    requires Fits(batch) && n < |batch|
    ensures Fits(batch[n..])
  {
    SizeSplit(batch[..n], batch[n..]);
    assert batch == batch[..n] + batch[n..];
  }

  /** Some split of what remains after dropping n messages, with no more batches, and with
      fewer when the drop covers the first batch. */
  lemma {:induction false} DropFromSplit(batches: seq<seq<Msg>>, msgs: seq<Msg>, n: nat) returns (less: seq<seq<Msg>>)
    requires IsSplit(batches, msgs) && n <= |msgs|
    ensures IsSplit(less, msgs[n..]) && |less| <= |batches|
    ensures batches != [] && |batches[0]| <= n ==> |less| < |batches|
    decreases |batches|
  {
    if batches == [] {
      less := [];
    } else {
      var first, rest := batches[0], msgs[|batches[0]|..];
      assert IsSplit(batches[1..], rest);
      if |first| <= n {
        less := DropFromSplit(batches[1..], rest, n - |first|);
        assert rest[n - |first|..] == msgs[n..];
      } else {
        SuffixFits(first, n);
        less := [first[n..]] + batches[1..];
        assert less[1..] == batches[1..];
        assert msgs[n..] == first[n..] + rest;
      }
    }
  }

  lemma {:induction false} GreedyCloses(open: seq<Msg>, rest: seq<Msg>)
    requires open != [] && rest != [] && Size(open) + 2 + |rest[0].payload| > ROOM
    ensures Greedy(open, rest) == [open] + Greedy([], rest)
  {
    assert [] + [rest[0]] == [rest[0]];
    assert Greedy([], rest) == Greedy([rest[0]], rest[1..]);
  }

  lemma {:induction false} LongerIsTooLong(open: seq<Msg>, rest: seq<Msg>, k: nat)
    requires open != [] && rest != [] && Size(open) + 2 + |rest[0].payload| > ROOM
    requires |open| < k <= |open + rest|
    ensures !Fits((open + rest)[..k])
  {
    var m := rest[0];
    var more := rest[1..k - |open|];
    SizeAppend(open, m);
    TakeAcross(open, rest, k);
    SizeSplit(open + [m], more);
  }

  lemma {:induction false} TakeAcross(a: seq<Msg>, b: seq<Msg>, k: nat)
    requires b != [] && |a| < k <= |a + b|
    ensures (a + b)[..k] == (a + [b[0]]) + b[1..k - |a|]
  {
  }

  /** The first batch of a greedy split is the longest prefix that fits. */
  lemma {:induction false} FirstIsLongest(open: seq<Msg>, rest: seq<Msg>)
    requires open + rest != [] && (open == [] || Fits(open))
    ensures var g := Greedy(open, rest);
            && g != [] && |open| <= |g[0]| && g[0] <= open + rest
            && g[1..] == Greedy([], (open + rest)[|g[0]|..])
            && forall k | |g[0]| < k <= |open + rest| :: !Fits((open + rest)[..k])
    decreases |rest|
  {
    var all := open + rest;
    if rest == [] {
      assert Greedy(open, rest) == [open];
      assert all[|open|..] == [];
    } else {
      var m := rest[0];
      assert rest == [m] + rest[1..];
      if open != [] && Size(open) + 2 + |m.payload| > ROOM {
        GreedyCloses(open, rest);
        assert all[|open|..] == rest;
        forall k | |open| < k <= |all| ensures !Fits(all[..k]) { LongerIsTooLong(open, rest, k); }
      } else {
        SizeAppend(open, m);
        FirstIsLongest(open + [m], rest[1..]);
        assert all == (open + [m]) + rest[1..];
      }
    }
  }

  lemma {:induction false} FlattenPrefix(batches: seq<seq<Msg>>, msgs: seq<Msg>)
    requires IsSplit(batches, msgs) && batches != []
    ensures |batches[0]| <= |msgs| && batches[0] == msgs[..|batches[0]|]
  {
  }

  /** No in-order split under the same bound uses fewer packets. */
  lemma {:induction false} GreedyIsOptimal(batches: seq<seq<Msg>>, msgs: seq<Msg>)
    requires IsSplit(batches, msgs)
    ensures |Greedy([], msgs)| <= |batches|
    decreases |msgs|
  {
    if msgs != [] {
      assert [] + msgs == msgs;
      FirstIsLongest([], msgs);
      FlattenPrefix(batches, msgs);
      var n := |Greedy([], msgs)[0]|;
      assert |batches[0]| <= n;
      assert n > 0;
      var less := DropFromSplit(batches, msgs, n);
      GreedyIsOptimal(less, msgs[n..]);
    }
  }

  // ---------- Reading batches back ----------

  datatype Reading = Complete(msgs: seq<Msg>) | Malformed

  /** The reader of the batch format: a code, a 16-bit length, that many bytes, repeat. */
  function Parse(data: Bytes): Reading
    decreases |data|
  {
    if data == [] then Complete([])
    else if |data| < 3 then Malformed
    else
      var length := GetLe(data[1..3]);
      if FromU8(data[0]).Err? || |data| - 3 < length then Malformed
      else match Parse(data[3 + length..])
        case Malformed => Malformed
        case Complete(rest) => Complete([Msg(FromU8(data[0]).value, data[3..3 + length])] + rest)
  }

  function AllBytes(msgs: seq<Msg>): Bytes {
    if msgs == [] then [] else MsgBytes(msgs[0]) + AllBytes(msgs[1..])
  }

  lemma {:induction false} Reassociate(x: Bytes, y: Bytes, z: Bytes)
    ensures x + (y + z) == (x + y) + z
  {
  }

  lemma {:induction false} AllBytesOfFirst(m: Msg, rest: seq<Msg>, msgs: seq<Msg>)
    requires msgs == [m] + rest
    ensures AllBytes(msgs) == MsgBytes(m) + AllBytes(rest)
  {
    assert msgs[1..] == rest;
  }

  lemma {:induction false} AllBytesAppend(a: seq<Msg>, b: seq<Msg>)
    ensures AllBytes(a + b) == AllBytes(a) + AllBytes(b)
  {
    if a == [] {
      assert a + b == b;
    } else {
      var m, rest := a[0], a[1..];
      AllBytesAppend(rest, b);
      AllBytesOfFirst(m, rest + b, a + b);
      AllBytesOfFirst(m, rest, a);
      Reassociate(MsgBytes(m), AllBytes(rest), AllBytes(b));
    }
  }

  lemma {:induction false} BatchIsAll(batch: seq<Msg>)
    ensures BatchBytes(batch) == AllBytes(batch)
  {
    if batch != [] {
      var n := |batch| - 1;
      BatchIsAll(batch[..n]);
      AllBytesAppend(batch[..n], [batch[n]]);
      assert batch == batch[..n] + [batch[n]];
      assert AllBytes([batch[n]]) == MsgBytes(batch[n]) + AllBytes([]);
    }
  }

  function Packets(batches: seq<seq<Msg>>): (ps: seq<Bytes>)
    ensures |ps| == |batches|
  {
    if batches == [] then [] else [BatchBytes(batches[0])] + Packets(batches[1..])
  }

  function Joined(packets: seq<Bytes>): Bytes {
    if packets == [] then [] else packets[0] + Joined(packets[1..])
  }

  lemma {:induction false} JoinedPackets(batches: seq<seq<Msg>>)
    ensures Joined(Packets(batches)) == AllBytes(Flatten(batches))
  {
    if batches != [] {
      JoinedPackets(batches[1..]);
      BatchIsAll(batches[0]);
      AllBytesAppend(batches[0], Flatten(batches[1..]));
    }
  }

  lemma {:induction false} Base2()
    ensures Base(2) == 0x10000
  {
    assert Base(1) == 0x100;
  }

  lemma {:induction false} ParseOne(m: Msg, tail: Bytes)
    requires |m.payload| <= 65535
    ensures Parse(MsgBytes(m) + tail) ==
            match Parse(tail) case Malformed => Malformed case Complete(rest) => Complete([m] + rest)
  {
    var data := MsgBytes(m) + tail;
    Base2();
    GetOfPut(|m.payload|, 2);
    assert data[0] == ToU8(m.msgType);
    FromToU8(m.msgType);
    assert data[1..3] == PutLe(|m.payload|, 2);
    assert data[3..3 + |m.payload|] == m.payload;
    assert data[3 + |m.payload|..] == tail;
  }

  lemma {:induction false} ParseAll(msgs: seq<Msg>)
    requires forall i | 0 <= i < |msgs| :: |msgs[i].payload| <= 65535
    ensures Parse(AllBytes(msgs)) == Complete(msgs)
  {
    if msgs != [] {
      ParseAll(msgs[1..]);
      ParseOne(msgs[0], AllBytes(msgs[1..]));
      assert msgs == [msgs[0]] + msgs[1..];
    }
  }

  lemma {:induction false} ParsedAreShort(data: Bytes)
    requires Parse(data).Complete?
    ensures forall i | 0 <= i < |Parse(data).msgs| :: |Parse(data).msgs[i].payload| <= 65535
    decreases |data|
  {
    if data != [] {
      var length := GetLe(data[1..3]);
      Base2();
      GetLeBound(data[1..3]);
      ParsedAreShort(data[3 + length..]);
    }
  }

  /** The packets of a batch run, joined, read back as exactly the input messages if and
      only if no payload exceeds the 16-bit length field. */
  lemma {:induction false} BatchesReadBackIff(msgs: seq<Msg>)
    ensures Parse(Joined(Packets(Greedy([], msgs)))) == Complete(msgs) <==>
            forall i | 0 <= i < |msgs| :: |msgs[i].payload| <= 65535
  {
    GreedySplits([], msgs);
    assert [] + msgs == msgs;
    JoinedPackets(Greedy([], msgs));
    if forall i | 0 <= i < |msgs| :: |msgs[i].payload| <= 65535 {
      ParseAll(msgs);
    } else if Parse(AllBytes(msgs)).Complete? {
      ParsedAreShort(AllBytes(msgs));
    }
  }

  lemma {:induction false} PacketAt(batches: seq<seq<Msg>>, i: nat)
    requires i < |batches|
    ensures Packets(batches)[i] == BatchBytes(batches[i])
  {
    if i > 0 { PacketAt(batches[1..], i - 1); }
  }

  /** Every packet carries one message or is at most 1386 bytes long, and 1386 is reached. */
  lemma {:induction false} PacketBound(msgs: seq<Msg>, i: nat)
    requires i < |Packets(Greedy([], msgs))|
    ensures |Greedy([], msgs)[i]| == 1 || |Packets(Greedy([], msgs))[i]| <= 1386
  {
    GreedySplits([], msgs);
    PacketAt(Greedy([], msgs), i);
  }

  /** Two messages with 1380 payload bytes between them make one packet of 1386 bytes,
      which with the 15-byte packet header no longer fits into 1400. */
  lemma {:induction false} BoundIsReached(a: Msg, b: Msg)
    requires |a.payload| + |b.payload| == 1380
    ensures Greedy([], [a, b]) == [[a, b]] && |Packets(Greedy([], [a, b]))[0]| == 1386
    ensures |Packets(Greedy([], [a, b]))[0]| + UDP_HEADER_SIZE > MAX_UDP_PACKET_SIZE
  {
    SizeAppend([], a);
    SizeAppend([a], b);
    assert [] + [a] == [a] && [a] + [b] == [a, b];
    assert [a, b][1..] == [b] && [b][1..] == [];
    assert Greedy([], [a, b]) == Greedy([a], [b]) == Greedy([a, b], []);
  }

  // ---------- Which packets are overfull ----------

  /** Several messages that take more than the room left by the packet header. */
  predicate Overfull(batch: seq<Msg>) {
    |batch| > 1 && Size(batch) > ROOM
  }

  /** A greedy split takes the longest prefix that fits, and goes on with the rest. */
  lemma {:induction false} FirstBatch(msgs: seq<Msg>) returns (n: nat)
    requires msgs != []
    ensures 0 < n <= |msgs| && Greedy([], msgs) == [msgs[..n]] + Greedy([], msgs[n..]) && Fits(msgs[..n])
    ensures forall k | n < k <= |msgs| :: !Fits(msgs[..k])
  {
    assert [] + msgs == msgs;
    FirstIsLongest([], msgs);
    GreedySplits([], msgs);
    var g := Greedy([], msgs);
    n := |g[0]|;
    assert g == [g[0]] + g[1..];
  }

  lemma {:induction false} PrefixSize(msgs: seq<Msg>, k: nat, n: nat)
    requires k <= n <= |msgs|
    ensures Size(msgs[..k]) <= Size(msgs[..n])
  {
    assert msgs[..n] == msgs[..k] + msgs[k..n];
    SizeSplit(msgs[..k], msgs[k..n]);
  }

  /** The first packet is overfull exactly when some two or more first messages take 1386
      bytes together. */
  lemma {:induction false} FirstOverfullIff(msgs: seq<Msg>)
    requires msgs != []
    ensures Greedy([], msgs) != []
    ensures Overfull(Greedy([], msgs)[0]) <==> exists k :: 2 <= k <= |msgs| && Size(msgs[..k]) == LIMIT
  {
    var n := FirstBatch(msgs);
    if k :| 2 <= k <= |msgs| && Size(msgs[..k]) == LIMIT {
      assert Fits(msgs[..k]);
      PrefixSize(msgs, k, n);
    }
  }

  /** The number of messages in the batches before b. */
  function Start(batches: seq<seq<Msg>>, b: nat): nat
    requires b <= |batches|
  {
    if b == 0 then 0 else |batches[0]| + Start(batches[1..], b - 1)
  }

  lemma {:induction false} StartOfMore(first: seq<Msg>, tail: seq<seq<Msg>>, b: nat)
    requires 0 < b <= |tail| + 1
    ensures Start([first] + tail, b) == |first| + Start(tail, b - 1)
    ensures ([first] + tail)[b..] == tail[b - 1..]
  {
    assert ([first] + tail)[1..] == tail;
  }

  /** The batches from b on are the greedy split of the messages from there on. */
  lemma {:induction false} TailIsGreedy(msgs: seq<Msg>, b: nat)
    requires b < |Greedy([], msgs)|
    ensures var g := Greedy([], msgs);
            Start(g, b) < |msgs| && g[b..] == Greedy([], msgs[Start(g, b)..])
    decreases b
  {
    assert msgs != [];
    if b == 0 {
      assert Greedy([], msgs)[0..] == Greedy([], msgs) && msgs[0..] == msgs;
    } else {
      var n := FirstBatch(msgs);
      var tail := Greedy([], msgs[n..]);
      StartOfMore(msgs[..n], tail, b);
      TailIsGreedy(msgs[n..], b - 1);
      DropsOn(msgs, n, Start(tail, b - 1));
    }
  }

  lemma {:induction false} DropsOn<T>(s: seq<T>, m: nat, k: nat)
    requires m + k <= |s|
    ensures s[m..][k..] == s[m + k..]
  {
  }

  /** Any packet is overfull exactly when, from its first message on, some two or more
      consecutive messages take 1386 bytes together. */
  lemma {:induction false} OverfullIff(msgs: seq<Msg>, b: nat)
    requires b < |Greedy([], msgs)|
    ensures var g := Greedy([], msgs); var start := Start(g, b);
            && start < |msgs|
            && (Overfull(g[b]) <==> exists e :: start + 2 <= e <= |msgs| && Size(msgs[start..e]) == LIMIT)
  {
    var g := Greedy([], msgs);
    TailIsGreedy(msgs, b);
    var start := Start(g, b);
    var rest := msgs[start..];
    FirstOverfullIff(rest);
    assert g[b..][0] == g[b];
    if k :| 2 <= k <= |rest| && Size(rest[..k]) == LIMIT {
      assert rest[..k] == msgs[start..start + k];
    }
    if e :| start + 2 <= e <= |msgs| && Size(msgs[start..e]) == LIMIT {
      assert rest[..e - start] == msgs[start..e];
    }
  }

  /** What a caller can check: if no two or more consecutive messages take exactly 1386
      bytes, every packet of several messages is accepted as a payload. */
  lemma {:induction false} AcceptedIfNoRun(msgs: seq<Msg>, b: nat)
    requires forall i, e | 0 <= i && i + 2 <= e <= |msgs| :: Size(msgs[i..e]) != LIMIT
    requires b < |Greedy([], msgs)| && |Greedy([], msgs)[b]| > 1
    ensures UDP_HEADER_SIZE + |Packets(Greedy([], msgs))[b]| <= MAX_UDP_PACKET_SIZE
  {
    OverfullIff(msgs, b);
    PacketAt(Greedy([], msgs), b);
  }

  // ---------- The loop ----------

  lemma {:induction false} PacketsOfFirst(first: seq<Msg>, rest: seq<seq<Msg>>, batches: seq<seq<Msg>>)
    requires batches == [first] + rest
    ensures Packets(batches) == [BatchBytes(first)] + Packets(rest)
  {
    assert batches[1..] == rest;
  }

  lemma {:induction false} PacketsAppend(a: seq<seq<Msg>>, b: seq<seq<Msg>>)
    ensures Packets(a + b) == Packets(a) + Packets(b)
  {
    if a == [] {
      assert a + b == b;
    } else {
      var first, rest := a[0], a[1..];
      PacketsAppend(rest, b);
      PacketsOfFirst(first, rest + b, a + b);
      PacketsOfFirst(first, rest, a);
      assert [BatchBytes(first)] + (Packets(rest) + Packets(b)) == ([BatchBytes(first)] + Packets(rest)) + Packets(b);
    }
  }

  lemma {:induction false} CountBound(batch: seq<Msg>)
    ensures 3 * |batch| <= Size(batch)
  {
    if batch != [] { CountBound(batch[..|batch| - 1]); }
  }

  /** After i messages: some batches are closed and one may be open. */
  ghost predicate Continues(msgs: seq<Msg>, closed: seq<seq<Msg>>, open: seq<Msg>, i: nat) {
    && i <= |msgs|
    && (open == [] || Fits(open))
    && Greedy([], msgs) == closed + Greedy(open, msgs[i..])
  }

  /** One turn of the loop: the batch is closed first when the message would overfill it. */
  lemma {:induction false} GreedyTurn(msgs: seq<Msg>, closed: seq<seq<Msg>>, open: seq<Msg>, i: nat)
    requires Continues(msgs, closed, open, i) && i < |msgs|
    ensures if open != [] && Size(open) + 2 + |msgs[i].payload| > ROOM
            then Continues(msgs, closed + [open], [msgs[i]], i + 1)
            else Continues(msgs, closed, open + [msgs[i]], i + 1) && |open| + 1 < 0x10000
  {
    var m := msgs[i];
    assert msgs[i..][0] == m && msgs[i..][1..] == msgs[i + 1..];
    SizeAppend(open, m);
    CountBound(open);
    if open != [] && Size(open) + 2 + |m.payload| > ROOM {
      var later := Greedy([m], msgs[i + 1..]);
      assert Greedy(open, msgs[i..]) == [open] + later;
      assert closed + ([open] + later) == (closed + [open]) + later;
    }
  }

  lemma {:induction false} PacketsPush(closed: seq<seq<Msg>>, batch: seq<Msg>)
    ensures Packets(closed + [batch]) == Packets(closed) + [BatchBytes(batch)]
  {
    PacketsAppend(closed, [batch]);
    assert Packets([batch]) == [BatchBytes(batch)] + Packets([]);
  }

  method PutMessage(buffer: Bytes, m: Msg) returns (longer: Bytes)
    ensures longer == buffer + MsgBytes(m)
  {
    longer := buffer + [ToU8(m.msgType)];
    longer := longer + PutLe(|m.payload|, 2);
    longer := longer + m.payload;
  }

  /** Packs messages with a buffer and a 16-bit count, which never overflows. */
  method BatchUdpMessages(msgs: seq<Msg>) returns (packets: seq<Bytes>)
    ensures packets == Packets(Greedy([], msgs))
  {
    if msgs == [] {
      return [];
    }
    packets := [];
    var current: Bytes := [];
    var count := 0;
    ghost var open: seq<Msg>, closed: seq<seq<Msg>> := [], [];
    var i := 0;
    assert msgs[0..] == msgs;
    while i < |msgs|
      invariant 0 <= i <= |msgs|
      invariant Continues(msgs, closed, open, i)
      invariant packets == Packets(closed) && current == BatchBytes(open) && count == |open| < 0x10000
    {
      GreedyTurn(msgs, closed, open, i);
      if |current| + 2 + |msgs[i].payload| > ROOM && count > 0 {
        PacketsPush(closed, open);
        packets := packets + [current];
        current, count := [], 0;
        closed, open := closed + [open], [];
      }
      SizeAppend(open, msgs[i]);
      current := PutMessage(current, msgs[i]);
      count := count + 1;
      open := open + [msgs[i]];
      i := i + 1;
    }
    assert msgs[i..] == [];
    if count > 0 {
      PacketsPush(closed, open);
      packets := packets + [current];
      assert Greedy([], msgs) == closed + [open];
    } else {
      assert Greedy([], msgs) == closed;
    }
  }
}

/** Loss counting over wrapping 32-bit packet numbers (client/src/udp_client.rs). */
module SequenceTracker {

  const WRAP: nat := 0x1_0000_0000
  const U32_MAX: nat := WRAP - 1

  type u32 = x: nat | x < 0x1_0000_0000

  datatype Counts = Counts(last: u32, lost: nat, outOfOrder: nat, total: nat)

  const FRESH := Counts(0, 0, 0, 0)

  /** What one packet does to the counters. */
  function Check(c: Counts, packet: u32): Counts {
    if c.total == 0 then Counts(packet, c.lost, c.outOfOrder, 1)
    else
      var expected := (c.last + 1) % WRAP;
      if packet == expected then Counts(packet, c.lost, c.outOfOrder, c.total + 1)
      else if packet > expected || (expected > U32_MAX - 1000 && packet < 1000) then
        Counts(packet, c.lost + (packet - expected) % WRAP, c.outOfOrder, c.total + 1)
      else Counts(packet, c.lost, c.outOfOrder + 1, c.total + 1)
  }

  class Tracker {
    var lastSequence: u32
    var lostPackets: nat
    var outOfOrder: nat
    var totalPackets: nat

    function View(): Counts
      reads this
    {
      Counts(lastSequence, lostPackets, outOfOrder, totalPackets)
    }

    constructor ()
      ensures View() == FRESH
    {
      lastSequence, lostPackets, outOfOrder, totalPackets := 0, 0, 0, 0;
    }

    method CheckSequence(packet: u32)
      modifies this
      ensures View() == Check(old(View()), packet)
    {
      totalPackets := totalPackets + 1;
      if totalPackets == 1 {
        lastSequence := packet;
        return;
      }
      var expected: u32 := if lastSequence == U32_MAX then 0 else lastSequence + 1;
      assert expected == (lastSequence + 1) % WRAP;
      if packet < expected { WrapBack(packet - expected); }
      if packet != expected {
        if packet > expected || (expected > U32_MAX - 1000 && packet < 1000) {
          var gap := if packet >= expected then packet - expected else packet + WRAP - expected;
          lostPackets := lostPackets + gap;
        } else {
          outOfOrder := outOfOrder + 1;
        }
      }
      lastSequence := packet;
    }
  }

  // ---------- Streams in unwrapped numbering ----------

  /** The counters after the first n of the packets numbered us, each sent modulo 2^32. */
  function After(us: seq<nat>, n: nat): Counts
    requires n <= |us|
  {
    if n == 0 then FRESH else Check(After(us, n - 1), us[n - 1] % WRAP)
  }

  /** In order, and no gap as long as a full turn of the numbering. */
  ghost predicate InOrder(us: seq<nat>) {
    forall i | 0 < i < |us| :: us[i - 1] < us[i] <= us[i - 1] + WRAP
  }

  function Missing(us: seq<nat>, i: nat): nat
    requires 0 < i < |us| && us[i - 1] < us[i]
  {
    us[i] - us[i - 1] - 1
  }

  /** The step to packet i crosses no wrap, or crosses it from the last thousand numbers
      into the first thousand, or loses nothing. */
  predicate Recognised(us: seq<nat>, i: nat)
    requires 0 < i < |us| && us[i - 1] < us[i]
  {
    var expected := (us[i - 1] + 1) % WRAP;
    var landing := expected + Missing(us, i);
    Missing(us, i) == 0 || landing < WRAP || (expected > U32_MAX - 1000 && landing - WRAP < 1000)
  }

  lemma {:induction false} WrapAdd(a: nat, g: nat)
    requires g < WRAP
    ensures (a + g) % WRAP == if a % WRAP + g < WRAP then a % WRAP + g else a % WRAP + g - WRAP
  {
  }

  /** A step adds exactly the missing packets to the losses when it is recognised, and is
      taken for reordering otherwise. */
  lemma {:induction false} StepCounts(us: seq<nat>, i: nat, c: Counts)
    requires InOrder(us) && 0 < i < |us| && c.total > 0 && c.last == us[i - 1] % WRAP
    ensures Check(c, us[i] % WRAP) ==
            if Recognised(us, i) then Counts(us[i] % WRAP, c.lost + Missing(us, i), c.outOfOrder, c.total + 1)
            else Counts(us[i] % WRAP, c.lost, c.outOfOrder + 1, c.total + 1)
  {
    var expected, gap := (us[i - 1] + 1) % WRAP, Missing(us, i);
    WrapAdd(us[i - 1] + 1, gap);
    WrapAdd(us[i - 1], 1);
    assert us[i] == us[i - 1] + 1 + gap;
    var landing := if expected + gap < WRAP then expected + gap else expected + gap - WRAP;
    StepLands(c, expected, gap, landing);
  }

  /** Seen from the expected number, the next packet is gap numbers on, past the wrap or not. */
  lemma {:induction false} StepLands(c: Counts, expected: u32, gap: nat, landing: u32)
    requires c.total > 0 && gap < WRAP && expected == if c.last == U32_MAX then 0 else c.last + 1
    requires landing == if expected + gap < WRAP then expected + gap else expected + gap - WRAP
    ensures Check(c, landing) ==
            if gap == 0 || expected + gap < WRAP || (expected > U32_MAX - 1000 && expected + gap - WRAP < 1000)
            then Counts(landing, c.lost + gap, c.outOfOrder, c.total + 1)
            else Counts(landing, c.lost, c.outOfOrder + 1, c.total + 1)
  {
    assert (c.last + 1) % WRAP == expected;
    if landing >= expected {
      assert (landing - expected) % WRAP == landing - expected;
    } else {
      WrapBack(landing - expected);
    }
  }

  lemma {:induction false} WrapBack(d: int)
    requires d < 0 <= d + WRAP
    ensures d % WRAP == d + WRAP
  {
  }

  ghost predicate AllRecognised(us: seq<nat>, n: nat)
    requires InOrder(us) && n <= |us|
  {
    forall i | 0 < i < n :: Recognised(us, i)
  }

  /** For any in-order stream: every packet is counted, nothing is lost that was not
      missing, no packet looks reordered exactly when every step is recognised, and exactly
      then received plus lost is the length of the number range. */
  lemma {:induction false} CountsAreTrueIff(us: seq<nat>, n: nat)
    requires InOrder(us) && 0 < n <= |us|
    ensures After(us, n).total == n && After(us, n).last == us[n - 1] % WRAP
    ensures us[0] <= us[n - 1] && n + After(us, n).lost <= us[n - 1] - us[0] + 1
    ensures After(us, n).outOfOrder == 0 <==> AllRecognised(us, n)
    ensures After(us, n).total + After(us, n).lost == us[n - 1] - us[0] + 1 <==> AllRecognised(us, n)
  {
    if n == 1 {
      assert After(us, 1) == Check(After(us, 0), us[0] % WRAP);
    } else {
      CountsAreTrueIff(us, n - 1);
      StepCounts(us, n - 1, After(us, n - 1));
      assert AllRecognised(us, n) <==> AllRecognised(us, n - 1) && Recognised(us, n - 1);
    }
  }

  /** Over any number of wraps, gaps of at most 1000 lost packets are all recognised: the
      losses are the true number missing and nothing looks reordered. */
  lemma {:induction false} ShortGapsAreCounted(us: seq<nat>)
    requires InOrder(us) && us != [] && forall i | 0 < i < |us| :: Missing(us, i) <= 1000
    ensures After(us, |us|).outOfOrder == 0
    ensures After(us, |us|).total == |us|
    ensures After(us, |us|).lost == us[|us| - 1] - us[0] + 1 - |us|
  {
    CountsAreTrueIff(us, |us|);
    forall i | 0 < i < |us| ensures Recognised(us, i) { WrapAdd(us[i - 1], 1); }
  }

  // ---------- Late packets ----------

  /** Packet v comes although all up to u have been passed: the numbering has wrapped between
      v and the expected packet, or the next wrap looks nearer than v. */
  predicate LooksLost(u: nat, v: nat) {
    v / WRAP != (u + 1) / WRAP || ((u + 1) % WRAP > U32_MAX - 1000 && v % WRAP < 1000)
  }

  lemma {:induction false} WrapSubtract(a: nat, d: nat)
    requires 0 < d < WRAP && d <= a
    ensures (a - d) % WRAP == if d <= a % WRAP then a % WRAP - d else a % WRAP - d + WRAP
    ensures (a - d) / WRAP == a / WRAP <==> d <= a % WRAP
  {
    var q, r := a / WRAP, a % WRAP;
    assert a == q * WRAP + r;
    if d <= r {
      assert a - d == q * WRAP + (r - d);
    } else {
      assert a - d == (q - 1) * WRAP + (r - d + WRAP);
    }
  }

  /** Any late packet, or repeated one, less than a full turn behind: it is taken for
      reordering unless it looks lost, and is then counted as nearly a full turn of losses. */
  lemma {:induction false} LatePacketIff(u: nat, v: nat, c: Counts)
    requires c.total > 0 && c.last == u % WRAP && v <= u && u + 1 - v < WRAP
    ensures Check(c, v % WRAP) ==
            if LooksLost(u, v) then Counts(v % WRAP, c.lost + WRAP - (u + 1 - v), c.outOfOrder, c.total + 1)
            else Counts(v % WRAP, c.lost, c.outOfOrder + 1, c.total + 1)
  {
    var expected, d := (u + 1) % WRAP, u + 1 - v;
    WrapAdd(u, 1);
    WrapSubtract(u + 1, d);
    assert v == u + 1 - d;
    LateLands(c, expected, d, v % WRAP);
  }

  lemma {:induction false} LateLands(c: Counts, expected: u32, d: nat, packet: u32)
    requires c.total > 0 && 0 < d < WRAP && expected == if c.last == U32_MAX then 0 else c.last + 1
    requires packet == if d <= expected then expected - d else expected - d + WRAP
    ensures Check(c, packet) ==
            if d > expected || (expected > U32_MAX - 1000 && packet < 1000)
            then Counts(packet, c.lost + WRAP - d, c.outOfOrder, c.total + 1)
            else Counts(packet, c.lost, c.outOfOrder + 1, c.total + 1)
  {
    assert (c.last + 1) % WRAP == expected;
    if packet < expected {
      WrapBack(packet - expected);
    } else {
      assert (packet - expected) % WRAP == packet - expected;
    }
  }

  /** Two swapped packets and the next one, after any packet: they cost two losses and one
      reordering although nothing is missing, except where the swapped pair is the last two
      numbers or lies across the wrap: there they cost a full turn of losses. */
  lemma {:induction false} SwapCosts(c: Counts)
    requires c.total > 0
    ensures Check(Check(Check(c, (c.last + 2) % WRAP), (c.last + 1) % WRAP), (c.last + 3) % WRAP) ==
            if c.last == WRAP - 3 || c.last == WRAP - 2
            then Counts((c.last + 3) % WRAP, c.lost + WRAP, c.outOfOrder, c.total + 3)
            else Counts((c.last + 3) % WRAP, c.lost + 2, c.outOfOrder + 1, c.total + 3)
  {
    var x, y, z := (c.last + 2) % WRAP, (c.last + 1) % WRAP, (c.last + 3) % WRAP;
    NextTo(c, c.last, 1);
    var first := Check(c, x);
    assert first == Counts(x, c.lost + 1, c.outOfOrder, c.total + 1);
    LateBy(first, y, c.last + 2, c.last + 1);
    NextTo(Check(first, y), c.last + 1, 1);
  }

  /** Skipping one packet is one loss, wherever the numbering wraps. */
  lemma {:induction false} NextTo(c: Counts, u: nat, gap: nat)
    requires c.total > 0 && c.last == u % WRAP && gap < 1000
    ensures Check(c, (u + 1 + gap) % WRAP) ==
            Counts((u + 1 + gap) % WRAP, c.lost + gap, c.outOfOrder, c.total + 1)
  {
    WrapAdd(u, 1);
    WrapAdd(u + 1, gap);
    var expected := (u + 1) % WRAP;
    StepLands(c, expected, gap, if expected + gap < WRAP then expected + gap else expected + gap - WRAP);
  }

  lemma {:induction false} LateBy(c: Counts, packet: u32, u: nat, v: nat)
    requires c.total > 0 && c.last == u % WRAP && packet == v % WRAP && u == v + 1 && u < WRAP + 2
    ensures Check(c, packet) ==
            if u == WRAP - 1 || u == WRAP then Counts(packet, c.lost + WRAP - 2, c.outOfOrder, c.total + 1)
            else Counts(packet, c.lost, c.outOfOrder + 1, c.total + 1)
  {
    LatePacketIff(u, v, c);
  }
}

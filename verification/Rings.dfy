/** Bit masks on natural numbers, as far as the ring indices need them. */
module Bits {

  function Pow2(k: nat): (p: nat)
    ensures p > 0
  {
    if k == 0 then 1 else 2 * Pow2(k - 1)
  }

  /** Bitwise conjunction, computed bit by bit. */
  function And(a: nat, b: nat): nat {
    if a == 0 || b == 0 then 0 else 2 * And(a / 2, b / 2) + (a % 2) * (b % 2)
  }

  lemma HalvedRemainder(x: nat, p: nat)
    requires p > 0
    ensures x % (2 * p) == 2 * ((x / 2) % p) + x % 2
  {
    var q, r := x / 2 / p, (x / 2) % p;
    assert x == 2 * (q * p + r) + x % 2;
    UniqueRemainder(x, 2 * p, q, 2 * r + x % 2);
  }

  lemma AtLeastOneMultiple(d: int, m: int)
    requires d >= 1 && m > 0
    ensures d * m >= m
  {
    assert (d - 1) * m >= 0;
    assert d * m == (d - 1) * m + m;
  }

  lemma Distribute(q: int, p: int, m: int)
    ensures (q - p) * m == q * m - p * m
  {
  }

  lemma UniqueRemainder(x: int, m: int, q: int, r: int)
    requires m > 0 && 0 <= r < m
    requires x == q * m + r
    ensures x % m == r && x / m == q
  {
    var p, s := x / m, x % m;
    assert x == p * m + s;
    Distribute(q, p, m);
    Distribute(p, q, m);
    if q < p {
      AtLeastOneMultiple(p - q, m);
      assert false;
    } else if q > p {
      AtLeastOneMultiple(q - p, m);
      assert false;
    }
  }

  /** Masking with 2^k - 1 is the remainder modulo 2^k. */
  lemma {:induction false} MaskIsRemainder(x: nat, k: nat)
    ensures And(x, Pow2(k) - 1) == x % Pow2(k)
  {
    if k == 0 {
    } else if x == 0 {
      UniqueRemainder(0, Pow2(k), 0, 0);
    } else {
      var p := Pow2(k - 1);
      assert (2 * p - 1) / 2 == p - 1;
      MaskIsRemainder(x / 2, k - 1);
      HalvedRemainder(x, p);
    }
  }
}

/** The power-of-two ring shared by the task queue and the release queue: the
    slots, the index of the next slot to read and of the next slot to write. */
module Rings {
  import opened Bits

  const QUEUE_CAPACITY: nat := 4096
  const RELEASE_CAPACITY: nat := 8192
  const UINT32: nat := 0x1_0000_0000

  predicate IsCapacity(cap: nat) {
    cap == QUEUE_CAPACITY || cap == RELEASE_CAPACITY
  }

  datatype Ring<T> = Ring(slots: seq<T>, rd: nat, wr: nat)

  /** The index after i. */
  function Advance(i: nat, cap: nat): (r: nat)
    requires cap > 0
  {
    (i + 1) % cap
  }

  /** How both queues compute it: a 32-bit increment, then a mask. */
  function MaskedAdvance(i: nat, cap: nat): nat
    requires cap > 0
  {
    And((i + 1) % UINT32, cap - 1)
  }

  lemma MaskedAdvanceIsAdvance(i: nat, cap: nat)
    requires IsCapacity(cap)
    ensures MaskedAdvance(i, cap) == Advance(i, cap)
  {
    var k := if cap == QUEUE_CAPACITY then 12 else 13;
    assert Pow2(k) == cap by {
      assert Pow2(5) == 32 && Pow2(9) == 512 && Pow2(12) == 4096 && Pow2(13) == 8192;
    }
    MaskIsRemainder((i + 1) % UINT32, k);
    WrapThenRemainder(i + 1, cap);
  }

  /** The capacities divide 2^32, so the 32-bit wrap-around is invisible. */
  lemma WrapThenRemainder(x: nat, cap: nat)
    requires IsCapacity(cap)
    ensures (x % UINT32) % cap == x % cap
  {
    var q, w := x / UINT32, x % UINT32;
    var f := if cap == QUEUE_CAPACITY then 0x10_0000 else 0x8_0000;
    assert x == (q * f + w / cap) * cap + w % cap;
    UniqueRemainder(x, cap, q * f + w / cap, w % cap);
  }

  predicate IsEmpty<T>(r: Ring<T>) {
    r.rd == r.wr
  }

  predicate IsFull<T>(r: Ring<T>, cap: nat)
    requires cap > 0
  {
    Advance(r.wr, cap) == r.rd
  }

  predicate WellFormed<T>(r: Ring<T>, cap: nat) {
    |r.slots| == cap && r.rd < cap && r.wr < cap
  }

  /** The unread entries, from the read index circularly up to the write index. */
  function Contents<T>(r: Ring<T>): (c: seq<T>)
    requires WellFormed(r, |r.slots|)
  {
    if r.rd <= r.wr then r.slots[r.rd..r.wr] else r.slots[r.rd..] + r.slots[..r.wr]
  }

  function CopyIn<T>(r: Ring<T>, x: T): Ring<T>
    requires r.wr < |r.slots|
  {
    r.(slots := r.slots[r.wr := x])
  }

  function Publish<T>(r: Ring<T>, cap: nat): Ring<T>
    requires cap > 0
  {
    r.(wr := Advance(r.wr, cap))
  }

  function Retire<T>(r: Ring<T>, cap: nat): Ring<T>
    requires cap > 0
  {
    r.(rd := Advance(r.rd, cap))
  }

  /** The ring tests mean what the bounded FIFO of capacity cap - 1 says. */
  lemma RingRefinesBoundedFifo<T>(r: Ring<T>, cap: nat)
    requires IsCapacity(cap) && WellFormed(r, cap)
    ensures |Contents(r)| <= cap - 1
    ensures IsEmpty(r) <==> Contents(r) == []
    ensures IsFull(r, cap) <==> |Contents(r)| == cap - 1
  {
  }

  lemma UpdateInside<T>(s: seq<T>, i: nat, x: T, lo: nat)
    requires lo <= i < |s|
    ensures s[i := x][lo..i] == s[lo..i]
    ensures s[i := x][lo..i + 1] == s[lo..i] + [x]
  {
  }

  lemma UpdateBefore<T>(s: seq<T>, i: nat, x: T, lo: nat)
    requires i < lo <= |s|
    ensures s[i := x][lo..] == s[lo..]
  {
  }

  /** Writing into a ring that is not full appends, and overwrites no unread slot. */
  lemma WriteAppends<T>(r: Ring<T>, cap: nat, x: T)
    requires IsCapacity(cap) && WellFormed(r, cap) && !IsFull(r, cap)
    ensures Contents(CopyIn(r, x)) == Contents(r)
    ensures WellFormed(Publish(CopyIn(r, x), cap), cap)
    ensures Contents(Publish(CopyIn(r, x), cap)) == Contents(r) + [x]
  {
    var next := Advance(r.wr, cap);
    if r.rd <= r.wr {
      UpdateInside(r.slots, r.wr, x, r.rd);
      assert next == if r.wr + 1 < cap then r.wr + 1 else 0;
    } else {
      UpdateInside(r.slots, r.wr, x, 0);
      UpdateBefore(r.slots, r.wr, x, r.rd);
      assert next == r.wr + 1;
    }
  }

  /** Retiring from a non-empty ring removes exactly the oldest entry. */
  lemma RetireDropsHead<T>(r: Ring<T>, cap: nat)
    requires IsCapacity(cap) && WellFormed(r, cap) && !IsEmpty(r)
    ensures WellFormed(Retire(r, cap), cap)
    ensures Contents(r) == [r.slots[r.rd]] + Contents(Retire(r, cap))
  {
    var s := Retire(r, cap);
    if r.rd + 1 < cap {
      assert s.rd == r.rd + 1;
      assert r.slots[r.rd..] == [r.slots[r.rd]] + r.slots[s.rd..];
    } else {
      assert s.rd == 0;
      assert r.slots[r.rd..] == [r.slots[r.rd]];
    }
  }

  // ----- The ring against the log of everything ever published -----

  /** The ring holds exactly log[taken..]: entry number i lives in slot i mod cap. */
  ghost predicate Tracks<T>(r: Ring<T>, cap: nat, log: seq<T>, taken: nat) {
    && cap > 0
    && |r.slots| == cap
    && taken <= |log| < taken + cap
    && r.rd == taken % cap
    && r.wr == |log| % cap
    && forall i :: taken <= i < |log| ==> r.slots[i % cap] == log[i]
  }

  lemma SameRemainder(a: nat, b: nat, m: nat)
    requires m > 0 && a % m == b % m && a <= b < a + m
    ensures a == b
  {
    var q := b / m - a / m;
    assert b - a == q * m by { Distribute(b / m, a / m, m); }
    if q >= 1 {
      AtLeastOneMultiple(q, m);
    } else if q <= -1 {
      AtLeastOneMultiple(-q, m);
    }
  }

  lemma NextRemainder(a: nat, m: nat)
    requires m > 0
    ensures (a + 1) % m == (a % m + 1) % m
  {
    var q, r := a / m, a % m;
    if r + 1 == m {
      UniqueRemainder(a + 1, m, q + 1, 0);
      UniqueRemainder(r + 1, m, 1, 0);
    } else {
      UniqueRemainder(a + 1, m, q, r + 1);
      UniqueRemainder(r + 1, m, 0, r + 1);
    }
  }

  lemma TracksTests<T>(r: Ring<T>, cap: nat, log: seq<T>, taken: nat)
    requires IsCapacity(cap) && Tracks(r, cap, log, taken)
    ensures WellFormed(r, cap)
    ensures IsEmpty(r) <==> taken == |log|
    ensures IsFull(r, cap) <==> |log| - taken == cap - 1
    ensures taken < |log| ==> r.slots[r.rd] == log[taken]
  {
    if r.rd == r.wr {
      SameRemainder(taken, |log|, cap);
    }
    NextRemainder(|log|, cap);
    if (|log| + 1) % cap == taken % cap {
      if |log| + 1 < taken + cap {
        SameRemainder(taken, |log| + 1, cap);
      }
    }
    if |log| - taken == cap - 1 {
      UniqueRemainder(taken + cap, cap, taken / cap + 1, taken % cap);
    }
  }

  lemma TracksCopyIn<T>(r: Ring<T>, cap: nat, log: seq<T>, taken: nat, x: T)
    requires IsCapacity(cap) && Tracks(r, cap, log, taken)
    ensures Tracks(CopyIn(r, x), cap, log, taken)
  {
    forall i | taken <= i < |log| ensures i % cap != |log| % cap {
      if i % cap == |log| % cap {
        SameRemainder(i, |log|, cap);
      }
    }
  }

  lemma TracksPublish<T>(r: Ring<T>, cap: nat, log: seq<T>, taken: nat)
    requires IsCapacity(cap) && Tracks(r, cap, log, taken) && |log| - taken < cap - 1
    ensures Tracks(Publish(r, cap), cap, log + [r.slots[r.wr]], taken)
  {
    NextRemainder(|log|, cap);
  }

  lemma TracksRetire<T>(r: Ring<T>, cap: nat, log: seq<T>, taken: nat)
    requires IsCapacity(cap) && Tracks(r, cap, log, taken) && taken < |log|
    ensures Tracks(Retire(r, cap), cap, log, taken + 1)
  {
    NextRemainder(taken, cap);
  }

  lemma {:induction false} TracksContents<T>(r: Ring<T>, cap: nat, log: seq<T>, taken: nat)
    requires IsCapacity(cap) && Tracks(r, cap, log, taken) && WellFormed(r, cap)
    ensures Contents(r) == log[taken..]
    decreases |log| - taken
  {
    TracksTests(r, cap, log, taken);
    if taken < |log| {
      TracksRetire(r, cap, log, taken);
      TracksContents(Retire(r, cap), cap, log, taken + 1);
      RetireDropsHead(r, cap);
    }
  }
}

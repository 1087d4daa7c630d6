/** What the incremental tree keeps between two leaves, and why one digest per level is
    enough: the frontier, how a new leaf climbs past it, and what the counter counts. */
module InfoTreeFrontier {
  import opened InfoTreeSpec

  // ---------------------------------------------------------- the leaf counter

  /** Leaf positions that both the tree and the 32-bit counter can address. */
  function Capacity(height: nat): nat {
    Pow2(if height < 32 then height else 32)
  }

  lemma Pow2Of32()
    ensures Pow2(32) == UINT32
  {
    assert Pow2(8) == 0x100;
    assert Pow2(16) == 0x1_0000;
    assert Pow2(24) == 0x100_0000;
  }

  lemma DoublePow2(c: nat, e: nat)
    requires e > 0
    ensures c * Pow2(e) == 2 * (c * Pow2(e - 1))
  {
    var p := Pow2(e - 1);
    assert c * (2 * p) == 2 * (c * p);
  }

  lemma {:induction false} Pow2Sum(a: nat, b: nat)
    ensures Pow2(a + b) == Pow2(a) * Pow2(b)
  {
    if b > 0 {
      Pow2Sum(a, b - 1);
      DoublePow2(Pow2(a), b);
    }
  }

  lemma MulAtLeast(a: nat, b: nat)
    requires a >= 1
    ensures b <= a * b
  {
  }

  /** The capacity divides the range of the counter. */
  lemma CapacityFacts(height: nat) returns (times: nat)
    ensures UINT32 == times * Capacity(height) && times >= 1
    ensures Capacity(height) <= UINT32
    ensures Capacity(height) <= Pow2(height)
  {
    Pow2Of32();
    if height < 32 {
      Pow2Sum(32 - height, height);
      times := Pow2(32 - height);
      MulAtLeast(times, Capacity(height));
    } else {
      Pow2Sum(height - 32, 32);
      times := 1;
      MulAtLeast(Pow2(height - 32), Pow2(32));
    }
  }

  lemma HalfOfSum(u: nat, v: nat)
    ensures (u + 2 * v) / 2 == u / 2 + v && (u + 2 * v) % 2 == u % 2
  {
  }

  /** Adding a multiple of 2^e does not show below bit `e`. */
  lemma {:induction false} UpOfSum(x: nat, c: nat, e: nat, h: nat)
    requires h <= e
    ensures Up(x + c * Pow2(e), h) == Up(x, h) + c * Pow2(e - h)
  {
    if h > 0 {
      UpOfSum(x, c, e, h - 1);
      DoublePow2(c, e - h + 1);
      HalfOfSum(Up(x, h - 1), c * Pow2(e - h));
    }
  }

  lemma BitOfSum(x: nat, c: nat, e: nat, h: nat)
    requires h < e
    ensures Bit(x + c * Pow2(e), h) == Bit(x, h)
  {
    UpOfSum(x, c, e, h);
    DoublePow2(c, e - h);
    HalfOfSum(Up(x, h), c * Pow2(e - h - 1));
  }

  /** Two indexes that no level of a tree of this height can tell apart. */
  ghost predicate SameBits(a: nat, b: nat, height: nat) {
    forall h :: 0 <= h < height ==> Bit(a, h) == Bit(b, h)
  }

  lemma MulBounds(q: int, d: int)
    requires -d < q * d < d
    ensures q == 0
  {
    assert q >= 1 ==> q * d >= d;
    assert q <= -1 ==> q * d <= -d;
  }

  lemma SumBits(n: nat, r: nat, q: nat, e: nat)
    requires n == r + q * Pow2(e)
    ensures SameBits(n, r, e)
  {
    forall h | 0 <= h < e ensures Bit(n, h) == Bit(r, h) {
      BitOfSum(r, q, e, h);
    }
  }

  /** A counter stands for `m` leaves of a tree that has been full some times before. */
  ghost predicate Counts(count: nat, m: nat, rounds: nat, height: nat) {
    m < Capacity(height) && count == m + rounds * Capacity(height) && count < UINT32
  }

  /** The tree cannot tell the counter from the number of leaves it stands for. */
  lemma CounterBits(count: nat, m: nat, rounds: nat, height: nat)
    requires Counts(count, m, rounds, height)
    ensures SameBits(count, m, height)
  {
    if height < 32 {
      SumBits(count, m, rounds, height);
    } else {
      Pow2Of32();
      assert rounds == 0;
    }
  }

  lemma RoundsStep(rounds: nat, capacity: nat)
    ensures (rounds + 1) * capacity == rounds * capacity + capacity
  {
  }

  /** Only a full tree ends on a multiple of the capacity. */
  lemma FullAtMultiple(m: nat, rounds: nat, times: nat, capacity: nat)
    requires m < capacity && m + 1 + rounds * capacity == times * capacity
    ensures m + 1 == capacity
  {
    var q: int := times - rounds - 1;
    assert q * capacity == times * capacity - rounds * capacity - capacity;
    MulBounds(q, capacity);
  }

  /** Counting on, up to the capacity and around 2^32. */
  lemma CounterStep(count: nat, m: nat, rounds: nat, height: nat) returns (rounds': nat)
    requires Counts(count, m, rounds, height)
    ensures Counts((count + 1) % UINT32, if m + 1 == Capacity(height) then 0 else m + 1, rounds', height)
  {
    var cap := Capacity(height);
    var times := CapacityFacts(height);
    if count + 1 == UINT32 {
      rounds' := 0;
      FullAtMultiple(m, rounds, times, cap);
    } else if m + 1 == cap {
      rounds' := rounds + 1;
      RoundsStep(rounds, cap);
    } else {
      rounds' := rounds;
    }
  }

  /** What the tree goes on from after a list of leaves: all of it below capacity, nothing of
      a full tree, and of a list too long for the counter as much as the counter shows. */
  function Kept(leaves: seq<Digest>, height: nat): seq<Digest> {
    if |leaves| < Capacity(height) then leaves
    else if |leaves| == Capacity(height) then []
    else leaves[..|leaves| % UINT32]
  }

  lemma SmallMod(n: nat)
    requires n < UINT32
    ensures n % UINT32 == n
  {
  }

  lemma CounterOfList(leaves: seq<Digest>, height: nat) returns (rounds: nat)
    requires |leaves| <= Pow2(height)
    ensures Counts(|leaves| % UINT32, |Kept(leaves, height)|, rounds, height)
  {
    var n, cap := |leaves|, Capacity(height);
    var _ := CapacityFacts(height);
    rounds := 0;
    if n < cap {
      SmallMod(n);
    } else if n == cap < UINT32 {
      SmallMod(n);
      rounds := 1;
    } else if n > cap {
      Pow2Of32();
      assert cap == UINT32;
    }
  }

  // --------------------------------------------------------------- the frontier

  /** The `h` lowest bits of `n` are all ones. */
  predicate LowOnes(n: nat, h: nat) {
    h == 0 || (LowOnes(n, h - 1) && Bit(n, h - 1))
  }

  /** The carry of `n + 1` reaches level `h` exactly when all lower bits are one. */
  lemma {:induction false} Carry(n: nat, h: nat)
    ensures Up(n + 1, h) == if LowOnes(n, h) then Up(n, h) + 1 else Up(n, h)
  {
    if h > 0 {
      Carry(n, h - 1);
    }
  }

  lemma {:induction false} WidthAfterAppend(n: nat, h: nat)
    ensures Width(n + 1, h) == Up(n, h) + 1
  {
    if h > 0 { WidthAfterAppend(n, h - 1); }
  }

  /** What the stored digests must be: for every one-bit `h` of the leaf count,
      the root of the complete 2^h-leaf subtree just left of the next leaf. Digests
      at zero-bits are unconstrained: they are overwritten before being read. */
  ghost predicate Frontier(H: HashFn, leaves: seq<Digest>, siblings: seq<Digest>) {
    forall h :: 0 <= h < |siblings| && Bit(|leaves|, h) ==>
      siblings[h] == Node(H, leaves, h, Up(|leaves|, h) - 1)
  }

  /** One level of `AddLeaf` on the path of the new leaf. */
  lemma PathStep(H: HashFn, leaves: seq<Digest>, x: Digest, h: nat, sibling: Digest)
    requires Bit(|leaves|, h) ==> sibling == Node(H, leaves, h, Up(|leaves|, h) - 1)
    requires !Bit(|leaves|, h) ==> sibling == ZeroHash(H, h)
    ensures Parent(H, Node(H, leaves + [x], h, Up(|leaves|, h)), sibling, Up(|leaves|, h))
         == Node(H, leaves + [x], h + 1, Up(|leaves|, h + 1))
  {
    var n, i, grown := |leaves|, Up(|leaves|, h), leaves + [x];
    assert sibling == Node(H, grown, h, Sibling(i)) by {
      if Bit(n, h) {
        LeftNodes(H, leaves, grown, h, i - 1);
      } else {
        WidthAfterAppend(n, h);
        EmptyNode(H, grown, h, i + 1);
      }
    }
    NodeFromChildren(H, grown, h, i);
  }

  /** The digest that `AddLeaf` carries at level `h` on its way from the new leaf `x`
      up to the root. */
  function Carried(H: HashFn, zeros: seq<Digest>, index: nat, siblings: seq<Digest>, x: Digest, h: nat): Digest
    requires h <= |siblings| < |zeros|
  {
    if h == 0 then x
    else
      var below := Carried(H, zeros, index, siblings, x, h - 1);
      if Bit(index, h - 1) then H(siblings[h - 1], below) else H(below, zeros[h - 1])
  }

  /** Level `h` is the first zero-bit of `index`: the subtree the new leaf completes. */
  predicate FirstZero(index: nat, h: nat) {
    LowOnes(index, h) && !Bit(index, h)
  }

  ghost predicate AreZeroHashes(H: HashFn, zeros: seq<Digest>) {
    forall i :: 0 <= i < |zeros| ==> zeros[i] == ZeroHash(H, i)
  }

  lemma CarriedUp(H: HashFn, zeros: seq<Digest>, index: nat, siblings: seq<Digest>, x: Digest, h: nat)
    requires 0 < h <= |siblings| < |zeros|
    ensures Carried(H, zeros, index, siblings, x, h) ==
      Parent(H, Carried(H, zeros, index, siblings, x, h - 1),
             if Bit(index, h - 1) then siblings[h - 1] else zeros[h - 1], Up(index, h - 1))
  {
  }

  lemma {:induction false} CarriedInSync(H: HashFn, zeros: seq<Digest>, leaves: seq<Digest>,
                                         siblings: seq<Digest>, x: Digest, h: nat)
    requires h <= |siblings| < |zeros| && AreZeroHashes(H, zeros) && Frontier(H, leaves, siblings)
    ensures Carried(H, zeros, |leaves|, siblings, x, h) == Node(H, leaves + [x], h, Up(|leaves|, h))
  {
    if h > 0 {
      var n, sibling := |leaves|, if Bit(|leaves|, h - 1) then siblings[h - 1] else zeros[h - 1];
      CarriedUp(H, zeros, n, siblings, x, h);
      CarriedInSync(H, zeros, leaves, siblings, x, h - 1);
      PathStep(H, leaves, x, h - 1, sibling);
    }
  }

  function StoredAt(H: HashFn, zeros: seq<Digest>, index: nat, was: seq<Digest>, x: Digest, h: nat): Digest
    requires h < |was| < |zeros|
  {
    if FirstZero(index, h) then Carried(H, zeros, index, was, x, h) else was[h]
  }

  /** The new siblings in terms of the old ones. */
  ghost predicate Stored(H: HashFn, zeros: seq<Digest>, index: nat, was: seq<Digest>, x: Digest, now: seq<Digest>)
    requires |was| < |zeros|
  {
    && |now| == |was|
    && forall h :: 0 <= h < |was| ==> now[h] == StoredAt(H, zeros, index, was, x, h)
  }

  lemma {:induction false} LowOnesBelow(index: nat, h: nat, k: nat)
    requires LowOnes(index, h) && k < h
    ensures LowOnes(index, k) && Bit(index, k)
  {
    if k < h - 1 { LowOnesBelow(index, h - 1, k); }
  }

  /** Only one level is the first zero-bit, so storing there is all there is to store. */
  lemma StoredAtFirstZero(H: HashFn, zeros: seq<Digest>, index: nat, was: seq<Digest>, x: Digest, z: nat)
    requires z < |was| < |zeros| && FirstZero(index, z)
    ensures Stored(H, zeros, index, was, x, was[z := Carried(H, zeros, index, was, x, z)])
  {
    var now := was[z := Carried(H, zeros, index, was, x, z)];
    forall h | 0 <= h < |was| ensures now[h] == StoredAt(H, zeros, index, was, x, h) {
      if h < z { LowOnesBelow(index, z, h); }
      if z < h && LowOnes(index, h) { LowOnesBelow(index, h, z); }
    }
  }

  lemma NothingStored(H: HashFn, zeros: seq<Digest>, index: nat, was: seq<Digest>, x: Digest)
    requires |was| < |zeros| && LowOnes(index, |was|)
    ensures Stored(H, zeros, index, was, x, was)
  {
    forall h | 0 <= h < |was| ensures !FirstZero(index, h) { LowOnesBelow(index, |was|, h); }
  }

  lemma StoredIsFrontier(H: HashFn, zeros: seq<Digest>, leaves: seq<Digest>,
                         was: seq<Digest>, x: Digest, now: seq<Digest>)
    requires |was| < |zeros| && AreZeroHashes(H, zeros) && Frontier(H, leaves, was)
    requires Stored(H, zeros, |leaves|, was, x, now)
    ensures Frontier(H, leaves + [x], now)
  {
    var n, grown := |leaves|, leaves + [x];
    forall h | 0 <= h < |now| && Bit(|grown|, h)
      ensures now[h] == Node(H, grown, h, Up(|grown|, h) - 1)
    {
      Carry(n, h);
      if FirstZero(n, h) {
        CarriedInSync(H, zeros, leaves, was, x, h);
      } else {
        LeftNodes(H, leaves, grown, h, Up(n, h) - 1);
      }
    }
  }

  /** A climb depends on the bits of the index only. */
  lemma {:induction false} CarriedByBits(H: HashFn, zeros: seq<Digest>, a: nat, b: nat,
                                         siblings: seq<Digest>, x: Digest, h: nat)
    requires h <= |siblings| < |zeros| && SameBits(a, b, |siblings|)
    ensures Carried(H, zeros, a, siblings, x, h) == Carried(H, zeros, b, siblings, x, h)
    ensures LowOnes(a, h) == LowOnes(b, h)
  {
    if h > 0 {
      CarriedByBits(H, zeros, a, b, siblings, x, h - 1);
    }
  }

  lemma StoredByBits(H: HashFn, zeros: seq<Digest>, a: nat, b: nat, was: seq<Digest>, x: Digest, now: seq<Digest>)
    requires |was| < |zeros| && SameBits(a, b, |was|) && Stored(H, zeros, a, was, x, now)
    ensures Stored(H, zeros, b, was, x, now)
  {
    forall h | 0 <= h < |was| ensures now[h] == StoredAt(H, zeros, b, was, x, h) {
      CarriedByBits(H, zeros, a, b, was, x, h);
    }
  }

  lemma EmptyFrontier(H: HashFn, siblings: seq<Digest>)
    ensures Frontier(H, [], siblings)
  {
    forall h | 0 <= h < |siblings| ensures !Bit(0, h) {
      UpVanishes(0, h);
    }
  }

  /** The leaves pending after one more: a full tree starts over. */
  function Extended(pending: seq<Digest>, x: Digest, capacity: nat): seq<Digest> {
    if |pending| + 1 == capacity then [] else pending + [x]
  }

  /** One leaf more, on a counter that agrees with the pending leaves on every level. */
  lemma AppendInSync(H: HashFn, zeros: seq<Digest>, index: nat, pending: seq<Digest>,
                     was: seq<Digest>, x: Digest, now: seq<Digest>)
    requires |zeros| == |was| + 1 && AreZeroHashes(H, zeros)
    requires Frontier(H, pending, was) && |pending| < Capacity(|was|)
    requires SameBits(index, |pending|, |was|) && Stored(H, zeros, index, was, x, now)
    ensures Carried(H, zeros, index, was, x, |was|) == Root(H, pending + [x], |was|)
    ensures Frontier(H, Extended(pending, x, Capacity(|was|)), now)
  {
    CarriedByBits(H, zeros, index, |pending|, was, x, |was|);
    StoredByBits(H, zeros, index, |pending|, was, x, now);
    CarriedInSync(H, zeros, pending, was, x, |was|);
    var _ := CapacityFacts(|was|);
    UpVanishes(|pending|, |was|);
    StoredIsFrontier(H, zeros, pending, was, x, now);
    EmptyFrontier(H, now);
  }

  /** The same for a counter that counts the pending leaves, with the new counter. */
  lemma AppendCounted(H: HashFn, zeros: seq<Digest>, count: nat, pending: seq<Digest>, rounds: nat,
                      was: seq<Digest>, x: Digest, now: seq<Digest>)
    returns (rounds': nat)
    requires |zeros| == |was| + 1 && AreZeroHashes(H, zeros)
    requires Frontier(H, pending, was) && Counts(count, |pending|, rounds, |was|)
    requires Stored(H, zeros, count, was, x, now)
    ensures Carried(H, zeros, count, was, x, |was|) == Root(H, pending + [x], |was|)
    ensures var next := Extended(pending, x, Capacity(|was|));
      Frontier(H, next, now) && Counts((count + 1) % UINT32, |next|, rounds', |was|)
  {
    CounterBits(count, |pending|, rounds, |was|);
    AppendInSync(H, zeros, count, pending, was, x, now);
    rounds' := CounterStep(count, |pending|, rounds, |was|);
  }

  // ------------------------------------------------------------- a whole history

  /** The leaves after the last full tree, and the leaves the current root stands for: the
      same, except that a tree that has just become full still stands for all of it. */
  function Pending(all: seq<Digest>, capacity: nat): seq<Digest> {
    if all == [] then [] else Extended(Pending(all[..|all| - 1], capacity), all[|all| - 1], capacity)
  }

  function Since(all: seq<Digest>, capacity: nat): seq<Digest> {
    if all == [] then [] else Pending(all[..|all| - 1], capacity) + [all[|all| - 1]]
  }

  lemma PendingStep(all: seq<Digest>, x: Digest, capacity: nat)
    ensures Since(all + [x], capacity) == Pending(all, capacity) + [x]
    ensures Pending(all + [x], capacity) == Extended(Pending(all, capacity), x, capacity)
  {
    assert (all + [x])[..|all|] == all;
  }

  /** Up to the capacity, nothing has been started over. */
  lemma {:induction false} PendingBelowCapacity(all: seq<Digest>, capacity: nat)
    requires |all| <= capacity
    ensures |all| < capacity ==> Pending(all, capacity) == all
    ensures |all| == capacity > 0 ==> Pending(all, capacity) == []
    ensures Since(all, capacity) == all
  {
    if all != [] {
      PendingBelowCapacity(all[..|all| - 1], capacity);
    }
  }

  lemma TailStep(init: seq<Digest>, x: Digest, m: nat)
    requires m <= |init|
    ensures (init + [x])[|init| - m..] == init[|init| - m..] + [x]
  {
  }

  /** The pending leaves end the list, fewer than a full tree. */
  lemma {:induction false} PendingIsTail(all: seq<Digest>, capacity: nat)
    requires capacity > 0
    ensures var m := |Pending(all, capacity)|; m < capacity && m <= |all| && Pending(all, capacity) == all[|all| - m..]
  {
    if all != [] {
      var init, x := all[..|all| - 1], all[|all| - 1];
      PendingIsTail(init, capacity);
      TailStep(init, x, |Pending(init, capacity)|);
      assert all == init + [x];
    }
  }

  /** Before them is a whole number of full trees. */
  lemma {:induction false} PendingAfterRounds(all: seq<Digest>, capacity: nat) returns (rounds: nat)
    requires capacity > 0
    ensures |all| == rounds * capacity + |Pending(all, capacity)|
  {
    rounds := 0;
    if all != [] {
      var before := |Pending(all[..|all| - 1], capacity)|;
      rounds := PendingAfterRounds(all[..|all| - 1], capacity);
      if before + 1 == capacity {
        RoundsStep(rounds, capacity);
        rounds := rounds + 1;
      }
    }
  }

  /** A full tree at the front does not show in what comes after it. */
  lemma {:induction false} PendingAfterFull(full: seq<Digest>, rest: seq<Digest>, capacity: nat)
    requires |full| == capacity > 0
    ensures Pending(full + rest, capacity) == Pending(rest, capacity)
    ensures rest != [] ==> Since(full + rest, capacity) == Since(rest, capacity)
  {
    if rest == [] {
      assert full + rest == full;
      PendingBelowCapacity(full, capacity);
    } else {
      var init := rest[..|rest| - 1];
      PendingAfterFull(full, init, capacity);
      assert (full + rest)[..|full + rest| - 1] == full + init;
    }
  }

  /** What is kept of an initial list that fits is enough to tell what comes after it. */
  lemma KeptOfFirst(first: seq<Digest>, more: seq<Digest>, height: nat)
    requires |first| <= Capacity(height) && more != []
    ensures var cap := Capacity(height);
      && Since(Kept(first, height) + more, cap) == Since(first + more, cap)
      && (|first| + |more| <= cap ==> Since(first + more, cap) == first + more)
  {
    if |first| == Capacity(height) {
      assert [] + more == more;
      PendingAfterFull(first, more, Capacity(height));
    }
    if |first| + |more| <= Capacity(height) {
      PendingBelowCapacity(first + more, Capacity(height));
    }
  }
}

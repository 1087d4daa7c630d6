/** The L1 info tree of the node: full rebuild, Merkle proofs and the incremental
    tree that keeps one digest per level, all proved against `InfoTreeSpec`. */
module InfoTree {
  import opened Basics
  import opened InfoTreeFrontier
  import opened InfoTreeProofs
  import opened InfoTreeSpec

  datatype Result<+T> = Ok(value: T) | Err

  /** `ComputeMerkleProof` returns a proof and a root, returns an error when the
      leaves do not fit, or indexes the level out of range (a run-time panic). */
  datatype ProofResult =
    | Proof(siblings: seq<Digest>, root: Digest)
    | TooManyLeaves
    | IndexOutOfRange

  // ------------------------------------------------------- rows of the tree

  /** `row` holds the non-empty nodes of level `h`, left to right. */
  ghost predicate IsLevel(H: HashFn, leaves: seq<Digest>, h: nat, row: seq<Digest>) {
    && |row| == Width(|leaves|, h)
    && forall i :: 0 <= i < |row| ==> row[i] == Node(H, leaves, h, i)
  }

  lemma LevelPadded(H: HashFn, leaves: seq<Digest>, h: nat, row: seq<Digest>, even: seq<Digest>)
    requires IsLevel(H, leaves, h, row)
    requires even == if |row| % 2 == 1 then row + [ZeroHash(H, h)] else row
    ensures |even| == EvenUp(Width(|leaves|, h))
    ensures forall i :: 0 <= i < |even| ==> even[i] == Node(H, leaves, h, i)
  {
    EmptyNode(H, leaves, h, |row|);
  }

  lemma LevelUp(H: HashFn, leaves: seq<Digest>, h: nat, even: seq<Digest>, next: seq<Digest>)
    requires |even| == EvenUp(Width(|leaves|, h))
    requires forall i :: 0 <= i < |even| ==> even[i] == Node(H, leaves, h, i)
    requires |next| == |even| / 2
    requires forall i :: 0 <= i < |next| ==> next[i] == H(even[2 * i], even[2 * i + 1])
    ensures IsLevel(H, leaves, h + 1, next)
  {
  }

  // ------------------------------------------------------------- the methods

  method GenerateZeroHashes(H: HashFn, height: nat) returns (zeroHashes: seq<Digest>)
    ensures |zeroHashes| == height + 1
    ensures forall i :: 0 <= i <= height ==> zeroHashes[i] == ZeroHash(H, i)
  {
    zeroHashes := [ZERO];
    for i := 1 to height + 1
      invariant |zeroHashes| == i
      invariant forall k :: 0 <= k < i ==> zeroHashes[k] == ZeroHash(H, k)
    {
      ZeroHashStep(H, i - 1);
      zeroHashes := zeroHashes + [H(zeroHashes[i - 1], zeroHashes[i - 1])];
    }
  }

  /** Hashes a row pairwise; `nodes` keeps each parent with its children. `None` for a row
      of odd length, which the source reads past its end. */
  method BuildIntermediate(H: HashFn, leaves: seq<Digest>)
    returns (r: Option<(seq<(Digest, Digest, Digest)>, seq<Digest>)>)
    ensures r.None? <==> |leaves| % 2 == 1
    ensures r.Some? ==>
      var (nodes, hashes) := r.value;
      && |nodes| == |hashes| == |leaves| / 2
      && (forall i :: 0 <= i < |hashes| ==> hashes[i] == H(leaves[2 * i], leaves[2 * i + 1]))
      && forall i :: 0 <= i < |nodes| ==> nodes[i] == (hashes[i], leaves[2 * i], leaves[2 * i + 1])
  {
    var nodes, hashes := [], [];
    var i := 0;
    while i < |leaves|
      invariant 0 <= i <= |leaves| && i % 2 == 0
      invariant |nodes| == |hashes| == i / 2
      invariant forall k :: 0 <= k < |hashes| ==> hashes[k] == H(leaves[2 * k], leaves[2 * k + 1])
      invariant forall k :: 0 <= k < |nodes| ==> nodes[k] == (hashes[k], leaves[2 * k], leaves[2 * k + 1])
    {
      var left, right := i, i + 1;
      if right >= |leaves| {
        return None;
      }
      var hash := H(leaves[left], leaves[right]);
      nodes := nodes + [(hash, leaves[left], leaves[right])];
      hashes := hashes + [hash];
      i := i + 2;
    }
    return Some((nodes, hashes));
  }

  /** The row that both level loops start from: the leaves, or one zero leaf. */
  method FirstRow(ghost H: HashFn, zero: Digest, leaves: seq<Digest>) returns (row: seq<Digest>)
    requires zero == ZeroHash(H, 0)
    ensures IsLevel(H, leaves, 0, row)
  {
    row := leaves;
    if |row| == 0 {
      row := row + [zero];
    }
  }

  /** One round of both level loops: pad the row to even length with the zero hash
      of its level, then hash it pairwise. */
  method PadAndHash(H: HashFn, zero: Digest, row: seq<Digest>, ghost given: seq<Digest>, ghost h: nat)
    returns (even: seq<Digest>, ns: seq<(Digest, Digest, Digest)>, next: seq<Digest>)
    requires zero == ZeroHash(H, h) && IsLevel(H, given, h, row)
    ensures |even| == EvenUp(|row|) && forall i :: 0 <= i < |even| ==> even[i] == Node(H, given, h, i)
    ensures IsLevel(H, given, h + 1, next)
    ensures |ns| == |next| && forall i :: 0 <= i < |ns| ==> ns[i].0 == next[i]
  {
    even := row;
    if |even| % 2 == 1 {
      even := even + [zero];
    }
    LevelPadded(H, given, h, row, even);
    var built := BuildIntermediate(H, even);
    ns, next := built.value.0, built.value.1;
    LevelUp(H, given, h, even, next);
  }

  /** Which entry of a padded row is recorded for position `index`; `None` when the
      source reads past the end of the row. */
  method PickSibling(even: seq<Digest>, index: nat) returns (picked: Option<Digest>)
    requires |even| % 2 == 0 && |even| > 0 && index < UINT32
    ensures picked.None? <==> index > |even|
    ensures picked.Some? ==> picked.value == even[RecordedPos(index, |even|)]
    ensures picked.Some? ==>
      picked.value == if index % 2 == 1 then even[index - 1]
                      else if index < |even| % UINT32 then even[index + 1]
                      else if index > 0 then even[index - 1] else even[UINT32 - 1]
  {
    if index % 2 == 1 {
      return if index - 1 < |even| then Some(even[index - 1]) else None;
    } else if index >= |even| % UINT32 {
      var before := (index + UINT32 - 1) % UINT32;
      return if before < |even| then Some(even[before]) else None;
    } else {
      return Some(even[index + 1]);
    }
  }

  /** One round of the level loop of `ComputeMerkleProof`: the sibling to record for `index`, and the next row. */
  method ProofLevel(H: HashFn, zero: Digest, row: seq<Digest>, index: nat,
                    ghost given: seq<Digest>, ghost gerIndex: nat, ghost h: nat)
    returns (picked: Option<Digest>, ns: seq<(Digest, Digest, Digest)>, next: seq<Digest>)
    requires zero == ZeroHash(H, h) && IsLevel(H, given, h, row) && index == Up(gerIndex, h) && index < UINT32
    ensures picked.None? <==> index > EvenUp(|row|)
    ensures picked.Some? ==> RecordedAt(H, given, gerIndex, h, picked.value)
    ensures IsLevel(H, given, h + 1, next) && |next| == EvenUp(|row|) / 2
    ensures |ns| == |next| && ns[0].0 == next[0]
  {
    var even;
    even, ns, next := PadAndHash(H, zero, row, given, h);
    picked := PickSibling(even, index);
    if picked.Some? {
      var pos := RecordedPos(index, |even|);
      assert picked.value == even[pos] == Node(H, given, h, pos);
    }
  }

  /** The state of the level loop of `ComputeMerkleProof` before level `h`. */
  ghost predicate AtLevel(H: HashFn, given: seq<Digest>, gerIndex: nat, h: nat, row: seq<Digest>, index: nat,
                          siblings: seq<Digest>, ns: seq<(Digest, Digest, Digest)>) {
    && IsLevel(H, given, h, row)
    && index == Up(gerIndex, h) && index < UINT32
    && |siblings| == h && Recorded(H, given, gerIndex, siblings)
    && (h == 0 ==> ns == [])
    && (h > 0 ==> index <= |row| && |ns| == |row| && ns[0].0 == row[0])
  }

  lemma NextLevel(H: HashFn, given: seq<Digest>, gerIndex: nat, h: nat, row: seq<Digest>, index: nat,
                  siblings: seq<Digest>, ns: seq<(Digest, Digest, Digest)>,
                  picked: Digest, nsi: seq<(Digest, Digest, Digest)>, next: seq<Digest>)
    requires AtLevel(H, given, gerIndex, h, row, index, siblings, ns) && index <= EvenUp(|row|)
    requires RecordedAt(H, given, gerIndex, h, picked)
    requires IsLevel(H, given, h + 1, next) && |next| == EvenUp(|row|) / 2
    requires |nsi| == |next| && nsi[0].0 == next[0]
    ensures AtLevel(H, given, gerIndex, h + 1, next, index / 2, siblings + [picked], nsi)
  {
    RecordMore(H, given, gerIndex, siblings, picked);
  }

  /** The level loop of `ComputeMerkleProof`: the siblings on the way up and the nodes
      of the last level; `None` when it reads out of range. */
  method ProofLevels(H: HashFn, zeros: seq<Digest>, height: nat, gerIndex: nat, given: seq<Digest>)
    returns (r: Option<(seq<Digest>, seq<(Digest, Digest, Digest)>)>)
    requires |zeros| == height + 1 && AreZeroHashes(H, zeros) && gerIndex < UINT32
    ensures r.None? <==> 1 <= height && gerIndex > EvenUp(Width(|given|, 0))
    ensures r.Some? ==> |r.value.0| == height && Recorded(H, given, gerIndex, r.value.0)
    ensures r.Some? && height == 0 ==> r.value.1 == []
    ensures r.Some? && height > 0 ==>
      |r.value.1| == Width(|given|, height) && r.value.1[0].0 == Node(H, given, height, 0)
  {
    var ns: seq<(Digest, Digest, Digest)> := [];
    var row := FirstRow(H, zeros[0], given);
    var siblings: seq<Digest> := [];
    var index := gerIndex;
    for h := 0 to height
      invariant AtLevel(H, given, gerIndex, h, row, index, siblings, ns)
      invariant h > 0 ==> gerIndex <= EvenUp(Width(|given|, 0))
    {
      var picked, nsi, hashes := ProofLevel(H, zeros[h], row, index, given, gerIndex, h);
      if picked.None? {
        return None;
      }
      NextLevel(H, given, gerIndex, h, row, index, siblings, ns, picked.value, nsi, hashes);
      siblings := siblings + [picked.value];
      ns, row := nsi, hashes;
      index := index / 2;
    }
    return Some((siblings, ns));
  }

  /** What the siblings recorded at the truncated count are good for. */
  lemma FrontierOfList(H: HashFn, height: nat, leaves: seq<Digest>, siblings: seq<Digest>)
    requires |leaves| % UINT32 != 0 ==> Recorded(H, leaves, |leaves| % UINT32, siblings)
    ensures Frontier(H, Kept(leaves, height), siblings)
  {
    var n := |leaves|;
    var _ := CapacityFacts(height);
    EmptyFrontier(H, siblings);
    if n % UINT32 != 0 {
      RecordedIsFrontier(H, leaves, n % UINT32, siblings);
      assert n < UINT32 ==> leaves[..n % UINT32] == leaves;
    } else {
      assert leaves[..0] == [];
    }
  }

  class L1InfoTree {
    const H: HashFn
    const height: nat
    var zeroHashes: seq<Digest>
    var count: nat
    var siblings: seq<Digest>
    var currentRoot: Digest
    /** The leaves since the tree was last full, and how often it was. */
    ghost var pending: seq<Digest>
    ghost var rounds: nat

    /** What the helpers rely on: the zero hashes are in place. */
    ghost predicate Ready()
      reads this
    {
      |zeroHashes| == height + 1 && AreZeroHashes(H, zeroHashes)
    }

    /** Counter and siblings stand for the pending leaves. */
    ghost predicate Valid()
      reads this
    {
      Ready() && |siblings| == height && Counts(count, |pending|, rounds, height) && Frontier(H, pending, siblings)
    }

    constructor Prepare(H: HashFn, height: nat, n: nat)
      ensures Ready() && this.H == H && this.height == height && count == n % UINT32
    {
      var zs := GenerateZeroHashes(H, height);
      this.H, this.height := H, height;
      zeroHashes, count := zs, n % UINT32;
      siblings, currentRoot, pending, rounds := [], ZERO, [], 0;
    }

    /** The full rebuild: it succeeds exactly when there are at most 2^height leaves
        (and the tree has a level to hash), and yields the textbook root. */
    method BuildL1InfoRoot(given: seq<Digest>) returns (r: Result<Digest>)
      requires Ready()
      ensures r.Ok? <==> 1 <= height && |given| <= Pow2(height)
      ensures r.Ok? ==> r.value == Root(H, given, height)
    {
      var nodes: seq<seq<(Digest, Digest, Digest)>> := [];
      var ns: seq<(Digest, Digest, Digest)> := [];
      var zeros := zeroHashes;
      var row := FirstRow(H, zeros[0], given);
      for h := 0 to height
        invariant IsLevel(H, given, h, row)
        invariant h == 0 ==> ns == []
        invariant h > 0 ==> |ns| == |row| && forall i :: 0 <= i < |row| ==> ns[i].0 == row[i]
      {
        var even;
        even, ns, row := PadAndHash(H, zeros[h], row, given, h);
        nodes := nodes + [ns];
      }
      FitsIffWidthOne(|given|, height);
      if |ns| != 1 {
        return Err;
      }
      return Ok(ns[0].0);
    }

    /** Merkle proof of position `gerIndex`: when it panics, when it reports an error,
        and otherwise exactly which siblings and root it returns. */
    method ComputeMerkleProof(gerIndex: nat, given: seq<Digest>) returns (r: ProofResult)
      requires Ready() && gerIndex < UINT32
      ensures r.IndexOutOfRange? <==> 1 <= height && gerIndex > EvenUp(Width(|given|, 0))
      ensures r.TooManyLeaves? ==> height == 0 || |given| > Pow2(height)
      ensures r.Proof? ==> 1 <= height && |given| <= Pow2(height)
      ensures r.Proof? ==> r.siblings == Siblings(H, given, gerIndex, height)
      ensures r.Proof? ==> Recorded(H, given, gerIndex, r.siblings)
      ensures r.Proof? ==> r.root == Root(H, given, height)
      ensures r.Proof? && gerIndex < |given| && (|given| < UINT32 - 1 || Untruncated(|given|, gerIndex, height)) ==>
        Fold(H, given[gerIndex], r.siblings, gerIndex) == r.root
    {
      var levels := ProofLevels(H, zeroHashes, height, gerIndex, given);
      if levels.None? {
        return IndexOutOfRange;
      }
      var (sibs, ns) := levels.value;
      FitsIffWidthOne(|given|, height);
      if |ns| != 1 {
        return TooManyLeaves;
      }
      if gerIndex < |given| && (|given| < UINT32 - 1 || Untruncated(|given|, gerIndex, height)) {
        if |given| < UINT32 - 1 { FewLeavesUntruncated(|given|, gerIndex, height); }
        RecordedVerifies(H, given, gerIndex, sibs);
      }
      RecordedIsSiblings(H, given, gerIndex, sibs);
      return Proof(sibs, ns[0].0);
    }

    /** The siblings of a tree whose counter is zero. */
    method ZeroSiblings() returns (sibs: seq<Digest>)
      requires Ready()
      ensures |sibs| == height && forall h :: 0 <= h < height ==> sibs[h] == ZeroHash(H, h)
    {
      sibs := [];
      for h := 0 to height
        invariant |sibs| == h && forall k :: 0 <= k < h ==> sibs[k] == ZeroHash(H, k)
      {
        sibs := sibs + [zeroHashes[h]];
      }
    }

    /** `initSiblings`: the root of the initial leaves, and the frontier of what is kept. */
    method InitSiblings(initialLeaves: seq<Digest>) returns (r: Result<(seq<Digest>, Digest)>)
      requires Ready() && count < UINT32
      ensures count != |initialLeaves| % UINT32 ==> r.Err?
      ensures count == |initialLeaves| % UINT32 ==> (r.Ok? <==> 1 <= height && |initialLeaves| <= Pow2(height))
      ensures r.Ok? ==> |r.value.0| == height && r.value.1 == Root(H, initialLeaves, height)
      ensures r.Ok? ==> Frontier(H, Kept(initialLeaves, height), r.value.0)
    {
      if count != |initialLeaves| % UINT32 {
        return Err;
      }
      if count == 0 {
        var sibs := ZeroSiblings();
        var root := BuildL1InfoRoot(initialLeaves);
        if root.Err? {
          return Err;
        }
        FrontierOfList(H, height, initialLeaves, sibs);
        return Ok((sibs, root.value));
      }
      assert count <= |initialLeaves|;
      var proof := ComputeMerkleProof(count, initialLeaves);
      match proof
      case Proof(sibs, root) =>
        FrontierOfList(H, height, initialLeaves, sibs);
        return Ok((sibs, root));
      case TooManyLeaves =>
        return Err;
    }

    /** `NewL1InfoTree`: succeeds exactly when the initial leaves fit, with their root. */
    static method New(H: HashFn, height: nat, initialLeaves: seq<Digest>) returns (r: Result<L1InfoTree>)
      ensures r.Ok? <==> 1 <= height && |initialLeaves| <= Pow2(height)
      ensures r.Ok? ==> fresh(r.value) && r.value.Valid() && r.value.H == H && r.value.height == height
      ensures r.Ok? ==> r.value.currentRoot == Root(H, initialLeaves, height)
      ensures r.Ok? ==> r.value.count == |initialLeaves| % UINT32
      ensures r.Ok? ==> r.value.pending == Kept(initialLeaves, height)
    {
      var mt := new L1InfoTree.Prepare(H, height, |initialLeaves|);
      var init := mt.InitSiblings(initialLeaves);
      if init.Err? {
        return Err;
      }
      mt.siblings, mt.currentRoot := init.value.0, init.value.1;
      mt.pending := Kept(initialLeaves, height);
      ghost var rounds := CounterOfList(initialLeaves, height);
      mt.rounds := rounds;
      return Ok(mt);
    }

    /** The level loop of `AddLeaf`: carries the leaf to the root and stores the
        subtree it completes, and nothing else. */
    method ClimbLevels(index: nat, leaf: Digest) returns (cur: Digest)
      requires Ready() && |siblings| == height
      modifies this`siblings
      ensures cur == Carried(H, zeroHashes, index, old(siblings), leaf, height)
      ensures Stored(H, zeroHashes, index, old(siblings), leaf, siblings)
    {
      var zeros := zeroHashes;
      ghost var was, z := siblings, 0;
      cur := leaf;
      var isFilledSubTree := true;
      for h := 0 to height
        invariant |siblings| == height
        invariant cur == Carried(H, zeros, index, was, leaf, h)
        invariant isFilledSubTree == LowOnes(index, h)
        invariant isFilledSubTree ==> siblings == was
        invariant !isFilledSubTree ==>
          z < h && FirstZero(index, z) && siblings == was[z := Carried(H, zeros, index, was, leaf, z)]
      {
        if Bit(index, h) { // index & (1 << h) > 0; a shift of 32 or more gives 0
          cur := H(siblings[h], cur);
        } else {
          if isFilledSubTree {
            siblings := siblings[h := cur];
            isFilledSubTree, z := false, h;
          }
          cur := H(cur, zeros[h]);
        }
      }
      if isFilledSubTree {
        NothingStored(H, zeros, index, was, leaf);
      } else {
        StoredAtFirstZero(H, zeros, index, was, leaf, z);
      }
    }

    /** `AddLeaf` once the index is known to be right. */
    method Append(leaf: Digest)
      requires Valid()
      modifies this
      ensures Valid() && zeroHashes == old(zeroHashes)
      ensures currentRoot == Root(H, old(pending) + [leaf], height)
      ensures count == (old(count) + 1) % UINT32 && pending == Extended(old(pending), leaf, Capacity(height))
    {
      currentRoot := ClimbLevels(count, leaf);
      ghost var next := AppendCounted(H, zeroHashes, count, pending, rounds, old(siblings), leaf, siblings);
      count := (count + 1) % UINT32;
      pending, rounds := Extended(pending, leaf, Capacity(height)), next;
    }

    /** The incremental update, for every tree: the root is that of the pending leaves with
        the new one, as a full rebuild would give it. A tree that becomes full starts over
        with the next leaf, without an error. */
    method AddLeaf(index: nat, leaf: Digest) returns (r: Result<Digest>)
      requires Valid()
      modifies this
      ensures Valid() && zeroHashes == old(zeroHashes)
      ensures index != old(count) ==>
        && r.Err? && count == old(count) && siblings == old(siblings)
        && currentRoot == old(currentRoot) && pending == old(pending)
      ensures index == old(count) ==>
        && r == Ok(currentRoot) && currentRoot == Root(H, old(pending) + [leaf], height)
        && count == (old(count) + 1) % UINT32
        && pending == Extended(old(pending), leaf, Capacity(height))
    {
      if index != count {
        return Err;
      }
      Append(leaf);
      return Ok(currentRoot);
    }

    method GetCurrentRootCountAndSiblings() returns (root: Digest, n: nat, sibs: seq<Digest>)
      requires Valid()
      ensures root == currentRoot && n == count && sibs == siblings
    {
      return currentRoot, count, siblings;
    }
  }

  lemma AppendNext(first: seq<Digest>, more: seq<Digest>, i: nat)
    requires i < |more|
    ensures first + more[..i] + [more[i]] == first + more[..i + 1]
  {
  }

  /** The roots that adding `more` one by one to the leaves `kept` should give. */
  ghost predicate RootsOf(H: HashFn, height: nat, kept: seq<Digest>, more: seq<Digest>, roots: seq<Digest>) {
    && |roots| == |more|
    && forall i :: 0 <= i < |more| ==> roots[i] == Root(H, Since(kept + more[..i + 1], Capacity(height)), height)
  }

  lemma RootsMore(H: HashFn, height: nat, kept: seq<Digest>, more: seq<Digest>, i: nat,
                  roots: seq<Digest>, root: Digest)
    requires i < |more| && RootsOf(H, height, kept, more[..i], roots)
    requires root == Root(H, Since(kept + more[..i + 1], Capacity(height)), height)
    ensures RootsOf(H, height, kept, more[..i + 1], roots + [root])
  {
    var now, all := more[..i + 1], roots + [root];
    forall k | 0 <= k <= i ensures all[k] == Root(H, Since(kept + now[..k + 1], Capacity(height)), height) {
      assert now[..k + 1] == more[..k + 1];
      assert k < i ==> more[..i][..k + 1] == more[..k + 1];
    }
  }

  lemma AddedOne(H: HashFn, height: nat, kept: seq<Digest>, more: seq<Digest>, i: nat,
                 roots: seq<Digest>, root: Digest, pending: seq<Digest>)
    requires i < |more| && RootsOf(H, height, kept, more[..i], roots)
    requires var before := Pending(kept + more[..i], Capacity(height));
      root == Root(H, before + [more[i]], height) && pending == Extended(before, more[i], Capacity(height))
    ensures RootsOf(H, height, kept, more[..i + 1], roots + [root])
    ensures pending == Pending(kept + more[..i + 1], Capacity(height))
  {
    AppendNext(kept, more, i);
    PendingStep(kept + more[..i], more[i], Capacity(height));
    RootsMore(H, height, kept, more, i, roots, root);
  }

  /** Adds leaves one by one. */
  method AddAll(tree: L1InfoTree, more: seq<Digest>) returns (roots: seq<Digest>)
    requires tree.Valid()
    modifies tree
    ensures tree.Valid() && RootsOf(tree.H, tree.height, old(tree.pending), more, roots)
  {
    ghost var kept, cap := tree.pending, Capacity(tree.height);
    roots := [];
    PendingBelowCapacity(kept, cap);
    assert kept + more[..0] == kept;
    for i := 0 to |more|
      invariant tree.Valid() && tree.pending == Pending(kept + more[..i], cap)
      invariant RootsOf(tree.H, tree.height, kept, more[..i], roots)
    {
      var added := tree.AddLeaf(tree.count, more[i]);
      AddedOne(tree.H, tree.height, kept, more, i, roots, added.value, tree.pending);
      roots := roots + [added.value];
    }
    assert more[..|more|] == more;
  }

  /** A list that fits may as well have been added leaf by leaf. */
  lemma RootsOfFirst(H: HashFn, height: nat, first: seq<Digest>, more: seq<Digest>, roots: seq<Digest>)
    requires |first| <= Capacity(height) && RootsOf(H, height, Kept(first, height), more, roots)
    ensures RootsOf(H, height, first, more, roots)
    ensures forall i :: 0 <= i < |more| && |first| + i < Capacity(height) ==>
      roots[i] == Root(H, first + more[..i + 1], height)
  {
    forall i | 0 <= i < |more|
      ensures roots[i] == Root(H, Since(first + more[..i + 1], Capacity(height)), height)
      ensures |first| + i < Capacity(height) ==> roots[i] == Root(H, first + more[..i + 1], height)
    {
      KeptOfFirst(first, more[..i + 1], height);
    }
  }

  /** Every run, of any length: start from `first`, add `more` one by one. Each root is that of
      the leaves since the tree was last full, so it depends only on the concatenation and
      not on where the initial list ended; up to the capacity it is that of all leaves. */
  method BuildThenAdd(H: HashFn, height: nat, first: seq<Digest>, more: seq<Digest>)
    returns (r: Result<seq<Digest>>)
    ensures r.Ok? <==> 1 <= height && |first| <= Pow2(height)
    ensures r.Ok? ==> RootsOf(H, height, Kept(first, height), more, r.value)
    ensures r.Ok? && |first| <= Capacity(height) ==> RootsOf(H, height, first, more, r.value)
    ensures r.Ok? ==> forall i :: 0 <= i < |more| && |first| + i < Capacity(height) ==>
      r.value[i] == Root(H, first + more[..i + 1], height)
  {
    var made := L1InfoTree.New(H, height, first);
    if made.Err? {
      return Err;
    }
    var roots := AddAll(made.value, more);
    if |first| <= Capacity(height) {
      RootsOfFirst(H, height, first, more, roots);
    }
    return Ok(roots);
  }
}

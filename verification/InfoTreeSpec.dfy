/** The mathematics behind the L1 info tree: what a node of the zero-padded
    Merkle tree is, independently of how the tree is built, extended or proved.

    `Hash` is Keccak-256 of two digests; nothing below depends on which function
    it is, so it is a parameter `H` of every definition. */
module InfoTreeSpec {
  datatype Digest = Digest(bits: bv256)
  type HashFn = (Digest, Digest) -> Digest

  const ZERO := Digest(0)
  const UINT32: nat := 0x1_0000_0000

  // ---------------------------------------------------------------- positions

  function Pow2(h: nat): (p: nat)
    ensures p >= 1
  {
    if h == 0 then 1 else 2 * Pow2(h - 1)
  }

  /** The position above `n` after climbing `h` levels: `n` shifted right by `h`. */
  function Up(n: nat, h: nat): nat {
    if h == 0 then n else Up(n, h - 1) / 2
  }

  /** `n & (1 << h) > 0`. */
  predicate Bit(n: nat, h: nat) {
    Up(n, h) % 2 == 1
  }

  /** Number of nodes at level `h` that cover the first `n` leaves; an empty tree
      has one zero leaf. */
  function Width(n: nat, h: nat): (w: nat)
    ensures w >= 1
  {
    if h == 0 then (if n == 0 then 1 else n) else (Width(n, h - 1) + 1) / 2
  }

  // -------------------------------------------------------------------- nodes

  /** Leaf `i` of the leaf list padded with zeros for ever. */
  function Leaf(leaves: seq<Digest>, i: nat): Digest {
    if i < |leaves| then leaves[i] else ZERO
  }

  /** Node `i` of level `h` of the Merkle tree over the zero-padded leaves. */
  function Node(H: HashFn, leaves: seq<Digest>, h: nat, i: nat): Digest {
    if h == 0 then Leaf(leaves, i)
    else H(Node(H, leaves, h - 1, 2 * i), Node(H, leaves, h - 1, 2 * i + 1))
  }

  function Root(H: HashFn, leaves: seq<Digest>, height: nat): Digest {
    Node(H, leaves, height, 0)
  }

  /** Root of an all-zero tree of height `h`. */
  function ZeroHash(H: HashFn, h: nat): Digest {
    Node(H, [], h, 0)
  }

  /** Root of the perfect tree over exactly 2^h given leaves, by halving. */
  function PerfectRoot(H: HashFn, row: seq<Digest>, h: nat): Digest
    requires |row| == Pow2(h)
  {
    if h == 0 then row[0]
    else
      var half := Pow2(h - 1);
      H(PerfectRoot(H, row[..half], h - 1), PerfectRoot(H, row[half..], h - 1))
  }

  function Padded(leaves: seq<Digest>, size: nat): (row: seq<Digest>)
    ensures |row| == size
    ensures forall i :: 0 <= i < size ==> row[i] == Leaf(leaves, i)
  {
    seq(size, i requires 0 <= i => Leaf(leaves, i))
  }

  // ------------------------------------------------------- facts on positions

  lemma Pow2Step(m: nat, h: nat)
    requires h > 0
    ensures 2 * m * Pow2(h - 1) == m * Pow2(h)
  {
    var p := Pow2(h - 1);
    assert m * (2 * p) == 2 * m * p;
  }

  /** `Up(n, h)` is the quotient of `n` by 2^h. */
  lemma {:induction false} UpBound(n: nat, h: nat, m: nat)
    ensures Up(n, h) < m <==> n < m * Pow2(h)
  {
    if h > 0 {
      UpBound(n, h - 1, 2 * m);
      Pow2Step(m, h);
    }
  }

  lemma UpVanishes(n: nat, h: nat)
    ensures Up(n, h) == 0 <==> n < Pow2(h)
  {
    UpBound(n, h, 1);
  }

  /** A level is one node wide exactly when the leaves fit under it. */
  lemma {:induction false} WidthBound(n: nat, h: nat, m: nat)
    ensures Width(n, h) <= m <==> (if n == 0 then 1 else n) <= m * Pow2(h)
  {
    if h > 0 {
      WidthBound(n, h - 1, 2 * m);
      Pow2Step(m, h);
    }
  }

  lemma FitsIffWidthOne(n: nat, h: nat)
    ensures Width(n, h) == 1 <==> n <= Pow2(h)
  {
    WidthBound(n, h, 1);
  }

  // ----------------------------------------------------------- facts on nodes

  lemma {:induction false} EmptyTreeNode(H: HashFn, h: nat, i: nat)
    ensures Node(H, [], h, i) == ZeroHash(H, h)
  {
    if h > 0 {
      EmptyTreeNode(H, h - 1, 2 * i);
      EmptyTreeNode(H, h - 1, 2 * i + 1);
      EmptyTreeNode(H, h - 1, 1);
    }
  }

  /** Nodes right of the leaves are roots of all-zero subtrees. */
  lemma {:induction false} EmptyNode(H: HashFn, leaves: seq<Digest>, h: nat, i: nat)
    requires i >= Width(|leaves|, h)
    ensures Node(H, leaves, h, i) == ZeroHash(H, h)
  {
    EmptyTreeNode(H, h, i);
    if h > 0 {
      EmptyNode(H, leaves, h - 1, 2 * i);
      EmptyNode(H, leaves, h - 1, 2 * i + 1);
      EmptyTreeNode(H, h - 1, 1);
    }
  }

  lemma {:induction false} ZeroHashStep(H: HashFn, h: nat)
    ensures ZeroHash(H, 0) == ZERO
    ensures ZeroHash(H, h + 1) == H(ZeroHash(H, h), ZeroHash(H, h))
  {
    EmptyTreeNode(H, h, 1);
  }

  /** Complete subtrees over a prefix of the leaves do not depend on what follows it. */
  lemma {:induction false} LeftNodes(H: HashFn, a: seq<Digest>, b: seq<Digest>, h: nat, i: nat)
    requires a <= b && i < Up(|a|, h)
    ensures Node(H, b, h, i) == Node(H, a, h, i)
  {
    if h > 0 {
      LeftNodes(H, a, b, h - 1, 2 * i);
      LeftNodes(H, a, b, h - 1, 2 * i + 1);
    }
  }

  /** First leaf position below each child of node `i`. */
  lemma ChildrenStart(i: nat, h: nat)
    requires h > 0
    ensures 2 * i * Pow2(h - 1) == i * Pow2(h)
    ensures (2 * i + 1) * Pow2(h - 1) == i * Pow2(h) + Pow2(h - 1)
  {
    Pow2Step(i, h);
  }

  /** The root is the textbook one: the perfect 2^height tree over the leaves
      padded with zero leaves. */
  lemma {:induction false} NodeIsPerfectRoot(H: HashFn, leaves: seq<Digest>, h: nat, i: nat,
                                             start: nat, row: seq<Digest>)
    requires start == i * Pow2(h) && |row| == Pow2(h)
    requires forall k :: 0 <= k < |row| ==> row[k] == Leaf(leaves, start + k)
    ensures Node(H, leaves, h, i) == PerfectRoot(H, row, h)
  {
    if h > 0 {
      var half := Pow2(h - 1);
      var l, r := row[..half], row[half..];
      ChildrenStart(i, h);
      forall k | 0 <= k < half ensures r[k] == Leaf(leaves, start + half + k) {
        assert r[k] == row[half + k];
      }
      NodeIsPerfectRoot(H, leaves, h - 1, 2 * i, start, l);
      NodeIsPerfectRoot(H, leaves, h - 1, 2 * i + 1, start + half, r);
    }
  }

  lemma RootIsPerfectRoot(H: HashFn, leaves: seq<Digest>, height: nat)
    ensures Root(H, leaves, height) == PerfectRoot(H, Padded(leaves, Pow2(height)), height)
  {
    NodeIsPerfectRoot(H, leaves, height, 0, 0, Padded(leaves, Pow2(height)));
  }

  // ------------------------------------------------------------------ binding

  /** Two distinct inputs of `Hash` with one output. */
  ghost predicate Collision(H: HashFn, a: Digest, b: Digest, c: Digest, d: Digest) {
    (a, b) != (c, d) && H(a, b) == H(c, d)
  }

  /** From two zero-padded leaf lists that differ below a node and give it the
      same value, a collision of `Hash` can be read off the two trees. */
  lemma {:induction false} Binding(H: HashFn, x: seq<Digest>, y: seq<Digest>, h: nat, i: nat, k: nat)
    returns (a: Digest, b: Digest, c: Digest, d: Digest)
    requires Up(k, h) == i
    requires Leaf(x, k) != Leaf(y, k)
    requires Node(H, x, h, i) == Node(H, y, h, i)
    ensures Collision(H, a, b, c, d)
  {
    a, b := Node(H, x, h - 1, 2 * i), Node(H, x, h - 1, 2 * i + 1);
    c, d := Node(H, y, h - 1, 2 * i), Node(H, y, h - 1, 2 * i + 1);
    if (a, b) == (c, d) {
      var j := Up(k, h - 1);
      assert j == 2 * i || j == 2 * i + 1;
      a, b, c, d := Binding(H, x, y, h - 1, j, k);
    }
  }

  /** The root binds the leaves: different padded lists with one root exhibit a
      collision, whatever the height. */
  lemma RootBinding(H: HashFn, x: seq<Digest>, y: seq<Digest>, height: nat)
    returns (a: Digest, b: Digest, c: Digest, d: Digest)
    requires Padded(x, Pow2(height)) != Padded(y, Pow2(height))
    requires Root(H, x, height) == Root(H, y, height)
    ensures Collision(H, a, b, c, d)
  {
    var k :| 0 <= k < Pow2(height) && Padded(x, Pow2(height))[k] != Padded(y, Pow2(height))[k];
    UpVanishes(k, height);
    a, b, c, d := Binding(H, x, y, height, 0, k);
  }

  // ------------------------------------------------------------ Merkle proofs

  /** The node above `cur` and its neighbour, `cur` being at position `index`. */
  function Parent(H: HashFn, cur: Digest, sibling: Digest, index: nat): Digest {
    if index % 2 == 1 then H(sibling, cur) else H(cur, sibling)
  }

  /** What a verifier of a Merkle proof computes: fold the leaf with the siblings
      along the bits of the index. */
  function Fold(H: HashFn, cur: Digest, siblings: seq<Digest>, index: nat): Digest
    decreases |siblings|
  {
    if siblings == [] then cur
    else
      Fold(H, Parent(H, cur, siblings[0], index), siblings[1..], index / 2)
  }

  /** The neighbour of node `i` under their common parent. */
  function Sibling(i: nat): nat {
    if i % 2 == 1 then i - 1 else i + 1
  }

  ghost predicate IsProof(H: HashFn, leaves: seq<Digest>, index: nat, siblings: seq<Digest>) {
    forall h :: 0 <= h < |siblings| ==> siblings[h] == Node(H, leaves, h, Sibling(Up(index, h)))
  }

  lemma NodeFromChildren(H: HashFn, leaves: seq<Digest>, h: nat, i: nat)
    ensures Parent(H, Node(H, leaves, h, i), Node(H, leaves, h, Sibling(i)), i) == Node(H, leaves, h + 1, i / 2)
  {
    if i % 2 == 1 {
      assert i == 2 * (i / 2) + 1;
    } else {
      assert i == 2 * (i / 2);
    }
  }

  lemma FoldStep(H: HashFn, cur: Digest, siblings: seq<Digest>, h: nat, i: nat)
    requires h < |siblings|
    ensures Fold(H, cur, siblings[h..], i) == Fold(H, Parent(H, cur, siblings[h], i), siblings[h + 1..], i / 2)
  {
    assert siblings[h..][0] == siblings[h] && siblings[h..][1..] == siblings[h + 1..];
  }

  /** As far as the siblings are true ones, folding climbs the tree. */
  lemma {:induction false} FoldUp(H: HashFn, leaves: seq<Digest>, index: nat, siblings: seq<Digest>, h: nat)
    requires h <= |siblings| && IsProof(H, leaves, index, siblings[..h])
    ensures Fold(H, Leaf(leaves, index), siblings, index)
         == Fold(H, Node(H, leaves, h, Up(index, h)), siblings[h..], Up(index, h))
  {
    if h == 0 {
      assert siblings[0..] == siblings;
    } else {
      var i := Up(index, h - 1);
      assert siblings[..h][h - 1] == siblings[h - 1];
      assert forall k :: 0 <= k < h - 1 ==> siblings[..h - 1][k] == siblings[..h][k];
      FoldUp(H, leaves, index, siblings, h - 1);
      FoldStep(H, Node(H, leaves, h - 1, i), siblings, h - 1, i);
      NodeFromChildren(H, leaves, h - 1, i);
    }
  }

  /** Completeness: folding a leaf with its proof gives the root. */
  lemma ProofComplete(H: HashFn, leaves: seq<Digest>, index: nat, siblings: seq<Digest>)
    requires index < Pow2(|siblings|)
    requires IsProof(H, leaves, index, siblings)
    ensures Fold(H, Leaf(leaves, index), siblings, index) == Root(H, leaves, |siblings|)
  {
    assert siblings[..|siblings|] == siblings;
    FoldUp(H, leaves, index, siblings, |siblings|);
    UpVanishes(index, |siblings|);
  }

  lemma CollisionAtParent(H: HashFn, leaves: seq<Digest>, index: nat, h: nat, cur: Digest, sibling: Digest)
    returns (a: Digest, b: Digest, c: Digest, d: Digest)
    requires cur != Node(H, leaves, h, index)
    requires Parent(H, cur, sibling, index) == Node(H, leaves, h + 1, index / 2)
    ensures Collision(H, a, b, c, d)
  {
    var other := Node(H, leaves, h, Sibling(index));
    NodeFromChildren(H, leaves, h, index);
    if index % 2 == 1 {
      a, b, c, d := sibling, cur, other, Node(H, leaves, h, index);
    } else {
      a, b, c, d := cur, sibling, Node(H, leaves, h, index), other;
    }
  }

  lemma {:induction false} UpShift(n: nat, h: nat)
    ensures Up(n, h + 1) == Up(n / 2, h)
  {
    if h > 0 { UpShift(n, h - 1); }
  }

  /** Soundness: any siblings at all that carry a wrong leaf to the root exhibit a
      collision of `Hash`. */
  lemma {:induction false} ProofSound(H: HashFn, leaves: seq<Digest>, index: nat, h: nat,
                                      cur: Digest, siblings: seq<Digest>)
    returns (a: Digest, b: Digest, c: Digest, d: Digest)
    requires cur != Node(H, leaves, h, index)
    requires Fold(H, cur, siblings, index) == Node(H, leaves, h + |siblings|, Up(index, |siblings|))
    ensures Collision(H, a, b, c, d)
    decreases |siblings|
  {
    assert |siblings| > 0;
    var i, next, rest := index / 2, Parent(H, cur, siblings[0], index), siblings[1..];
    if next == Node(H, leaves, h + 1, i) {
      a, b, c, d := CollisionAtParent(H, leaves, index, h, cur, siblings[0]);
    } else {
      UpShift(index, |rest|);
      assert h + |siblings| == h + 1 + |rest|;
      a, b, c, d := ProofSound(H, leaves, i, h + 1, next, rest);
    }
  }
}

/** The siblings that `ComputeMerkleProof` records, in 32-bit arithmetic, and exactly when
    they verify. */
module InfoTreeProofs {
  import opened InfoTreeFrontier
  import opened InfoTreeSpec

  /** Length of a row after padding. */
  function EvenUp(n: nat): nat {
    n + n % 2
  }

  /** Position recorded for position `i` of a padded row of `w` entries, in 32-bit
      arithmetic: the true sibling, unless `i` is even and not below the truncated length. */
  function RecordedPos(i: nat, w: nat): nat {
    if i % 2 == 1 then i - 1
    else if i >= w % UINT32 then (if i == 0 then UINT32 - 1 else i - 1)
    else i + 1
  }

  ghost predicate RecordedAt(H: HashFn, leaves: seq<Digest>, index: nat, h: nat, d: Digest) {
    d == Node(H, leaves, h, RecordedPos(Up(index, h), EvenUp(Width(|leaves|, h))))
  }

  ghost predicate Recorded(H: HashFn, leaves: seq<Digest>, index: nat, siblings: seq<Digest>) {
    forall h :: 0 <= h < |siblings| ==> RecordedAt(H, leaves, index, h, siblings[h])
  }

  lemma RecordMore(H: HashFn, leaves: seq<Digest>, index: nat, siblings: seq<Digest>, d: Digest)
    requires Recorded(H, leaves, index, siblings)
    requires RecordedAt(H, leaves, index, |siblings|, d)
    ensures Recorded(H, leaves, index, siblings + [d])
  {
    var more := siblings + [d];
    forall h | 0 <= h < |more| ensures RecordedAt(H, leaves, index, h, more[h]) {
      if h < |siblings| {
        assert RecordedAt(H, leaves, index, h, siblings[h]);
      }
    }
  }

  lemma {:induction false} UpBelowWidth(n: nat, index: nat, h: nat)
    requires index < n
    ensures Up(index, h) < Width(n, h)
  {
    if h > 0 { UpBelowWidth(n, index, h - 1); }
  }

  lemma {:induction false} UpShrinks(n: nat, h: nat)
    ensures Up(n, h) <= n
  {
    if h > 0 { UpShrinks(n, h - 1); }
  }

  lemma {:induction false} WidthShrinks(n: nat, h: nat)
    ensures Width(n, h) <= Width(n, 0)
  {
    if h > 0 { WidthShrinks(n, h - 1); }
  }

  /** Level `h` records the true sibling: its position is odd or below the truncated length
      of its row. */
  predicate TrueAt(n: nat, index: nat, h: nat) {
    Up(index, h) % 2 == 1 || Up(index, h) < EvenUp(Width(n, h)) % UINT32
  }

  ghost predicate Untruncated(n: nat, index: nat, height: nat) {
    forall h :: 0 <= h < height ==> TrueAt(n, index, h)
  }

  lemma FewLeavesUntruncated(n: nat, index: nat, height: nat)
    requires index < n < UINT32 - 1
    ensures Untruncated(n, index, height)
  {
    forall h | 0 <= h < height ensures TrueAt(n, index, h) {
      UpBelowWidth(n, index, h);
      WidthShrinks(n, h);
    }
  }

  lemma RecordedIsProof(H: HashFn, leaves: seq<Digest>, index: nat, siblings: seq<Digest>)
    requires Untruncated(|leaves|, index, |siblings|)
    requires Recorded(H, leaves, index, siblings)
    ensures IsProof(H, leaves, index, siblings)
  {
    forall h | 0 <= h < |siblings|
      ensures siblings[h] == Node(H, leaves, h, Sibling(Up(index, h)))
    {
      assert TrueAt(|leaves|, index, h) && RecordedAt(H, leaves, index, h, siblings[h]);
    }
  }

  lemma RecordedVerifies(H: HashFn, leaves: seq<Digest>, index: nat, siblings: seq<Digest>)
    requires index < |leaves| <= Pow2(|siblings|) && Untruncated(|leaves|, index, |siblings|)
    requires Recorded(H, leaves, index, siblings)
    ensures Fold(H, leaves[index], siblings, index) == Root(H, leaves, |siblings|)
  {
    RecordedIsProof(H, leaves, index, siblings);
    ProofComplete(H, leaves, index, siblings);
  }

  // -------------------------------------------------------- proofs that fail

  const ONE := Digest(1)

  /** A hash of two marks: one if exactly one of them is. */
  const XOR: HashFn := (a: Digest, b: Digest) => if (a == ONE) != (b == ONE) then ONE else ZERO

  /** A list of `n` leaves with a mark at position `k`. */
  function Marked(n: nat, k: nat): (leaves: seq<Digest>)
    ensures |leaves| == n
  {
    seq(n, j => if j == k then ONE else ZERO)
  }

  /** The mark shows in exactly the nodes above it. */
  lemma {:induction false} MarkedNode(n: nat, k: nat, h: nat, i: nat)
    requires k < n
    ensures Node(XOR, Marked(n, k), h, i) == if Up(k, h) == i then ONE else ZERO
  {
    if h > 0 {
      MarkedNode(n, k, h - 1, 2 * i);
      MarkedNode(n, k, h - 1, 2 * i + 1);
    }
  }

  /** The siblings recorded for `index`. */
  function Siblings(H: HashFn, leaves: seq<Digest>, index: nat, height: nat): (siblings: seq<Digest>)
    ensures |siblings| == height
  {
    seq(height, h requires 0 <= h => Node(H, leaves, h, RecordedPos(Up(index, h), EvenUp(Width(|leaves|, h)))))
  }

  lemma SiblingsRecorded(H: HashFn, leaves: seq<Digest>, index: nat, height: nat)
    ensures Recorded(H, leaves, index, Siblings(H, leaves, index, height))
  {
  }

  /** There are no others. */
  lemma RecordedIsSiblings(H: HashFn, leaves: seq<Digest>, index: nat, siblings: seq<Digest>)
    requires Recorded(H, leaves, index, siblings)
    ensures siblings == Siblings(H, leaves, index, |siblings|)
  {
    forall h | 0 <= h < |siblings| ensures siblings[h] == Siblings(H, leaves, index, |siblings|)[h] {
      assert RecordedAt(H, leaves, index, h, siblings[h]);
    }
  }

  /** Whether the sibling recorded at level `h` shows the mark. */
  predicate Shows(n: nat, k: nat, index: nat, h: nat) {
    Up(k, h) == RecordedPos(Up(index, h), EvenUp(Width(n, h)))
  }

  function Marks(n: nat, k: nat, index: nat, height: nat): (marks: seq<bool>)
    ensures |marks| == height
  {
    seq(height, h requires 0 <= h => Shows(n, k, index, h))
  }

  function Mark(mark: bool): Digest {
    if mark then ONE else ZERO
  }

  lemma SiblingsShowMarks(n: nat, k: nat, index: nat, height: nat, h: nat)
    requires k < n && h < height
    ensures Siblings(XOR, Marked(n, k), index, height)[h] == Mark(Marks(n, k, index, height)[h])
  {
    MarkedNode(n, k, h, RecordedPos(Up(index, h), EvenUp(Width(n, h))));
  }

  lemma {:induction false} UpAgrees(a: nat, b: nat, h: nat, j: nat)
    requires h <= j && Up(a, h) == Up(b, h)
    ensures Up(a, j) == Up(b, j)
    decreases j
  {
    if h < j { UpAgrees(a, b, h, j - 1); }
  }

  /** From the level on where the mark is below the position itself, it does not show. */
  lemma ShowsNoMore(n: nat, k: nat, index: nat, h: nat, j: nat)
    requires h <= j && Up(k, h) == Up(index, h)
    ensures !Shows(n, k, index, j)
  {
    UpAgrees(k, index, h, j);
  }

  /** Folding marks from level `h` on counts them. */
  function Parity(mark: bool, marks: seq<bool>, h: nat): bool
    requires h <= |marks|
    decreases |marks| - h
  {
    if h == |marks| then mark else Parity(mark != marks[h], marks, h + 1)
  }

  lemma XorParent(a: bool, b: bool, i: nat)
    ensures Parent(XOR, Mark(a), Mark(b), i) == Mark(a != b)
  {
  }

  lemma {:induction false} FoldIsParity(mark: bool, siblings: seq<Digest>, marks: seq<bool>, h: nat, i: nat)
    requires h <= |siblings| == |marks| && forall j :: 0 <= j < |marks| ==> siblings[j] == Mark(marks[j])
    ensures Fold(XOR, Mark(mark), siblings[h..], i) == Mark(Parity(mark, marks, h))
    decreases |marks| - h
  {
    if h < |marks| {
      FoldStep(XOR, Mark(mark), siblings, h, i);
      XorParent(mark, marks[h], i);
      FoldIsParity(mark != marks[h], siblings, marks, h + 1, i / 2);
    }
  }

  lemma {:induction false} NoMarks(marks: seq<bool>, h: nat)
    requires h <= |marks| && forall j :: h <= j < |marks| ==> !marks[j]
    ensures !Parity(false, marks, h)
    decreases |marks| - h
  {
    if h < |marks| { NoMarks(marks, h + 1); }
  }

  lemma TwoMarks(marks: seq<bool>, h: nat)
    requires h + 2 <= |marks| && marks[h] && marks[h + 1] && forall j :: h + 2 <= j < |marks| ==> !marks[j]
    ensures !Parity(false, marks, h)
  {
    NoMarks(marks, h + 2);
    assert Parity(false, marks, h) == Parity(true, marks, h + 1);
  }

  /** The first leaf below a node of a row. */
  lemma FirstLeaf(n: nat, h: nat, p: nat) returns (k: nat)
    requires n > 0 && p < Width(n, h)
    ensures k < n && Up(k, h) == p
  {
    k := p * Pow2(h);
    WidthBound(n, h, p);
    UpBound(k, h, p);
    UpBound(k, h, p + 1);
    assert (p + 1) * Pow2(h) == k + Pow2(h);
  }

  lemma MarkedRoot(n: nat, k: nat, height: nat)
    requires k < n <= Pow2(height)
    ensures Root(XOR, Marked(n, k), height) == ONE
  {
    UpVanishes(k, height);
    MarkedNode(n, k, height, 0);
  }

  /** Below the first level that does not record the true sibling, the fold climbs as it
      should; from there on it counts marks. */
  lemma FoldToLevel(n: nat, k: nat, index: nat, height: nat, h: nat)
    requires k < n && index < n && h <= height && Untruncated(n, index, h)
    ensures var leaves := Marked(n, k);
      Fold(XOR, leaves[index], Siblings(XOR, leaves, index, height), index)
        == Mark(Parity(Up(k, h) == Up(index, h), Marks(n, k, index, height), h))
  {
    var leaves, marks := Marked(n, k), Marks(n, k, index, height);
    var siblings := Siblings(XOR, leaves, index, height);
    SiblingsRecorded(XOR, leaves, index, height);
    assert Recorded(XOR, leaves, index, siblings[..h]);
    RecordedIsProof(XOR, leaves, index, siblings[..h]);
    FoldUp(XOR, leaves, index, siblings, h);
    MarkedNode(n, k, h, Up(index, h));
    forall j | 0 <= j < height ensures siblings[j] == Mark(marks[j]) {
      SiblingsShowMarks(n, k, index, height, j);
    }
    FoldIsParity(Up(k, h) == Up(index, h), siblings, marks, h, Up(index, h));
  }

  /** A mark below the true sibling does not show in a wrong one. */
  lemma ShowsNothing(n: nat, k: nat, index: nat, h: nat)
    requires !TrueAt(n, index, h) && Up(k, h) == Up(index, h) + 1
    ensures !Shows(n, k, index, h) && Up(k, h + 1) == Up(index, h + 1)
  {
  }

  lemma MarkLost(n: nat, k: nat, index: nat, height: nat, h: nat)
    requires h < height && !Shows(n, k, index, h) && Up(k, h + 1) == Up(index, h + 1)
    ensures !Parity(false, Marks(n, k, index, height), h)
  {
    var marks := Marks(n, k, index, height);
    forall j | h <= j < height ensures !marks[j] {
      if j > h { ShowsNoMore(n, k, index, h + 1, j); }
    }
    NoMarks(marks, h);
  }

  lemma MarkTwice(n: nat, k: nat, index: nat, height: nat, h: nat)
    requires h + 2 <= height && Shows(n, k, index, h) && Shows(n, k, index, h + 1) && Up(k, h + 2) == Up(index, h + 2)
    ensures !Parity(false, Marks(n, k, index, height), h)
  {
    var marks := Marks(n, k, index, height);
    forall j | h + 2 <= j < height ensures !marks[j] {
      ShowsNoMore(n, k, index, h + 2, j);
    }
    TwoMarks(marks, h);
  }

  /** The level records a wrong sibling, and the true one covers leaves: a mark below the
      true sibling is lost. */
  lemma LosesSibling(n: nat, index: nat, height: nat, h: nat) returns (k: nat)
    requires index < n && h < height && Untruncated(n, index, h) && !TrueAt(n, index, h)
    requires Up(index, h) + 1 < Width(n, h)
    ensures k < n
    ensures var leaves := Marked(n, k);
      Fold(XOR, leaves[index], Siblings(XOR, leaves, index, height), index) == ZERO
  {
    k := FirstLeaf(n, h, Up(index, h) + 1);
    ShowsNothing(n, k, index, h);
    FoldToLevel(n, k, index, height, h);
    MarkLost(n, k, index, height, h);
  }

  /** It covers none at one position only, the last one of a row of 2^32 - 1 nodes. */
  lemma EndOfRow(n: nat, index: nat, height: nat, h: nat)
    requires index < n <= Pow2(height) && index < UINT32 && h < height
    requires !TrueAt(n, index, h) && Up(index, h) + 1 >= Width(n, h)
    ensures Up(index, h) == UINT32 - 2 && Width(n, h) == UINT32 - 1
    ensures h + 1 < height
  {
    UpBelowWidth(n, index, h);
    UpShrinks(index, h);
    FitsIffWidthOne(n, height);
  }

  lemma ShowsTwice(n: nat, k: nat, index: nat, h: nat)
    requires Up(index, h) == UINT32 - 2 && Width(n, h) == UINT32 - 1 && Up(k, h) == Up(index, h) - 1
    ensures Shows(n, k, index, h) && Shows(n, k, index, h + 1)
    ensures Up(k, h + 2) == Up(index, h + 2)
  {
    assert Up(index, h + 1) == UINT32 / 2 - 1 && Up(k, h + 1) == UINT32 / 2 - 2;
    assert Up(index, h + 2) == Up(index, h + 1) / 2 && Up(k, h + 2) == Up(k, h + 1) / 2;
  }

  /** There the left neighbour is recorded: a mark below it is counted twice. */
  lemma CountsTwice(n: nat, index: nat, height: nat, h: nat) returns (k: nat)
    requires index < n <= Pow2(height) && index < UINT32 && h < height
    requires Untruncated(n, index, h) && !TrueAt(n, index, h)
    requires Up(index, h) + 1 >= Width(n, h)
    ensures k < n
    ensures var leaves := Marked(n, k);
      Fold(XOR, leaves[index], Siblings(XOR, leaves, index, height), index) == ZERO
  {
    EndOfRow(n, index, height, h);
    k := FirstLeaf(n, h, Up(index, h) - 1);
    ShowsTwice(n, k, index, h);
    FoldToLevel(n, k, index, height, h);
    MarkTwice(n, k, index, height, h);
  }

  lemma {:induction false} FirstWrongLevel(n: nat, index: nat, height: nat) returns (h: nat)
    requires !Untruncated(n, index, height)
    ensures h < height && Untruncated(n, index, h) && !TrueAt(n, index, h)
  {
    if Untruncated(n, index, height - 1) {
      h := height - 1;
    } else {
      h := FirstWrongLevel(n, index, height - 1);
    }
  }

  /** When some length is truncated on the way, there are leaves whose recorded siblings do
      not verify. */
  lemma TruncatedFails(n: nat, index: nat, height: nat) returns (k: nat)
    requires index < n <= Pow2(height) && index < UINT32 && !Untruncated(n, index, height)
    ensures k < n
    ensures var leaves := Marked(n, k);
      && Fold(XOR, leaves[index], Siblings(XOR, leaves, index, height), index) == ZERO
      && Root(XOR, leaves, height) == ONE
  {
    var h := FirstWrongLevel(n, index, height);
    if Up(index, h) + 1 < Width(n, h) {
      k := LosesSibling(n, index, height, h);
    } else {
      k := CountsTwice(n, index, height, h);
    }
    MarkedRoot(n, k, height);
  }

  /** The recorded siblings of `index` verify for every hash function and all leaves. */
  ghost predicate AlwaysVerifies(n: nat, index: nat, height: nat)
    requires index < n
  {
    forall H: HashFn, leaves: seq<Digest> :: |leaves| == n ==>
      Fold(H, leaves[index], Siblings(H, leaves, index, height), index) == Root(H, leaves, height)
  }

  /** Exactly when the proofs of a position verify. */
  lemma VerifiesIffUntruncated(n: nat, index: nat, height: nat)
    requires index < n <= Pow2(height) && index < UINT32
    ensures AlwaysVerifies(n, index, height) <==> Untruncated(n, index, height)
  {
    if Untruncated(n, index, height) {
      forall H: HashFn, leaves: seq<Digest> | |leaves| == n
        ensures Fold(H, leaves[index], Siblings(H, leaves, index, height), index) == Root(H, leaves, height)
      {
        SiblingsRecorded(H, leaves, index, height);
        RecordedVerifies(H, leaves, index, Siblings(H, leaves, index, height));
      }
    } else {
      var k := TruncatedFails(n, index, height);
      assert |Marked(n, k)| == n;
    }
  }

  lemma LeafOneNotShown()
    ensures !Shows(UINT32 - 1, 1, 0, 0) && Up(1, 1) == Up(0, 1)
  {
    assert EvenUp(Width(UINT32 - 1, 0)) == UINT32;
    assert RecordedPos(0, UINT32) == UINT32 - 1;
  }

  /** With 2^32 - 1 leaves the padded length reads as zero: index 0 gets the last entry of
      the row for its sibling, and its proof misses leaf 1. */
  lemma FullRowFails(height: nat)
    requires height >= 32
    ensures var leaves := Marked(UINT32 - 1, 1);
      && Fold(XOR, leaves[0], Siblings(XOR, leaves, 0, height), 0) == ZERO
      && Root(XOR, leaves, height) == ONE
  {
    var n, k := UINT32 - 1, 1;
    var _ := CapacityFacts(height);
    Pow2Of32();
    FoldToLevel(n, k, 0, height, 0);
    LeafOneNotShown();
    MarkLost(n, k, 0, height, 0);
    MarkedRoot(n, k, height);
  }

  // ------------------------------------------------ the position past the end

  /** The proof of position `c` is right at every one-bit of `c`, which is all the frontier
      of the first `c` leaves needs, however many there are. */
  lemma RecordedIsFrontier(H: HashFn, leaves: seq<Digest>, c: nat, siblings: seq<Digest>)
    requires c <= |leaves| && Recorded(H, leaves, c, siblings)
    ensures Frontier(H, leaves[..c], siblings)
  {
    forall h | 0 <= h < |siblings| && Bit(c, h)
      ensures siblings[h] == Node(H, leaves[..c], h, Up(c, h) - 1)
    {
      assert RecordedAt(H, leaves, c, h, siblings[h]);
      LeftNodes(H, leaves[..c], leaves, h, Up(c, h) - 1);
    }
  }
}

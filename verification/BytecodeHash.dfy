/** How contract bytecode is fed to Poseidon: padded, cut into blocks of eight 7-byte
    little-endian limbs, and chained. */
module BytecodeHash {
  import opened Basics

  type Byte = b: nat | b < 0x100

  const ELEMENTS: nat := 8
  const BYTES: nat := 7
  const BLOCK: nat := 56

  /** Eight limbs, and the four words of a digest or of the capacity. */
  type Block = b: seq<nat> | |b| == ELEMENTS witness seq(8, _ => 0)
  type Word4 = w: seq<nat> | |w| == 4 witness seq(4, _ => 0)

  const ZERO4: Word4 := [0, 0, 0, 0]

  /** Poseidon: eight field elements and a capacity to a digest; it may report an error. */
  type PoseidonFn = (Block, Word4) -> Option<Word4>

  // ------------------------------------------------------------------- padding

  function Zeros(k: nat): (z: seq<Byte>)
    ensures |z| == k && forall i :: 0 <= i < k ==> z[i] == 0
  {
    seq(k, _ => 0)
  }

  /** `b | 0x80`. */
  function Or80(b: Byte): Byte {
    if b < 0x80 then b + 0x80 else b
  }

  function PaddingLength(n: nat): nat {
    (BLOCK - n % BLOCK) % BLOCK
  }

  /** 0x01 after the code, zeros to a whole number of blocks, top bit of the last byte. */
  function Pad(code: seq<Byte>): (p: seq<Byte>)
    ensures |p| % BLOCK == 0 && |p| > |code|
  {
    var s := code + [1] + Zeros(PaddingLength(|code| + 1));
    s[|s| - 1 := Or80(s[|s| - 1])]
  }

  /** The padding byte by byte: the code, 0x01, zeros, and the top bit of the last byte, which
      is the byte after the code itself when nothing else is needed. */
  lemma PadBytes(code: seq<Byte>)
    ensures var p, n := Pad(code), |code|;
      && |p| % 56 == 0 && n < |p| <= n + 56 && p[..n] == code
      && p[n] == (if |p| == n + 1 then 0x81 else 0x01)
      && (forall i :: n < i < |p| - 1 ==> p[i] == 0)
      && (|p| > n + 1 ==> p[|p| - 1] == 0x80)
  {
    var s := code + [1] + Zeros(PaddingLength(|code| + 1));
    assert s[..|code|] == code && Pad(code)[..|code|] == s[..|code|];
  }

  function StripZeros(s: seq<Byte>): (r: seq<Byte>)
    ensures |r| <= |s|
  {
    if s != [] && s[|s| - 1] == 0 then StripZeros(s[..|s| - 1]) else s
  }

  /** The code of a padded sequence. */
  function Unpad(p: seq<Byte>): seq<Byte> {
    if p == [] || p[|p| - 1] < 0x80 then []
    else
      var r := StripZeros(p[|p| - 1 := p[|p| - 1] - 0x80]);
      if r == [] then [] else r[..|r| - 1]
  }

  lemma {:induction false} StripAddedZeros(s: seq<Byte>, k: nat)
    requires s != [] && s[|s| - 1] != 0
    ensures StripZeros(s + Zeros(k)) == s
  {
    if k == 0 {
      assert s + Zeros(0) == s;
    } else {
      StripAddedZeros(s, k - 1);
      assert (s + Zeros(k))[..|s| + k - 1] == s + Zeros(k - 1);
    }
  }

  lemma PadRoundTrip(code: seq<Byte>)
    ensures Unpad(Pad(code)) == code
  {
    var k := PaddingLength(|code| + 1);
    var one := code + [1];
    var s, p := one + Zeros(k), Pad(code);
    assert s[|s| - 1] == if k == 0 then 1 else 0;
    assert p[|p| - 1 := p[|p| - 1] - 0x80] == s;
    StripAddedZeros(one, k);
    assert one[..|one| - 1] == code;
  }

  // --------------------------------------------------------------------- limbs

  /** Little-endian value of a byte sequence. */
  function LittleEndian(s: seq<Byte>): nat {
    if s == [] then 0 else s[0] + 0x100 * LittleEndian(s[1..])
  }

  /** Big-endian value, as `big.Int.SetBytes` reads it. */
  function BigEndian(s: seq<Byte>): nat {
    if s == [] then 0 else BigEndian(s[..|s| - 1]) * 0x100 + s[|s| - 1]
  }

  /** The lowest `k` base-256 digits, lowest first. */
  function Digits(n: nat, k: nat): (s: seq<Byte>)
    ensures |s| == k
  {
    if k == 0 then [] else [n % 0x100] + Digits(n / 0x100, k - 1)
  }

  function Pow256(k: nat): nat {
    if k == 0 then 1 else 0x100 * Pow256(k - 1)
  }

  lemma LowestDigit(b: Byte, v: nat)
    ensures (b + 0x100 * v) % 0x100 == b && (b + 0x100 * v) / 0x100 == v
  {
  }

  lemma {:induction false} DigitsOfLittleEndian(s: seq<Byte>)
    ensures Digits(LittleEndian(s), |s|) == s
    ensures LittleEndian(s) < Pow256(|s|)
  {
    if s != [] {
      DigitsOfLittleEndian(s[1..]);
      var v := LittleEndian(s[1..]);
      LowestDigit(s[0], v);
      assert s == [s[0]] + s[1..];
    }
  }

  /** Filling a buffer backwards and reading it big-endian is little-endian. */
  lemma {:induction false} BigEndianReversed(t: seq<Byte>, s: seq<Byte>)
    requires |t| == |s|
    requires forall c :: 0 <= c < |s| ==> t[|s| - 1 - c] == s[c]
    ensures BigEndian(t) == LittleEndian(s)
  {
    if s != [] {
      var n := |s|;
      assert t[n - 1 - 0] == s[0];
      forall c | 0 <= c < n - 1 ensures t[..n - 1][n - 2 - c] == s[1..][c] {
        assert t[n - 1 - (c + 1)] == s[c + 1];
      }
      BigEndianReversed(t[..n - 1], s[1..]);
    }
  }

  function Weighted(b0: nat, b1: nat, b2: nat, b3: nat, b4: nat, b5: nat, b6: nat): nat {
    b0 + 0x100 * b1 + 0x1_0000 * b2 + 0x100_0000 * b3 +
    0x1_0000_0000 * b4 + 0x100_0000_0000 * b5 + 0x1_0000_0000_0000 * b6
  }

  lemma SevenBytes(s: seq<Byte>)
    requires |s| == 7
    ensures LittleEndian(s) == Weighted(s[0], s[1], s[2], s[3], s[4], s[5], s[6])
  {
    var s1, s2, s3, s4, s5, s6 := s[1..], s[2..], s[3..], s[4..], s[5..], s[6..];
    assert s1[1..] == s2 && s2[1..] == s3 && s3[1..] == s4 && s4[1..] == s5 && s5[1..] == s6 && s6[1..] == [];
    assert LittleEndian(s6) == s[6];
    assert LittleEndian(s5) == s[5] + 0x100 * LittleEndian(s6);
    assert LittleEndian(s4) == s[4] + 0x100 * LittleEndian(s5);
    assert LittleEndian(s3) == s[3] + 0x100 * LittleEndian(s4);
    assert LittleEndian(s2) == s[2] + 0x100 * LittleEndian(s3);
    assert LittleEndian(s1) == s[1] + 0x100 * LittleEndian(s2);
  }

  // -------------------------------------------------------------------- blocks

  /** The bytes of limb `l` of block `i`. */
  function LimbBytes(p: seq<Byte>, i: nat, l: nat): (s: seq<Byte>)
    requires l < ELEMENTS && (i + 1) * BLOCK <= |p|
    ensures |s| == BYTES
  {
    p[i * BLOCK + l * BYTES..i * BLOCK + l * BYTES + BYTES]
  }

  function BlockOf(p: seq<Byte>, i: nat): (b: Block)
    requires (i + 1) * BLOCK <= |p|
  {
    seq(ELEMENTS, l requires 0 <= l < ELEMENTS => LittleEndian(LimbBytes(p, i, l)))
  }

  function Blocks(p: seq<Byte>): (bs: seq<Block>)
    requires |p| % BLOCK == 0
    ensures |bs| == |p| / BLOCK
  {
    seq(|p| / BLOCK, i requires 0 <= i < |p| / BLOCK => BlockOf(p, i))
  }

  /** The bytes of a limb list, seven each. */
  function LimbsToBytes(limbs: seq<nat>): (s: seq<Byte>)
    ensures |s| == BYTES * |limbs|
  {
    if limbs == [] then [] else LimbsToBytes(limbs[..|limbs| - 1]) + Digits(limbs[|limbs| - 1], BYTES)
  }

  function BlocksToBytes(bs: seq<Block>): seq<Byte> {
    if bs == [] then [] else BlocksToBytes(bs[..|bs| - 1]) + LimbsToBytes(bs[|bs| - 1])
  }

  /** `v` is limb `k` of the bytes from position `a` on. */
  predicate ReadAt(p: seq<Byte>, a: nat, k: nat, v: nat) {
    a + (k + 1) * BYTES <= |p| && v == LittleEndian(p[a + k * BYTES..a + (k + 1) * BYTES])
  }

  lemma DigitsBack(p: seq<Byte>, a: nat, k: nat, v: nat)
    requires ReadAt(p, a, k, v)
    ensures Digits(v, BYTES) == p[a + k * BYTES..a + (k + 1) * BYTES]
  {
    DigitsOfLittleEndian(p[a + k * BYTES..a + (k + 1) * BYTES]);
  }

  lemma SliceJoins(p: seq<Byte>, a: nat, m: nat, b: nat)
    requires a <= m <= b <= |p|
    ensures p[a..m] + p[m..b] == p[a..b]
  {
  }

  /** Limbs that were read from position `a` on give those bytes back. */
  lemma {:induction false} LimbsBack(p: seq<Byte>, a: nat, limbs: seq<nat>)
    requires a + |limbs| * BYTES <= |p|
    requires forall k :: 0 <= k < |limbs| ==> ReadAt(p, a, k, limbs[k])
    ensures LimbsToBytes(limbs) == p[a..a + |limbs| * BYTES]
  {
    if limbs == [] {
      assert p[a..a] == [];
    } else {
      var l := |limbs| - 1;
      var m, b := a + l * BYTES, a + (l + 1) * BYTES;
      assert LimbsToBytes(limbs[..l]) == p[a..m] by { LimbsBack(p, a, limbs[..l]); }
      assert Digits(limbs[l], BYTES) == p[m..b] by { DigitsBack(p, a, l, limbs[l]); }
      SliceJoins(p, a, m, b);
    }
  }

  lemma LimbsRoundTrip(p: seq<Byte>, i: nat)
    requires (i + 1) * BLOCK <= |p|
    ensures LimbsToBytes(BlockOf(p, i)) == p[i * BLOCK..(i + 1) * BLOCK]
  {
    forall k | 0 <= k < ELEMENTS ensures ReadAt(p, i * BLOCK, k, BlockOf(p, i)[k]) {}
    LimbsBack(p, i * BLOCK, BlockOf(p, i));
  }

  lemma {:induction false} BlocksRoundTrip(p: seq<Byte>, k: nat)
    requires |p| % BLOCK == 0 && k <= |p| / BLOCK
    ensures BlocksToBytes(Blocks(p)[..k]) == p[..k * BLOCK]
  {
    if k > 0 {
      BlocksRoundTrip(p, k - 1);
      LimbsRoundTrip(p, k - 1);
      var bs := Blocks(p)[..k];
      assert bs[..k - 1] == Blocks(p)[..k - 1];
      assert bs[k - 1] == BlockOf(p, k - 1);
      SliceJoins(p, 0, (k - 1) * BLOCK, k * BLOCK);
    }
  }

  /** The block sequence determines the code: decoding undoes the encoding. */
  lemma EncodingRoundTrip(code: seq<Byte>)
    ensures Unpad(BlocksToBytes(Blocks(Pad(code)))) == code
  {
    var p := Pad(code);
    var n := |p| / BLOCK;
    BlocksRoundTrip(p, n);
    assert Blocks(p)[..n] == Blocks(p);
    assert n * BLOCK == |p|;
    assert p[..|p|] == p;
    PadRoundTrip(code);
  }

  /** Two different codes never give the same block sequence. */
  lemma EncodingIsInjective(x: seq<Byte>, y: seq<Byte>)
    requires Blocks(Pad(x)) == Blocks(Pad(y))
    ensures x == y
  {
    EncodingRoundTrip(x);
    EncodingRoundTrip(y);
  }

  /** Every limb is below 2^56, so it is a field element. */
  lemma LimbsFit(p: seq<Byte>, i: nat, l: nat)
    requires (i + 1) * BLOCK <= |p| && l < ELEMENTS
    ensures BlockOf(p, i)[l] < 0x100_0000_0000_0000
  {
    DigitsOfLittleEndian(LimbBytes(p, i, l));
    assert Pow256(7) == 0x100_0000_0000_0000;
  }

  /** A limb is seven bytes in a row, the first one the least significant. */
  lemma LimbValue(p: seq<Byte>, i: nat, l: nat)
    requires (i + 1) * BLOCK <= |p| && l < ELEMENTS
    ensures var a := i * 56 + l * 7;
      BlockOf(p, i)[l] == Weighted(p[a], p[a + 1], p[a + 2], p[a + 3], p[a + 4], p[a + 5], p[a + 6])
  {
    SevenBytes(LimbBytes(p, i, l));
  }

  // --------------------------------------------------------------------- chain

  /** The digest after all blocks, each hashed with the digest so far as capacity. */
  function Chain(H: PoseidonFn, bs: seq<Block>): Option<Word4> {
    if bs == [] then Some(ZERO4)
    else
      var before := Chain(H, bs[..|bs| - 1]);
      if before.None? then None else H(bs[|bs| - 1], before.value)
  }

  /** Two inputs of Poseidon with one output, or an input with output zero. */
  datatype Break = Collision(b: Block, c: Word4, b': Block, c': Word4) | ZeroPreimage(b: Block, c: Word4)
  {
    ghost predicate Of(H: PoseidonFn) {
      match this
      case Collision(b, c, b', c') => (b, c) != (b', c') && H(b, c).Some? && H(b, c) == H(b', c')
      case ZeroPreimage(b, c) => H(b, c) == Some(ZERO4)
    }
  }

  lemma {:induction false} ChainBinding(H: PoseidonFn, x: seq<Block>, y: seq<Block>) returns (k: Break)
    requires x != y && Chain(H, x).Some? && Chain(H, x) == Chain(H, y)
    ensures k.Of(H)
    decreases |x|
  {
    if x == [] {
      k := ZeroPreimage(y[|y| - 1], Chain(H, y[..|y| - 1]).value);
    } else if y == [] {
      k := ZeroPreimage(x[|x| - 1], Chain(H, x[..|x| - 1]).value);
    } else {
      var b, c := x[|x| - 1], Chain(H, x[..|x| - 1]).value;
      var b', c' := y[|y| - 1], Chain(H, y[..|y| - 1]).value;
      if (b, c) != (b', c') {
        k := Collision(b, c, b', c');
      } else {
        assert x == x[..|x| - 1] + [b] && y == y[..|y| - 1] + [b'];
        k := ChainBinding(H, x[..|x| - 1], y[..|y| - 1]);
      }
    }
  }

  ghost function CodeHash(H: PoseidonFn, code: seq<Byte>): Option<Word4> {
    Chain(H, Blocks(Pad(code)))
  }

  /** The first block is hashed with a zero capacity, every other one with the hash of the
      blocks before it; an error anywhere is the result. */
  lemma CodeHashSteps(H: PoseidonFn, code: seq<Byte>)
    ensures var bs := Blocks(Pad(code));
      && |bs| >= 1 && CodeHash(H, code) == Chain(H, bs)
      && Chain(H, bs[..1]) == H(bs[0], [0, 0, 0, 0])
      && forall i :: 1 <= i < |bs| ==>
           Chain(H, bs[..i + 1]) ==
             if Chain(H, bs[..i]).None? then None else H(bs[i], Chain(H, bs[..i]).value)
  {
    var bs := Blocks(Pad(code));
    assert bs[..1][..0] == [];
    forall i | 1 <= i < |bs|
      ensures Chain(H, bs[..i + 1]) == if Chain(H, bs[..i]).None? then None else H(bs[i], Chain(H, bs[..i]).value)
    {
      assert bs[..i + 1][..i] == bs[..i];
    }
  }

  /** The code hash binds the code: two different codes with one hash exhibit a
      Poseidon collision or a preimage of the initial capacity. */
  lemma CodeHashBinding(H: PoseidonFn, x: seq<Byte>, y: seq<Byte>) returns (k: Break)
    requires x != y && CodeHash(H, x).Some? && CodeHash(H, x) == CodeHash(H, y)
    ensures k.Of(H)
  {
    if Blocks(Pad(x)) == Blocks(Pad(y)) {
      EncodingIsInjective(x, y);
    }
    k := ChainBinding(H, Blocks(Pad(x)), Blocks(Pad(y)));
  }

  // --------------------------------------------------------------- the methods

  lemma PaddingNotDone(n: nat, k: nat)
    requires k <= PaddingLength(n) && (n + k) % BLOCK != 0
    ensures k < PaddingLength(n)
  {
  }

  lemma PaddingDone(n: nat, k: nat)
    requires k <= PaddingLength(n) && (n + k) % BLOCK == 0
    ensures k == PaddingLength(n)
  {
  }

  /** The padding loop. */
  method AddPadding(code: seq<Byte>) returns (p: seq<Byte>)
    ensures p == Pad(code)
  {
    p := code + [1];
    ghost var k := 0;
    while |p| % BLOCK != 0
      invariant p == code + [1] + Zeros(k)
      invariant k <= PaddingLength(|code| + 1)
      decreases PaddingLength(|code| + 1) - k
    {
      PaddingNotDone(|code| + 1, k);
      p := p + [0];
      k := k + 1;
    }
    PaddingDone(|code| + 1, k);
    p := p[|p| - 1 := Or80(p[|p| - 1])];
  }

  lemma FullBuffer(p: seq<Byte>, i: nat, l: nat, t: seq<Byte>)
    requires (i + 1) * BLOCK <= |p| && l < ELEMENTS && |t| == BYTES
    requires forall d :: 0 <= d < BYTES ==> t[d] == p[i * BLOCK + BYTES * l + (BYTES - 1 - d)]
    ensures BigEndian(t) == LittleEndian(LimbBytes(p, i, l))
  {
    var s := LimbBytes(p, i, l);
    forall c | 0 <= c < BYTES ensures t[BYTES - 1 - c] == s[c] {
      assert s[c] == p[i * BLOCK + l * BYTES + c];
    }
    BigEndianReversed(t, s);
  }

  /** The loop over one block: fills a 7-byte buffer from the back and turns it into a
      limb whenever it is full. The slice has one byte more than a block, except the last. */
  method PackBlock(p: seq<Byte>, i: nat) returns (limbs: Block)
    requires (i + 1) * BLOCK <= |p|
    ensures limbs == BlockOf(p, i)
  {
    var bytesPointer := i * BLOCK;
    var end := if |p| - 1 < bytesPointer + BLOCK then |p| - 1 else bytesPointer + BLOCK;
    var subset := p[bytesPointer..end + 1];
    var elements: seq<nat> := [];
    var tmpElem: seq<Byte> := Zeros(BYTES);
    var counter := 0;
    for j := 0 to BLOCK
      invariant |tmpElem| == BYTES && counter < BYTES
      invariant j == BYTES * |elements| + counter
      invariant |elements| <= ELEMENTS
      invariant forall l :: 0 <= l < |elements| ==> elements[l] == LittleEndian(LimbBytes(p, i, l))
      invariant forall d :: BYTES - counter <= d < BYTES ==>
        tmpElem[d] == p[bytesPointer + BYTES * |elements| + (BYTES - 1 - d)]
    {
      var byteToAdd: Byte := 0;
      if j < |subset| {
        byteToAdd := subset[j];
      }
      assert byteToAdd == p[bytesPointer + j];
      tmpElem := tmpElem[BYTES - 1 - counter := byteToAdd];
      counter := counter + 1;
      if counter == BYTES {
        FullBuffer(p, i, |elements|, tmpElem);
        elements := elements + [BigEndian(tmpElem)];
        tmpElem := Zeros(BYTES);
        counter := 0;
      }
    }
    limbs := elements;
  }

  lemma {:induction false} ChainStopsEarly(H: PoseidonFn, bs: seq<Block>, k: nat)
    requires k <= |bs| && Chain(H, bs[..k]).None?
    ensures Chain(H, bs).None?
    decreases |bs| - k
  {
    if k < |bs| {
      assert bs[..k + 1][..k] == bs[..k];
      ChainStopsEarly(H, bs, k + 1);
    } else {
      assert bs[..k] == bs;
    }
  }

  /** `HashContractBytecode`. */
  method HashContractBytecode(H: PoseidonFn, code: seq<Byte>) returns (r: Option<Word4>)
    ensures r == CodeHash(H, code)
  {
    var p := AddPadding(code);
    var numHashes := (|p| + BLOCK - 1) / BLOCK;
    var tmpHash := ZERO4;
    ghost var bs := Blocks(p);
    for i := 0 to numHashes
      invariant Chain(H, bs[..i]) == Some(tmpHash)
    {
      assert (i + 1) * BLOCK <= |p|;
      var limbs := PackBlock(p, i);
      assert bs[..i + 1][..i] == bs[..i] && bs[i] == limbs;
      var next := H(limbs, tmpHash);
      if next.None? {
        ChainStopsEarly(H, bs, i + 1);
        return None;
      }
      tmpHash := next.value;
    }
    assert bs[..numHashes] == bs;
    return Some(tmpHash);
  }
}

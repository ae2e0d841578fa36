/** Proof of work over an opaque hash: `src/proofOfWork.cpp`. */
module ProofOfWork {
  import opened Arithmetic
  import opened Base
  import opened Ledger
  import opened Numerals
  import opened Wire
  import Merkle
  import Retarget
  import T = TransactionCodec

  const MAX_NONCE: Int32 := 0x7FFF_FFFF

  /** `1 << (256 - bits)`; a shift by a negative amount leaves the 1 in place. */
  function Target(bits: Int32): nat {
    if bits <= 256 then Retarget.Pow2(256 - bits) else 1
  }

  function PrepareData(sha: Sha256, b: Block, nonce: Int32): Bytes
    requires b.txs != []
  {
    b.prev + Merkle.Root(sha, b.txs).bytes + BigEndian8(b.timestamp) + BigEndian8(b.bits) + BigEndian8(nonce)
  }

  function PowHash(sha: Sha256, b: Block, nonce: Int32): (hash: Bytes)
    requires b.txs != []
    ensures |hash| == 32
  {
    sha.Of(PrepareData(sha, b, nonce))
  }

  predicate Meets(sha: Sha256, b: Block, nonce: Int32)
    requires b.txs != []
  {
    Number(256, PowHash(sha, b, nonce)) < Target(b.bits)
  }

  /** `Validate` looks at the nonce of the block, not at its stored hash. */
  predicate Valid(sha: Sha256, b: Block)
    requires b.txs != []
  {
    Meets(sha, b, b.nonce)
  }

  /** A block whose search for a nonce succeeded. */
  predicate Mined(sha: Sha256, b: Block) {
    b.txs != [] && 0 <= b.nonce < MAX_NONCE && Meets(sha, b, b.nonce) && b.hash == PowHash(sha, b, b.nonce)
  }

  lemma {:induction false} MeetsDependsOn(sha: Sha256, a: Block, b: Block, nonce: Int32)
    requires a.txs != [] && a.txs == b.txs && a.prev == b.prev && a.timestamp == b.timestamp && a.bits == b.bits
    ensures PowHash(sha, a, nonce) == PowHash(sha, b, nonce)
    ensures Meets(sha, a, nonce) <==> Meets(sha, b, nonce)
  {
  }

  // ---------------------------------------------------------------- what a header commits to

  /** Most significant byte first. */
  lemma {:induction false} ReversedNumber(b: Bytes)
    ensures Number(256, Reversed(b)) == Value(b)
  {
    if b != [] {
      ReversedNumber(b[1..]);
      ReversedCons(b);
      NumberSnoc(256, Reversed(b[1..]), b[0]);
    }
  }

  lemma {:induction false} ReversedCons(b: Bytes)
    requires b != []
    ensures Reversed(b) == Reversed(b[1..]) + [b[0]]
  {
    if |b| > 1 {
      var init := b[..|b| - 1];
      ReversedCons(init);
      assert init[1..] == b[1..][..|b[1..]| - 1];
    }
  }

  lemma {:induction false} BigEndian8Is(v: int)
    ensures Number(256, BigEndian8(v)) == v % TWO_64
  {
    ReversedNumber(U64(v));
    ValueOfLittleEndian(v, 8);
    Pow256Values();
  }

  /** A header is 88 bytes: predecessor, Merkle root, timestamp, bits, nonce; numbers most significant byte first. */
  predicate IsHeader(data: Bytes, prev: Bytes, root: Bytes, timestamp: int, bits: int, nonce: int) {
    && |data| == 88 && data[..32] == prev && data[32..64] == root
    && Number(256, data[64..72]) == timestamp % TWO_64
    && Number(256, data[72..80]) == bits % TWO_64
    && Number(256, data[80..88]) == nonce % TWO_64
  }

  lemma {:induction false} HeaderLayout(sha: Sha256, b: Block, nonce: Int32)
    requires b.txs != [] && |b.prev| == 32
    ensures IsHeader(PrepareData(sha, b, nonce), b.prev, Merkle.Root(sha, b.txs).bytes, b.timestamp, b.bits, nonce)
  {
    hide Merkle.Root, BigEndian8, Number;
    var data := PrepareData(sha, b, nonce);
    Merkle.RootIsSized(sha, b.txs);
    BigEndian8Is(b.timestamp);
    BigEndian8Is(b.bits);
    BigEndian8Is(nonce);
    assert data[64..72] == BigEndian8(b.timestamp);
    assert data[72..80] == BigEndian8(b.bits);
    assert data[80..88] == BigEndian8(nonce);
  }

  lemma {:induction false} SameResidue(x: Int64, y: Int64)
    requires x % TWO_64 == y % TWO_64
    ensures x == y
  {
  }

  /**
   * One proof-of-work hash for two headers: the same predecessor, Merkle root, timestamp, bits and nonce; or two
   * different inputs of the hash function with one digest come out of them.
   */
  lemma {:induction false} HeaderBinds(sha: Sha256, a: Block, n: Int32, b: Block, m: Int32)
    returns (col: Option<Collision>)
    requires a.txs != [] && b.txs != [] && |a.prev| == |b.prev| == 32 && PowHash(sha, a, n) == PowHash(sha, b, m)
    ensures col.Some? ==> IsCollision(sha, col.value)
    ensures col.None? ==> a.prev == b.prev && Merkle.Root(sha, a.txs) == Merkle.Root(sha, b.txs)
    ensures col.None? ==> a.timestamp == b.timestamp && a.bits == b.bits && n == m
  {
    hide Merkle.Root, PrepareData, Number;
    var x, y := PrepareData(sha, a, n), PrepareData(sha, b, m);
    if x != y {
      return Some(Collision(x, y));
    }
    HeaderLayout(sha, a, n);
    HeaderLayout(sha, b, m);
    SameResidue(a.timestamp, b.timestamp);
    SameResidue(a.bits, b.bits);
    SameResidue(n, m);
    return None;
  }

  /** And of equally many transactions it says that they have the same inputs and outputs. */
  lemma {:induction false} HashBindsTransactions(sha: Sha256, a: Block, n: Int32, b: Block, m: Int32)
    returns (col: Option<Collision>)
    requires |a.txs| == |b.txs| > 0 && |a.prev| == |b.prev| == 32 && PowHash(sha, a, n) == PowHash(sha, b, m)
    requires forall i :: 0 <= i < |a.txs| ==> T.Encodable(a.txs[i]) && T.Encodable(b.txs[i])
    ensures col.Some? ==> IsCollision(sha, col.value)
    ensures col.None? ==> forall i :: 0 <= i < |a.txs| ==> Merkle.Alike(a.txs[i], b.txs[i])
  {
    hide Merkle.Root, PowHash, T.Encodable;
    col := HeaderBinds(sha, a, n, b, m);
    if col.None? {
      col := Merkle.TransactionsBound(sha, a.txs, b.txs);
    }
  }

  lemma {:induction false} PowersMultiply(m: nat, n: nat)
    ensures Retarget.Pow2(m) * Retarget.Pow2(n) == Retarget.Pow2(m + n)
  {
    if m > 0 {
      PowersMultiply(m - 1, n);
      Doubled(Retarget.Pow2(m - 1), Retarget.Pow2(n));
    }
  }

  lemma {:induction false} Doubled(x: nat, y: nat)
    ensures (2 * x) * y == 2 * (x * y)
  {
  }

  /** What is asked of the hash as a number: that it be below 2^256 after multiplication by 2^bits. */
  lemma {:induction false} MeetsMeans(sha: Sha256, b: Block, nonce: Int32)
    requires b.txs != [] && 1 <= b.bits <= 255
    ensures Meets(sha, b, nonce) <==>
      Number(256, PowHash(sha, b, nonce)) * Retarget.Pow2(b.bits) < Retarget.Pow2(256)
  {
    hide PowHash, Number, Retarget.Pow2;
    PowersMultiply(256 - b.bits, b.bits);
    Scaled(Number(256, PowHash(sha, b, nonce)), Retarget.Pow2(256 - b.bits), Retarget.Pow2(b.bits));
  }

  lemma {:induction false} Scaled(x: nat, y: nat, p: nat)
    requires p > 0
    ensures x < y <==> x * p < y * p
  {
    if x < y {
      MulLess(p, x, y);
    } else {
      MulOrder(p, y, x);
    }
  }

  lemma {:induction false} MulLess(p: nat, a: int, b: int)
    requires a < b && p > 0
    ensures p * a < p * b
  {
  }

  /** The first nonce that works, or the end of the search space if none does. */
  method Run(sha: Sha256, b: Block) returns (nonce: Int32, hash: Bytes)
    requires b.txs != []
    ensures 0 <= nonce <= 0x7FFF_FFFF && |hash| == 32
    ensures forall n: Int32 :: 0 <= n < nonce ==> !Meets(sha, b, n)
    ensures nonce < 0x7FFF_FFFF ==> Meets(sha, b, nonce) && hash == PowHash(sha, b, nonce)
  {
    hide PowHash, Target;
    nonce, hash := 0, ZERO_HASH;
    while nonce < MAX_NONCE
      invariant 0 <= nonce <= MAX_NONCE && |hash| == 32
      invariant forall n: Int32 :: 0 <= n < nonce ==> !Meets(sha, b, n)
    {
      hash := PowHash(sha, b, nonce);
      if Number(256, hash) < Target(b.bits) {
        return;
      }
      nonce := nonce + 1;
    }
  }

  /** The constructor of a block: the current time, then the search for a nonce. */
  method NewBlock(sha: Sha256, txs: seq<Transaction>, prev: Bytes, bits: Int32, now: Int64) returns (b: Block)
    requires txs != []
    ensures b.timestamp == now && b.txs == txs && b.prev == prev && b.bits == bits && |b.hash| == 32
    ensures b.nonce < MAX_NONCE <==> Mined(sha, b)
    ensures b.nonce == MAX_NONCE ==> forall n: Int32 :: 0 <= n < MAX_NONCE ==> !Meets(sha, b, n)
  {
    hide PowHash, Target;
    var draft := Block(now, txs, prev, [], 0, bits);
    var nonce, hash := Run(sha, draft);
    b := Block(now, txs, prev, hash, nonce, bits);
    forall n: Int32 {
      MeetsDependsOn(sha, draft, b, n);
    }
  }
}

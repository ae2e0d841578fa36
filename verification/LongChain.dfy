/**
 * Chains of hundreds of accepted blocks, for the statements that only show on long ones: coinbases that have matured,
 * and more blocks than one inventory names.
 */
module LongChain {
  import opened Base
  import opened ChainModel
  import opened Ledger
  import opened Miner
  import opened Numerals
  import opened Supply
  import opened SupplyRuns
  import opened UtxoIndex
  import opened UtxoUpdate
  import opened Validation
  import opened Wire
  import BlockCodec
  import MedianTime
  import Merkle
  import Payment
  import ProofOfWork
  import Retarget
  import T = TransactionCodec
  import Wallet

  // ---------------------------------------------------------------- hashes and keys

  /** 29 zeros, then three bytes. */
  function Mark(kind: Byte, high: Byte, low: Byte): (h: Bytes)
    ensures |h| == 32 && h[12] == h[13] == 0 && h[29] == kind && h[30] == high && h[31] == low
  {
    ZERO_HASH[29 := kind][30 := high][31 := low]
  }

  lemma {:induction false} MarkIsProper(kind: Byte, high: Byte, low: Byte)
    requires kind > 0 || high > 0 || low > 0
    ensures ProperHash(Mark(kind, high, low))
  {
    assert ZERO_HASH[29] == ZERO_HASH[30] == ZERO_HASH[31] == 0;
  }

  /** Of a long input, its length and bytes 20 and 21, where a coinbase has its data; of a short one, its first byte. */
  function Told(b: Bytes): (h: Bytes)
    ensures |h| == 32
  {
    if |b| > 21 then Mark(|b| % 256, b[20], b[21]) else if b == [] then Mark(0, 0, 0) else Mark(|b|, 0, b[0])
  }

  function Telling(): Sha256 {
    Sha256((b: Bytes) => Told(b))
  }

  lemma {:induction false} Tells(b: Bytes)
    ensures Telling().Of(b) == Told(b)
  {
  }

  /** A signature is the key, then what was signed. */
  function Keys(): Crypto {
    Crypto(Telling(), (key: Bytes, digest: Bytes, signature: Bytes) => if signature == key + digest then Good else Bad)
  }

  function Pair(name: Byte): Payment.KeyPair {
    Payment.KeyPair([name], (digest: Bytes) => [name] + digest)
  }

  lemma {:induction false} PairSigns(name: Byte)
    ensures Payment.SignsFor(Keys(), Pair(name))
  {
  }

  /** Nobody signs for another. */
  lemma {:induction false} PairSignsForItself(name: Byte, other: Byte, digest: Bytes)
    requires name != other
    ensures Keys().check(Pair(other).public, digest, Pair(name).sign(digest)) == Bad
  {
    assert ([name] + digest)[0] == name && ([other] + digest)[0] == other;
  }

  function Hashing(): Wallet.Hashes {
    Wallet.Hashes(Telling(), (b: Bytes) => b)
  }

  function Lock(name: Byte): (h: Bytes)
    ensures |h| == 32
  {
    Mark(1, 0, name)
  }

  lemma {:induction false} LockIs(name: Byte)
    ensures Wallet.HashPubKey(Hashing(), Pair(name).public) == Lock(name)
  {
    Tells([name]);
  }

  const OWNER: Byte := 1
  const OTHER: Byte := 2

  // ---------------------------------------------------------------- regular chains

  type Height = i: int | 0 <= i < 600

  function HashAt(i: Height): (h: Bytes)
    ensures |h| == 32
  {
    Mark(0, (i + 1) / 256, (i + 1) % 256)
  }

  lemma {:induction false} HashesDiffer(i: Height, j: Height)
    requires i != j
    ensures HashAt(i) != HashAt(j)
  {
  }

  function BlockWith(i: Height, txs: seq<Transaction>): Block {
    Block(i, txs, if i == 0 then ZERO_HASH else HashAt(i - 1), HashAt(i), 0, INITIAL_BITS)
  }

  /** Every block has its height for a time, and a hash that tells its height. */
  ghost predicate Regular(c: seq<Block>) {
    |c| <= 600 && forall i :: 0 <= i < |c| ==> c[i] == BlockWith(i, c[i].txs)
  }

  lemma {:induction false} RegularInit(c: seq<Block>)
    requires Regular(c) && c != []
    ensures Regular(c[..|c| - 1]) && c == c[..|c| - 1] + [Tip(c)] && Tip(c) == BlockWith(|c| - 1, Tip(c).txs)
  {
  }

  lemma {:induction false} RegularMore(c: seq<Block>, txs: seq<Transaction>)
    requires Regular(c) && |c| < 600
    ensures Regular(c + [BlockWith(|c|, txs)])
  {
    hide HashAt;
    var all := c + [BlockWith(|c|, txs)];
    forall i | 0 <= i < |all| ensures all[i] == BlockWith(i, all[i].txs) {
      if i < |c| {
        assert all[i] == c[i];
      }
    }
  }

  lemma {:induction false} HashIsNew(c: seq<Block>, h: Bytes)
    requires Regular(c) && forall i: Height :: i < |c| ==> HashAt(i) != h
    ensures !HashIn(c, h)
  {
    hide HashAt;
  }

  lemma {:induction false} NextHashIsNew(c: seq<Block>)
    requires Regular(c) && |c| < 600
    ensures !HashIn(c, HashAt(|c|))
  {
    hide HashAt, Regular, HashIn;
    forall i: Height | i < |c| ensures HashAt(i) != HashAt(|c|) {
      HashesDiffer(i, |c|);
    }
    HashIsNew(c, HashAt(|c|));
  }

  lemma {:induction false} RegularLinked(c: seq<Block>)
    requires Regular(c) && c != []
    ensures Linked(c) && TipInRange(c) && BitsInRange(c)
  {
    hide HashAt, HashIn;
    RegularInit(c);
    HashProper(|c| - 1);
    if |c| > 1 {
      RegularLinked(c[..|c| - 1]);
      NextHashIsNew(c[..|c| - 1]);
    }
  }

  lemma {:induction false} HashProper(i: Height)
    ensures ProperHash(HashAt(i))
  {
    MarkIsProper(0, (i + 1) / 256, (i + 1) % 256);
  }

  // ---------------------------------------------------------------- times and work

  lemma {:induction false} TimesBelow(c: seq<Block>, n: nat, v: int)
    requires forall i :: 0 <= i < |c| ==> c[i].timestamp < v
    ensures forall i :: 0 <= i < |NewestTimes(c, n)| ==> NewestTimes(c, n)[i] < v
  {
    if n > 0 && c != [] {
      TimesBelow(c[..|c| - 1], n - 1, v);
    }
  }

  lemma {:induction false} NoneAtLeast(s: seq<Int64>, v: int)
    requires forall i :: 0 <= i < |s| ==> s[i] < v
    ensures MedianTime.CountAtLeast(s, v) == 0
  {
    if s != [] {
      NoneAtLeast(s[1..], v);
    }
  }

  lemma {:induction false} MedianBelow(c: seq<Block>, v: int)
    requires c != [] && forall i :: 0 <= i < |c| ==> c[i].timestamp < v
    ensures MedianTimePast(c) < v
  {
    var times := RecentTimes(c);
    NewestTimesCount(c, MEDIAN_TIME_SPAN);
    TimesBelow(c, MEDIAN_TIME_SPAN, v);
    NoneAtLeast(times, v);
    MedianTime.MedianAtLeast(times, v);
  }

  lemma {:induction false} TimeIsAllowed(c: seq<Block>)
    requires Regular(c) && 0 < |c| < 600
    ensures MedianTimePast(c) < |c| && TipInRange(c) && NextBits(c, |c|) == INITIAL_BITS
    ensures Tip(c).hash == HashAt(|c| - 1)
  {
    hide MedianTimePast, HashAt;
    MedianBelow(c, |c|);
  }

  /** The next block of a regular chain has its place there. */
  lemma {:induction false} HasItsPlace(c: seq<Block>, txs: seq<Transaction>)
    requires Regular(c) && 0 < |c| < 600
    ensures TipInRange(c) && AddOutcome(c, BlockWith(|c|, txs), 0) == Added
  {
    hide Regular, HashIn, MedianTimePast, HashAt, NextBits, TipInRange;
    TimeIsAllowed(c);
    NextHashIsNew(c);
  }

  /** No header needs more work: whatever is told of it makes a small number. */
  lemma {:induction false} AnyHeaderWorks(b: Block)
    requires b.txs != [] && b.bits == INITIAL_BITS
    ensures ProofOfWork.Meets(Telling(), b, 0)
  {
    hide T.Encode, Merkle.Root, Retarget.Pow2;
    var data := ProofOfWork.PrepareData(Telling(), b, 0);
    Tells(data);
    assert exists x: Byte, y: Byte, z: Byte :: Told(data) == Mark(x, y, z) by { ToldIs(data); }
    var x: Byte, y: Byte, z: Byte :| Told(data) == Mark(x, y, z);
    MarkIsSmall(x, y, z);
    TargetIsLarge();
  }

  lemma {:induction false} ToldIs(b: Bytes)
    ensures exists x: Byte, y: Byte, z: Byte :: Told(b) == Mark(x, y, z)
  {
    if |b| > 21 {
      assert Told(b) == Mark(|b| % 256, b[20], b[21]);
    } else if b == [] {
      assert Told(b) == Mark(0, 0, 0);
    } else {
      assert Told(b) == Mark(|b|, 0, b[0]);
    }
  }

  lemma {:induction false} MarkIsSmall(kind: Byte, high: Byte, low: Byte)
    ensures Number(256, Mark(kind, high, low)) < 0x100_0000
  {
    hide Number, Mark;
    var zeros := MarkDigits(kind, high, low);
    LeadingZeros(256, zeros, [kind, high, low]);
    ThreeDigits(kind, high, low);
  }

  lemma {:induction false} MarkDigits(kind: Byte, high: Byte, low: Byte) returns (zeros: seq<nat>)
    ensures Mark(kind, high, low) == zeros + [kind, high, low] && forall i :: 0 <= i < |zeros| ==> zeros[i] == 0
  {
    zeros := Mark(kind, high, low)[..29];
    assert forall i :: 0 <= i < 29 ==> ZERO_HASH[i] == 0;
    assert forall i :: 0 <= i < 29 ==> zeros[i] == ZERO_HASH[i];
  }

  lemma {:induction false} ThreeDigits(x: Byte, y: Byte, z: Byte)
    ensures Number(256, [x, y, z]) < 0x100_0000
  {
    NumberSnoc(256, [], x);
    NumberSnoc(256, [x], y);
    NumberSnoc(256, [x, y], z);
    assert [] + [x] == [x] && [x] + [y] == [x, y] && [x, y] + [z] == [x, y, z];
  }

  lemma {:induction false} TargetIsLarge()
    ensures ProofOfWork.Target(INITIAL_BITS) >= 0x100_0000
  {
    hide Retarget.Pow2;
    PowGrows(24, 239);
    SmallPower();
  }

  lemma {:induction false} SmallPower()
    ensures Retarget.Pow2(24) == 0x100_0000
  {
    assert Retarget.Pow2(8) == 256;
    assert Retarget.Pow2(16) == 0x1_0000;
  }

  lemma {:induction false} PowGrows(m: nat, n: nat)
    requires m <= n
    ensures Retarget.Pow2(m) <= Retarget.Pow2(n)
  {
    if m < n {
      PowGrows(m, n - 1);
    }
  }

  // ---------------------------------------------------------------- coinbases

  function Data(i: Height): Bytes {
    [(i + 1) / 256, (i + 1) % 256]
  }

  /** The coinbase at height 1 pays to two outputs, every other one to one; they are the owner's. */
  function Pays(i: Height): seq<TxOut> {
    if i == 1 then [TxOut(5, Lock(OWNER)), TxOut(5, Lock(OWNER))] else [TxOut(10, Lock(OWNER))]
  }

  function Reward(i: Height): Transaction {
    T.WithId(Telling(), [TxIn([], -1, [], Data(i))], Pays(i))
  }

  function Plain(i: Height): Block {
    BlockWith(i, [Reward(i)])
  }

  /** Every output to a 32-byte lock takes 44 bytes. */
  lemma {:induction false} OutsSize(outs: seq<TxOut>)
    requires forall j :: 0 <= j < |outs| ==> |outs[j].pubKeyHash| == 32
    ensures |EncodeAll(T.EncodeOut, outs)| == 44 * |outs|
  {
    hide U32, U64;
    if outs != [] {
      OutsSize(outs[..|outs| - 1]);
    }
  }

  lemma {:induction false} PaysLittle(i: Height)
    ensures |Pays(i)| == (if i == 1 then 2 else 1) && forall j :: 0 <= j < |Pays(i)| ==> |Pays(i)[j].pubKeyHash| == 32
  {
  }

  lemma {:induction false} RewardBytes(i: Height)
    ensures var b := T.Encode(Reward(i)); |b| == 26 + 44 * |Pays(i)| && b[20] == Data(i)[0] && b[21] == Data(i)[1]
  {
    hide U32, U64, Pays, Telling;
    var tx := Reward(i);
    OneItem(T.EncodeIn, tx.vin);
    var first := T.EncodeIn(tx.vin[0]);
    assert |first| == 18 && first[16] == Data(i)[0] && first[17] == Data(i)[1];
    PaysLittle(i);
    OutsSize(tx.vout);
  }

  /** What the id of a coinbase tells: its size and its height. */
  lemma {:induction false} RewardId(i: Height)
    ensures Reward(i).id == Mark(if i == 1 then 114 else 70, Data(i)[0], Data(i)[1])
    ensures Reward(i).IsCoinbase() && T.Sealed(Telling(), Reward(i))
  {
    hide T.Encode, Telling, Data, Pays, Mark;
    PaysLittle(i);
    RewardBytes(i);
    Tells(T.Encode(Reward(i)));
    T.IdIgnored(Reward(i));
  }

  lemma {:induction false} RewardsDiffer(i: Height, j: Height)
    requires i != j
    ensures Reward(i).id != Reward(j).id
  {
    hide Reward;
    RewardId(i);
    RewardId(j);
  }

  lemma {:induction false} RewardEncodable(i: Height)
    ensures BlockCodec.EncodableTx(Telling(), Reward(i)) && Reward(i).IsCoinbase()
  {
    hide T.Encode, Telling, Pays, Lock;
    RewardBytes(i);
    RewardId(i);
    PaysLittle(i);
  }

  lemma {:induction false} SubsidyHere(n: Height)
    ensures Subsidy(n) == 10
  {
    SubsidyEras(n);
  }

  lemma {:induction false} PaysTen(i: Height)
    ensures CheckedSum(Pays(i)) == Some(10) && OutputSum(Pays(i)) == 10
  {
    hide Lock;
    var outs := Pays(i);
    assert CheckedSum([]) == Some(0) && OutputSum([]) == 0;
    if i == 1 {
      assert outs[..1] == [TxOut(5, Lock(OWNER))] && outs[..1][..0] == [];
      assert CheckedSum(outs[..1]) == CheckedAdd(0, 5) && OutputSum(outs[..1]) == 5;
      assert CheckedSum(outs) == CheckedAdd(5, 5) && OutputSum(outs) == 5 + 5;
    } else {
      assert outs[..0] == [];
      assert CheckedSum(outs) == CheckedAdd(0, 10);
    }
  }

  // ---------------------------------------------------------------- accepted blocks

  /** What stands at a height of the chain is accepted on top of what stands below. */
  ghost predicate AcceptedAt(c: seq<Block>, i: nat)
    requires i < |c|
  {
    && TipInRange(c[..i]) && BlockCodec.Encodable(Keys().sha, c[i])
    && Judge(Keys(), c[..i], c[i], |BlockCodec.Encode(c[i])|, 0) == Accept
  }

  /** Every block after the first is. */
  ghost predicate AllAccepted(c: seq<Block>) {
    forall i :: 1 <= i < |c| ==> AcceptedAt(c, i)
  }

  lemma {:induction false} AcceptedMore(c: seq<Block>, b: Block)
    requires AllAccepted(c) && c != [] && AcceptedAt(c + [b], |c|)
    ensures AllAccepted(c + [b])
  {
    hide Judge, BlockCodec.Encode, BlockCodec.Encodable, TipInRange;
    forall i | 1 <= i < |c| + 1 ensures AcceptedAt(c + [b], i) {
      if i < |c| {
        assert AcceptedAt(c, i) && (c + [b])[..i] == c[..i];
      }
    }
  }

  /** The reward allowed to these transactions on this chain. */
  ghost predicate Passes(c: seq<Block>, txs: seq<Transaction>) {
    && (forall t :: 0 <= t < |txs| ==> BlockCodec.EncodableTx(Telling(), txs[t]))
    && 0 < |txs| <= MAX_BLOCK_TXS && OnlyFirstCoinbase(txs)
    && BlockCodec.FRAME_SIZE + BlockCodec.BodySize(txs) <= MAX_BLOCK_SIZE && ValuesPass(Keys(), c, txs)
  }

  lemma {:induction false} PassingIsAccepted(c: seq<Block>, txs: seq<Transaction>)
    requires Regular(c) && 0 < |c| < 600 && Passes(c, txs)
    ensures AcceptedAt(c + [BlockWith(|c|, txs)], |c|)
  {
    hide T.Encode, BlockCodec.Encode, BlockCodec.EncodableTx, ProofOfWork.Meets, AddOutcome, TipInRange,
      RunTxs, CoinbaseOk, Regular, HashAt, BlockCodec.BodySize, Telling;
    var b := BlockWith(|c|, txs);
    assert (c + [b])[..|c|] == c;
    BlockCodec.EncodedSize(b);
    AnyHeaderWorks(b);
    HasItsPlace(c, txs);
  }

  lemma {:induction false} RewardPasses(c: seq<Block>)
    requires Regular(c) && |c| < 600
    ensures Passes(c, [Reward(|c|)]) && RunTxs(Keys(), c, [Reward(|c|)]).fees == 0
  {
    hide T.Encode, BlockCodec.EncodableTx, Pays, Telling, Keys, CheckedSum, Subsidy;
    var cb := Reward(|c|);
    RewardEncodable(|c|);
    RewardBytes(|c|);
    PaysLittle(|c|);
    BlockCodec.OneBody([cb]);
    PaysTen(|c|);
    SubsidyHere(|c|);
    OnlyCoinbase(Keys(), c, cb);
  }

  // ---------------------------------------------------------------- the plain chain

  function Chain(n: nat): (c: seq<Block>)
    requires n <= 600
    ensures |c| == n
  {
    if n == 0 then [] else Chain(n - 1) + [Plain(n - 1)]
  }

  lemma {:induction false} ChainInit(n: nat)
    requires 0 < n <= 600
    ensures Chain(n)[..n - 1] == Chain(n - 1) && Tip(Chain(n)) == Plain(n - 1)
    ensures Chain(n) == Chain(n - 1) + [Plain(n - 1)]
  {
  }

  lemma {:induction false} ChainPart(n: nat, i: nat)
    requires i <= n <= 600
    ensures Chain(n)[..i] == Chain(i)
  {
    hide Plain;
    if i < n {
      ChainInit(n);
      ChainPart(n - 1, i);
      assert Chain(n)[..i] == Chain(n)[..n - 1][..i];
    }
  }

  lemma {:induction false} ChainAt(n: nat, i: nat)
    requires i < n <= 600
    ensures Chain(n)[i] == Plain(i)
  {
    hide Plain;
    ChainPart(n, i + 1);
    ChainInit(i + 1);
    assert Chain(n)[..i + 1][i] == Chain(n)[i];
  }

  lemma {:induction false} ChainRegular(n: nat)
    requires n <= 600
    ensures Regular(Chain(n))
  {
    hide Reward, HashAt, Chain;
    forall i | 0 <= i < n ensures Chain(n)[i] == BlockWith(i, Chain(n)[i].txs) {
      ChainAt(n, i);
    }
  }

  lemma {:induction false} ChainAccepted(n: nat)
    requires n <= 600
    ensures AllAccepted(Chain(n))
  {
    hide AcceptedAt, Passes, Regular, BlockWith, Reward;
    if n > 0 {
      ChainInit(n);
      ChainAccepted(n - 1);
      ChainRegular(n - 1);
      if n > 1 {
        RewardPasses(Chain(n - 1));
        PassingIsAccepted(Chain(n - 1), [Reward(n - 1)]);
        AcceptedMore(Chain(n - 1), Plain(n - 1));
      }
    }
  }

  // ---------------------------------------------------------------- ids and the index

  lemma {:induction false} PlainIds(i: Height)
    ensures TxIds(Plain(i).txs) == {Reward(i).id} && Spends(Plain(i).txs) == {} && Shaped(Plain(i).txs)
    ensures Fits(Plain(i).txs) && AllHaveOutputs(Plain(i).txs)
  {
    hide Reward, TxIds, Spends, Shaped, Fits, AllHaveOutputs, Data, Mark, T.Sealed, HashAt;
    RewardId(i);
    RewardOuts(i);
    OneCoinbase(Reward(i));
  }

  lemma {:induction false} OneCoinbase(cb: Transaction)
    requires cb.IsCoinbase() && 0 < |cb.vout| <= 2
    ensures TxIds([cb]) == {cb.id} && Spends([cb]) == {} && Shaped([cb]) && Fits([cb]) && AllHaveOutputs([cb])
  {
    assert [cb][..0] == [];
  }

  lemma {:induction false} RewardOuts(i: Height)
    ensures Reward(i).vout == Pays(i) && 0 < |Pays(i)| <= 2
  {
  }

  lemma {:induction false} ChainIds(n: nat, id: Bytes)
    requires n <= 600 && forall i: Height :: i < n ==> Reward(i).id != id
    ensures id !in Ids(Chain(n))
  {
    hide Reward, TxIds, Plain;
    if n > 0 {
      ChainInit(n);
      ChainIds(n - 1, id);
      PlainIds(n - 1);
    }
  }

  lemma {:induction false} NextIdIsNew(n: Height)
    ensures Reward(n).id !in Ids(Chain(n))
  {
    hide Reward, Ids;
    forall i: Height | i < n ensures Reward(i).id != Reward(n).id {
      RewardsDiffer(i, n);
    }
    ChainIds(n, Reward(n).id);
  }

  /** An id that tells of a size no coinbase has. */
  lemma {:induction false} OtherIdIsNew(n: nat, kind: Byte)
    requires n <= 600 && kind != 70 && kind != 114
    ensures Mark(kind, 0, 0) !in Ids(Chain(n))
  {
    hide Reward, Ids;
    forall i: Height | i < n ensures Reward(i).id != Mark(kind, 0, 0) {
      RewardId(i);
    }
    ChainIds(n, Mark(kind, 0, 0));
  }

  lemma {:induction false} ShapedMore(c: seq<Block>, b: Block)
    requires WellShaped(c) && Shaped(b.txs) && TxIds(b.txs) !! Ids(c)
    ensures WellShaped(c + [b])
  {
    hide Ids, TxIds, Shaped;
    assert (c + [b])[..|c|] == c;
  }

  lemma {:induction false} CarefulMore(c: seq<Block>, b: Block)
    requires CarefulRun(c) && AllHaveOutputs(b.txs) && Spends(b.txs) == {}
    ensures CarefulRun(c + [b])
  {
    hide Rebuild, LastNamed, Events, Spends;
    assert (c + [b])[..|c|] == c;
  }

  lemma {:induction false} ChainShaped(n: nat)
    requires n <= 600
    ensures WellShaped(Chain(n)) && CarefulRun(Chain(n))
  {
    hide Reward, WellShaped, CarefulRun, Ids, TxIds, Spends, Shaped, Fits, AllHaveOutputs, Plain;
    if n == 0 {
      NoBlocks();
    } else {
      ChainInit(n);
      ChainShaped(n - 1);
      PlainIds(n - 1);
      NextIdIsNew(n - 1);
      CarefulMore(Chain(n - 1), Plain(n - 1));
      ShapedMore(Chain(n - 1), Plain(n - 1));
    }
  }

  lemma {:induction false} NoBlocks()
    ensures WellShaped([]) && CarefulRun([])
  {
  }

  /** The index updated block by block is the one a rebuild gives. */
  lemma {:induction false} ChainInStep(n: nat)
    requires n <= 600
    ensures Incremental(Chain(n)) == Rebuild(Chain(n))
  {
    hide WellShaped, CarefulRun, Rebuild, Incremental;
    ChainShaped(n);
    RunAgrees(Chain(n));
  }

  lemma {:induction false} NothingSpentFrom(n: nat, low: nat)
    requires low <= n <= 600
    ensures SpentFrom(Chain(n), low) == {}
    decreases n - low
  {
    hide Spends, Chain;
    if low < n {
      ChainAt(n, low);
      PlainIds(low);
      NothingSpentFrom(n, low + 1);
    }
  }

  lemma {:induction false} FindReward(n: nat)
    requires 2 <= n <= 600
    ensures FindTx(Chain(n), Reward(1).id) == Some((Reward(1), 1))
  {
    hide Reward, FindTx, TxIds, Shaped;
    ChainInit(n);
    PlainIds(n - 1);
    if n > 2 {
      RewardsDiffer(1, n - 1);
      FindReward(n - 1);
      FindTxOlder(Chain(n - 1), Plain(n - 1), Reward(1).id);
    } else {
      FindTxNew(Chain(1), Plain(1), 0);
    }
  }

  // ---------------------------------------------------------------- the supply

  lemma {:induction false} FullMore(c: seq<Block>, txs: seq<Transaction>)
    requires Regular(c) && 0 < |c| < 600 && FullRun(Keys(), c) && Passes(c, txs)
    requires WellShaped(c + [BlockWith(|c|, txs)]) && Fits(txs)
    requires OutputSum(txs[0].vout) == 10 + RunTxs(Keys(), c, txs).fees
    ensures FullRun(Keys(), c + [BlockWith(|c|, txs)])
  {
    hide WellShaped, Fits, RunTxs, Subsidy, CoinbaseOk, OutputSum, BlockCodec.EncodableTx, BlockCodec.BodySize, Keys;
    var all := c + [BlockWith(|c|, txs)];
    assert all[..|all| - 1] == c && Tip(all).txs == txs;
    SubsidyHere(|c|);
    KeysTell();
  }

  lemma {:induction false} KeysTell()
    ensures Keys().sha == Telling()
  {
  }

  lemma {:induction false} ChainFull(n: nat)
    requires 0 < n <= 600
    ensures FullRun(Keys(), Chain(n)) && SoundInputs(Chain(n))
  {
    hide Reward, WellShaped, FullRun, AcceptedRun, GoodInputs, Incremental, Fits, Regular, Passes, RunTxs, OutputSum;
    ChainInit(n);
    ChainShaped(n);
    PlainIds(n - 1);
    RewardOuts(n - 1);
    PaysTen(n - 1);
    ChainRegular(n - 1);
    if n > 1 {
      ChainFull(n - 1);
      RewardPasses(Chain(n - 1));
      FullMore(Chain(n - 1), [Reward(n - 1)]);
      NoSpendsAreGood(Incremental(Chain(n - 1)), Plain(n - 1).txs);
    } else {
      GenesisFull(Chain(1));
    }
  }

  lemma {:induction false} NoSpendsAreGood(utxo: Index, txs: seq<Transaction>)
    requires Spends(txs) == {}
    ensures GoodInputs(utxo, txs)
  {
  }

  lemma {:induction false} GenesisFull(c: seq<Block>)
    requires c == Chain(1) && WellShaped(c) && Fits(Tip(c).txs) && Tip(c) == Plain(0)
    ensures FullRun(Keys(), c)
  {
    hide Reward, WellShaped, Fits, Subsidy, OutputSum, BlockCodec.EncodableTx, Keys;
    RewardEncodable(0);
    RewardOuts(0);
    PaysTen(0);
    SubsidyHere(0);
    KeysTell();
  }

  /** So it holds the subsidies, no more and no less. */
  lemma {:induction false} ChainTotal(n: nat)
    requires 0 < n <= 600
    ensures Total(Incremental(Chain(n))) == SubsidySum(n) && Excess(Keys(), Chain(n)) == 0
  {
    hide FullRun, Incremental, SoundInputs, Excess, Total;
    ChainFull(n);
    SupplyExactly(Keys(), Chain(n));
    SoundHasNoExcess(Keys(), Chain(n));
  }
}

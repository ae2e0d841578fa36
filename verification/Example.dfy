/**
 * A chain of two blocks that meets the hypotheses of the main theorems all at once: the second block is mined,
 * carried to a node that has the first, and keeps the supply sound.
 */
module Example {
  import opened Base
  import opened BlockAssembly
  import opened ChainModel
  import opened Handshake
  import opened Ledger
  import opened Miner
  import opened Numerals
  import opened Protocol
  import opened Supply
  import opened SupplyRuns
  import opened Sync
  import opened UtxoIndex
  import opened UtxoUpdate
  import opened Validation
  import BlockCodec
  import IndexStep
  import LongChain
  import MedianTime
  import Merkle
  import ProofOfWork
  import Retarget
  import T = TransactionCodec
  import Walks
  import Wallet

  /** 31 zeros, then one byte. */
  function Small(last: Byte): (h: Bytes)
    ensures |h| == 32 && h[31] == last
  {
    ZERO_HASH[31 := last]
  }

  /** A hash function that tells one input from all the others. */
  function TwoValued(special: Bytes): Sha256 {
    Sha256((b: Bytes) => if b == special then Small(2) else Small(1))
  }

  lemma {:induction false} TwoValues(special: Bytes, b: Bytes)
    ensures TwoValued(special).Of(b) == if b == special then Small(2) else Small(1)
  {
  }

  lemma {:induction false} SmallDiffer(a: Byte, b: Byte)
    requires a != b
    ensures Small(a) != Small(b)
  {
    assert Small(a)[31] != Small(b)[31];
  }

  lemma {:induction false} SmallIsProper(a: Byte)
    requires a > 0
    ensures ProperHash(Small(a))
  {
    assert Small(a)[31] != ZERO_HASH[31];
  }

  // ---------------------------------------------------------------- the chain

  function Reward(data: Byte): Transaction {
    Transaction([], [TxIn([], -1, [], [data])], [TxOut(10, [])])
  }

  /** The hash that tells the first coinbase from everything else, and a signature check nobody needs. */
  function Keys(): Crypto {
    Crypto(TwoValued(T.Encode(Reward(0))), (key: Bytes, digest: Bytes, signature: Bytes) => Good)
  }

  function FirstCoinbase(): Transaction {
    Reward(0).(id := Small(2))
  }

  function SecondCoinbase(): Transaction {
    Reward(1).(id := Small(1))
  }

  function First(): Block {
    Block(0, [FirstCoinbase()], ZERO_HASH, Small(3), 0, INITIAL_BITS)
  }

  function Second(): Block {
    Block(1, [SecondCoinbase()], Small(3), Small(1), 0, INITIAL_BITS)
  }

  function Two(): seq<Block> {
    [First(), Second()]
  }

  lemma {:induction false} Encodings()
    ensures T.Encode(Reward(0)) != T.Encode(Reward(1)) && |T.Encode(Reward(0))| == 37
  {
    T.EncodeInjective(Reward(0), Reward(1));
    CoinbaseSize(Keys().sha, [], [0], 10);
    T.IdIgnored(Coinbase(Keys().sha, [], [0], 10));
  }

  /** Both coinbases are what a miner would have made. */
  lemma {:induction false} CoinbasesAre()
    ensures FirstCoinbase() == Coinbase(Keys().sha, [], [0], 10)
    ensures SecondCoinbase() == Coinbase(Keys().sha, [], [1], 10)
  {
    hide T.Encode;
    Encodings();
    TwoValues(T.Encode(Reward(0)), T.Encode(Reward(0)));
    TwoValues(T.Encode(Reward(0)), T.Encode(Reward(1)));
  }

  lemma {:induction false} TwoIsLinked()
    ensures Linked(Two()) && BitsInRange(Two()) && Two()[..1] == [First()] && Linked([First()])
  {
    SmallIsProper(1);
    SmallIsProper(3);
    SmallDiffer(1, 3);
    assert Two()[..1] == [First()];
    assert [First()][0] == First();
  }

  /** Any header hashes to the number 1, which is below every target in use. */
  lemma {:induction false} AnyHeaderWorks(b: Block)
    requires b.txs != [] && |b.prev| == 32 && b.bits == INITIAL_BITS
    ensures ProofOfWork.Meets(Keys().sha, b, 0) && ProofOfWork.PowHash(Keys().sha, b, 0) == Small(1)
  {
    hide T.Encode, Merkle.Root;
    Encodings();
    TwoValues(T.Encode(Reward(0)), ProofOfWork.PrepareData(Keys().sha, b, 0));
    Merkle.RootIsSized(Keys().sha, b.txs);
    NumberOne();
    assert Retarget.Pow2(239) == 2 * Retarget.Pow2(238);
  }

  lemma {:induction false} SecondIsMined()
    ensures ProofOfWork.Mined(Keys().sha, Second())
  {
    hide ProofOfWork.Meets, ProofOfWork.PowHash, Keys, SecondCoinbase;
    AnyHeaderWorks(Second());
  }

  lemma {:induction false} NumberOne()
    ensures Number(256, Small(1)) == 1
  {
    var zeros := Small(1)[..31];
    assert forall i :: 0 <= i < 31 ==> ZERO_HASH[i] == 0;
    assert forall i :: 0 <= i < 31 ==> zeros[i] == ZERO_HASH[i];
    assert Small(1) == zeros + [1];
    LeadingZeros(256, zeros, [1]);
    assert [1][..0] == [];
    assert Number(256, [1]) == Number(256, [1][..0]) * 256 + 1;
  }

  lemma {:induction false} SecondIsNew()
    ensures NewToChain([First()], Second()) && TimeAllowed([First()], Second(), 0)
    ensures NextBits([First()], 1) == INITIAL_BITS
  {
    SmallDiffer(1, 2);
    SmallDiffer(1, 3);
    OneTime([First()]);
    OneTransaction([First()], Small(1));
  }

  lemma {:induction false} OneTime(c: seq<Block>)
    requires |c| == 1
    ensures MedianTimePast(c) == c[0].timestamp
  {
    assert NewestTimes(c[..0], 10) == [];
    assert RecentTimes(c) == [c[0].timestamp];
    assert MedianTime.Sort([c[0].timestamp]) == [c[0].timestamp];
  }

  lemma {:induction false} OneTransaction(c: seq<Block>, id: Bytes)
    requires |c| == 1 && |c[0].txs| == 1 && c[0].txs[0].id != id
    ensures FindTx(c, id) == None
  {
    assert FindInBlock(c[0].txs, id) == FindInBlock(c[0].txs[1..], id) == None;
    assert FindTx(c, id) == FindTx(c[..0], id);
  }

  // ---------------------------------------------------------------- what the theorems ask for

  function Payee(): Bytes {
    Wallet.Address(Wallet.Hashes(Keys().sha, (b: Bytes) => []), [])
  }

  lemma {:induction false} FirstSubsidies()
    ensures Subsidy(0) == 10 && Subsidy(1) == 10
  {
    SubsidyEras(0);
    SubsidyEras(1);
  }

  /** The second block is one the miner fills from an empty pool. */
  lemma {:induction false} SecondIsFilled()
    ensures TipInRange([First()]) && Filled(Keys(), [First()], Payee(), [1], [], Second())
  {
    hide T.Encode, Wallet.Address, Wallet.Locked, Subsidy, TwoValued;
    FirstSubsidies();
    CoinbasesAre();
    SecondIsNew();
    Wallet.AddressRoundTrip(Wallet.Hashes(Keys().sha, (b: Bytes) => []), [], 10);
    assert [SecondCoinbase()] + [] == [SecondCoinbase()];
  }

  lemma {:induction false} SecondIsSmall()
    ensures BaseSize(SecondCoinbase()) <= MAX_BLOCK_SIZE && NoRepeat(BlockPoints([SecondCoinbase()]))
  {
    CoinbasesAre();
    CoinbaseSize(Keys().sha, [], [1], 10);
    OnlyCoinbase(Keys(), [], SecondCoinbase());
  }

  /** So it is accepted by a node that has the first. */
  lemma {:induction false} SecondIsAccepted()
    ensures TipInRange([First()]) && BlockCodec.Encodable(Keys().sha, Second())
    ensures Judge(Keys(), [First()], Second(), |BlockCodec.Encode(Second())|, 0) == Accept
  {
    hide T.Encode, Judge, Filled, ProofOfWork.Mined, NewToChain, TimeAllowed, BlockCodec.Encode, BlockCodec.Decode,
      TwoValued, NoRepeat, BlockPoints;
    TwoIsLinked();
    SecondIsFilled();
    SecondIsMined();
    SecondIsNew();
    SecondIsSmall();
    MinerAndValidatorAgree(Keys(), [First()], Payee(), [1], [], Second(), 0);
    CoinbasesAre();
    CoinbaseEncodable(Keys().sha, [], [1], 10);
  }

  /** A server and a requester that is behind by any number of blocks, just connected, can synchronise or fail to. */
  lemma {:induction false} SyncIsPossible(n: nat, have: nat) returns (g: Gap, net: Net)
    requires 0 < have < n <= 600
    ensures Start(g, net) && Connected(net) && Passing(LongChain.Keys(), g, 0) && g.Missing() == n - have
    ensures g.FitsOneMessage() <==> n - have <= 255
  {
    hide Linked, LongChain.Chain, LongChain.AllAccepted, LongChain.Regular, TipInRange, BitsInRange, Passing, Start;
    g := Gap(LongChain.Chain(n), have, true, 1, 2);
    LongChain.ChainRegular(n);
    LongChain.RegularLinked(g.chain);
    LongChain.ChainPart(n, have);
    LongChain.ChainRegular(have);
    LongChain.RegularLinked(g.chain[..have]);
    LongChain.ChainAccepted(n);
    LongGapPasses(g);
    net := JustConnected(g);
  }

  lemma {:induction false} JustConnected(g: Gap) returns (net: Net)
    requires g.Valid() && g.fromRequester && TipInRange(g.chain) && TipInRange(g.chain[..g.have])
    ensures Start(g, net) && Connected(net)
  {
    hide Linked, BitsInRange, TipInRange;
    var requester, server := Local(g.chain[..g.have], map[], false, 0), Local(g.chain, map[], false, 0);
    net := Net(End(requester, RequesterLink(g, 0)), End(server, ServerLink(g, 0)), [], [Version(g.have - 1)]);
  }

  lemma {:induction false} LongGapPasses(g: Gap)
    requires g.Valid() && LongChain.AllAccepted(g.chain)
    ensures Passing(LongChain.Keys(), g, 0)
  {
    hide Judge, BlockCodec.Encode, BlockCodec.Encodable, TipInRange, Linked, BitsInRange, LongChain.Keys;
    var k := LongChain.Keys();
    forall h | g.have <= h < |g.chain|
      ensures BlockCodec.Encodable(k.sha, g.chain[h]) && TipInRange(g.chain[..h])
      ensures Judge(k, g.chain[..h], g.chain[h], |BlockCodec.Encode(g.chain[h])|, 0) == Accept
    {
      assert LongChain.AcceptedAt(g.chain, h);
    }
  }

  /** The second block with one more byte inside its transaction is read as the second block. */
  lemma {:induction false} TrailingByteIsIgnored() returns (data: Bytes)
    ensures BlockCodec.Decode(Keys().sha, data) == Ok(Second()) && !(BlockCodec.Encode(Second()) <= data)
  {
    hide BlockCodec.Decode, BlockCodec.Encode, T.Encode, Judge, TwoValued, BlockCodec.EncodableTx;
    data := BlockCodec.Loose(Second(), [7]);
    SecondIsAccepted();
    Encodings();
    CoinbasesAre();
    CoinbaseSize(Keys().sha, [], [1], 10);
    BlockCodec.LooseReadsAlike(Keys().sha, Second(), [7]);
    assert Second().(prev := BlockCodec.PrevBytes(Second().prev)) == Second();
  }

  /** And the two blocks are a run of the supply theorem. */
  lemma {:induction false} RunIsPossible()
    ensures SoundRun(Keys(), Two())
  {
    hide T.Encode, Judge, RunTxs, CoinbaseOk, BlockCodec.Encode, Linked, TwoValued, Subsidy, NoLostSpend, Incremental,
      BlockCodec.EncodableTx;
    SecondIsAccepted();
    AcceptedPass(Keys(), [First()], Second(), |BlockCodec.Encode(Second())|, 0);
    FirstSubsidies();
    NoSpends(SecondCoinbase());
    CoinbasesAre();
    CoinbaseSize(Keys().sha, [], [0], 10);
    CoinbaseSize(Keys().sha, [], [1], 10);
    CoinbaseEncodable(Keys().sha, [], [0], 10);
    CoinbaseEncodable(Keys().sha, [], [1], 10);
    assert FirstCoinbase().vout[..0] == [];
    assert Two()[..1] == [First()];
    assert SoundRun(Keys(), [First()]);
  }

  lemma {:induction false} NoSpends(tx: Transaction)
    requires tx.IsCoinbase()
    ensures Spends([tx]) == {}
  {
    assert [tx][..0] == [];
  }

  // ---------------------------------------------------------------- blocks nobody mines by the book

  /** The second block with another hash in its field for it. */
  function Forged(hash: Bytes): Block {
    Second().(hash := hash)
  }

  lemma {:induction false} ForgedPasses(hash: Bytes)
    requires |hash| == 32
    ensures var size := |BlockCodec.Encode(Forged(hash))|;
            size > 0 && Precheck(Keys(), [First()], Forged(hash), size) == Accept
  {
    hide BlockCodec.BodySize, Judge, Precheck, T.Encode, TwoValued;
    SecondIsAccepted();
    AcceptedPrecheck(Keys(), [First()], Second(), |BlockCodec.Encode(Second())|, 0);
    BlockCodec.EncodedSize(Second());
    BlockCodec.EncodedSize(Forged(hash));
    PrecheckIgnoresHash(Keys(), [First()], Second(), hash, |BlockCodec.Encode(Second())|);
  }

  lemma {:induction false} AcceptedPrecheck(k: Crypto, c: seq<Block>, b: Block, size: nat, now: int)
    requires TipInRange(c) && Judge(k, c, b, size, now) == Accept
    ensures Precheck(k, c, b, size) == Accept
  {
    hide Precheck, AddOutcome;
  }

  /** A block that only takes over the hash of the tip is not stored, yet the index takes it in. */
  lemma {:induction false} KnownBreaksIndex() returns (c: seq<Block>, b: Block)
    ensures Linked(c) && TipInRange(c) && Judge(Keys(), c, b, |BlockCodec.Encode(b)|, 0) == Known && b !in c
    ensures Update(Incremental(c), b.txs, |c| - 1) != Incremental(c)
  {
    hide T.Encode, TwoValued, Precheck, BlockCodec.Encode, MedianTimePast, NextBits, Linked, Update, Incremental,
      Ids, TxIds;
    c, b := [First()], Forged(Small(3));
    TwoIsLinked();
    ForgedPasses(Small(3));
    SecondIsNew();
    assert First() in c;
    IndexStep.KnownIsForged(c, b, 0);
    SmallDiffer(1, 2);
    OneId(First(), Small(2));
    OneId(Second(), Small(1));
    IndexStep.InStepExactly(c, b);
  }

  lemma {:induction false} OneId(b: Block, id: Bytes)
    requires |b.txs| == 1 && b.txs[0].id == id
    ensures TxIds(b.txs) == {id} && Ids([b]) == {id}
  {
    assert [b][..0] == [];
    assert Ids([b]) == Ids([b][..0]) + TxIds(b.txs);
  }

  /** A block whose hash field is all zeros is stored, and a walk from the new tip is over before it meets any block. */
  lemma {:induction false} ZeroHashBreaksStore() returns (c: seq<Block>, b: Block)
    ensures Linked(c) && TipInRange(c) && Judge(Keys(), c, b, |BlockCodec.Encode(b)|, 0) == Accept
    ensures b.prev == Tip(c).hash && !HashIn(c, b.hash)
    ensures var db := WithBlock(StoreOf(c), b, |c|);
            Walks.EndsAfter(db, b.hash, 0) && !Walks.EndsAfter(db, b.hash, |c| + 1)
  {
    hide T.Encode, TwoValued, Precheck, BlockCodec.Encode, MedianTimePast, NextBits, Linked;
    c, b := [First()], Forged(ZERO_HASH);
    TwoIsLinked();
    ForgedPasses(ZERO_HASH);
    SecondIsNew();
    SmallIsProper(3);
    Walks.WalkEnds(c, b);
  }

  /** A second block that repeats the first coinbase: accepted, and within the supply theorem all the same. */
  lemma {:induction false} RepeatedIdIsPossible() returns (b: Block)
    ensures Judge(Keys(), [First()], b, |BlockCodec.Encode(b)|, 0) == Accept
    ensures SoundRun(Keys(), [First(), b]) && !WellShaped([First(), b])
  {
    hide T.Encode, TwoValued, Precheck, BlockCodec.Encode, MedianTimePast, NextBits, Linked, ProofOfWork.Meets,
      SoundRun, WellShaped,
      Subsidy, ValuesPass, GoodInputs, BlockCodec.EncodableTx;
    b := Second().(txs := [FirstCoinbase()]);
    TwoIsLinked();
    AnyHeaderWorks(b);
    SecondIsNew();
    RepeatedSize(b);
    FirstSubsidies();
    assert FirstCoinbase().vout[..0] == [];
    CoinbaseAlonePasses(Keys(), [First()], b, |BlockCodec.Encode(b)|);
    RunIsPossible();
    RepeatedRun(b);
  }

  lemma {:induction false} RepeatedSize(b: Block)
    requires b == Second().(txs := [FirstCoinbase()])
    ensures 0 < |BlockCodec.Encode(b)| <= MAX_BLOCK_SIZE
  {
    hide T.Encode, TwoValued, BlockCodec.Encode;
    BlockCodec.EncodedSize(b);
    CoinbasesAre();
    CoinbaseSize(Keys().sha, [], [0], 10);
    assert b.txs[..0] == [];
    assert BlockCodec.BodySize(b.txs) == BlockCodec.BodySize(b.txs[..0]) + 4 + |T.Encode(b.txs[0])|;
  }

  lemma {:induction false} RepeatedRun(b: Block)
    requires b == Second().(txs := [FirstCoinbase()]) && TipInRange([First()])
    requires Judge(Keys(), [First()], b, |BlockCodec.Encode(b)|, 0) == Accept
    ensures SoundRun(Keys(), [First(), b]) && !WellShaped([First(), b])
  {
    hide T.Encode, TwoValued, BlockCodec.Encode, Judge, RunTxs, CoinbaseOk, Subsidy, Incremental, NoLostSpend,
      BlockCodec.EncodableTx;
    RunIsPossible();
    AcceptedPass(Keys(), [First()], b, |BlockCodec.Encode(b)|, 0);
    NoSpends(FirstCoinbase());
    assert Two()[..1] == [First()] && [First(), b][..1] == [First()];
    OneId(First(), Small(2));
    OneId(b, Small(2));
    assert Small(2) in TxIds(b.txs);
  }
}

/**
 * Payments of the outputs of one matured coinbase: one as the wallet makes it, one with somebody else's key, and two in
 * one pool that spend the same output.
 */
module PaymentExample {
  import opened Base
  import opened BlockAssembly
  import opened ChainModel
  import opened CoinSelection
  import opened Ledger
  import opened LongChain
  import opened LostSpend
  import opened Miner
  import opened Supply
  import opened SupplyRuns
  import opened UtxoIndex
  import opened UtxoUpdate
  import opened Validation
  import BlockCodec
  import ChainStore
  import Merkle
  import Payment
  import ProofOfWork
  import Relay
  import T = TransactionCodec
  import Wallet

  // ---------------------------------------------------------------- somebody else's key

  /** The check tells signatures made with that key from the owner's. */
  lemma {:induction false} KeysAreTold(digest: Bytes)
    ensures Wallet.HashPubKey(Hashing(), Pair(OTHER).public) != Wallet.HashPubKey(Hashing(), Pair(OWNER).public)
    ensures Keys().check(Pair(OWNER).public, digest, Pair(OTHER).sign(digest)) == Bad
  {
    hide Pair, Lock, Hashing, Wallet.HashPubKey, Keys;
    LockIs(OWNER);
    LockIs(OTHER);
    LocksDiffer();
    PairSignsForItself(OTHER, OWNER, digest);
  }

  /** Yet inputs pass although the key beside each of them is not the one its output is locked to. */
  lemma {:induction false} AcceptedNotOwned(n: Long, i: nat)
    requires i < 2
    ensures CheckInBlock(Keys(), Chain(n), map[], SpendBoth(OTHER)) == Fee(0) && |SpendBoth(OTHER).vin| == 2
    ensures Gather(Chain(n), map[], n, SpendBoth(OTHER).vin) == Gathered.Prevs(CoinBefore())
    ensures SpendBoth(OTHER).vin[i].pubKey == Pair(OTHER).public
    ensures PrevOut(CoinBefore(), SpendBoth(OTHER).vin[i]) ==
      Ok(TxOut(5, Wallet.HashPubKey(Hashing(), Pair(OWNER).public)))
  {
    hide Chain, SpendBoth, CheckInBlock, Coin, Pair, Lock, Hashing, PrevOut, CoinBefore, Gather, Wallet.HashPubKey,
      Keys;
    OtherPasses(n);
    OtherSpends(i);
    CoinOut(SpendBoth(OTHER).vin[i]);
    LockIs(OWNER);
    BothGather(n, map[], SpendBoth(OTHER).vin);
  }

  lemma {:induction false} OtherPasses(n: Long)
    ensures CheckInBlock(Keys(), Chain(n), map[], SpendBoth(OTHER)) == Fee(0)
  {
    hide Chain, SpendBoth, Check, HasCoin, Keys, Regular;
    CoinOnChain(n);
    BothPass(OTHER, Chain(n));
    CheckAgain(Keys(), Chain(n), map[], SpendBoth(OTHER));
  }

  lemma {:induction false} OtherSpends(i: nat)
    requires i < 2
    ensures var vin := SpendBoth(OTHER).vin;
            && |vin| == 2 && vin[0].txid == vin[1].txid == Coin()
            && vin[i].vout == i && vin[i].pubKey == Pair(OTHER).public
  {
    hide SpendBoth, Coin, BlockCodec.EncodableTx, T.Encode, Mark, Pair;
    SpendBothIs(OTHER);
    PairKey(OTHER);
  }

  lemma {:induction false} LocksDiffer()
    ensures Lock(OWNER) != Lock(OTHER)
  {
  }

  lemma {:induction false} BothGather(n: Long, ctx: Context, vin: seq<TxIn>)
    requires |vin| == 2 && vin[0].txid == vin[1].txid == Coin() && Coin() !in ctx
    ensures Gather(Chain(n), ctx, n, vin) == Gathered.Prevs(CoinBefore())
  {
    hide Coin, Chain, FindTx, Reward;
    CoinOnChain(n);
    assert Lookup(Chain(n), ctx, n, Coin()) == Found(Reward(1));
    assert vin[..1][..0] == [];
    assert Gather(Chain(n), ctx, n, vin[..1][..0]) == Gathered.Prevs(map[]);
    assert Gather(Chain(n), ctx, n, vin[..1]) == Gathered.Prevs(CoinBefore());
  }

  // ---------------------------------------------------------------- a payment of the wallet

  lemma {:induction false} ChainInStepWith(n: Long)
    ensures Payment.InStep(Incremental(Chain(n)), Chain(n))
  {
    hide Chain, Incremental, Matches, WellShaped, Ids, CarefulRun, SubsidySum, Total, Reward, Mark;
    ChainShaped(n);
    IncrementalMatches(Chain(n));
    MatchedIds(Incremental(Chain(n)), Chain(n));
    forall i: Height | i < n ensures Reward(i).id != [] {
      RewardId(i);
    }
    ChainIds(n, []);
    ChainTotal(n);
    SubsidySumIs(n);
    assert |Chain(n)| == n;
  }

  lemma {:induction false} CoinSpendable(n: Long, i: Int32)
    requires 0 <= i < 2
    ensures var db := Incremental(Chain(n)); Outpoint(Coin(), i) in Spendable(db, n - 1, Lock(OWNER), db.Keys)
  {
    hide Chain, Incremental, Flat, Coin, Reward, Lock, Remaining;
    CoinEntry(n);
    CoinKept(i);
  }

  lemma {:induction false} CoinKept(i: Int32)
    requires 0 <= i < 2
    ensures var outs := Remaining(Reward(1), 1, {});
            && outs.isCoinbase && outs.blockHeight == 1
            && i in outs.outputs && outs.outputs[i].pubKeyHash == Lock(OWNER)
  {
    hide Reward, Lock, T.Encode, T.Sealed, Mark;
    RewardId(1);
    RewardOuts(1);
    PaysOwner();
  }

  lemma {:induction false} PaysOwner()
    ensures Pays(1) == [TxOut(5, Lock(OWNER)), TxOut(5, Lock(OWNER))]
  {
  }

  lemma {:induction false} BothAreWorth(n: Long)
    ensures Worth(Incremental(Chain(n)), Elements(Points(SpendBoth(OWNER).vin))) == 10
  {
    hide Chain, Incremental, Flat, Coin, SpendBoth, Worth, Elements, NoRepeat, Points, BlockCodec.EncodableTx, T.Encode,
      Mark, Remaining;
    var vin, coins := SpendBoth(OWNER).vin, Flat(Incremental(Chain(n)));
    CoinEntry(n);
    SpendBothIs(OWNER);
    BothPoints(OWNER);
    assert Spent(vin[0]) == Outpoint(Coin(), 0) && Spent(vin[1]) == Outpoint(Coin(), 1);
    DrawnIsWorthHere(n);
    assert vin[..1][..0] == [];
    assert Drawn(coins, vin[..1]) == 5;
  }

  lemma {:induction false} DrawnIsWorthHere(n: Long)
    ensures var db := Incremental(Chain(n));
      Drawn(Flat(db), SpendBoth(OWNER).vin) == Worth(db, Elements(Points(SpendBoth(OWNER).vin)))
  {
    hide Chain, Incremental, Flat, Coin, SpendBoth, Worth, Elements, NoRepeat, Points, BlockCodec.EncodableTx, T.Encode,
      Mark, Remaining, Drawn;
    var vin := SpendBoth(OWNER).vin;
    CoinEntry(n);
    SpendBothIs(OWNER);
    BothPoints(OWNER);
    forall i | 0 <= i < |vin| ensures Spent(vin[i]) in Flat(Incremental(Chain(n))) {
      assert vin[i].vout == i;
    }
    Payment.DrawnIsWorth(Incremental(Chain(n)), vin);
  }

  function Payee(): Bytes {
    Wallet.Address(Hashing(), Pair(OTHER).public)
  }

  lemma {:induction false} PayeeLocks()
    ensures Wallet.Locked(Payee()) == Ok(Lock(OTHER))
  {
    hide Wallet.Address, Wallet.Locked, Hashing, Lock, Wallet.HashPubKey;
    LockIs(OTHER);
    Wallet.AddressRoundTrip(Hashing(), Pair(OTHER).public, 0);
  }

  lemma {:induction false} BothIsPayment(n: Long)
    ensures Payment.Pays(Incremental(Chain(n)), Chain(n), Hashing(), Pair(OWNER), Payee(), 10, SpendBoth(OWNER))
  {
    hide Chain, Incremental, Coin, SpendBoth, Worth, Elements, NoRepeat, Points, BlockCodec.EncodableTx, T.Encode,
      Mark, Spendable, Payee, Wallet.Locked, Wallet.HashPubKey, Lock, Hashing, Pair;
    var tx := SpendBoth(OWNER);
    SpendBothIs(OWNER);
    SpendBothPays();
    BothPoints(OWNER);
    BothAreWorth(n);
    PayeeLocks();
    LockIs(OWNER);
    PairKey(OWNER);
    CoinSpendable(n, 0);
    CoinSpendable(n, 1);
    var db := Incremental(Chain(n));
    assert |Chain(n)| == n;
    forall o | o in Elements(Points(tx.vin)) ensures o in Spendable(db, n - 1, Lock(OWNER), db.Keys) {
      ElementsMember(Points(tx.vin), o);
    }
  }

  lemma {:induction false} SpendBothPays()
    ensures SpendBoth(OWNER).vout == [TxOut(10, Lock(OTHER))]
  {
    hide Lock;
    SpendIns(OWNER, [0, 1], [TxOut(10, Lock(OTHER))]);
  }

  /** A payment that meets all that is asked of one: it passes everywhere, free of charge, and is relayed nowhere. */
  lemma {:induction false} PaymentIsPossible(n: Long)
    returns (db: Index, to: Bytes, draft: Transaction, tx: Transaction)
    ensures Payment.InStep(db, Chain(n)) && Payment.Pays(db, Chain(n), Hashing(), Pair(OWNER), to, 10, tx)
    ensures Payment.SignsFor(Keys(), Pair(OWNER))
    ensures Payment.SignedInputs(Keys().sha, Pair(OWNER), Chain(n), draft, CoinBefore(), tx)
    ensures CheckOnChain(Keys(), Chain(n), tx) == Fee(0) && Relay.JudgeTx(Keys(), Chain(n), tx) == Relay.Ignore
  {
    hide Chain, Incremental, SpendBoth, Payment.InStep, Payment.Pays, Payment.SignsFor, Payment.SignedInputs, Draft,
      Check,
      CoinBefore, HasCoin, Payee, InOrder;
    db, to, tx := Incremental(Chain(n)), Payee(), SpendBoth(OWNER);
    draft := Draft(OWNER, [0, 1], [TxOut(10, Lock(OTHER))]);
    ChainInStepWith(n);
    BothIsPayment(n);
    PairSigns(OWNER);
    PairKey(OWNER);
    Amounts();
    CoinOnChain(n);
    BothIsSigned(n);
    BothPass(OWNER, Chain(n));
    Relay.PaymentNotRelayed(Keys(), db, Chain(n), Hashing(), Pair(OWNER), to, 10, draft, CoinBefore(), tx);
  }

  lemma {:induction false} BothIsSigned(n: Long)
    ensures Payment.SignedInputs(Telling(), Pair(OWNER), Chain(n), Draft(OWNER, [0, 1], [TxOut(10, Lock(OTHER))]),
                                 CoinBefore(), SpendBoth(OWNER))
  {
    hide Chain, Payment.SignedInputs, Draft, CoinBefore, HasCoin, InOrder, Lock, OutputSum, SpendOf;
    Amounts();
    CoinOnChain(n);
    SpendIsSigned(OWNER, [0, 1], [TxOut(10, Lock(OTHER))], Chain(n));
  }

  // ---------------------------------------------------------------- two payments in one pool

  function Pool(): seq<Transaction> {
    [SpendBoth(OWNER), SpendOne()]
  }

  /** The block a miner fills from that pool, with the hash its header has. */
  function Filling(n: Long): Block {
    var b := BlockWith(n, [Reward(n), SpendBoth(OWNER), SpendOne()]);
    b.(hash := ProofOfWork.PowHash(Telling(), b, 0))
  }

  lemma {:induction false} RewardIsCoinbase(h: Height)
    requires h != 1
    ensures Reward(h) == Coinbase(Telling(), Lock(OWNER), Data(h), 10)
  {
  }

  lemma {:induction false} BothSelected(n: Long, base: nat)
    requires base <= 1000
    ensures var s := Select(Keys(), Chain(n), Pool(), base); s.Selection? && s.txs == Pool() && s.fees == 0
  {
    hide Chain, SpendBoth, SpendOne, Check, BlockCodec.EncodableTx, T.Encode, Mark, PicksCoin, HasCoin, Keys;
    CoinOnChain(n);
    BothPass(OWNER, Chain(n));
    SpendBothIs(OWNER);
    SpendOneIs();
    assert Pool()[..1] == [SpendBoth(OWNER)] && Pool()[..1][..0] == [];
    assert Select(Keys(), Chain(n), Pool()[..1][..0], base) == Selection([], 0, base, false);
    assert Select(Keys(), Chain(n), Pool()[..1], base) == Selection([] + [SpendBoth(OWNER)], 0, base + 220, false);
    assert [] + [SpendBoth(OWNER)] == [SpendBoth(OWNER)];
    assert [SpendBoth(OWNER)] + [SpendOne()] == Pool();
  }

  lemma {:induction false} FillingHasPlace(n: Long)
    ensures TipInRange(Chain(n)) && Linked(Chain(n)) && TimeAllowed(Chain(n), Filling(n), 0)
    ensures Filling(n).prev == Tip(Chain(n)).hash && Filling(n).bits == NextBits(Chain(n), |Chain(n)|)
  {
    hide Chain, Filling, Regular, MedianTimePast, NextBits, TipInRange, HashAt, Linked, BitsInRange;
    FillingFields(n);
    ChainRegular(n);
    RegularLinked(Chain(n));
    TimeIsAllowed(Chain(n));
    assert |Chain(n)| == n;
  }

  lemma {:induction false} FillingFields(n: Long)
    ensures Filling(n).timestamp == n && Filling(n).prev == HashAt(n - 1) && Filling(n).bits == INITIAL_BITS
    ensures Filling(n).txs == [Reward(n), SpendBoth(OWNER), SpendOne()]
  {
    hide SpendBoth, SpendOne, Reward, HashAt, Telling, ProofOfWork.PowHash;
  }

  lemma {:induction false} FillingHasContent(n: Long)
    ensures var address := Wallet.Address(Hashing(), Pair(OWNER).public);
            Content(Keys(), Chain(n), address, Data(n), Pool(), Filling(n).txs) && BaseSize(Filling(n).txs[0]) == 158
  {
    hide Chain, SpendBoth, SpendOne, T.Encode, Mark, Keys, Wallet.Address, Wallet.Locked, Wallet.HashPubKey, Lock,
      Hashing,
      Reward, Data, Select, Pool, HashAt, Subsidy, Telling, Filling;
    FillingFields(n);
    LockIs(OWNER);
    Wallet.AddressRoundTrip(Hashing(), Pair(OWNER).public, 0);
    RewardIsCoinbase(n);
    RewardBytes(n);
    PaysLittle(n);
    SubsidyHere(n);
    BothSelected(n, BaseSize(Reward(n)));
    PoolIs();
    KeysTell();
    assert |Chain(n)| == n;
  }

  lemma {:induction false} FillingIsFilled(n: Long)
    ensures TipInRange(Chain(n)) && Linked(Chain(n)) && TimeAllowed(Chain(n), Filling(n), 0)
    ensures Filled(Keys(), Chain(n), Wallet.Address(Hashing(), Pair(OWNER).public), Data(n), Pool(), Filling(n))
    ensures BaseSize(Filling(n).txs[0]) == 158
  {
    hide Content, Filling, Linked, TimeAllowed, NextBits, TipInRange, Chain, BaseSize, Pool;
    FillingHasPlace(n);
    FillingHasContent(n);
  }

  lemma {:induction false} PoolIs()
    ensures Pool() == [SpendBoth(OWNER), SpendOne()] && |Pool()| == 2
    ensures forall a: Transaction :: [a] + Pool() == [a, SpendBoth(OWNER), SpendOne()]
  {
    hide SpendBoth, SpendOne;
  }

  lemma {:induction false} FillingIsMined(n: Long)
    ensures ProofOfWork.Mined(Telling(), Filling(n)) && Filling(n).hash == Mark(88, 0, 0)
  {
    hide SpendBoth, SpendOne, Reward, Telling, ProofOfWork.Meets, ProofOfWork.PrepareData, HashAt, Mark;
    var b := BlockWith(n, [Reward(n), SpendBoth(OWNER), SpendOne()]);
    AnyHeaderWorks(b);
    ProofOfWork.MeetsDependsOn(Telling(), b, Filling(n), 0);
    Tells(ProofOfWork.PrepareData(Telling(), b, 0));
    PrevIsMark(n);
    HeaderTells(b);
  }

  lemma {:induction false} PrevIsMark(n: Long)
    ensures HashAt(n - 1)[20] == 0 && HashAt(n - 1)[21] == 0
  {
    assert ZERO_HASH[20] == 0 && ZERO_HASH[21] == 0;
  }

  lemma {:induction false} HeaderTells(b: Block)
    requires b.txs != [] && |b.prev| == 32 && b.prev[20] == 0 && b.prev[21] == 0
    ensures Told(ProofOfWork.PrepareData(Telling(), b, 0)) == Mark(88, 0, 0)
  {
    hide Telling, Mark, ProofOfWork.PrepareData, Merkle.Root;
    ProofOfWork.HeaderLayout(Telling(), b, 0);
    var data := ProofOfWork.PrepareData(Telling(), b, 0);
    assert data[20] == data[..32][20] && data[21] == data[..32][21];
  }

  lemma {:induction false} FillingIsNew(n: Long)
    ensures NewToChain(Chain(n), Filling(n))
  {
    hide Chain, SpendBoth, SpendOne, Reward, Mark, Regular, HashIn, FindTx, Ids, Telling, BlockCodec.EncodableTx,
      T.Encode,
      PicksCoin;
    ChainRegular(n);
    forall i: Height | i < n ensures HashAt(i) != Mark(88, 0, 0) {
      HashIsNoHeader(i);
    }
    HashIsNew(Chain(n), Mark(88, 0, 0));
    FillingIsMined(n);
    NextIdIsNew(n);
    OtherIdIsNew(n, 216);
    OtherIdIsNew(n, 178);
    SpendBothIs(OWNER);
    SpendOneIs();
    NotOnChain(Chain(n), Reward(n).id);
    NotOnChain(Chain(n), Mark(216, 0, 0));
    NotOnChain(Chain(n), Mark(178, 0, 0));
  }

  lemma {:induction false} HashIsNoHeader(i: Height)
    ensures HashAt(i) != Mark(88, 0, 0)
  {
  }

  lemma {:induction false} PoolRepeats(n: Long)
    ensures !NoRepeat(BlockPoints(Filling(n).txs))
  {
    hide SpendBoth, SpendOne, Reward, Coin, NoRepeat, Points, BlockCodec.EncodableTx, T.Encode, Mark, PicksCoin;
    var txs := Filling(n).txs;
    SpendBothIs(OWNER);
    SpendOneIs();
    BothPoints(OWNER);
    RewardId(n);
    assert txs[..2][..1] == [Reward(n)] && txs[..2] == [Reward(n), SpendBoth(OWNER)];
    assert txs[..2][..1][..0] == [];
    assert BlockPoints(txs[..2][..1]) == [];
    assert BlockPoints(txs[..2]) == [Outpoint(Coin(), 0), Outpoint(Coin(), 1)];
    assert BlockPoints(txs)[1] == BlockPoints(txs)[2];
    NoRepeatMeans(BlockPoints(txs));
  }

  /** Each transaction of the pool passes; the block filled with them and mined is punished by whoever receives it. */
  lemma {:induction false} PoolIsPunished(n: Long)
    returns (c: seq<Block>, address: Bytes, pool: seq<Transaction>, b: Block)
    ensures Linked(c) && TipInRange(c) && |c| == n && |pool| == 2 && ChainStore.AllPass(Keys(), c, pool)
    ensures Filled(Keys(), c, address, Data(n), pool, b) && ProofOfWork.Mined(Keys().sha, b)
    ensures NewToChain(c, b) && TimeAllowed(c, b, 0) && !NoRepeat(BlockPoints(b.txs))
    ensures Judge(Keys(), c, b, |BlockCodec.Encode(b)|, 0) == Penalise
  {
    hide Chain, SpendBoth, SpendOne, Reward, Filled, NewToChain, TimeAllowed, NoRepeat, BlockPoints, Judge, Check,
      HasCoin, ProofOfWork.Mined, BlockCodec.Encode, BlockCodec.Decode, BlockCodec.EncodableTx, T.Encode, Linked, Mark,
      PicksCoin, TipInRange, Telling, BaseSize, Select, Regular, Data, HashAt, Filling;
    c, address, pool, b := Chain(n), Wallet.Address(Hashing(), Pair(OWNER).public), Pool(), Filling(n);
    FillingIsFilled(n);
    FillingIsMined(n);
    FillingIsNew(n);
    PoolRepeats(n);
    SpendBothIs(OWNER);
    SpendOneIs();
    CoinOnChain(n);
    BothPass(OWNER, c);
    KeysTell();
    MinerAndValidatorAgree(Keys(), c, address, Data(n), pool, b, 0);
  }
}

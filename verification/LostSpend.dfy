/**
 * A hundred accepted blocks, one that spends both outputs of a matured coinbase, and one that spends one of the two
 * again: what the index makes of them, and what becomes of the supply.
 */
module LostSpend {
  import opened Base
  import opened ChainModel
  import opened Ledger
  import opened LongChain
  import opened Miner
  import opened Sums
  import opened Supply
  import opened SupplyRuns
  import opened UtxoIndex
  import opened UtxoUpdate
  import opened Validation
  import opened Wire
  import BlockCodec
  import Payment
  import Replay
  import T = TransactionCodec

  /** Lengths at which the coinbase at height 1 may be spent by a wallet: 100 blocks and the tip stand above it. */
  type Long = n: int | 102 <= n < 500 witness 102

  // ---------------------------------------------------------------- spending the outputs of one coinbase

  function Coin(): Bytes {
    Reward(1).id
  }

  /** The inputs that name outputs of the coinbase, before they are signed. */
  function DraftIns(name: Byte, picks: seq<Int32>): (vin: seq<TxIn>)
    ensures |vin| == |picks|
    ensures forall i :: 0 <= i < |picks| ==> vin[i] == Payment.Unsigned(Coin(), picks[i], [name])
  {
    if picks == [] then []
    else DraftIns(name, picks[..|picks| - 1]) + [Payment.Unsigned(Coin(), picks[|picks| - 1], [name])]
  }

  function Draft(name: Byte, picks: seq<Int32>, vout: seq<TxOut>): Transaction {
    T.WithId(Telling(), DraftIns(name, picks), vout)
  }

  /** Signed for the owner's lock, whoever signs. */
  function SignedIn(name: Byte, draft: Transaction, i: nat): TxIn
    requires i < |draft.vin|
  {
    draft.vin[i].(signature := Pair(name).sign(Digest(Telling(), draft, i, Lock(OWNER))))
  }

  function SignedIns(name: Byte, draft: Transaction, n: nat): (vin: seq<TxIn>)
    requires n <= |draft.vin|
    ensures |vin| == n
  {
    if n == 0 then [] else SignedIns(name, draft, n - 1) + [SignedIn(name, draft, n - 1)]
  }

  lemma {:induction false} SignedAt(name: Byte, draft: Transaction, n: nat, i: nat)
    requires i < n <= |draft.vin|
    ensures SignedIns(name, draft, n)[i] == SignedIn(name, draft, i)
  {
    hide SignedIn;
    if i < n - 1 {
      SignedAt(name, draft, n - 1, i);
    }
  }

  function SpendOf(name: Byte, picks: seq<Int32>, vout: seq<TxOut>): Transaction {
    var draft := Draft(name, picks, vout);
    T.WithId(Telling(), SignedIns(name, draft, |draft.vin|), vout)
  }

  predicate InOrder(picks: seq<Int32>, vout: seq<TxOut>) {
    && 0 < |picks| <= 2 && (forall i :: 0 <= i < |picks| ==> 0 <= picks[i] < 2)
    && 0 < |vout| <= 2 && (forall i :: 0 <= i < |vout| ==> |vout[i].pubKeyHash| == 32)
  }

  /** An output of the coinbase, under the key named, with 33 bytes of signature. */
  predicate PicksCoin(i: TxIn, pick: Int32, name: Byte) {
    i.txid == Coin() && i.vout == pick && i.pubKey == [name] && |i.signature| == 33
  }

  lemma {:induction false} SpendIns(name: Byte, picks: seq<Int32>, vout: seq<TxOut>)
    ensures |SpendOf(name, picks, vout).vin| == |picks| && SpendOf(name, picks, vout).vout == vout
    ensures forall i :: 0 <= i < |picks| ==> PicksCoin(SpendOf(name, picks, vout).vin[i], picks[i], name)
  {
    hide Coin, Telling, Pair, Digest, SignedIns, T.Encode;
    var draft := Draft(name, picks, vout);
    forall i | 0 <= i < |picks| ensures PicksCoin(SpendOf(name, picks, vout).vin[i], picks[i], name) {
      SignedAt(name, draft, |picks|, i);
      SignatureSize(name, Digest(Telling(), draft, i, Lock(OWNER)));
      DigestSize(draft, i);
    }
  }

  lemma {:induction false} DigestSize(draft: Transaction, i: nat)
    requires i < |draft.vin|
    ensures |Digest(Telling(), draft, i, Lock(OWNER))| == 32
  {
    hide T.Encode;
  }

  lemma {:induction false} SignatureSize(name: Byte, digest: Bytes)
    ensures |Pair(name).sign(digest)| == 1 + |digest|
  {
  }

  lemma {:induction false} InsSize(vin: seq<TxIn>)
    requires forall i :: 0 <= i < |vin| ==> |vin[i].txid| == 32 && |vin[i].pubKey| == 1 && |vin[i].signature| == 33
    ensures |EncodeAll(T.EncodeIn, vin)| == 82 * |vin|
  {
    hide U32;
    if vin != [] {
      InsSize(vin[..|vin| - 1]);
    }
  }

  lemma {:induction false} InsBegin(vin: seq<TxIn>)
    requires vin != []
    ensures T.EncodeIn(vin[0]) <= EncodeAll(T.EncodeIn, vin)
  {
    hide T.EncodeIn;
    if |vin| == 1 {
      OneItem(T.EncodeIn, vin);
    } else {
      InsBegin(vin[..|vin| - 1]);
    }
  }

  lemma {:induction false} CoinShort()
    ensures |Coin()| == 32 && Coin()[12] == 0 && Coin()[13] == 0 && Coin() == Mark(114, 0, 2)
  {
    hide Reward, Mark, T.Encode, Telling, T.Sealed;
    RewardId(1);
    assert Data(1) == [0, 2];
  }

  lemma {:induction false} SpendBytes(name: Byte, picks: seq<Int32>, vout: seq<TxOut>)
    requires InOrder(picks, vout)
    ensures var b := T.Encode(SpendOf(name, picks, vout)); |b| == 8 + 82 * |picks| + 44 * |vout| && b[20] == b[21] == 0
  {
    hide U32, U64, SpendOf, Coin, Telling;
    var tx := SpendOf(name, picks, vout);
    SpendIns(name, picks, vout);
    CoinShort();
    InsSize(tx.vin);
    InsBegin(tx.vin);
    OutsSize(tx.vout);
    var first := T.EncodeIn(tx.vin[0]);
    assert first[16] == Coin()[12] && first[17] == Coin()[13];
    assert EncodeAll(T.EncodeIn, tx.vin)[16] == first[16] && EncodeAll(T.EncodeIn, tx.vin)[17] == first[17];
  }

  lemma {:induction false} SpendId(name: Byte, picks: seq<Int32>, vout: seq<TxOut>)
    requires InOrder(picks, vout)
    ensures SpendOf(name, picks, vout).id == Mark(|T.Encode(SpendOf(name, picks, vout))| % 256, 0, 0)
    ensures BlockCodec.EncodableTx(Telling(), SpendOf(name, picks, vout)) && !SpendOf(name, picks, vout).IsCoinbase()
  {
    hide T.Encode, Telling, Mark, Coin, DraftIns, SignedIns;
    var tx := SpendOf(name, picks, vout);
    SpendIns(name, picks, vout);
    SpendBytes(name, picks, vout);
    CoinShort();
    Tells(T.Encode(tx));
    T.IdIgnored(tx);
  }

  // ---------------------------------------------------------------- such transactions pass

  /** The coinbase is on the chain, deep enough for a spend at the height of the tip. */
  ghost predicate HasCoin(c: seq<Block>) {
    |c| >= 102 && FindTx(c, Coin()) == Some((Reward(1), 1))
  }

  function CoinBefore(): Context {
    map[Coin() := Reward(1)]
  }

  lemma {:induction false} CoinOut(i: TxIn)
    requires i.txid == Coin() && 0 <= i.vout < 2
    ensures PrevOut(CoinBefore(), i) == Ok(TxOut(5, Lock(OWNER)))
  {
    hide Coin, Lock;
    RewardOuts(1);
  }

  lemma {:induction false} CoinKnown()
    ensures Coin() in CoinBefore() && CoinBefore()[Coin()] == Reward(1) && Reward(1).id == Coin()
  {
  }

  lemma {:induction false} SpendIsSigned(name: Byte, picks: seq<Int32>, vout: seq<TxOut>, c: seq<Block>)
    requires InOrder(picks, vout) && HasCoin(c)
    ensures Payment.SignedInputs(Telling(), Pair(name), c, Draft(name, picks, vout), CoinBefore(),
                                 SpendOf(name, picks, vout))
  {
    hide Coin, Reward, FindTx, Lock, Digest, Telling, Pair, SignedIns, PrevOut, CoinBefore, T.Encode;
    var draft, tx := Draft(name, picks, vout), SpendOf(name, picks, vout);
    CoinShort();
    CoinKnown();
    forall i | 0 <= i < |draft.vin|
      ensures PrevOut(CoinBefore(), draft.vin[i]) == Ok(TxOut(5, Lock(OWNER)))
      ensures FromChain(c, CoinBefore(), draft.vin[i].txid)
      ensures tx.vin[i] == SignedIn(name, draft, i)
    {
      CoinOut(draft.vin[i]);
      SignedAt(name, draft, |picks|, i);
    }
  }

  lemma {:induction false} CoinReached(c: seq<Block>, i: TxIn)
    requires HasCoin(c) && i.txid == Coin()
    ensures Payment.Reaches(c, i)
  {
    hide Reward, FindTx, Mark;
    CoinShort();
  }

  lemma {:induction false} FivesDrawn(vin: seq<TxIn>)
    requires forall i :: 0 <= i < |vin| ==> vin[i].txid == Coin() && 0 <= vin[i].vout < 2
    ensures InputSum(vin, CoinBefore()) == Ok(5 * |vin|)
  {
    hide Coin, Lock, PrevOut, CoinBefore;
    if vin != [] {
      FivesDrawn(vin[..|vin| - 1]);
      CoinOut(vin[|vin| - 1]);
    }
  }

  /** Whoever signs: it is enough to sign for the key put beside. */
  lemma {:induction false} SpendPasses(name: Byte, picks: seq<Int32>, vout: seq<TxOut>, c: seq<Block>)
    requires InOrder(picks, vout) && HasCoin(c) && OutputSum(vout) == 5 * |picks|
    ensures CheckOnChain(Keys(), c, SpendOf(name, picks, vout)) == Fee(0)
  {
    hide Coin, Reward, Check, Payment.SignedInputs, Payment.Reaches, Payment.SignsFor, SpendOf, HasCoin, CoinBefore,
      BlockCodec.EncodableTx, Draft;
    var tx := SpendOf(name, picks, vout);
    SpendIns(name, picks, vout);
    SpendId(name, picks, vout);
    SpendIsSigned(name, picks, vout, c);
    PairSigns(name);
    PairKey(name);
    FivesDrawn(tx.vin);
    forall i | 0 <= i < |tx.vin| ensures Payment.Reaches(c, tx.vin[i]) {
      CoinReached(c, tx.vin[i]);
    }
    assert HasCoin(c) ==> c != [] by { HasCoinLong(c); }
    Payment.SignedInputsPass(Keys(), c, Pair(name), Draft(name, picks, vout), CoinBefore(), tx);
  }

  lemma {:induction false} HasCoinLong(c: seq<Block>)
    requires HasCoin(c)
    ensures |c| >= 102
  {
  }

  lemma {:induction false} PairKey(name: Byte)
    ensures Pair(name).public == [name] && Keys().sha == Telling()
  {
  }

  // ---------------------------------------------------------------- two payments of the same coin

  /** Both outputs of the coinbase, to the other. */
  function SpendBoth(name: Byte): Transaction {
    SpendOf(name, [0, 1], [TxOut(10, Lock(OTHER))])
  }

  /** The second of them, three raffys to the other and the rest back. */
  function SpendOne(): Transaction {
    SpendOf(OWNER, [1], [TxOut(3, Lock(OTHER)), TxOut(2, Lock(OWNER))])
  }

  lemma {:induction false} Amounts()
    ensures InOrder([0, 1], [TxOut(10, Lock(OTHER))]) && OutputSum([TxOut(10, Lock(OTHER))]) == 10
    ensures InOrder([1], [TxOut(3, Lock(OTHER)), TxOut(2, Lock(OWNER))])
    ensures OutputSum([TxOut(3, Lock(OTHER)), TxOut(2, Lock(OWNER))]) == 5
  {
    hide Lock;
    Payment.PaidIs([TxOut(10, Lock(OTHER))]);
    Payment.PaidIs([TxOut(3, Lock(OTHER)), TxOut(2, Lock(OWNER))]);
  }

  lemma {:induction false} SpendBothIs(name: Byte)
    ensures var tx := SpendBoth(name); |tx.vin| == 2 && PicksCoin(tx.vin[0], 0, name) && PicksCoin(tx.vin[1], 1, name)
    ensures SpendBoth(name).id == Mark(216, 0, 0) && |SpendBoth(name).vout| == 1 && !SpendBoth(name).IsCoinbase()
    ensures BlockCodec.EncodableTx(Telling(), SpendBoth(name)) && |T.Encode(SpendBoth(name))| == 216
  {
    hide SpendOf, Lock, Mark, PicksCoin, InOrder, BlockCodec.EncodableTx, T.Encode;
    Amounts();
    SpendIns(name, [0, 1], [TxOut(10, Lock(OTHER))]);
    SpendId(name, [0, 1], [TxOut(10, Lock(OTHER))]);
    SpendBytes(name, [0, 1], [TxOut(10, Lock(OTHER))]);
  }

  lemma {:induction false} SpendOneIs()
    ensures var tx := SpendOne(); |tx.vin| == 1 && PicksCoin(tx.vin[0], 1, OWNER)
    ensures SpendOne().id == Mark(178, 0, 0) && |SpendOne().vout| == 2 && !SpendOne().IsCoinbase()
    ensures BlockCodec.EncodableTx(Telling(), SpendOne()) && |T.Encode(SpendOne())| == 178
  {
    hide SpendOf, Lock, Mark, PicksCoin, InOrder, BlockCodec.EncodableTx, T.Encode;
    Amounts();
    SpendIns(OWNER, [1], [TxOut(3, Lock(OTHER)), TxOut(2, Lock(OWNER))]);
    SpendId(OWNER, [1], [TxOut(3, Lock(OTHER)), TxOut(2, Lock(OWNER))]);
    SpendBytes(OWNER, [1], [TxOut(3, Lock(OTHER)), TxOut(2, Lock(OWNER))]);
  }

  lemma {:induction false} BothPass(name: Byte, c: seq<Block>)
    requires HasCoin(c)
    ensures CheckOnChain(Keys(), c, SpendBoth(name)) == Fee(0) && CheckOnChain(Keys(), c, SpendOne()) == Fee(0)
  {
    hide SpendOf, Lock, HasCoin, Check, InOrder, OutputSum;
    Amounts();
    SpendPasses(name, [0, 1], [TxOut(10, Lock(OTHER))], c);
    SpendPasses(OWNER, [1], [TxOut(3, Lock(OTHER)), TxOut(2, Lock(OWNER))], c);
  }

  lemma {:induction false} BothPoints(name: Byte)
    ensures Points(SpendBoth(name).vin) == [Outpoint(Coin(), 0), Outpoint(Coin(), 1)]
    ensures Points(SpendOne().vin) == [Outpoint(Coin(), 1)]
    ensures NoRepeat(Points(SpendBoth(name).vin)) && NoRepeat(Points(SpendOne().vin))
  {
    hide Coin, SpendBoth, SpendOne, BlockCodec.EncodableTx, T.Encode, Mark;
    SpendBothIs(name);
    SpendOneIs();
    PointsAre(SpendBoth(name).vin);
    PointsAre(SpendOne().vin);
    NoRepeatMeans([Outpoint(Coin(), 0), Outpoint(Coin(), 1)]);
    NoRepeatMeans([Outpoint(Coin(), 1)]);
  }

  // ---------------------------------------------------------------- a block with one such payment

  lemma {:induction false} NotOnChain(c: seq<Block>, id: Bytes)
    requires id !in Ids(c)
    ensures FindTx(c, id) == None
  {
    if FindTx(c, id).Some? {
      FindTxIs(c, id);
      var (tx, h) := FindTx(c, id).value;
      var t :| 0 <= t < |c[h].txs| && c[h].txs[t] == tx;
      IdAt(c, h, t);
    }
  }

  lemma {:induction false} PaymentRuns(c: seq<Block>, cb: Transaction, tx: Transaction)
    requires cb.IsCoinbase() && FindTx(c, cb.id) == None && !tx.IsCoinbase() && NoRepeat(Points(tx.vin))
    requires CheckOnChain(Keys(), c, tx) == Fee(0)
    ensures var p := RunTxs(Keys(), c, [cb, tx]); p.Going? && p.fees == 0
    ensures RunTxs(Keys(), c, [cb]) == Going(map[cb.id := cb], {}, 0)
  {
    hide Check, NoRepeat, Points, FindTx, Keys, StepTx, Elements;
    OnlyCoinbase(Keys(), c, cb);
    assert [cb, tx][..1] == [cb];
    assert [] + Points(tx.vin) == Points(tx.vin);
    StepChosen(Keys(), c, map[cb.id := cb], [], 0, tx);
  }

  lemma {:induction false} PaymentFits(c: seq<Block>, cb: Transaction, tx: Transaction)
    requires BlockCodec.EncodableTx(Telling(), cb) && BlockCodec.EncodableTx(Telling(), tx)
    requires cb.IsCoinbase() && !tx.IsCoinbase() && |T.Encode(cb)| < 500 && |T.Encode(tx)| < 500
    requires var p := RunTxs(Keys(), c, [cb, tx]); p.Going? && p.fees == 0
    requires CheckedSum(cb.vout) == Some(10) && Subsidy(|c|) == 10
    ensures Passes(c, [cb, tx])
  {
    hide T.Encode, BlockCodec.EncodableTx, RunTxs, Keys, CheckedSum, Subsidy;
    assert [cb, tx][..1] == [cb];
    BlockCodec.OneBody([cb]);
  }

  function Paying(h: Height, tx: Transaction): Block {
    BlockWith(h, [Reward(h), tx])
  }

  /** A block with one payment that passes on the chain is accepted. */
  lemma {:induction false} PaymentAccepted(c: seq<Block>, tx: Transaction)
    requires Regular(c) && 0 < |c| < 600 && Reward(|c|).id !in Ids(c)
    requires BlockCodec.EncodableTx(Telling(), tx) && |T.Encode(tx)| < 500 && !tx.IsCoinbase()
    requires NoRepeat(Points(tx.vin)) && CheckOnChain(Keys(), c, tx) == Fee(0)
    ensures Passes(c, Paying(|c|, tx).txs) && RunTxs(Keys(), c, Paying(|c|, tx).txs).fees == 0
    ensures AcceptedAt(c + [Paying(|c|, tx)], |c|) && Regular(c + [Paying(|c|, tx)])
  {
    hide Regular, Reward, Ids, BlockCodec.EncodableTx, T.Encode, NoRepeat, Points, Check, Passes, RunTxs, AcceptedAt,
      HashAt;
    var cb := Reward(|c|);
    NotOnChain(c, cb.id);
    RewardEncodable(|c|);
    RewardBytes(|c|);
    RewardOuts(|c|);
    PaysTen(|c|);
    SubsidyHere(|c|);
    PaymentRuns(c, cb, tx);
    PaymentFits(c, cb, tx);
    PassingIsAccepted(c, [cb, tx]);
    RegularMore(c, [cb, tx]);
  }

  lemma {:induction false} PaymentIsShaped(c: seq<Block>, h: Height, tx: Transaction)
    requires WellShaped(c) && Reward(h).id !in Ids(c) && tx.id !in Ids(c) && tx.id != Reward(h).id
    ensures WellShaped(c + [Paying(h, tx)]) && TxIds(Paying(h, tx).txs) == {Reward(h).id, tx.id}
    ensures Ids(c + [Paying(h, tx)]) == Ids(c) + {Reward(h).id, tx.id}
  {
    hide WellShaped, Ids, Reward;
    RewardId(h);
    var b := Paying(h, tx);
    TwoIds(Reward(h), tx);
    ShapedMore(c, b);
    IdsMore(c, b);
  }

  lemma {:induction false} TwoIds(a: Transaction, b: Transaction)
    requires a.IsCoinbase() && a.id != b.id
    ensures TxIds([a, b]) == {a.id, b.id} && Shaped([a, b])
  {
    assert [a, b][0] in [a, b] && [a, b][1] in [a, b];
  }

  lemma {:induction false} IdsMore(c: seq<Block>, b: Block)
    ensures Ids(c + [b]) == Ids(c) + TxIds(b.txs)
  {
    assert (c + [b])[..|c|] == c;
  }

  // ---------------------------------------------------------------- the chain and the two blocks

  function Spender(n: Long): Block {
    Paying(n, SpendBoth(OWNER))
  }

  function Again(n: Long): Block {
    Paying(n + 1, SpendOne())
  }

  function Longer(n: Long): seq<Block> {
    Chain(n) + [Spender(n)]
  }

  lemma {:induction false} CoinOnChain(n: Long)
    ensures HasCoin(Chain(n)) && Regular(Chain(n))
  {
    hide Reward, FindTx, Chain, Regular;
    FindReward(n);
    ChainRegular(n);
  }

  lemma {:induction false} SpenderAccepted(n: Long)
    ensures AllAccepted(Longer(n)) && Regular(Longer(n)) && Passes(Chain(n), Spender(n).txs)
    ensures RunTxs(Keys(), Chain(n), Spender(n).txs).fees == 0
  {
    hide Chain, Regular, SpendBoth, SpendOne, HasCoin, BlockCodec.EncodableTx, T.Encode, NoRepeat, Points, Check, Ids,
      Passes, RunTxs, AcceptedAt, Paying, AllAccepted, Coin, PicksCoin, Reward;
    CoinOnChain(n);
    BothPass(OWNER, Chain(n));
    BothPoints(OWNER);
    SpendBothIs(OWNER);
    NextIdIsNew(n);
    PaymentAccepted(Chain(n), SpendBoth(OWNER));
    ChainAccepted(n);
    AcceptedMore(Chain(n), Spender(n));
  }

  lemma {:induction false} SpenderIds(n: Long)
    ensures WellShaped(Longer(n)) && Ids(Longer(n)) == Ids(Chain(n)) + {Reward(n).id, Mark(216, 0, 0)}
    ensures TxIds(Spender(n).txs) == {Reward(n).id, Mark(216, 0, 0)} && Coin() !in TxIds(Spender(n).txs)
  {
    hide Chain, WellShaped, SpendBoth, SpendOne, Ids, TxIds, Paying, PicksCoin, Mark, Reward, BlockCodec.EncodableTx,
      T.Encode;
    ChainShaped(n);
    SpendBothIs(OWNER);
    NextIdIsNew(n);
    OtherIdIsNew(n, 216);
    IdsApart(n);
    PaymentIsShaped(Chain(n), n, SpendBoth(OWNER));
  }

  /** The ids of the coinbases and of the two payments tell different sizes. */
  lemma {:induction false} IdsApart(h: Height)
    requires h != 1
    ensures Reward(h).id != Mark(216, 0, 0) && Reward(h).id != Mark(178, 0, 0) && Reward(h).id != Coin()
    ensures Mark(216, 0, 0) != Mark(178, 0, 0) && Mark(216, 0, 0) != Coin() && Mark(178, 0, 0) != Coin()
  {
    hide Reward, T.Sealed;
    RewardId(h);
    RewardId(1);
  }

  lemma {:induction false} CoinStillThere(n: Long)
    ensures HasCoin(Longer(n))
  {
    hide FindTx, Chain, Spender, Coin, Reward, Ids, WellShaped;
    CoinOnChain(n);
    SpenderIds(n);
    FindTxOlder(Chain(n), Spender(n), Coin());
  }

  lemma {:induction false} NewAfterSpender(n: Long)
    ensures Reward(n + 1).id !in Ids(Longer(n)) && Mark(178, 0, 0) !in Ids(Longer(n))
  {
    hide Chain, Ids, Reward, Mark, WellShaped, Longer, TxIds, Coin;
    SpenderIds(n);
    ChainIdsPart(n + 1);
    OtherIdIsNew(n, 178);
    IdsApart(n);
    IdsApart(n + 1);
    RewardsDiffer(n, n + 1);
  }

  lemma {:induction false} ChainIdsPart(h: Height)
    requires h > 0
    ensures Reward(h).id !in Ids(Chain(h - 1))
  {
    hide Reward, TxIds;
    NextIdIsNew(h);
    ChainInit(h);
  }

  lemma {:induction false} AgainAccepted(n: Long)
    ensures AllAccepted(Longer(n) + [Again(n)]) && Passes(Longer(n), Again(n).txs)
    ensures RunTxs(Keys(), Longer(n), Again(n).txs).fees == 0
    ensures WellShaped(Longer(n) + [Again(n)])
  {
    hide Longer, Regular, SpendBoth, SpendOne, HasCoin, BlockCodec.EncodableTx, T.Encode, NoRepeat, Points, Check, Ids,
      Passes, RunTxs, AcceptedAt, Paying, AllAccepted, Coin, PicksCoin, Reward, WellShaped, TxIds, Mark;
    assert |Longer(n)| == n + 1 by { LongerSize(n); }
    CoinStillThere(n);
    SpenderAccepted(n);
    SpenderIds(n);
    NewAfterSpender(n);
    BothPass(OWNER, Longer(n));
    BothPoints(OWNER);
    SpendOneIs();
    IdsApart(n + 1);
    PaymentAccepted(Longer(n), SpendOne());
    AcceptedMore(Longer(n), Again(n));
    PaymentIsShaped(Longer(n), n + 1, SpendOne());
  }

  lemma {:induction false} LongerSize(n: Long)
    ensures |Longer(n)| == n + 1 && Longer(n) != []
  {
  }

  // ---------------------------------------------------------------- the index over the two blocks

  lemma {:induction false} UnspentLives(c: seq<Block>, h: nat, t: nat, i: Int32)
    requires WellShaped(c) && h < |c| && t < |c[h].txs| && 0 <= i < |c[h].txs[t].vout| && SpentFrom(c, h + 1) == {}
    ensures var o, coins := Outpoint(c[h].txs[t].id, i), Flat(Rebuild(c));
            o in coins && coins[o] == c[h].txs[t].vout[i].value
    ensures var tx := c[h].txs[t]; tx.id in Rebuild(c) && Rebuild(c)[tx.id] == Remaining(tx, h, {})
  {
    hide WellShaped, Rebuild, SpentFrom, Flat;
    var tx := c[h].txs[t];
    RebuildMeaning(c, h, t);
    assert i in Remaining(tx, h, {}).outputs;
    FlatAt(Rebuild(c), Outpoint(tx.id, i));
  }

  lemma {:induction false} CoinEntry(n: Long)
    ensures var db := Incremental(Chain(n)); Coin() in db && db[Coin()] == Remaining(Reward(1), 1, {})
    ensures forall i: Int32 :: 0 <= i < 2 ==>
      Outpoint(Coin(), i) in Flat(Incremental(Chain(n))) && Flat(Incremental(Chain(n)))[Outpoint(Coin(), i)] == 5
  {
    hide Rebuild, Incremental, Chain, WellShaped, CarefulRun, Remaining, Reward, Flat, SpentFrom;
    ChainInStep(n);
    ChainShaped(n);
    ChainAt(n, 1);
    RewardOuts(1);
    NothingSpentFrom(n, 2);
    forall i: Int32 | 0 <= i < 2
      ensures Outpoint(Coin(), i) in Flat(Incremental(Chain(n)))
      ensures Flat(Incremental(Chain(n)))[Outpoint(Coin(), i)] == 5
    {
      UnspentLives(Chain(n), 1, 0, i);
    }
    UnspentLives(Chain(n), 1, 0, 0);
  }

  lemma {:induction false} PayingSpends(cb: Transaction, tx: Transaction)
    requires cb.IsCoinbase() && !tx.IsCoinbase()
    ensures Spends([cb, tx]) == Elements(Points(tx.vin))
  {
    hide Points, Elements;
    assert [cb, tx][..1] == [cb] && [cb][..0] == [];
    SpendsArePoints([cb, tx]);
    assert BlockPoints([cb]) == [];
    assert [] + Points(tx.vin) == Points(tx.vin);
  }

  lemma {:induction false} PayingNames(cb: Transaction, tx: Transaction, id: Bytes)
    requires cb.IsCoinbase() && !tx.IsCoinbase() && tx.vin != [] && tx.vin[|tx.vin| - 1].txid == id
    ensures LastNamed(Events([cb, tx]), id) == Some(tx.vin[|tx.vin| - 1].vout)
  {
    var es := Events([cb, tx]);
    assert [cb, tx][..1] == [cb];
    assert es[|es| - 1] == Create(tx);
    assert es[..|es| - 1][|es| - 2] == Spend(tx.vin[|tx.vin| - 1]);
  }

  lemma {:induction false} SpenderIs(n: Long)
    ensures Spends(Spender(n).txs) == {Outpoint(Coin(), 0), Outpoint(Coin(), 1)}
    ensures LastNamed(Events(Spender(n).txs), Coin()) == Some(1)
    ensures PicksTwo(SpendBoth(OWNER)) && |Spender(n).txs| == 2 && Spender(n).txs[1] == SpendBoth(OWNER)
    ensures AllHaveOutputs(Spender(n).txs) && Fits(Spender(n).txs) && |Spender(n).txs[0].vout| == 1
    ensures OutputSum(Spender(n).txs[0].vout) == 10 && OnlyFirstCoinbase(Spender(n).txs)
  {
    hide Coin, Reward, SpendBoth, Points, NoRepeat, Events, Spends, BlockCodec.EncodableTx, T.Encode, Mark;
    var tx := SpendBoth(OWNER);
    RewardId(n);
    RewardOuts(n);
    PaysTen(n);
    PaysLittle(n);
    SpendBothIs(OWNER);
    BothPoints(OWNER);
    PayingSpends(Reward(n), tx);
    PayingNames(Reward(n), tx, Coin());
    assert tx.vin[0].txid == tx.vin[1].txid && tx.vin[0].vout != tx.vin[1].vout;
  }

  lemma {:induction false} AgainIs(n: Long)
    ensures Spends(Again(n).txs) == {Outpoint(Coin(), 1)}
    ensures |Again(n).txs| == 2 && Again(n).txs == [Reward(n + 1), SpendOne()]
    ensures Fits(Again(n).txs) && OutputSum(Again(n).txs[0].vout) == 10 && OnlyFirstCoinbase(Again(n).txs)
  {
    hide Coin, Reward, SpendOne, Points, NoRepeat, Spends, BlockCodec.EncodableTx, T.Encode, Mark;
    RewardId(n + 1);
    RewardOuts(n + 1);
    PaysTen(n + 1);
    SpendOneIs();
    BothPoints(OWNER);
    PayingSpends(Reward(n + 1), SpendOne());
  }

  lemma {:induction false} BothLive(n: Long)
    ensures AllLive(Incremental(Chain(n)), Spends(Spender(n).txs))
  {
    hide Coin, Incremental, Chain, Flat, Spender, Events, Remaining, Reward, SpendBoth, Fits;
    CoinEntry(n);
    SpenderIs(n);
    FlatAt(Incremental(Chain(n)), Outpoint(Coin(), 0));
    FlatAt(Incremental(Chain(n)), Outpoint(Coin(), 1));
  }

  lemma {:induction false} SpenderBringsNew(n: Long)
    ensures Incremental(Chain(n)).Keys !! TxIds(Spender(n).txs)
  {
    hide Incremental, Chain, Spender, Matches, WellShaped, Ids, TxIds, Mark, Reward;
    ChainShaped(n);
    IncrementalMatches(Chain(n));
    MatchedIds(Incremental(Chain(n)), Chain(n));
    SpenderIds(n);
    OtherIdIsNew(n, 216);
    NextIdIsNew(n);
  }

  /** The spend of the first output is lost, that of the second is not. */
  lemma {:induction false} FirstIsLost(n: Long)
    ensures Lost(Incremental(Chain(n)), Spender(n).txs) == map[Outpoint(Coin(), 0) := 5]
    ensures Outpoint(Coin(), 1) !in Flat(Incremental(Longer(n)))
  {
    hide Coin, Incremental, Chain, Flat, Spender, Events, Remaining, Reward, SpendBoth, Fits, Spends, LastNamed, Update,
      Survivors, TxIds, WellShaped, Ids;
    var db := Incremental(Chain(n));
    CoinEntry(n);
    SpenderIs(n);
    SpenderIds(n);
    SpenderBringsNew(n);
    OneMoreUpdate(Chain(n), Spender(n));
    LastNamedLeaves(db, Spender(n).txs, |Chain(n)|, Outpoint(Coin(), 1));
    assert |Chain(n)| == n;
    assert Lost(db, Spender(n).txs) == map[Outpoint(Coin(), 0) := 5];
  }

  /** The output named last for an old transaction leaves the index. */
  lemma {:induction false} LastNamedLeaves(db: Index, txs: seq<Transaction>, height: int, o: Outpoint)
    requires LastNamed(Events(txs), o.txid) == Some(o.vout) && o.txid !in TxIds(txs) && db.Keys !! TxIds(txs)
    ensures o !in Flat(Update(db, txs, height))
  {
    hide Flat, Events, LastNamed, Survivors, Stored, Batch, Write, TxIds;
    EventsCreate(txs, height);
    AfterBatch(db, Events(txs), height);
    SurvivesExactly(db, txs, o);
    FlatAt(Update(db, txs, height), o);
  }

  // ---------------------------------------------------------------- what becomes of the index and the supply

  /**
   * Every block is one the validator accepts, every input of the last one is live, the updated index has agreed with
   * the rebuilt one all along, and after the last block it does not.
   */
  lemma {:induction false} LostSpendExample(n: Long) returns (c: seq<Block>, b: Block)
    ensures Linked(c) && AllAccepted(c + [b]) && WellShaped(c + [b]) && AllHaveOutputs(b.txs)
    ensures AllLive(Rebuild(c), Spends(b.txs))
    ensures Incremental(c) == Rebuild(c) && Incremental(c + [b]) != Rebuild(c + [b])
  {
    hide Linked, WellShaped, Rebuild, Incremental, Update, AllAccepted, AllLive, Chain, Regular, Spender, Spends,
      PicksTwo, AllHaveOutputs, TxIds, Ids, Fits;
    c, b := Chain(n), Spender(n);
    ChainRegular(n);
    RegularLinked(c);
    SpenderAccepted(n);
    SpenderIds(n);
    SpenderIs(n);
    ChainInStep(n);
    BothLive(n);
    PairLoses(c, b, 1);
    OneMoreUpdate(c, b);
  }

  lemma {:induction false} OneCoin(o: Outpoint, value: nat)
    ensures Sum(map[o := value]) == value
  {
    hide Sum;
    SumAdd(map[], o, value);
    EmptySum();
    assert map[][o := value] == map[o := value];
  }

  /** The first block draws nothing dead and loses five raffys. */
  lemma {:induction false} SpenderExcess(n: Long)
    ensures DeadDrawn(Keys(), Chain(n), Flat(Incremental(Chain(n))), Spender(n).txs) == 0
    ensures Sum(Lost(Incremental(Chain(n)), Spender(n).txs)) == 5
  {
    hide Chain, Incremental, Spender, DeadDrawn, Flat, Lost, Spends, AllLive, Sum, Coin;
    BothLive(n);
    NothingDead(Keys(), Chain(n), Incremental(Chain(n)), Spender(n).txs);
    FirstIsLost(n);
    OneCoin(Outpoint(Coin(), 0), 5);
  }

  lemma {:induction false} NoneLost(utxo: Index, txs: seq<Transaction>)
    requires forall o :: o in Spends(txs) ==> o !in Flat(utxo)
    ensures Sum(Lost(utxo, txs)) == 0
  {
    hide Sum, Flat, Spends, LastNamed, Events;
    EmptySum();
    assert Lost(utxo, txs) == map[];
  }

  lemma {:induction false} AgainGathers(n: Long, ctx: Context, vin: seq<TxIn>)
    requires |vin| == 1 && vin[0].txid == Coin() && Coin() !in ctx
    ensures PrevsOf(Longer(n), ctx, vin) == CoinBefore()
  {
    hide Coin, Longer, FindTx, Reward;
    CoinStillThere(n);
    LongerSize(n);
    assert vin[..0] == [];
    assert Gather(Longer(n), ctx, |Longer(n)|, vin[..0]) == Gathered.Prevs(map[]);
    assert Lookup(Longer(n), ctx, |Longer(n)|, Coin()) == Found(Reward(1));
  }

  lemma {:induction false} DrawsFive(coins: Coins, vin: seq<TxIn>)
    requires |vin| == 1 && vin[0].txid == Coin() && vin[0].vout == 1 && Outpoint(Coin(), 1) !in coins
    ensures DrawnDead(coins, CoinBefore(), vin) == 5
  {
    hide Coin, Lock, PrevOut, CoinBefore;
    assert vin[..0] == [];
    CoinOut(vin[0]);
  }

  /** The second block loses nothing, and draws five raffys that are no longer there. */
  lemma {:induction false} AgainExcess(n: Long)
    ensures DeadDrawn(Keys(), Longer(n), Flat(Incremental(Longer(n))), Again(n).txs) == 5
    ensures Sum(Lost(Incremental(Longer(n)), Again(n).txs)) == 0
  {
    hide Longer, Incremental, Again, Flat, Lost, Spends, Sum, Coin, SpendOne, Reward, CoinBefore, PrevsOf, DrawnDead,
      Fits,
      BlockCodec.EncodableTx, T.Encode, Mark, PicksCoin, Spender, Keys;
    var coins, cb, tx, k := Flat(Incremental(Longer(n))), Reward(n + 1), SpendOne(), Keys();
    FirstIsLost(n);
    AgainIs(n);
    NoneLost(Incremental(Longer(n)), Again(n).txs);
    SpendOneIs();
    SpendOnePicks();
    RewardId(n + 1);
    IdsApart(n + 1);
    OnlyCoinbase(k, Longer(n), cb);
    AgainGathers(n, map[cb.id := cb], tx.vin);
    DrawsFive(coins, tx.vin);
    DeadOfTwo(k, Longer(n), coins, cb, tx);
  }

  lemma {:induction false} SpendOnePicks()
    ensures |SpendOne().vin| == 1 && SpendOne().vin[0].txid == Coin() && SpendOne().vin[0].vout == 1
  {
    hide Coin, SpendOne, BlockCodec.EncodableTx, T.Encode, Mark;
    SpendOneIs();
  }

  lemma {:induction false} DeadOfTwo(k: Crypto, c: seq<Block>, coins: Coins, cb: Transaction, tx: Transaction)
    requires cb.IsCoinbase() && !tx.IsCoinbase() && RunTxs(k, c, [cb]) == Going(map[cb.id := cb], {}, 0)
    ensures DeadDrawn(k, c, coins, [cb, tx]) == DrawnDead(coins, PrevsOf(c, map[cb.id := cb], tx.vin), tx.vin)
  {
    hide DrawnDead, PrevsOf, RunTxs;
    assert [cb, tx][..1] == [cb] && [cb][..0] == [];
    assert DeadDrawn(k, c, coins, [cb]) == 0;
  }

  /**
   * Two accepted blocks on top of a run that holds exactly the subsidies: the index holds five raffys too many after
   * the first, one of whose spends is lost, and ten after the second, whose input is dead.
   */
  lemma {:induction false} SupplyIsExceeded(n: Long) returns (c: seq<Block>, first: Block, second: Block)
    ensures |c| == n && AllAccepted(c + [first, second]) && FullRun(Keys(), c + [first, second])
    ensures Total(Incremental(c)) == SubsidySum(n)
    ensures Total(Incremental(c + [first])) == SubsidySum(n + 1) + 5
    ensures Total(Incremental(c + [first, second])) == SubsidySum(n + 2) + 10
  {
    hide Longer, Incremental, Again, Spender, Total, FullRun, AllAccepted, SubsidySum, Chain, Keys;
    c, first, second := Chain(n), Spender(n), Again(n);
    BothFull(n);
    AgainAccepted(n);
    ChainTotal(n);
    TotalsAre(n);
    LongerIs(n);
  }

  lemma {:induction false} TotalsAre(n: Long)
    ensures Total(Incremental(Longer(n))) == SubsidySum(n + 1) + 5
    ensures Total(Incremental(Longer(n) + [Again(n)])) == SubsidySum(n + 2) + 10
  {
    hide Longer, Incremental, Again, Spender, Total, FullRun, Excess, SubsidySum, Chain, Keys;
    BothFull(n);
    ExcessIs(n);
    LongerIs(n);
    SupplyExactly(Keys(), Longer(n));
    SupplyExactly(Keys(), Longer(n) + [Again(n)]);
  }

  lemma {:induction false} LongerIs(n: Long)
    ensures |Longer(n)| == n + 1 && Longer(n) == Chain(n) + [Spender(n)]
    ensures Longer(n) + [Again(n)] == Chain(n) + [Spender(n), Again(n)]
  {
    hide Spender, Again, Chain;
  }

  lemma {:induction false} BothFull(n: Long)
    ensures FullRun(Keys(), Longer(n)) && FullRun(Keys(), Longer(n) + [Again(n)])
  {
    hide FullRun, AllAccepted, Passes, Regular, WellShaped, Fits, RunTxs, OutputSum, Reward, Chain, TxIds, Ids,
      SpendOne,
      SpendBoth, Keys;
    ChainFull(n);
    ChainRegular(n);
    SpenderAccepted(n);
    SpenderIds(n);
    SpenderIs(n);
    FullMore(Chain(n), Spender(n).txs);
    AgainAccepted(n);
    AgainIs(n);
    FullMore(Longer(n), Again(n).txs);
  }

  lemma {:induction false} ExcessIs(n: Long)
    ensures Excess(Keys(), Longer(n)) == 5 && Excess(Keys(), Longer(n) + [Again(n)]) == 10
  {
    hide Incremental, Again, Spender, DeadDrawn, Lost, Flat, Sum, Chain;
    ChainTotal(n);
    SpenderExcess(n);
    AgainExcess(n);
    assert Longer(n)[..n] == Chain(n) && Tip(Longer(n)) == Spender(n);
    assert (Longer(n) + [Again(n)])[..n + 1] == Longer(n) && Tip(Longer(n) + [Again(n)]) == Again(n);
  }

  /** The payment of both outputs passes, a block that carries it is accepted, and it passes again after that block. */
  lemma {:induction false} PaymentPassesTwice(n: Long) returns (c: seq<Block>, b: Block, tx: Transaction)
    ensures c == Chain(n) && b == Spender(n) && tx == SpendBoth(OWNER)
    ensures |c| == n && AllAccepted(c + [b]) && tx in b.txs
    ensures CheckInBlock(Keys(), c, map[], tx) == CheckInBlock(Keys(), c + [b], map[], tx) == Fee(0)
  {
    hide Chain, SpendBoth, Check, Coin, AllAccepted, TxIds, Ids, WellShaped, Reward, HasCoin, Passes, Regular, Keys;
    c, b, tx := Chain(n), Spender(n), SpendBoth(OWNER);
    CoinOnChain(n);
    BothPass(OWNER, Chain(n));
    CheckAgain(Keys(), Chain(n), map[], tx);
    SpenderAccepted(n);
    SpenderIds(n);
    SpendBothNames();
    Replay.PassesAgain(Keys(), Chain(n), map[], Spender(n), map[], tx);
  }

  /** Yet what it spends has left the index. */
  lemma {:induction false} PaymentSpends(n: Long, o: Outpoint)
    requires o in Points(SpendBoth(OWNER).vin)
    ensures o !in Flat(Rebuild(Longer(n)))
  {
    hide Chain, SpendBoth, Coin, Rebuild, Flat, TxIds, Ids, WellShaped, Reward, Points, SpendsOf;
    SpenderIds(n);
    SpendBothSpends(o);
    Replay.SpentOutputsGo(Chain(n), Spender(n), 1, o);
  }

  lemma {:induction false} SpendBothNames()
    ensures Replay.Named(SpendBoth(OWNER)) == {Coin()}
  {
    hide SpendBoth, Coin, BlockCodec.EncodableTx, T.Encode, Mark;
    SpendBothIs(OWNER);
    var vin := SpendBoth(OWNER).vin;
    assert vin[0] in vin;
  }

  lemma {:induction false} SpendBothSpends(o: Outpoint)
    requires o in Points(SpendBoth(OWNER).vin)
    ensures o in SpendsOf(SpendBoth(OWNER)) && o.txid == Coin()
  {
    hide SpendBoth, Coin, BlockCodec.EncodableTx, T.Encode, Mark;
    SpendBothIs(OWNER);
    BothPoints(OWNER);
    var vin := SpendBoth(OWNER).vin;
    assert vin[0] in vin && vin[1] in vin;
  }
}

/** Assembling a block, and why other nodes accept it: `Node::MineBlock` against `Node::HandleBlock`. */
module Miner {
  import opened Base
  import opened Ledger
  import opened ChainModel
  import opened Validation
  import BlockCodec
  import ProofOfWork
  import opened Wire
  import T = TransactionCodec

  // ---------------------------------------------------------------- the coinbase

  /** `NewCoinbaseTX`: the subsidy and the fees, in one output. */
  function Coinbase(sha: Sha256, pubKeyHash: Bytes, data: Bytes, reward: Amount): Transaction {
    T.WithId(sha, [TxIn([], -1, [], data)], [TxOut(reward, pubKeyHash)])
  }

  /** Neither the reward nor what the data says changes the size, so a placeholder measures the real one. */
  lemma {:induction false} CoinbaseSize(sha: Sha256, pubKeyHash: Bytes, data: Bytes, reward: Amount)
    ensures |T.Encode(Coinbase(sha, pubKeyHash, data, reward))| == 36 + |data| + |pubKeyHash|
    ensures Coinbase(sha, pubKeyHash, data, reward).IsCoinbase()
    ensures T.Sealed(sha, Coinbase(sha, pubKeyHash, data, reward))
  {
    hide U32, U64;
    var cb := Coinbase(sha, pubKeyHash, data, reward);
    T.IdIgnored(cb);
    OneItem(T.EncodeIn, cb.vin);
    OneItem(T.EncodeOut, cb.vout);
  }

  lemma {:induction false} OneItem<A>(enc: A -> Bytes, xs: seq<A>)
    requires |xs| == 1
    ensures EncodeAll(enc, xs) == enc(xs[0])
  {
    assert xs[..|xs| - 1] == [];
  }

  // ---------------------------------------------------------------- choosing transactions

  /** The transactions taken so far, their fees, the running size, and whether selection went on or failed. */
  datatype Selection = Selection(txs: seq<Transaction>, fees: int, size: nat, stopped: bool) | Failed

  function SelectTx(k: Crypto, c: seq<Block>, s: Selection, tx: Transaction): Selection {
    if s.Failed? || s.stopped then s
    else if s.size + 4 + |T.Encode(tx)| > MAX_BLOCK_SIZE || |s.txs| + 1 >= MAX_BLOCK_TXS then s.(stopped := true)
    else Taken(s, tx, CheckOnChain(k, c, tx))
  }

  function Taken(s: Selection, tx: Transaction, checked: Checked): Selection
    requires s.Selection?
  {
    match checked
    case Fee(fee) => Selection(s.txs + [tx], s.fees + fee, s.size + 4 + |T.Encode(tx)|, false)
    case Refused => s
    case Aborted => Failed
  }

  function Select(k: Crypto, c: seq<Block>, sorted: seq<Transaction>, base: nat): Selection {
    if sorted == [] then Selection([], 0, base, false)
    else SelectTx(k, c, Select(k, c, sorted[..|sorted| - 1], base), sorted[|sorted| - 1])
  }

  function FeeSum(k: Crypto, c: seq<Block>, txs: seq<Transaction>): int
    requires forall t :: 0 <= t < |txs| ==> CheckOnChain(k, c, txs[t]).Fee?
  {
    if txs == [] then 0 else FeeSum(k, c, txs[..|txs| - 1]) + CheckOnChain(k, c, txs[|txs| - 1]).fee
  }

  /** What selection guarantees, whatever it is given. */
  ghost predicate Selected(k: Crypto, c: seq<Block>, sorted: seq<Transaction>, base: nat, s: Selection) {
    && s.Selection? && |s.txs| < MAX_BLOCK_TXS
    && (forall t :: 0 <= t < |s.txs| ==> s.txs[t] in sorted && CheckOnChain(k, c, s.txs[t]).Fee?)
    && s.fees == FeeSum(k, c, s.txs)
    && s.size == base + BlockCodec.BodySize(s.txs)
    && (s.size <= MAX_BLOCK_SIZE || s.size == base)
  }

  lemma {:induction false} SelectIs(k: Crypto, c: seq<Block>, sorted: seq<Transaction>, base: nat)
    requires Select(k, c, sorted, base).Selection?
    ensures Selected(k, c, sorted, base, Select(k, c, sorted, base))
    decreases |sorted|, 1
  {
    if sorted != [] {
      SelectIsStep(k, c, sorted, base);
    }
  }

  lemma {:induction false} SelectIsStep(k: Crypto, c: seq<Block>, sorted: seq<Transaction>, base: nat)
    requires sorted != [] && Select(k, c, sorted, base).Selection?
    ensures Selected(k, c, sorted, base, Select(k, c, sorted, base))
    decreases |sorted|, 0
  {
    hide Check, T.Encode;
    var init, last := sorted[..|sorted| - 1], sorted[|sorted| - 1];
    SelectIs(k, c, init, base);
    var s := Select(k, c, init, base);
    assert (s.txs + [last])[..|s.txs|] == s.txs;
  }

  // ---------------------------------------------------------------- nothing is left out

  /** Those of the transactions that pass on the chain, in their order. */
  function WhatPasses(k: Crypto, c: seq<Block>, txs: seq<Transaction>): seq<Transaction> {
    if txs == [] then []
    else
      var last := txs[|txs| - 1];
      WhatPasses(k, c, txs[..|txs| - 1]) + if CheckOnChain(k, c, last).Fee? then [last] else []
  }

  /** With all that pass before it, transaction `n` would break the limit on the size or on the count. */
  predicate BreaksLimit(k: Crypto, c: seq<Block>, sorted: seq<Transaction>, base: nat, n: nat)
    requires n < |sorted|
  {
    var before := WhatPasses(k, c, sorted[..n]);
    || base + BlockCodec.BodySize(before) + 4 + |T.Encode(sorted[n])| > 1_000_000
    || |before| + 1 >= 5_000
  }

  /** The first `n` are looked at: none of them breaks a limit or throws. */
  ghost predicate LooksAt(k: Crypto, c: seq<Block>, sorted: seq<Transaction>, base: nat, n: nat) {
    n <= |sorted| &&
    forall i :: 0 <= i < n ==> !BreaksLimit(k, c, sorted, base, i) && !CheckOnChain(k, c, sorted[i]).Aborted?
  }

  /**
   * What is taken is everything that passes, in order, up to the first transaction that breaks a limit; selection fails
   * exactly if one that throws is reached before that.
   */
  lemma {:induction false} SelectTakesAll(k: Crypto, c: seq<Block>, sorted: seq<Transaction>, base: nat)
    returns (n: nat)
    ensures LooksAt(k, c, sorted, base, n)
    ensures var s := Select(k, c, sorted, base);
            && (s.Failed? <==> n < |sorted| && !BreaksLimit(k, c, sorted, base, n) &&
                               CheckOnChain(k, c, sorted[n]).Aborted?)
            && (s.Selection? ==> s.txs == WhatPasses(k, c, sorted[..n]) && s.size == base + BlockCodec.BodySize(s.txs))
            && (s.Selection? && s.stopped ==> n < |sorted| && BreaksLimit(k, c, sorted, base, n))
            && (s.Selection? && !s.stopped ==> n == |sorted|)
    decreases |sorted|
  {
    hide Check, T.Encode, BreaksLimit;
    if sorted == [] {
      return 0;
    }
    var init, last := sorted[..|sorted| - 1], |sorted| - 1;
    var before := Select(k, c, init, base);
    n := SelectTakesAll(k, c, init, base);
    LooksFurther(k, c, sorted, base, n);
    if before.Selection? && !before.stopped {
      assert sorted[..last] == init;
      OneMoreTaken(k, c, sorted, base, before);
      if !BreaksLimit(k, c, sorted, base, last) && !CheckOnChain(k, c, sorted[last]).Aborted? {
        n := |sorted|;
        assert sorted[..n] == sorted;
      }
    }
  }

  lemma {:induction false} LooksFurther(k: Crypto, c: seq<Block>, sorted: seq<Transaction>, base: nat, n: nat)
    requires sorted != [] && LooksAt(k, c, sorted[..|sorted| - 1], base, n)
    ensures LooksAt(k, c, sorted, base, n) && sorted[..|sorted| - 1][..n] == sorted[..n]
    ensures n < |sorted| - 1 ==>
      (BreaksLimit(k, c, sorted, base, n) <==> BreaksLimit(k, c, sorted[..|sorted| - 1], base, n))
  {
    hide Check, T.Encode, WhatPasses, BlockCodec.BodySize;
    var init := sorted[..|sorted| - 1];
    forall i | 0 <= i < n ensures !BreaksLimit(k, c, sorted, base, i) && !CheckOnChain(k, c, sorted[i]).Aborted? {
      assert init[..i] == sorted[..i] && init[i] == sorted[i] && !BreaksLimit(k, c, init, base, i);
    }
    if n < |init| {
      assert init[..n] == sorted[..n] && init[n] == sorted[n];
    }
  }

  /** One more transaction looked at, after everything that passed before it was taken. */
  lemma {:induction false} OneMoreTaken(k: Crypto, c: seq<Block>, sorted: seq<Transaction>, base: nat, s: Selection)
    requires sorted != [] && s.Selection? && !s.stopped && s.txs == WhatPasses(k, c, sorted[..|sorted| - 1])
    requires s.size == base + BlockCodec.BodySize(s.txs)
    ensures var last := |sorted| - 1; var after := SelectTx(k, c, s, sorted[last]);
            if BreaksLimit(k, c, sorted, base, last) then after == s.(stopped := true)
            else if CheckOnChain(k, c, sorted[last]).Aborted? then after == Failed
            else after.Selection? && !after.stopped && after.txs == WhatPasses(k, c, sorted) &&
                 after.size == base + BlockCodec.BodySize(after.txs)
  {
    hide Check, T.Encode;
    var last := sorted[|sorted| - 1];
    assert (s.txs + [last])[..|s.txs|] == s.txs;
    assert s.txs + [] == s.txs;
  }

  // ---------------------------------------------------------------- checking again in the block

  ghost predicate Fresh(c: seq<Block>, ids: set<Bytes>) {
    forall id :: id in ids ==> FindTx(c, id) == None
  }

  lemma {:induction false} GatherAgain(c: seq<Block>, ctx: Context, vin: seq<TxIn>)
    requires Fresh(c, ctx.Keys) && Gather(c, map[], |c| - 1, vin).Prevs?
    ensures Gather(c, ctx, |c|, vin) == Gather(c, map[], |c| - 1, vin)
  {
    if vin != [] {
      GatherAgain(c, ctx, vin[..|vin| - 1]);
    }
  }

  /** What passes on the chain passes in a block with the same fee, if the block repeats no id of the chain. */
  lemma {:induction false} CheckAgain(k: Crypto, c: seq<Block>, ctx: Context, tx: Transaction)
    requires Fresh(c, ctx.Keys) && CheckOnChain(k, c, tx).Fee?
    ensures CheckInBlock(k, c, ctx, tx) == CheckOnChain(k, c, tx)
  {
    if !tx.IsCoinbase() {
      GatherAgain(c, ctx, tx.vin);
    }
  }

  lemma {:induction false} FeeNotNegative(k: Crypto, c: seq<Block>, tx: Transaction)
    requires CheckOnChain(k, c, tx).Fee?
    ensures CheckOnChain(k, c, tx).fee >= 0
  {
  }

  /** Transactions of a block that passed on the chain, and whose ids are new to it. */
  ghost predicate Chosen(k: Crypto, c: seq<Block>, txs: seq<Transaction>) {
    && (forall t :: 0 <= t < |txs| ==>
           CheckOnChain(k, c, txs[t]).Fee? && !txs[t].IsCoinbase() && FindTx(c, txs[t].id) == None)
    && FeeSum(k, c, txs) < TWO_63
  }

  /** One more chosen transaction: it goes through if its outpoints do not repeat earlier ones. */
  lemma {:induction false} StepChosen(k: Crypto, c: seq<Block>, ctx: Context, before: seq<Outpoint>, fees: nat,
                                      tx: Transaction)
    requires Fresh(c, ctx.Keys) && NoRepeat(before) && !tx.IsCoinbase() && CheckOnChain(k, c, tx).Fee?
    requires fees + CheckOnChain(k, c, tx).fee < TWO_63
    ensures StepTx(k, c, Going(ctx, Elements(before), fees), tx) ==
      if NoRepeat(before + Points(tx.vin))
      then Going(ctx[tx.id := tx], Elements(before + Points(tx.vin)), fees + CheckOnChain(k, c, tx).fee)
      else Stopped(true)
  {
    hide Check, NoRepeat, Elements, SpendAll, Fresh;
    FeeNotNegative(k, c, tx);
    SpendAllIs(before, tx.vin);
    CheckAgain(k, c, ctx, tx);
  }

  /** Validation goes through such a block exactly when no outpoint repeats, and punishes the sender if one does. */
  ghost predicate GoesThrough(k: Crypto, c: seq<Block>, cb: Transaction, txs: seq<Transaction>)
    requires forall t :: 0 <= t < |txs| ==> CheckOnChain(k, c, txs[t]).Fee?
  {
    var p, points := RunTxs(k, c, [cb] + txs), BlockPoints([cb] + txs);
    && 0 <= FeeSum(k, c, txs)
    && if NoRepeat(points)
       then p.Going? && p.fees == FeeSum(k, c, txs) && p.spent == Elements(points) && Fresh(c, p.ctx.Keys)
       else p == Stopped(true)
  }

  lemma {:induction false} RunChosen(k: Crypto, c: seq<Block>, cb: Transaction, txs: seq<Transaction>)
    requires cb.IsCoinbase() && FindTx(c, cb.id) == None && Chosen(k, c, txs)
    ensures GoesThrough(k, c, cb, txs)
    decreases |txs|
  {
    hide Check, NoRepeat, Elements, FindTx, StepTx;
    if txs == [] {
      OnlyCoinbase(k, c, cb);
      assert [cb] + [] == [cb];
    } else {
      var init, last := txs[..|txs| - 1], txs[|txs| - 1];
      FeeNotNegative(k, c, last);
      RunChosen(k, c, cb, init);
      GoesOneFurther(k, c, cb, init, last);
      assert init + [last] == txs;
    }
  }

  lemma {:induction false} GoesOneFurther(k: Crypto, c: seq<Block>, cb: Transaction, init: seq<Transaction>,
                                          last: Transaction)
    requires Chosen(k, c, init + [last])
    requires forall t :: 0 <= t < |init| ==> CheckOnChain(k, c, init[t]).Fee?
    requires GoesThrough(k, c, cb, init)
    ensures GoesThrough(k, c, cb, init + [last])
  {
    hide Check, NoRepeat, Elements, FindTx, StepTx;
    var all := init + [last];
    assert all[..|all| - 1] == init && all[|init|] == last;
    assert ([cb] + all)[..|init| + 1] == [cb] + init;
    var before, p := BlockPoints([cb] + init), RunTxs(k, c, [cb] + init);
    FeeNotNegative(k, c, last);
    if NoRepeat(before) {
      StepChosen(k, c, p.ctx, before, p.fees, last);
    } else {
      StillRepeats(before, Points(last.vin));
      StaysStopped(k, c, last);
    }
  }

  lemma {:induction false} StaysStopped(k: Crypto, c: seq<Block>, tx: Transaction)
    ensures StepTx(k, c, Stopped(true), tx) == Stopped(true)
  {
  }

  lemma {:induction false} OnlyCoinbase(k: Crypto, c: seq<Block>, cb: Transaction)
    requires cb.IsCoinbase()
    ensures RunTxs(k, c, [cb]) == Going(map[cb.id := cb], {}, 0)
    ensures BlockPoints([cb]) == [] && NoRepeat([]) && Elements([]) == {}
  {
    assert [cb][..0] == [];
    assert BlockPoints([cb]) == BlockPoints([cb][..0]) + [];
  }

  lemma {:induction false} StillRepeats(s: seq<Outpoint>, more: seq<Outpoint>)
    requires !NoRepeat(s)
    ensures !NoRepeat(s + more)
  {
    if more == [] {
      assert s + more == s;
    } else {
      StillRepeats(s, more[..|more| - 1]);
      assert (s + more)[..|s + more| - 1] == s + more[..|more| - 1];
    }
  }

  // ---------------------------------------------------------------- the block

  /** A block put together from a selection on top of a chain, and mined. */
  ghost predicate Assembled(k: Crypto, c: seq<Block>, cb: Transaction, s: Selection, b: Block)
    requires TipInRange(c)
  {
    && s.Selection? && b.txs == [cb] + s.txs && ProofOfWork.Mined(k.sha, b)
    && b.prev == Tip(c).hash && b.bits == NextBits(c, |c|)
  }

  /** The ids of the block are new to the chain, and so is its hash. */
  ghost predicate NewToChain(c: seq<Block>, b: Block) {
    !HashIn(c, b.hash) && forall t :: 0 <= t < |b.txs| ==> FindTx(c, b.txs[t].id) == None
  }

  predicate TimeAllowed(c: seq<Block>, b: Block, now: int) {
    MedianTimePast(c) < b.timestamp <= now + MAX_FUTURE_BLOCK_TIME
  }

  lemma {:induction false} BodyCons(cb: Transaction, txs: seq<Transaction>)
    ensures BlockCodec.BodySize([cb] + txs) == 4 + |T.Encode(cb)| + BlockCodec.BodySize(txs)
  {
    hide T.Encode;
    if txs == [] {
      assert [cb] + [] == [cb] && [cb][..0] == [];
    } else {
      BodyCons(cb, txs[..|txs| - 1]);
      assert ([cb] + txs)[..|txs|] == [cb] + txs[..|txs| - 1];
    }
  }

  /** The running size is the size of the block as it goes over the wire, from which the same block is read. */
  lemma {:induction false} MinedBlockTravels(k: Crypto, c: seq<Block>, sorted: seq<Transaction>, base: nat,
                                             cb: Transaction, s: Selection, b: Block)
    requires Linked(c) && TipInRange(c) && Assembled(k, c, cb, s, b) && Selected(k, c, sorted, base, s)
    requires base == BlockCodec.FRAME_SIZE + 4 + |T.Encode(cb)|
    requires forall t :: 0 <= t < |b.txs| ==> BlockCodec.EncodableTx(k.sha, b.txs[t])
    ensures |BlockCodec.Encode(b)| == s.size
    ensures BlockCodec.Decode(k.sha, BlockCodec.Encode(b)) == Ok(b)
  {
    hide T.Encode, BlockCodec.EncodableTx, BlockCodec.Encode, BlockCodec.Decode, StoreOf, Check;
    StoreLookup(c, |c| - 1);
    BodyCons(cb, s.txs);
    BlockCodec.EncodedSize(b);
    BlockCodec.DecodeBeginning(k.sha, b, BlockCodec.Encode(b));
  }

  lemma {:induction false} MinedShape(cb: Transaction, s: Selection, b: Block, base: nat)
    requires s.Selection? && b.txs == [cb] + s.txs && cb.IsCoinbase() && |s.txs| < MAX_BLOCK_TXS
    requires forall t :: 0 <= t < |s.txs| ==> !s.txs[t].IsCoinbase()
    requires 0 < s.size <= MAX_BLOCK_SIZE
    ensures BlockCodec.CheckBlockSize(b, s.size) && b.txs[0] == cb
  {
    hide T.Encode, BlockCodec.Encode;
    assert forall t :: 0 <= t < |s.txs| ==> b.txs[t + 1] == s.txs[t];
  }

  lemma {:induction false} MinedReward(cb: Transaction, fees: nat, height: nat)
    requires |cb.vout| == 1 && cb.vout[0].value == Subsidy(height) + fees
    ensures CoinbaseOk(fees, height, cb.vout)
  {
    hide Subsidy;
    assert cb.vout[..|cb.vout| - 1] == [] && CheckedSum([]) == Some(0);
    assert CheckedSum(cb.vout) == CheckedAdd(0, cb.vout[0].value);
  }

  lemma {:induction false} MinedIsChosen(k: Crypto, c: seq<Block>, cb: Transaction, s: Selection, b: Block)
    requires s.Selection? && b.txs == [cb] + s.txs && NewToChain(c, b) && s.fees < TWO_63
    requires forall t :: 0 <= t < |s.txs| ==> !s.txs[t].IsCoinbase() && CheckOnChain(k, c, s.txs[t]).Fee?
    requires s.fees == FeeSum(k, c, s.txs)
    ensures Chosen(k, c, s.txs) && FindTx(c, cb.id) == None
  {
    hide Check, FindTx, FeeSum, HashIn;
    assert b.txs[0] == cb;
    forall t | 0 <= t < |s.txs| ensures FindTx(c, s.txs[t].id) == None {
      assert b.txs[t + 1] == s.txs[t];
    }
  }

  /**
   * The miner and the validator agree: a mined block, read back from its bytes, is stored by another node with
   * the same tip exactly when no outpoint repeats in it. If one does, the miner has built a block it is punished for.
   */
  lemma {:induction false} MinedBlockAccepted(k: Crypto, c: seq<Block>, sorted: seq<Transaction>, base: nat,
                                              cb: Transaction, s: Selection,
                                              b: Block, now: int)
    requires TipInRange(c) && Assembled(k, c, cb, s, b) && Selected(k, c, sorted, base, s)
    requires base == BlockCodec.FRAME_SIZE + 4 + |T.Encode(cb)| <= MAX_BLOCK_SIZE
    requires cb.IsCoinbase() && |cb.vout| == 1 && cb.vout[0].value == Subsidy(|c|) + s.fees
    requires forall t :: 0 <= t < |s.txs| ==> !s.txs[t].IsCoinbase()
    requires NewToChain(c, b) && TimeAllowed(c, b, now)
    ensures Judge(k, c, b, s.size, now) == if NoRepeat(BlockPoints(b.txs)) then Accept else Penalise
  {
    hide T.Encode, Check, RunTxs, NoRepeat, BlockPoints, MedianTimePast, NextBits, Subsidy, ProofOfWork.Meets,
      FindTx, FeeSum,
      BlockCodec.CheckBlockSize, CoinbaseOk, Chosen, HashIn;
    MinedIsChosen(k, c, cb, s, b);
    RunChosen(k, c, cb, s.txs);
    MinedShape(cb, s, b, base);
    MinedReward(cb, s.fees, |c|);
  }
}

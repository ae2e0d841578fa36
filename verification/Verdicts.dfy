/**
 * Exactly which blocks a node stores, punishes and drops (`Node::HandleBlock` in `src/node.cpp`), said of the block and
 * the chain rather than of the loops that find it out.
 */
module Verdicts {
  import opened Base
  import opened ChainModel
  import opened Ledger
  import opened Numerals
  import opened Supply
  import opened Validation
  import BlockCodec
  import ProofOfWork
  import Retarget

  // ---------------------------------------------------------------- the reward

  /** Adding amounts with a check succeeds exactly if their sum is an amount. */
  lemma {:induction false} CheckedSumExactly(vout: seq<TxOut>)
    ensures CheckedSum(vout) == if OutputSum(vout) < TWO_63 then Some(OutputSum(vout)) else None
  {
    if vout != [] {
      CheckedSumExactly(vout[..|vout| - 1]);
    }
  }

  /** The coinbase may take the subsidy and the fees and no more, all of it below 2^63. */
  lemma {:induction false} CoinbaseExactly(fees: nat, height: nat, vout: seq<TxOut>)
    ensures CoinbaseOk(fees, height, vout) <==>
      OutputSum(vout) <= Subsidy(height) + fees && Subsidy(height) + fees < TWO_63
  {
    hide Subsidy, CheckedSum, OutputSum;
    CheckedSumExactly(vout);
  }

  // ---------------------------------------------------------------- the transactions

  /** The transactions handled, the last one of each id. */
  function ContextOf(txs: seq<Transaction>): Context {
    if txs == [] then map[] else ContextOf(txs[..|txs| - 1])[txs[|txs| - 1].id := txs[|txs| - 1]]
  }

  /** Each but the coinbases passes, with those before it in the block in reach. */
  ghost predicate AllCheck(k: Crypto, c: seq<Block>, txs: seq<Transaction>) {
    forall t :: 0 <= t < |txs| && !txs[t].IsCoinbase() ==> CheckInBlock(k, c, ContextOf(txs[..t]), txs[t]).Fee?
  }

  function FeeOf(checked: Checked): int {
    match checked
    case Fee(fee) => fee
    case _ => 0
  }

  function BlockFees(k: Crypto, c: seq<Block>, txs: seq<Transaction>): int {
    if txs == [] then 0
    else
      var init, last := txs[..|txs| - 1], txs[|txs| - 1];
      BlockFees(k, c, init) + if last.IsCoinbase() then 0 else FeeOf(CheckInBlock(k, c, ContextOf(init), last))
  }

  lemma {:induction false} FeesNotNegative(k: Crypto, c: seq<Block>, txs: seq<Transaction>)
    ensures BlockFees(k, c, txs) >= 0
  {
    hide Gather, VerifySignatures;
    if txs != [] {
      FeesNotNegative(k, c, txs[..|txs| - 1]);
    }
  }

  /** What the loop has accumulated. */
  ghost predicate Done(k: Crypto, c: seq<Block>, txs: seq<Transaction>) {
    RunTxs(k, c, txs) == Going(ContextOf(txs), Elements(BlockPoints(txs)), BlockFees(k, c, txs)) &&
    NoRepeat(BlockPoints(txs)) && AllCheck(k, c, txs) && 0 <= BlockFees(k, c, txs) < TWO_63
  }

  /** What makes a transaction fail after others that did not. */
  ghost predicate Repeats(txs: seq<Transaction>, t: nat)
    requires t < |txs|
  {
    !NoRepeat(BlockPoints(txs[..t + 1]))
  }

  ghost predicate Overflows(k: Crypto, c: seq<Block>, txs: seq<Transaction>, t: nat)
    requires t < |txs|
  {
    BlockFees(k, c, txs[..t + 1]) >= TWO_63
  }

  /** Transaction `t` fails: it repeats an outpoint, does not pass, or takes the fees out of range. */
  ghost predicate FailsAt(k: Crypto, c: seq<Block>, txs: seq<Transaction>, t: nat)
    requires t < |txs|
  {
    && !txs[t].IsCoinbase()
    && (Repeats(txs, t) || !CheckInBlock(k, c, ContextOf(txs[..t]), txs[t]).Fee? || Overflows(k, c, txs, t))
  }

  /** A failure is held against the sender, unless it is an exception and no repeat came before it. */
  ghost predicate IsPunished(k: Crypto, c: seq<Block>, txs: seq<Transaction>, t: nat)
    requires t < |txs|
  {
    Repeats(txs, t) || CheckInBlock(k, c, ContextOf(txs[..t]), txs[t]) != Aborted
  }

  /** One more transaction after a part of the block that is in order. */
  lemma {:induction false} StepOutcome(k: Crypto, c: seq<Block>, init: seq<Transaction>, tx: Transaction)
    requires Done(k, c, init)
    ensures var txs := init + [tx]; var t := |init|;
            if FailsAt(k, c, txs, t)
            then RunTxs(k, c, txs) == Stopped(IsPunished(k, c, txs, t))
            else Done(k, c, txs)
  {
    hide CheckInBlock, NoRepeat, Elements, SpendAll, BlockFees, AllCheck, StepTx, BlockPoints;
    var txs := init + [tx];
    assert txs[..|init|] == init && txs[..|init| + 1] == txs;
    StepFees(k, c, init, tx);
    FeesNotNegative(k, c, txs);
    StepIs(k, c, init, tx);
    if tx.IsCoinbase() {
      CoinbaseAddsNothing(init, tx);
    }
    if tx.IsCoinbase() || CheckInBlock(k, c, ContextOf(init), tx).Fee? {
      AllCheckMore(k, c, init, tx);
    }
  }

  lemma {:induction false} StepIs(k: Crypto, c: seq<Block>, init: seq<Transaction>, tx: Transaction)
    requires Done(k, c, init)
    ensures var checked, points := CheckInBlock(k, c, ContextOf(init), tx), BlockPoints(init + [tx]);
            var fees := BlockFees(k, c, init) + FeeOf(checked);
            RunTxs(k, c, init + [tx]) ==
              if tx.IsCoinbase() then Going(ContextOf(init + [tx]), Elements(BlockPoints(init)), BlockFees(k, c, init))
              else if !NoRepeat(points) then Stopped(true)
              else if !checked.Fee? then Stopped(checked != Aborted)
              else if fees >= TWO_63 then Stopped(true)
              else Going(ContextOf(init + [tx]), Elements(points), fees)
  {
    hide CheckInBlock, NoRepeat, Elements, SpendAll, BlockFees, AllCheck;
    assert (init + [tx])[..|init|] == init;
    SpendAllIs(BlockPoints(init), tx.vin);
    if CheckInBlock(k, c, ContextOf(init), tx).Fee? {
      FeeNotNegative(k, c, ContextOf(init), tx);
    }
  }

  lemma {:induction false} FeeNotNegative(k: Crypto, c: seq<Block>, ctx: Context, tx: Transaction)
    requires CheckInBlock(k, c, ctx, tx).Fee?
    ensures CheckInBlock(k, c, ctx, tx).fee >= 0
  {
    hide Gather, VerifySignatures;
  }

  lemma {:induction false} AllCheckMore(k: Crypto, c: seq<Block>, init: seq<Transaction>, tx: Transaction)
    requires AllCheck(k, c, init) && (tx.IsCoinbase() || CheckInBlock(k, c, ContextOf(init), tx).Fee?)
    ensures AllCheck(k, c, init + [tx])
  {
    hide CheckInBlock, ContextOf;
    var txs := init + [tx];
    forall t | 0 <= t < |txs| && !txs[t].IsCoinbase() ensures CheckInBlock(k, c, ContextOf(txs[..t]), txs[t]).Fee? {
      if t < |init| {
        assert txs[..t] == init[..t] && txs[t] == init[t];
      } else {
        assert txs[..t] == init;
      }
    }
  }

  lemma {:induction false} StepFees(k: Crypto, c: seq<Block>, init: seq<Transaction>, tx: Transaction)
    ensures BlockFees(k, c, init + [tx]) ==
      BlockFees(k, c, init) + if tx.IsCoinbase() then 0 else FeeOf(CheckInBlock(k, c, ContextOf(init), tx))
  {
    hide Check, ContextOf;
    assert (init + [tx])[..|init|] == init;
  }

  lemma {:induction false} NothingDone(k: Crypto, c: seq<Block>)
    ensures Done(k, c, [])
  {
  }

  /**
   * The loop goes through exactly if no transaction fails, and has then gathered the block's context, outpoints and
   * fees; otherwise the first that fails decides: it is held against the sender, unless it threw without a repeat.
   */
  lemma {:induction false} RunExactly(k: Crypto, c: seq<Block>, txs: seq<Transaction>) returns (t: nat)
    ensures t <= |txs| && forall u :: 0 <= u < t ==> !FailsAt(k, c, txs, u)
    ensures t == |txs| ==> Done(k, c, txs)
    ensures t < |txs| ==> FailsAt(k, c, txs, t)
    ensures t < |txs| ==> RunTxs(k, c, txs) == Stopped(IsPunished(k, c, txs, t))
  {
    hide CheckInBlock, Done, FailsAt, Repeats;
    if txs == [] {
      NothingDone(k, c);
      return 0;
    }
    var init, last := txs[..|txs| - 1], |txs| - 1;
    t := RunExactly(k, c, init);
    forall u | 0 <= u < last ensures FailsAt(k, c, txs, u) <==> FailsAt(k, c, init, u) {
      FailsAlike(k, c, txs, u);
    }
    if t == last {
      StepOutcome(k, c, init, txs[last]);
      assert init + [txs[last]] == txs;
      if !FailsAt(k, c, txs, last) {
        t := |txs|;
      }
    } else {
      FailsAlike(k, c, txs, t);
      StaysStopped(k, c, init, txs[last]);
      assert init + [txs[last]] == txs;
    }
  }

  lemma {:induction false} StaysStopped(k: Crypto, c: seq<Block>, init: seq<Transaction>, tx: Transaction)
    requires RunTxs(k, c, init).Stopped?
    ensures RunTxs(k, c, init + [tx]) == RunTxs(k, c, init)
  {
    hide CheckInBlock;
    assert (init + [tx])[..|init|] == init;
  }

  lemma {:induction false} FailsAlike(k: Crypto, c: seq<Block>, txs: seq<Transaction>, u: nat)
    requires u < |txs| - 1
    ensures var init := txs[..|txs| - 1];
            && (FailsAt(k, c, txs, u) <==> FailsAt(k, c, init, u)) && (Repeats(txs, u) <==> Repeats(init, u))
            && txs[..u] == init[..u] && txs[u] == init[u]
  {
    hide CheckInBlock, BlockFees, NoRepeat, BlockPoints;
    assert txs[..|txs| - 1][..u] == txs[..u] && txs[..|txs| - 1][..u + 1] == txs[..u + 1];
  }

  // ---------------------------------------------------------------- the block

  /** A coinbase in front and nowhere else, and both limits kept. */
  ghost predicate WellFormed(b: Block, size: nat) {
    OnlyFirstCoinbase(b.txs) && |b.txs| <= 5_000 && size <= 1_000_000
  }

  /** The coinbase takes no more than the subsidy and the fees. */
  ghost predicate Rewarded(k: Crypto, c: seq<Block>, b: Block)
    requires b.txs != []
  {
    var most := Subsidy(|c|) + BlockFees(k, c, b.txs);
    OutputSum(b.txs[0].vout) <= most < TWO_63
  }

  /** On the tip, at the difficulty required, later than the median and at most two hours ahead. */
  ghost predicate HasPlace(c: seq<Block>, b: Block, now: int)
    requires TipInRange(c)
  {
    b.prev == Tip(c).hash && b.bits == NextBits(c, |c|) && MedianTimePast(c) < b.timestamp <= now + 7200
  }

  lemma {:induction false} ShapeExactly(b: Block, size: nat)
    requires size > 0
    ensures BlockCodec.CheckBlockSize(b, size) <==> WellFormed(b, size)
  {
    hide BlockCodec.Encode;
  }

  /** The checks before the chain is asked, one by one. */
  lemma {:induction false} PrecheckExactly(k: Crypto, c: seq<Block>, b: Block, size: nat) returns (t: nat)
    requires size > 0
    ensures t <= |b.txs| && forall u :: 0 <= u < t ==> !FailsAt(k, c, b.txs, u)
    ensures t < |b.txs| ==> FailsAt(k, c, b.txs, t)
    ensures Precheck(k, c, b, size) ==
      if b.txs == [] then Drop
      else if !ProofOfWork.Valid(k.sha, b) || !WellFormed(b, size) then Penalise
      else if t < |b.txs| then (if IsPunished(k, c, b.txs, t) then Penalise else Drop)
      else if Rewarded(k, c, b) then Accept
      else Penalise
  {
    hide ProofOfWork.Valid, BlockCodec.CheckBlockSize, WellFormed, FailsAt, IsPunished, Subsidy, OutputSum, CoinbaseOk,
      BlockFees, AllCheck, BlockPoints, Elements, NoRepeat, ContextOf;
    ShapeExactly(b, size);
    t := RunExactly(k, c, b.txs);
    if b.txs != [] && t == |b.txs| {
      CoinbaseExactly(BlockFees(k, c, b.txs), |c|, b.txs[0].vout);
    }
  }

  /**
   * A block is stored exactly if it is well formed, worked for, in order throughout, rewarded within bounds, in its
   * place, and its hash is not on the chain. If only the last is wrong it counts as known.
   */
  lemma {:induction false} StoredExactly(k: Crypto, c: seq<Block>, b: Block, size: nat, now: int)
    requires TipInRange(c) && size > 0
    ensures Judge(k, c, b, size, now) == Accept || Judge(k, c, b, size, now) == Known <==>
      && WellFormed(b, size) && HasPlace(c, b, now)
      && Number(256, ProofOfWork.PowHash(k.sha, b, b.nonce)) * Retarget.Pow2(b.bits) < Retarget.Pow2(256)
      && (forall t :: 0 <= t < |b.txs| ==> !FailsAt(k, c, b.txs, t)) && Rewarded(k, c, b)
    ensures Judge(k, c, b, size, now) == Known ==> HashIn(c, b.hash)
    ensures Judge(k, c, b, size, now) == Accept ==> !HashIn(c, b.hash)
  {
    hide Precheck, ProofOfWork.PowHash, Number, Retarget.Pow2, FailsAt, IsPunished, Rewarded, NextBits, MedianTimePast,
      HashIn, OnlyFirstCoinbase;
    var t := PrecheckExactly(k, c, b, size);
    OutcomeMeans(c, b, now);
    NextBitsInRange(c, |c|);
    if b.txs != [] && b.bits == NextBits(c, |c|) {
      ProofOfWork.MeetsMeans(k.sha, b, b.nonce);
    }
    if WellFormed(b, size) {
      SomeTransaction(b.txs);
    }
  }

  lemma {:induction false} SomeTransaction(txs: seq<Transaction>)
    requires OnlyFirstCoinbase(txs)
    ensures txs != []
  {
  }

  /** The sender of a block loses a hundred points exactly for one of these. */
  lemma {:induction false} PunishedExactly(k: Crypto, c: seq<Block>, b: Block, size: nat, now: int)
    requires TipInRange(c) && size > 0 && b.txs != []
    ensures Judge(k, c, b, size, now) == Penalise <==>
      || !ProofOfWork.Valid(k.sha, b) || !WellFormed(b, size)
      || (exists t :: 0 <= t < |b.txs| && FailsAt(k, c, b.txs, t) && IsPunished(k, c, b.txs, t) &&
                      forall u :: 0 <= u < t ==> !FailsAt(k, c, b.txs, u))
      || ((forall t :: 0 <= t < |b.txs| ==> !FailsAt(k, c, b.txs, t)) && !Rewarded(k, c, b))
  {
    hide Precheck, ProofOfWork.Valid, WellFormed, FailsAt, IsPunished, Rewarded, AddOutcome;
    var t := PrecheckExactly(k, c, b, size);
  }
}

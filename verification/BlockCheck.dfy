/** The loops of `Node::HandleBlock` that check a block before it is stored. */
module BlockCheck {
  import opened Base
  import opened Ledger
  import opened ChainModel
  import opened ChainStore
  import opened Validation
  import BlockCodec
  import ProofOfWork

  // ---------------------------------------------------------------- stopping early

  lemma {:induction false} SpendNoneStays(spent: set<Outpoint>, vin: seq<TxIn>, n: nat)
    requires n <= |vin| && SpendAll(spent, vin[..n]).None?
    ensures SpendAll(spent, vin).None?
    decreases |vin| - n
  {
    if n < |vin| {
      assert vin[..n + 1][..n] == vin[..n];
      SpendNoneStays(spent, vin, n + 1);
    } else {
      assert vin[..n] == vin;
    }
  }

  lemma {:induction false} StoppedStays(k: Crypto, c: seq<Block>, txs: seq<Transaction>, n: nat)
    requires n <= |txs| && RunTxs(k, c, txs[..n]).Stopped?
    ensures RunTxs(k, c, txs) == RunTxs(k, c, txs[..n])
    decreases |txs| - n
  {
    hide CheckInBlock, SpendAll;
    if n < |txs| {
      assert txs[..n + 1][..n] == txs[..n];
      StoppedStays(k, c, txs, n + 1);
    } else {
      assert txs[..n] == txs;
    }
  }

  lemma {:induction false} SumNoneStays(vout: seq<TxOut>, n: nat)
    requires n <= |vout| && CheckedSum(vout[..n]).None?
    ensures CheckedSum(vout).None?
    decreases |vout| - n
  {
    if n < |vout| {
      assert vout[..n + 1][..n] == vout[..n];
      SumNoneStays(vout, n + 1);
    } else {
      assert vout[..n] == vout;
    }
  }

  // ---------------------------------------------------------------- the loops

  /** Notes the outpoints of one transaction, until one is already there. */
  method NoteSpends(spentInBlock: set<Outpoint>, vin: seq<TxIn>) returns (r: Option<set<Outpoint>>)
    ensures r == SpendAll(spentInBlock, vin)
  {
    var spent := spentInBlock;
    for j := 0 to |vin|
      invariant SpendAll(spentInBlock, vin[..j]) == Some(spent)
    {
      assert vin[..j + 1][..j] == vin[..j];
      if Spent(vin[j]) in spent {
        SpendNoneStays(spentInBlock, vin, j + 1);
        return None;
      }
      spent := spent + {Spent(vin[j])};
    }
    assert vin[..|vin|] == vin;
    return Some(spent);
  }

  /** Transactions in order, each with those before it in reach. */
  method CheckTransactions(k: Crypto, bc: Blockchain, txs: seq<Transaction>) returns (r: Progress)
    requires bc.Valid()
    ensures r == RunTxs(k, bc.chain, txs)
  {
    hide Linked, StoreOf, CheckInBlock, SpendAll;
    var blockCtx: Context, spentInBlock: set<Outpoint>, totalFees := map[], {}, 0;
    for t := 0 to |txs|
      invariant RunTxs(k, bc.chain, txs[..t]) == Going(blockCtx, spentInBlock, totalFees)
    {
      assert txs[..t + 1][..t] == txs[..t];
      var tx := txs[t];
      if tx.IsCoinbase() {
        blockCtx := blockCtx[tx.id := tx];
      } else {
        var step := CheckOne(k, bc, tx, blockCtx, spentInBlock, totalFees);
        if step.Stopped? {
          StoppedStays(k, bc.chain, txs, t + 1);
          return step;
        }
        blockCtx, spentInBlock, totalFees := step.ctx, step.spent, step.fees;
      }
    }
    assert txs[..|txs|] == txs;
    return Going(blockCtx, spentInBlock, totalFees);
  }

  method CheckOne(k: Crypto, bc: Blockchain, tx: Transaction, blockCtx: Context, spentInBlock: set<Outpoint>,
                  totalFees: int)
    returns (r: Progress)
    requires bc.Valid() && !tx.IsCoinbase()
    ensures r == StepTx(k, bc.chain, Going(blockCtx, spentInBlock, totalFees), tx)
  {
    hide Linked, StoreOf, CheckInBlock, SpendAll;
    var spent := NoteSpends(spentInBlock, tx.vin);
    if spent.None? { return Stopped(true); }
    var fee := bc.VerifyInBlock(k, tx, blockCtx);
    match fee {
      case Refused => return Stopped(true);
      case Aborted => return Stopped(false);
      case Fee(value) =>
        var sum := CheckedAdd(totalFees, value);
        if sum.None? { return Stopped(true); }
        return Going(blockCtx[tx.id := tx], spent.value, sum.value);
    }
  }

  method CheckCoinbase(totalFees: int, nextHeight: nat, vout: seq<TxOut>) returns (ok: bool)
    ensures ok == CoinbaseOk(totalFees, nextHeight, vout)
  {
    var maxCoinbase := CheckedAdd(Subsidy(nextHeight), totalFees);
    if maxCoinbase.None? { return false; }
    var coinbaseValue := 0;
    for i := 0 to |vout|
      invariant CheckedSum(vout[..i]) == Some(coinbaseValue)
    {
      assert vout[..i + 1][..i] == vout[..i];
      var sum := CheckedAdd(coinbaseValue, vout[i].value);
      if sum.None? {
        SumNoneStays(vout, i + 1);
        return false;
      }
      coinbaseValue := sum.value;
    }
    assert vout[..|vout|] == vout;
    return coinbaseValue <= maxCoinbase.value;
  }

  /** Everything checked before the chain itself is asked: `Accept` stands for going on to store the block. */
  method CheckBlock(k: Crypto, bc: Blockchain, block: Block, size: nat) returns (r: Verdict)
    requires bc.Valid()
    ensures r == Precheck(k, bc.chain, block, size)
  {
    hide Linked, StoreOf, RunTxs, ProofOfWork.Valid, BlockCodec.CheckBlockSize, CoinbaseOk;
    if block.txs == [] { return Drop; }
    if !ProofOfWork.Valid(k.sha, block) { return Penalise; }
    var sizeOk := BlockCodec.CheckSize(block, size);
    if !sizeOk { return Penalise; }
    var progress := CheckTransactions(k, bc, block.txs);
    match progress {
      case Stopped(punished) => return if punished then Penalise else Drop;
      case Going(_, _, fees) =>
        var coinbaseOk := CheckCoinbase(fees, bc.tipHeight + 1, block.txs[0].vout);
        return if coinbaseOk then Accept else Penalise;
    }
  }
}

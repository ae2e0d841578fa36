/** The loops of `src/transaction.cpp` over inputs and outputs, and the transactions it creates. */
module TransactionOps {
  import opened Base
  import opened Ledger
  import opened Validation
  import T = TransactionCodec

  lemma {:induction false} InputSumStays(vin: seq<TxIn>, prevs: Context, n: nat)
    requires n <= |vin| && InputSum(vin[..n], prevs).Throws?
    ensures InputSum(vin, prevs).Throws?
    decreases |vin| - n
  {
    if n < |vin| {
      assert vin[..n + 1][..n] == vin[..n];
      InputSumStays(vin, prevs, n + 1);
    } else {
      assert vin[..n] == vin;
    }
  }

  lemma {:induction false} PartialSums(vin: seq<TxIn>, prevs: Context, n: nat)
    requires n <= |vin| && InputSum(vin, prevs).Ok?
    ensures InputSum(vin[..n], prevs).Ok? && 0 <= InputSum(vin[..n], prevs).value <= InputSum(vin, prevs).value
  {
    if n < |vin| {
      PartialSums(vin[..|vin| - 1], prevs, n);
      assert vin[..|vin| - 1][..n] == vin[..n];
    } else {
      assert vin[..n] == vin;
    }
  }

  lemma {:induction false} PartialOutputs(vout: seq<TxOut>, n: nat)
    requires n <= |vout|
    ensures OutputSum(vout[..n]) <= OutputSum(vout)
  {
    if n < |vout| {
      PartialOutputs(vout[..|vout| - 1], n);
      assert vout[..|vout| - 1][..n] == vout[..n];
    } else {
      assert vout[..n] == vout;
    }
  }

  /** If neither sum reaches 2^63, no step on the way to the fee leaves the 64-bit range, so none is undefined. */
  lemma {:induction false} FeeInRange(tx: Transaction, prevs: Context, n: nat)
    requires !tx.IsCoinbase() && Validation.CalculateFee(tx, prevs).Ok?
    requires InputSum(tx.vin, prevs).value < TWO_63 && OutputSum(tx.vout) < TWO_63
    ensures n <= |tx.vin| ==> InputSum(tx.vin[..n], prevs).Ok? && 0 <= InputSum(tx.vin[..n], prevs).value < TWO_63
    ensures n <= |tx.vout| ==> 0 <= OutputSum(tx.vout[..n]) < TWO_63
    ensures -TWO_63 < Validation.CalculateFee(tx, prevs).value < TWO_63
  {
    hide InputSum, OutputSum;
    if n <= |tx.vin| {
      PartialSums(tx.vin, prevs, n);
    }
    if n <= |tx.vout| {
      PartialOutputs(tx.vout, n);
    }
    PartialSums(tx.vin, prevs, 0);
    PartialOutputs(tx.vout, 0);
  }

  method CalculateFee(tx: Transaction, prevTXs: Context) returns (r: Result<int>)
    ensures r == Validation.CalculateFee(tx, prevTXs)
  {
    hide InputSum, OutputSum;
    if tx.IsCoinbase() { return Ok(0); }
    var inputSum := AddInputs(tx.vin, prevTXs);
    if inputSum.Throws? { return Throws; }
    var outputSum := AddOutputs(tx.vout);
    return Ok(inputSum.value - outputSum);
  }

  method AddInputs(vin: seq<TxIn>, prevTXs: Context) returns (r: Result<int>)
    ensures r == InputSum(vin, prevTXs)
  {
    hide PrevOut;
    var inputSum := 0;
    for i := 0 to |vin|
      invariant InputSum(vin[..i], prevTXs) == Ok(inputSum)
    {
      assert vin[..i + 1][..i] == vin[..i];
      var out := PrevOut(prevTXs, vin[i]);
      if out.Throws? {
        InputSumStays(vin, prevTXs, i + 1);
        return Throws;
      }
      inputSum := inputSum + out.value.value;
    }
    assert vin[..|vin|] == vin;
    return Ok(inputSum);
  }

  method AddOutputs(vout: seq<TxOut>) returns (outputSum: nat)
    ensures outputSum == OutputSum(vout)
  {
    outputSum := 0;
    for i := 0 to |vout|
      invariant OutputSum(vout[..i]) == outputSum
    {
      assert vout[..i + 1][..i] == vout[..i];
      outputSum := outputSum + vout[i].value;
    }
    assert vout[..|vout|] == vout;
  }

  /** `TrimmedCopy`: neither signatures nor keys. */
  method TrimmedCopy(tx: Transaction) returns (copy: Transaction)
    ensures copy == Transaction(tx.id, TrimmedIns(tx.vin), tx.vout)
  {
    var inputs := [];
    for i := 0 to |tx.vin|
      invariant inputs == TrimmedIns(tx.vin[..i])
    {
      assert tx.vin[..i + 1][..i] == tx.vin[..i];
      inputs := inputs + [TrimmedIn(tx.vin[i])];
    }
    assert tx.vin[..|tx.vin|] == tx.vin;
    copy := Transaction(tx.id, inputs, tx.vout);
  }

  /** Each input in turn carries its owner's key hash in the copy while the digest is taken. */
  method Verify(k: Crypto, tx: Transaction, prevTXs: Context) returns (r: Result<bool>)
    ensures r == VerifySignatures(k, tx, prevTXs)
  {
    hide T.Encode, TrimmedIns;
    if tx.IsCoinbase() { return Ok(true); }
    for i := 0 to |tx.vin|
      invariant forall j :: 0 <= j < i ==> tx.vin[j].txid in prevTXs && prevTXs[tx.vin[j].txid].id != []
    {
      if tx.vin[i].txid !in prevTXs || prevTXs[tx.vin[i].txid].id == [] { return Throws; }
    }
    var txCopy := TrimmedCopy(tx);
    ghost var trimmed := txCopy.vin;
    for inID := 0 to |tx.vin|
      invariant txCopy == Transaction(tx.id, trimmed, tx.vout) && |trimmed| == |tx.vin| && trimmed == TrimmedIns(tx.vin)
      invariant VerifyFrom(k, tx, prevTXs, 0) == VerifyFrom(k, tx, prevTXs, inID)
    {
      TrimmedAt(tx.vin, inID);
      var out := PrevOut(prevTXs, txCopy.vin[inID]);
      assert out == PrevOut(prevTXs, tx.vin[inID]);
      if out.Throws? { return Throws; }
      txCopy := txCopy.(vin := txCopy.vin[inID := txCopy.vin[inID].(pubKey := out.value.pubKeyHash)]);
      var digest := k.sha.Of(T.Encode(txCopy));
      assert digest == Digest(k.sha, tx, inID, out.value.pubKeyHash);
      txCopy := txCopy.(vin := txCopy.vin[inID := txCopy.vin[inID].(pubKey := [])]);
      assert txCopy.vin == trimmed;
      var result := k.check(tx.vin[inID].pubKey, digest, tx.vin[inID].signature);
      if result == BadKey { return Throws; }
      if result == Bad { return Ok(false); }
    }
    return Ok(true);
  }
}

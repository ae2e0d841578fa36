/** The loops of `Blockchain::FindUTXO`: spent indices are kept in a list for each transaction id. */
module UtxoScan {
  import opened Base
  import opened Ledger
  import opened UtxoIndex

  method WasSpent(spent: IndexLists, id: Bytes, outIdx: Int32) returns (was: bool)
    ensures was <==> Outpoint(id, outIdx) in Listed(spent)
  {
    ListedMember(spent, id, outIdx);
    if id in spent {
      for j := 0 to |spent[id]|
        invariant outIdx !in spent[id][..j]
      {
        if spent[id][j] == outIdx { return true; }
      }
      assert spent[id][..|spent[id]|] == spent[id];
    }
    return false;
  }

  /** The outputs up to `n` that no input seen so far has spent. */
  function Unspent(tx: Transaction, n: nat, spent: set<Outpoint>): map<Int32, TxOut>
    requires n <= |tx.vout|
  {
    map i: Int32 | 0 <= i < n && Outpoint(tx.id, i) !in spent :: tx.vout[i]
  }

  lemma {:induction false} UnspentStep(tx: Transaction, n: nat, spent: set<Outpoint>)
    requires n < |tx.vout| && n < TWO_31
    ensures Unspent(tx, n + 1, spent) ==
      if Outpoint(tx.id, n) in spent then Unspent(tx, n, spent) else Unspent(tx, n, spent)[n := tx.vout[n]]
  {
  }

  method UnspentOutputs(tx: Transaction, spent: IndexLists) returns (outputs: map<Int32, TxOut>)
    requires |tx.vout| <= TWO_31
    ensures outputs == Unspent(tx, |tx.vout|, Listed(spent))
  {
    hide Listed, Unspent;
    outputs := map[];
    UnspentNone(tx, Listed(spent));
    for outIdx := 0 to |tx.vout|
      invariant outputs == Unspent(tx, outIdx, Listed(spent))
    {
      UnspentStep(tx, outIdx, Listed(spent));
      var wasSpent := WasSpent(spent, tx.id, outIdx);
      if !wasSpent {
        outputs := outputs[outIdx := tx.vout[outIdx]];
      }
    }
  }

  lemma {:induction false} UnspentNone(tx: Transaction, spent: set<Outpoint>)
    ensures Unspent(tx, 0, spent) == map[]
  {
  }

  method NoteInputs(spent: IndexLists, vin: seq<TxIn>) returns (r: IndexLists)
    ensures Listed(r) == Listed(spent) + set i | i in vin :: Spent(i)
  {
    hide Listed, Append;
    r := spent;
    for j := 0 to |vin|
      invariant Listed(r) == Listed(spent) + set i | i in vin[..j] :: Spent(i)
    {
      ListedAppend(r, vin[j].txid, vin[j].vout);
      assert Spent(vin[j]) == Outpoint(vin[j].txid, vin[j].vout);
      assert vin[..j + 1] == vin[..j] + [vin[j]];
      r := Append(r, vin[j].txid, vin[j].vout);
    }
    assert vin[..|vin|] == vin;
  }

  method ScanOne(utxo: Index, spent: IndexLists, tx: Transaction, height: int)
    returns (utxo': Index, spent': IndexLists)
    requires |tx.vout| <= TWO_31
    ensures Scan(utxo', Listed(spent')) == ScanTx(Scan(utxo, Listed(spent)), tx, height)
  {
    hide Listed;
    utxo', spent' := utxo, spent;
    var outputs := UnspentOutputs(tx, spent);
    assert TXOutputs(outputs, tx.IsCoinbase(), height) == Remaining(tx, height, Listed(spent));
    if outputs != map[] {
      utxo' := utxo[tx.id := TXOutputs(outputs, tx.IsCoinbase(), height)];
    }
    if !tx.IsCoinbase() {
      spent' := NoteInputs(spent, tx.vin);
    }
  }

  method ScanBlock(utxo: Index, spent: IndexLists, txs: seq<Transaction>, height: int)
    returns (utxo': Index, spent': IndexLists)
    requires forall t :: 0 <= t < |txs| ==> |txs[t].vout| <= TWO_31
    ensures Scan(utxo', Listed(spent')) == ScanTxs(Scan(utxo, Listed(spent)), txs, height)
  {
    hide Listed, ScanTx;
    utxo', spent' := utxo, spent;
    for t := 0 to |txs|
      invariant Scan(utxo', Listed(spent')) == ScanTxs(Scan(utxo, Listed(spent)), txs[..t], height)
    {
      assert txs[..t + 1][..t] == txs[..t];
      utxo', spent' := ScanOne(utxo', spent', txs[t], height);
    }
    assert txs[..|txs|] == txs;
  }
}

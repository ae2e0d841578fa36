/**
 * The unspent-output index as a value: what a rebuild from the whole chain computes
 * (`Blockchain::FindUTXO`), what one incremental update computes (`UTXOSet::Update`), and when the two agree.
 */
module UtxoIndex {
  import opened Base
  import opened Ledger

  type Index = map<Bytes, TXOutputs>

  // ---------------------------------------------------------------- what transactions spend and create

  function SpendsOf(tx: Transaction): set<Outpoint> {
    if tx.IsCoinbase() then {} else set i | i in tx.vin :: Spent(i)
  }

  function Spends(txs: seq<Transaction>): set<Outpoint> {
    if txs == [] then {} else Spends(txs[..|txs| - 1]) + SpendsOf(txs[|txs| - 1])
  }

  function TxIds(txs: seq<Transaction>): set<Bytes> {
    set tx | tx in txs :: tx.id
  }

  function Ids(c: seq<Block>): set<Bytes> {
    if c == [] then {} else Ids(c[..|c| - 1]) + TxIds(c[|c| - 1].txs)
  }

  /** Ids are distinct, and no input names a transaction that comes later in the same block. */
  ghost predicate Shaped(txs: seq<Transaction>) {
    forall t, u :: 0 <= t < u < |txs| ==>
      txs[t].id != txs[u].id && forall o :: o in SpendsOf(txs[t]) ==> o.txid != txs[u].id
  }

  /** Every block is well shaped and brings new ids only. */
  ghost predicate WellShaped(c: seq<Block>) {
    c == [] || (WellShaped(c[..|c| - 1]) && Shaped(c[|c| - 1].txs) && TxIds(c[|c| - 1].txs) !! Ids(c[..|c| - 1]))
  }

  /** Output indices fit the 32-bit keys of the index; a block within the size limit always does. */
  ghost predicate Fits(txs: seq<Transaction>) {
    forall t :: 0 <= t < |txs| ==> |txs[t].vout| <= TWO_31
  }

  // ---------------------------------------------------------------- rebuilding from the chain

  /** The outputs of a transaction that are not among the spent ones. */
  function Remaining(tx: Transaction, height: int, spent: set<Outpoint>): TXOutputs {
    TXOutputs(map i: Int32 | 0 <= i < |tx.vout| && Outpoint(tx.id, i) !in spent :: tx.vout[i], tx.IsCoinbase(), height)
  }

  function PutNonEmpty(utxo: Index, id: Bytes, outs: TXOutputs): Index {
    if outs.outputs == map[] then utxo else utxo[id := outs]
  }

  datatype Scan = Scan(utxo: Index, spent: set<Outpoint>)

  /** One step of the scan: the outputs are examined before the inputs are recorded. */
  function ScanTx(st: Scan, tx: Transaction, height: int): Scan {
    Scan(PutNonEmpty(st.utxo, tx.id, Remaining(tx, height, st.spent)), st.spent + SpendsOf(tx))
  }

  function ScanTxs(st: Scan, txs: seq<Transaction>, height: int): Scan {
    if txs == [] then st else ScanTx(ScanTxs(st, txs[..|txs| - 1], height), txs[|txs| - 1], height)
  }

  /** Blocks are scanned newest first. */
  function ScanDown(c: seq<Block>, st: Scan): Scan {
    if c == [] then st else ScanDown(c[..|c| - 1], ScanTxs(st, c[|c| - 1].txs, |c| - 1))
  }

  function Rebuild(c: seq<Block>): Index {
    ScanDown(c, Scan(map[], {})).utxo
  }

  /** The entries one block adds when the outputs in `spent` are already gone. */
  function Created(txs: seq<Transaction>, height: int, spent: set<Outpoint>): Index {
    if txs == [] then map[]
    else var last := txs[|txs| - 1];
      PutNonEmpty(Created(txs[..|txs| - 1], height, spent), last.id, Remaining(last, height, spent))
  }

  function Kept(outs: TXOutputs, id: Bytes, spent: set<Outpoint>): TXOutputs {
    outs.(outputs := map i | i in outs.outputs && Outpoint(id, i) !in spent :: outs.outputs[i])
  }

  /** The index without the outputs in `spent`; a transaction left with none is dropped. */
  function Filter(utxo: Index, spent: set<Outpoint>): Index {
    map id | id in utxo && Kept(utxo[id], id, spent).outputs != map[] :: Kept(utxo[id], id, spent)
  }

  lemma {:induction false} TxIdsSnoc(txs: seq<Transaction>)
    requires txs != []
    ensures TxIds(txs) == TxIds(txs[..|txs| - 1]) + {txs[|txs| - 1].id}
  {
    assert txs == txs[..|txs| - 1] + [txs[|txs| - 1]];
  }

  lemma {:induction false} CreatedKeys(txs: seq<Transaction>, height: int, spent: set<Outpoint>)
    ensures Created(txs, height, spent).Keys <= TxIds(txs)
  {
    if txs != [] {
      CreatedKeys(txs[..|txs| - 1], height, spent);
      TxIdsSnoc(txs);
    }
  }

  lemma {:induction false} SpendsMember(txs: seq<Transaction>, o: Outpoint)
    ensures o in Spends(txs) <==> exists t :: 0 <= t < |txs| && o in SpendsOf(txs[t])
  {
    if txs != [] {
      SpendsMember(txs[..|txs| - 1], o);
    }
  }

  lemma {:induction false} ShapedInit(txs: seq<Transaction>)
    requires Shaped(txs) && txs != []
    ensures Shaped(txs[..|txs| - 1])
    ensures txs[|txs| - 1].id !in TxIds(txs[..|txs| - 1])
    ensures forall o :: o in Spends(txs[..|txs| - 1]) ==> o.txid != txs[|txs| - 1].id
  {
    forall o | o in Spends(txs[..|txs| - 1]) ensures o.txid != txs[|txs| - 1].id {
      SpendsMember(txs[..|txs| - 1], o);
    }
  }

  lemma {:induction false} RemainingIgnores(tx: Transaction, height: int, spent: set<Outpoint>, others: set<Outpoint>)
    requires forall o :: o in others ==> o.txid != tx.id
    ensures Remaining(tx, height, spent + others) == Remaining(tx, height, spent)
  {
  }

  lemma {:induction false} PutUnion(a: Index, b: Index, id: Bytes, outs: TXOutputs)
    ensures PutNonEmpty(a + b, id, outs) == a + PutNonEmpty(b, id, outs)
  {
  }

  /** Recording inputs as the scan goes makes no difference inside one well-shaped block. */
  lemma {:induction false} ScanTxsIs(st: Scan, txs: seq<Transaction>, height: int)
    requires Shaped(txs)
    ensures ScanTxs(st, txs, height) == Scan(st.utxo + Created(txs, height, st.spent), st.spent + Spends(txs))
  {
    hide Shaped, Remaining, PutNonEmpty, SpendsOf;
    if txs == [] {
      assert st.utxo + map[] == st.utxo;
      assert st.spent + {} == st.spent;
    } else {
      var init, last := txs[..|txs| - 1], txs[|txs| - 1];
      ShapedInit(txs);
      ScanTxsIs(st, init, height);
      RemainingIgnores(last, height, st.spent, Spends(init));
      PutUnion(st.utxo, Created(init, height, st.spent), last.id, Remaining(last, height, st.spent));
      assert st.spent + Spends(init) + SpendsOf(last) == st.spent + (Spends(init) + SpendsOf(last));
    }
  }

  lemma {:induction false} KeptRemaining(tx: Transaction, height: int, s1: set<Outpoint>, s2: set<Outpoint>)
    ensures Kept(Remaining(tx, height, s1), tx.id, s2) == Remaining(tx, height, s1 + s2)
  {
  }

  lemma {:induction false} FilterCreated(txs: seq<Transaction>, height: int, s1: set<Outpoint>, s2: set<Outpoint>)
    requires Shaped(txs)
    ensures Filter(Created(txs, height, s1), s2) == Created(txs, height, s1 + s2)
  {
    if txs != [] {
      var init, last := txs[..|txs| - 1], txs[|txs| - 1];
      ShapedInit(txs);
      CreatedKeys(init, height, s1);
      FilterCreated(init, height, s1, s2);
      KeptRemaining(last, height, s1, s2);
      FilterPut(Created(init, height, s1), last.id, Remaining(last, height, s1), s2);
    }
  }

  lemma {:induction false} FilterPut(utxo: Index, id: Bytes, outs: TXOutputs, spent: set<Outpoint>)
    requires id !in utxo
    ensures Filter(PutNonEmpty(utxo, id, outs), spent) == PutNonEmpty(Filter(utxo, spent), id, Kept(outs, id, spent))
  {
    assert outs.outputs == map[] ==> Kept(outs, id, spent).outputs == map[];
    hide Kept;
  }

  lemma {:induction false} KeptTwice(outs: TXOutputs, id: Bytes, s1: set<Outpoint>, s2: set<Outpoint>)
    ensures Kept(Kept(outs, id, s1), id, s2) == Kept(outs, id, s1 + s2)
    ensures Kept(outs, id, s1).outputs == map[] ==> Kept(outs, id, s1 + s2).outputs == map[]
  {
    if Kept(outs, id, s1).outputs == map[] {
      forall i | i in outs.outputs ensures Outpoint(id, i) in s1 {
        assert i !in Kept(outs, id, s1).outputs;
      }
    }
  }

  lemma {:induction false} FilterTwice(utxo: Index, s1: set<Outpoint>, s2: set<Outpoint>)
    ensures Filter(Filter(utxo, s1), s2) == Filter(utxo, s1 + s2)
  {
    hide Kept;
    forall id | id in utxo {
      KeptTwice(utxo[id], id, s1, s2);
    }
  }

  lemma {:induction false} FilterUnion(a: Index, b: Index, spent: set<Outpoint>)
    requires a.Keys !! b.Keys
    ensures Filter(a + b, spent) == Filter(a, spent) + Filter(b, spent)
  {
  }

  lemma {:induction false} RebuildKeys(c: seq<Block>)
    requires WellShaped(c)
    ensures Rebuild(c).Keys <= Ids(c)
    decreases |c|, 0
  {
    if c != [] {
      RebuildStep(c[..|c| - 1], c[|c| - 1]);
      RebuildKeys(c[..|c| - 1]);
      CreatedKeys(c[|c| - 1].txs, |c| - 1, {});
      assert c == c[..|c| - 1] + [c[|c| - 1]];
    }
  }

  /** Starting the scan of older blocks from a state is the same as filtering their rebuild. */
  lemma {:induction false} ScanDownIs(c: seq<Block>, st: Scan)
    requires WellShaped(c) && st.utxo.Keys !! Ids(c)
    ensures ScanDown(c, st).utxo == st.utxo + Filter(Rebuild(c), st.spent)
    decreases |c|, 1
  {
    if c == [] {
      assert Filter(map[], st.spent) == map[];
      assert st.utxo + map[] == st.utxo;
    } else {
      ScanDownSnoc(c[..|c| - 1], c[|c| - 1], st);
      assert c == c[..|c| - 1] + [c[|c| - 1]];
    }
  }

  lemma {:induction false} ScanDownSnoc(init: seq<Block>, last: Block, st: Scan)
    requires WellShaped(init + [last]) && st.utxo.Keys !! Ids(init + [last])
    ensures ScanDown(init + [last], st).utxo == st.utxo + Filter(Rebuild(init + [last]), st.spent)
    decreases |init| + 1, 0
  {
    hide Created, Spends, Filter, Rebuild, ScanTxs, Shaped;
    var all := init + [last];
    assert all[..|all| - 1] == init;
    ScanTxsIs(st, last.txs, |init|);
    CreatedKeys(last.txs, |init|, st.spent);
    ScanDownIs(init, Scan(st.utxo + Created(last.txs, |init|, st.spent), st.spent + Spends(last.txs)));
    FilteredStep(init, last, st.spent);
    UnionAssoc(st.utxo, Created(last.txs, |init|, st.spent), Filter(Rebuild(init), st.spent + Spends(last.txs)));
  }

  lemma {:induction false} UnionAssoc(a: Index, b: Index, c: Index)
    ensures (a + b) + c == a + (b + c)
  {
  }

  lemma {:induction false} FilteredStep(c: seq<Block>, b: Block, spent: set<Outpoint>)
    requires WellShaped(c + [b])
    ensures Filter(Rebuild(c + [b]), spent)
         == Created(b.txs, |c|, spent) + Filter(Rebuild(c), spent + Spends(b.txs))
    decreases |c|, 3
  {
    var added := Created(b.txs, |c|, {});
    assert (c + [b])[..|c|] == c;
    RebuildStep(c, b);
    RebuildKeys(c);
    CreatedKeys(b.txs, |c|, {});
    FilterUnion(added, Filter(Rebuild(c), Spends(b.txs)), spent);
    FilterCreated(b.txs, |c|, {}, spent);
    assert {} + spent == spent;
    FilterTwice(Rebuild(c), Spends(b.txs), spent);
    assert Spends(b.txs) + spent == spent + Spends(b.txs);
  }

  /** One more block: its spends leave the rebuild of the older chain and its outputs enter it. */
  lemma {:induction false} RebuildStep(c: seq<Block>, b: Block)
    requires WellShaped(c + [b])
    ensures Rebuild(c + [b]) == Created(b.txs, |c|, {}) + Filter(Rebuild(c), Spends(b.txs))
    decreases |c|, 2
  {
    var all := c + [b];
    assert all[..|all| - 1] == c;
    ScanTxsIs(Scan(map[], {}), b.txs, |c|);
    CreatedKeys(b.txs, |c|, {});
    assert map[] + Created(b.txs, |c|, {}) == Created(b.txs, |c|, {});
    assert {} + Spends(b.txs) == Spends(b.txs);
    ScanDownIs(c, Scan(Created(b.txs, |c|, {}), Spends(b.txs)));
  }

  // ---------------------------------------------------------------- what the rebuilt index means

  /** Everything spent by the blocks from height `n` on. */
  function SpentFrom(c: seq<Block>, n: nat): set<Outpoint>
    requires n <= |c|
    decreases |c| - n
  {
    if n == |c| then {} else Spends(c[n].txs) + SpentFrom(c, n + 1)
  }

  lemma {:induction false} SpentFromSnoc(c: seq<Block>, b: Block, n: nat)
    requires n <= |c|
    ensures SpentFrom(c + [b], n) == SpentFrom(c, n) + Spends(b.txs)
    decreases |c| - n
  {
    if n == |c| {
      assert SpentFrom(c + [b], n + 1) == {};
    } else {
      SpentFromSnoc(c, b, n + 1);
    }
  }

  lemma {:induction false} CreatedLookup(txs: seq<Transaction>, height: int, spent: set<Outpoint>, t: nat)
    requires Shaped(txs) && t < |txs|
    ensures var outs, utxo := Remaining(txs[t], height, spent), Created(txs, height, spent);
            if outs.outputs == map[] then txs[t].id !in utxo else txs[t].id in utxo && utxo[txs[t].id] == outs
  {
    var init, last := txs[..|txs| - 1], txs[|txs| - 1];
    ShapedInit(txs);
    CreatedKeys(init, height, spent);
    if t < |txs| - 1 {
      CreatedLookup(init, height, spent, t);
    }
  }

  /**
   * The rebuilt index holds, for each transaction of the chain, exactly the outputs that no strictly
   * later block spends, with its coinbase flag and its height; and nothing else.
   */
  lemma {:induction false} RebuildMeaning(c: seq<Block>, h: nat, t: nat)
    requires WellShaped(c) && h < |c| && t < |c[h].txs|
    ensures var tx := c[h].txs[t]; var outs := Remaining(tx, h, SpentFrom(c, h + 1));
            if outs.outputs == map[] then tx.id !in Rebuild(c) else tx.id in Rebuild(c) && Rebuild(c)[tx.id] == outs
  {
    var init, last := c[..|c| - 1], c[|c| - 1];
    var tx := c[h].txs[t];
    assert c == init + [last];
    RebuildStep(init, last);
    RebuildKeys(init);
    CreatedKeys(last.txs, |init|, {});
    if h == |c| - 1 {
      CreatedLookup(last.txs, h, {}, t);
      assert tx.id in TxIds(last.txs);
    } else {
      RebuildMeaning(init, h, t);
      IdAt(init, h, t);
      SpentFromSnoc(init, last, h + 1);
      KeptRemaining(tx, h, SpentFrom(init, h + 1), Spends(last.txs));
    }
  }

  lemma {:induction false} IdAt(c: seq<Block>, h: nat, t: nat)
    requires h < |c| && t < |c[h].txs|
    ensures c[h].txs[t].id in Ids(c)
  {
    if h < |c| - 1 {
      IdAt(c[..|c| - 1], h, t);
    }
  }

  lemma {:induction false} RebuildNonEmpty(c: seq<Block>)
    requires WellShaped(c)
    ensures forall id :: id in Rebuild(c) ==> Rebuild(c)[id].outputs != map[]
  {
    if c != [] {
      var init, last := c[..|c| - 1], c[|c| - 1];
      assert c == init + [last];
      RebuildStep(init, last);
      CreatedNonEmpty(last.txs, |init|, {});
    }
  }

  lemma {:induction false} CreatedNonEmpty(txs: seq<Transaction>, height: int, spent: set<Outpoint>)
    ensures forall id :: id in Created(txs, height, spent) ==> Created(txs, height, spent)[id].outputs != map[]
  {
    if txs != [] {
      CreatedNonEmpty(txs[..|txs| - 1], height, spent);
    }
  }
}

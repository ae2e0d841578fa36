/** The unspent-output database: `src/utxoSet.cpp`. */
module UtxoSet {
  import opened Base
  import opened Ledger
  import opened UtxoIndex
  import opened UtxoUpdate
  import opened CoinSelection
  import opened ChainStore

  // ---------------------------------------------------------------- facts about batches

  lemma {:induction false} BatchAppend(db: Index, es: seq<Event>, e: Event, height: int)
    ensures Batch(db, es + [e], height) == Batch(db, es, height) + OpsOf(db, e, height)
  {
    assert (es + [e])[..|es|] == es;
  }

  lemma {:induction false} NothingWritten(db: Index)
    ensures Write(db, []) == db - (db.Keys - db.Keys) && Write(map[], []) == db - db.Keys
  {
  }

  lemma {:induction false} RemoveMore(db: Index, rest: set<Bytes>, key: Bytes)
    requires rest <= db.Keys && key in rest
    ensures db - (db.Keys - rest) - {key} == db - (db.Keys - (rest - {key}))
  {
  }

  lemma {:induction false} RemoveAll(db: Index)
    ensures db - (db.Keys - {}) == map[]
  {
  }

  lemma {:induction false} PutMore(db: Index, rest: set<Bytes>, key: Bytes)
    requires rest <= db.Keys && key in rest
    ensures (db - rest)[key := db[key]] == db - (rest - {key})
  {
  }

  class UTXOSet {
    const blockchain: Blockchain
    var db: Index

    constructor (bc: Blockchain, db: Index)
      ensures blockchain == bc && this.db == db
    {
      blockchain, this.db := bc, db;
    }

    /** One block's batch, built against the database as it stands, then written at once. */
    method Update(block: Block)
      requires Fits(block.txs)
      modifies this
      ensures db == UtxoUpdate.Update(old(db), block.txs, blockchain.tipHeight)
    {
      hide OpsOf, Batch, EventsOf, Write;
      var batch := BuildBatch(block.txs, blockchain.tipHeight);
      db := Write(db, batch);
    }

    method BuildBatch(txs: seq<Transaction>, height: int) returns (batch: seq<Op>)
      requires Fits(txs)
      ensures batch == Batch(db, Events(txs), height)
    {
      hide OpsOf, EventsOf;
      batch := [];
      for t := 0 to |txs|
        invariant batch == Batch(db, Events(txs[..t]), height)
      {
        assert txs[..t + 1][..t] == txs[..t];
        batch := AddTransaction(batch, txs[t], height, Events(txs[..t]));
      }
      assert txs[..|txs|] == txs;
    }

    method AddTransaction(batch: seq<Op>, tx: Transaction, height: int, ghost es: seq<Event>) returns (r: seq<Op>)
      requires |tx.vout| <= TWO_31 && batch == Batch(db, es, height)
      ensures r == Batch(db, es + EventsOf(tx), height)
    {
      hide OpsOf;
      r := batch;
      ghost var done := es;
      if !tx.IsCoinbase() {
        for j := 0 to |tx.vin|
          invariant done == es + SpendEvents(tx.vin[..j]) && r == Batch(db, done, height)
        {
          BatchAppend(db, done, Spend(tx.vin[j]), height);
          assert done + [Spend(tx.vin[j])] == es + SpendEvents(tx.vin[..j + 1]);
          done := done + [Spend(tx.vin[j])];
          r := SpendInput(r, tx.vin[j], height);
        }
        assert tx.vin[..|tx.vin|] == tx.vin;
      }
      BatchAppend(db, done, Create(tx), height);
      assert done + [Create(tx)] == es + EventsOf(tx);
      r := StoreOutputs(r, tx, height);
    }

    /** Reads the entry from before the batch; an unknown transaction is passed over. */
    method SpendInput(batch: seq<Op>, vin: TxIn, height: int) returns (r: seq<Op>)
      ensures r == batch + OpsOf(db, Spend(vin), height)
    {
      r := batch;
      if vin.txid in db {
        var outs := db[vin.txid];
        outs := outs.(outputs := outs.outputs - {vin.vout});
        if outs.outputs == map[] {
          r := r + [Delete(vin.txid)];
        } else {
          r := r + [Put(vin.txid, outs)];
        }
      }
    }

    method StoreOutputs(batch: seq<Op>, tx: Transaction, height: int) returns (r: seq<Op>)
      requires |tx.vout| <= TWO_31
      ensures r == batch + OpsOf(db, Create(tx), height)
    {
      var outputs: map<Int32, TxOut> := map[];
      for i := 0 to |tx.vout|
        invariant outputs == map k: Int32 | 0 <= k < i :: tx.vout[k]
      {
        outputs := outputs[i := tx.vout[i]];
      }
      assert TXOutputs(outputs, tx.IsCoinbase(), height) == Full(tx, height);
      r := batch + [Put(tx.id, TXOutputs(outputs, tx.IsCoinbase(), height))];
    }

    /** Wipes the database and writes what the chain itself says. */
    method Reindex()
      requires blockchain.Valid() && forall i :: 0 <= i < |blockchain.chain| ==> Fits(blockchain.chain[i].txs)
      modifies this
      ensures db == Rebuild(blockchain.chain)
    {
      var deletes := DeleteAll();
      db := Write(db, deletes);
      assert db == map[];
      var utxo := blockchain.FindUTXO();
      var puts := PutAll(utxo);
      db := Write(db, puts);
    }

    method DeleteAll() returns (batch: seq<Op>)
      ensures Write(db, batch) == map[]
    {
      hide Write;
      var index := db;
      batch := [];
      var rest := index.Keys;
      NothingWritten(index);
      while rest != {}
        invariant rest <= index.Keys && Write(index, batch) == index - (index.Keys - rest)
        decreases |rest|
      {
        var key :| key in rest;
        WriteAppend(index, batch, Delete(key));
        RemoveMore(index, rest, key);
        batch, rest := batch + [Delete(key)], rest - {key};
      }
      RemoveAll(index);
    }

    method PutAll(utxo: Index) returns (batch: seq<Op>)
      ensures Write(map[], batch) == utxo
    {
      hide Write;
      batch := [];
      var rest := utxo.Keys;
      NothingWritten(utxo);
      while rest != {}
        invariant rest <= utxo.Keys && Write(map[], batch) == utxo - rest
        decreases |rest|
      {
        var key :| key in rest;
        WriteAppend(map[], batch, Put(key, utxo[key]));
        PutMore(utxo, rest, key);
        batch, rest := batch + [Put(key, utxo[key])], rest - {key};
      }
      assert utxo - {} == utxo;
    }

    // ------------------------------------------------------------ coin selection

    /**
     * Walks the database, in whatever order, until the amount is reached. What it picks is distinct and can be
     * spent; it is worth what is returned; either it reaches the amount and the pick made last was needed, or it
     * is everything mature that is locked to the key.
     */
    method FindSpendableOutputs(pubKeyHash: Bytes, amount: int) returns (accumulated: int, picks: IndexLists)
      ensures Selected(db, Spendable(db, blockchain.tipHeight, pubKeyHash, db.Keys), amount, accumulated, picks)
    {
      hide Spendable, Worth, Selected, Mature, LockedIn;
      var currentHeight, index := blockchain.tipHeight, db;
      var rest, found := index.Keys, false;
      accumulated, picks := 0, map[];
      ghost var done: set<Bytes> := {};
      NothingSelected(index, currentHeight, pubKeyHash, amount);
      while rest != {} && !found
        invariant rest == index.Keys - done && done <= index.Keys && picks.Keys <= done
        invariant Selected(index, Spendable(index, currentHeight, pubKeyHash, done), amount, accumulated, picks)
        invariant found ==> accumulated >= amount
        decreases |rest|
      {
        var id :| id in rest;
        var keys := Ascending(index[id].outputs.Keys);
        SpendableAdd(index, currentHeight, pubKeyHash, done, id, keys);
        if Mature(index[id], currentHeight) {
          SpendableApart(index, currentHeight, pubKeyHash, done);
          accumulated, picks, found :=
            SelectFrom(index, id, keys, pubKeyHash, amount, accumulated, picks,
                       Spendable(index, currentHeight, pubKeyHash, done));
        }
        rest, done := rest - {id}, done + {id};
      }
      SelectedAll(index, currentHeight, pubKeyHash, done, amount, accumulated, picks);
    }

    /** Everything mature that is locked to a key. */
    method FindUTXO(pubKeyHash: Bytes) returns (utxos: seq<TxOut>)
      ensures Collected(db, Spendable(db, blockchain.tipHeight, pubKeyHash, db.Keys), utxos)
    {
      hide Spendable, Collected, Mature, LockedIn;
      var currentHeight, index := blockchain.tipHeight, db;
      var rest := index.Keys;
      utxos := [];
      ghost var done: set<Bytes> := {};
      NothingCollected(index, currentHeight, pubKeyHash);
      while rest != {}
        invariant rest == index.Keys - done && done <= index.Keys
        invariant Collected(index, Spendable(index, currentHeight, pubKeyHash, done), utxos)
        decreases |rest|
      {
        var id :| id in rest;
        var keys := Ascending(index[id].outputs.Keys);
        SpendableAdd(index, currentHeight, pubKeyHash, done, id, keys);
        if Mature(index[id], currentHeight) {
          SpendableApart(index, currentHeight, pubKeyHash, done);
          utxos := CollectFrom(index, id, keys, pubKeyHash, utxos, Spendable(index, currentHeight, pubKeyHash, done));
        }
        rest, done := rest - {id}, done + {id};
      }
      assert done == index.Keys;
    }
  }

  /** The outputs of one transaction, in ascending order. */
  method SelectFrom(db: Index, id: Bytes, keys: seq<Int32>, pubKeyHash: Bytes, amount: int, sum: int,
                    before: IndexLists,
                    ghost seen: set<Outpoint>)
    returns (accumulated: int, picks: IndexLists, found: bool)
    requires id in db && id !in before && Rising(keys) && forall k :: k in keys ==> k in db[id].outputs
    requires forall o :: o in seen ==> o.txid != id
    requires Selected(db, seen, amount, sum, before)
    ensures Selected(db, seen + LockedIn(db, pubKeyHash, id, keys), amount, accumulated, picks)
    ensures (found ==> accumulated >= amount) && picks.Keys <= before.Keys + {id}
  {
    hide Selected, LockedIn, Rising;
    accumulated, picks, found := sum, before, false;
    NoneLocked(db, pubKeyHash, id);
    assert seen + {} == seen;
    for j := 0 to |keys|
      invariant Selected(db, seen + LockedIn(db, pubKeyHash, id, keys[..j]), amount, accumulated, picks)
      invariant picks.Keys <= before.Keys + {id} && PicksBefore(picks, id, keys, j)
    {
      SelectStep(db, pubKeyHash, id, keys, j, seen, amount, accumulated, picks);
      var out := db[id].outputs[keys[j]];
      if out.pubKeyHash == pubKeyHash && accumulated < amount {
        accumulated := accumulated + out.value;
        picks := Append(picks, id, keys[j]);
        if accumulated >= amount {
          found := true;
          SelectedRest(db, pubKeyHash, id, keys, j + 1, seen, amount, accumulated, picks);
          return;
        }
      }
    }
    assert keys[..|keys|] == keys;
  }

  method CollectFrom(db: Index, id: Bytes, keys: seq<Int32>, pubKeyHash: Bytes, before: seq<TxOut>,
                     ghost seen: set<Outpoint>)
    returns (utxos: seq<TxOut>)
    requires id in db && Rising(keys) && forall k :: k in keys ==> k in db[id].outputs
    requires forall o :: o in seen ==> o.txid != id
    requires Collected(db, seen, before)
    ensures Collected(db, seen + LockedIn(db, pubKeyHash, id, keys), utxos)
  {
    hide Collected, LockedIn, Rising;
    utxos := before;
    NoneLocked(db, pubKeyHash, id);
    assert seen + {} == seen;
    for j := 0 to |keys|
      invariant Collected(db, seen + LockedIn(db, pubKeyHash, id, keys[..j]), utxos)
    {
      CollectStep(db, pubKeyHash, id, keys, j, seen, utxos);
      var out := db[id].outputs[keys[j]];
      if out.pubKeyHash == pubKeyHash {
        utxos := utxos + [out];
      }
    }
    assert keys[..|keys|] == keys;
  }
}

/**
 * Verification looks previous transactions up in the chain (`src/blockchain.cpp`) and not in the index of unspent
 * outputs, so what passed once passes again.
 */
module Replay {
  import opened Base
  import opened ChainModel
  import opened Ledger
  import opened Supply
  import opened UtxoIndex
  import opened Validation

  /** The transactions whose outputs a transaction spends. */
  function Named(tx: Transaction): set<Bytes> {
    set i | i in tx.vin :: i.txid
  }

  lemma {:induction false} LookupLater(c: seq<Block>, ctx: Context, b: Block, later: Context, id: Bytes)
    requires id !in ctx && id !in later && id !in TxIds(b.txs) && Lookup(c, ctx, |c|, id).Found?
    ensures Lookup(c + [b], later, |c| + 1, id) == Lookup(c, ctx, |c|, id)
  {
    hide FindTx, TxIds;
    FindTxOlder(c, b, id);
  }

  lemma {:induction false} GatherLater(c: seq<Block>, ctx: Context, b: Block, later: Context, vin: seq<TxIn>)
    requires forall i :: i in vin ==> i.txid !in ctx && i.txid !in later && i.txid !in TxIds(b.txs)
    requires Gather(c, ctx, |c|, vin).Prevs?
    ensures Gather(c + [b], later, |c| + 1, vin) == Gather(c, ctx, |c|, vin)
  {
    hide TxIds, Lookup;
    if vin != [] {
      var init, last := vin[..|vin| - 1], vin[|vin| - 1];
      GatherLater(c, ctx, b, later, init);
      LookupLater(c, ctx, b, later, last.txid);
    }
  }

  /**
   * A transaction that passes in one block passes in the next with the same fee, whether or not the first block carried
   * it, unless that block creates a transaction with an id it names.
   */
  lemma {:induction false} PassesAgain(k: Crypto, c: seq<Block>, ctx: Context, b: Block, later: Context,
                                       tx: Transaction)
    requires CheckInBlock(k, c, ctx, tx).Fee?
    requires Named(tx) !! ctx.Keys && Named(tx) !! later.Keys && Named(tx) !! TxIds(b.txs)
    ensures CheckInBlock(k, c + [b], later, tx) == CheckInBlock(k, c, ctx, tx)
  {
    hide TxIds, Gather, CheckAgainst;
    if !tx.IsCoinbase() {
      forall i | i in tx.vin ensures i.txid !in ctx && i.txid !in later && i.txid !in TxIds(b.txs) {
        assert i.txid in Named(tx);
      }
      GatherLater(c, ctx, b, later, tx.vin);
    }
  }

  /** And in every later block for as long as no such transaction is created. */
  lemma {:induction false} PassesForEver(k: Crypto, c: seq<Block>, ctx: Context, more: seq<Block>, later: Context,
                                         tx: Transaction)
    requires CheckInBlock(k, c, ctx, tx).Fee?
    requires Named(tx) !! ctx.Keys && Named(tx) !! later.Keys && Named(tx) !! Ids(more)
    requires more == [] ==> later == ctx
    ensures CheckInBlock(k, c + more, later, tx) == CheckInBlock(k, c, ctx, tx)
  {
    hide TxIds, CheckInBlock;
    if more == [] {
      assert c + more == c;
    } else {
      var init, last := more[..|more| - 1], Tip(more);
      var between := if init == [] then ctx else map[];
      PassesForEver(k, c, ctx, init, between, tx);
      assert (c + init) + [last] == c + more;
      PassesAgain(k, c + init, between, last, later, tx);
    }
  }

  /** The outputs it spends leave the index with the first block that carries it. */
  lemma {:induction false} SpentOutputsGo(c: seq<Block>, b: Block, t: nat, o: Outpoint)
    requires WellShaped(c + [b]) && t < |b.txs| && o in SpendsOf(b.txs[t]) && o.txid !in TxIds(b.txs)
    ensures o !in Flat(Rebuild(c + [b]))
  {
    hide Rebuild, WellShaped, TxIds, SpendsOf, Flat;
    RebuildStep(c, b);
    CreatedKeys(b.txs, |c|, {});
    SpendsMember(b.txs, o);
    FlatAt(Rebuild(c + [b]), o);
  }

  /** They never come back, unless a block creates a transaction with that id anew. */
  lemma {:induction false} DeadStaysDead(c: seq<Block>, b: Block, o: Outpoint)
    requires WellShaped(c + [b]) && o !in Flat(Rebuild(c)) && o.txid !in TxIds(b.txs)
    ensures o !in Flat(Rebuild(c + [b]))
  {
    hide Rebuild, WellShaped, TxIds, Flat;
    RebuildStep(c, b);
    CreatedKeys(b.txs, |c|, {});
    FlatAt(Rebuild(c + [b]), o);
    FlatAt(Rebuild(c), o);
  }
}

/**
 * When the index stays in step with the chain while a node handles a block: `Blockchain::AddBlock` returns in silence
 * on a hash it has, and `Node::HandleBlock` updates the index all the same.
 */
module IndexStep {
  import opened Base
  import opened Ledger
  import opened ChainModel
  import opened Supply
  import opened SupplyRuns
  import opened UtxoIndex
  import opened UtxoUpdate

  /** What the chain becomes by a block that is not refused. */
  function ChainAfter(c: seq<Block>, b: Block): seq<Block> {
    if HashIn(c, b.hash) then c else c + [b]
  }

  /** The block has transactions, and the chain has none of their ids. */
  ghost predicate NewIds(c: seq<Block>, b: Block) {
    b.txs != [] && TxIds(b.txs) !! Ids(c)
  }

  /** A block whose hash the chain already has, and that extends its tip, is none of the blocks of the chain. */
  lemma {:induction false} KnownIsForged(c: seq<Block>, b: Block, now: int)
    requires Linked(c) && MIN_BITS <= Tip(c).bits <= MAX_BITS && AddOutcome(c, b, now) == AlreadyKnown
    ensures HashIn(c, b.hash) && b !in c
  {
    hide Linked, StoreOf, MedianTimePast, NextBits;
    if i :| 0 <= i < |c| && c[i] == b {
      StoreLookup(c, i);
      StoreLookup(c, |c| - 1);
      if i > 0 {
        StoreLookup(c, i - 1);
      }
    }
  }

  /** An entry for an id the index did not have is never taken away again by the same batch. */
  lemma {:induction false} NewStays(db: Index, es: seq<Event>, height: int, id: Bytes)
    requires id !in db && id in Creates(es)
    ensures id in Write(db, Batch(db, es, height))
  {
    hide Full, Erase, Write;
    var init, last := es[..|es| - 1], es[|es| - 1];
    BatchMore(db, init, last, height);
    assert init + [last] == es;
    if id in Creates(init) {
      NewStays(db, init, height, id);
    }
    var ops := OpsOf(db, last, height);
    if ops != [] {
      WriteAppend(db, Batch(db, init, height), ops[0]);
      assert ops == [ops[0]];
    } else {
      assert Batch(db, init, height) + [] == Batch(db, init, height);
    }
  }

  lemma {:induction false} IncrementalIds(c: seq<Block>, id: Bytes)
    requires id in Incremental(c)
    ensures id in Ids(c)
  {
    hide Incremental, Agrees, Ids;
    IncrementalBacked(c);
    assert BackedAt(Incremental(c)[id], c, id);
    var tx :| OnChain(c, tx) && tx.id == id && Agrees(Incremental(c)[id], tx);
    var h, t :| 0 <= h < |c| && 0 <= t < |c[h].txs| && c[h].txs[t] == tx;
    IdAt(c, h, t);
  }

  /** Updating the index for a block with a new transaction always changes it. */
  lemma {:induction false} NewTransactionShows(c: seq<Block>, txs: seq<Transaction>, height: int)
    requires txs != [] && TxIds(txs) !! Ids(c)
    ensures txs[0].id in Update(Incremental(c), txs, height) && txs[0].id !in Incremental(c)
  {
    hide Incremental, Ids, Events, Batch, Write, Creates;
    var id := txs[0].id;
    assert id in TxIds(txs);
    if id in Incremental(c) {
      IncrementalIds(c, id);
    }
    EventsCreate(txs, height);
    NewStays(Incremental(c), Events(txs), height, id);
  }

  /**
   * The index updated for a block that brings new transactions is in step with the chain if and only if the hash of
   * the block was new to the chain.
   */
  lemma {:induction false} InStepExactly(c: seq<Block>, b: Block)
    requires NewIds(c, b)
    ensures var after := ChainAfter(c, b);
            Update(Incremental(c), b.txs, |after| - 1) == Incremental(after) <==> !HashIn(c, b.hash)
  {
    hide Incremental, Update, Ids, TxIds, HashIn;
    if HashIn(c, b.hash) {
      NewTransactionShows(c, b.txs, |c| - 1);
    } else {
      OneMoreUpdate(c, b);
    }
  }
}

/** One incremental update of the index (`UTXOSet::Update`): a write batch built against the old state. */
module UtxoUpdate {
  import opened Base
  import opened Ledger
  import opened UtxoIndex

  // ---------------------------------------------------------------- the database

  datatype Op = Put(key: Bytes, value: TXOutputs) | Delete(key: Bytes)

  function WriteOne(db: Index, op: Op): Index {
    match op
    case Put(key, value) => db[key := value]
    case Delete(key) => db - {key}
  }

  /** The operations of a batch take effect in order, and all at once for readers. */
  function Write(db: Index, batch: seq<Op>): Index {
    if batch == [] then db else WriteOne(Write(db, batch[..|batch| - 1]), batch[|batch| - 1])
  }

  // ---------------------------------------------------------------- the batch of one block

  /** What the update does in order: it handles each input, then stores each transaction's outputs. */
  datatype Event = Spend(input: TxIn) | Create(tx: Transaction)

  function SpendEvents(vin: seq<TxIn>): seq<Event> {
    seq(|vin|, j requires 0 <= j < |vin| => Spend(vin[j]))
  }

  function EventsOf(tx: Transaction): seq<Event> {
    (if tx.IsCoinbase() then [] else SpendEvents(tx.vin)) + [Create(tx)]
  }

  function Events(txs: seq<Transaction>): seq<Event> {
    if txs == [] then [] else Events(txs[..|txs| - 1]) + EventsOf(txs[|txs| - 1])
  }

  function Full(tx: Transaction, height: int): TXOutputs {
    Remaining(tx, height, {})
  }

  function Erase(outs: TXOutputs, i: Int32): TXOutputs {
    outs.(outputs := outs.outputs - {i})
  }

  /** `db` is the state before the batch: an unknown transaction is passed over. */
  function OpsOf(db: Index, e: Event, height: int): seq<Op> {
    match e
    case Create(tx) => [Put(tx.id, Full(tx, height))]
    case Spend(i) =>
      if i.txid !in db then []
      else
        var outs := Erase(db[i.txid], i.vout);
        [if outs.outputs == map[] then Delete(i.txid) else Put(i.txid, outs)]
  }

  function Batch(db: Index, es: seq<Event>, height: int): seq<Op> {
    if es == [] then [] else Batch(db, es[..|es| - 1], height) + OpsOf(db, es[|es| - 1], height)
  }

  function Update(db: Index, txs: seq<Transaction>, height: int): Index {
    Write(db, Batch(db, Events(txs), height))
  }

  // ---------------------------------------------------------------- the state after the batch

  /** The index named last for a transaction, among the inputs handled. */
  function LastNamed(es: seq<Event>, id: Bytes): Option<Int32> {
    if es == [] then None
    else match es[|es| - 1]
      case Spend(i) => if i.txid == id then Some(i.vout) else LastNamed(es[..|es| - 1], id)
      case Create(_) => LastNamed(es[..|es| - 1], id)
  }

  function Creates(es: seq<Event>): set<Bytes> {
    if es == [] then {}
    else match es[|es| - 1]
      case Spend(_) => Creates(es[..|es| - 1])
      case Create(tx) => Creates(es[..|es| - 1]) + {tx.id}
  }

  function Stored(es: seq<Event>, height: int): Index {
    if es == [] then map[]
    else match es[|es| - 1]
      case Spend(_) => Stored(es[..|es| - 1], height)
      case Create(tx) => Stored(es[..|es| - 1], height)[tx.id := Full(tx, height)]
  }

  /** What the batch leaves of an old entry: only the input handled last has an effect. */
  function Left(outs: TXOutputs, last: Option<Int32>): Option<TXOutputs> {
    match last
    case None => Some(outs)
    case Some(i) => if Erase(outs, i).outputs == map[] then None else Some(Erase(outs, i))
  }

  function Survivors(db: Index, es: seq<Event>): Index {
    map id | id in db && Left(db[id], LastNamed(es, id)).Some? :: Left(db[id], LastNamed(es, id)).value
  }

  lemma {:induction false} WriteAppend(db: Index, batch: seq<Op>, op: Op)
    ensures Write(db, batch + [op]) == WriteOne(Write(db, batch), op)
  {
    assert (batch + [op])[..|batch|] == batch;
  }

  /** The whole batch: only the last input of each old transaction counts, and every new one is stored in full. */
  lemma {:induction false} AfterBatch(db: Index, es: seq<Event>, height: int)
    requires db.Keys !! Creates(es)
    ensures Write(db, Batch(db, es, height)) == Survivors(db, es) + Stored(es, height)
    ensures Stored(es, height).Keys == Creates(es)
  {
    if es == [] {
      assert Survivors(db, es) == db;
      assert db + map[] == db;
    } else {
      var init, last := es[..|es| - 1], es[|es| - 1];
      assert es == init + [last];
      AfterBatch(db, init, height);
      if last.Create? {
        CreateStep(db, init, last.tx, height);
      } else {
        SpendStep(db, init, last.input, height);
      }
    }
  }

  lemma {:induction false} CreateStep(db: Index, init: seq<Event>, tx: Transaction, height: int)
    requires Write(db, Batch(db, init, height)) == Survivors(db, init) + Stored(init, height)
    ensures var es := init + [Create(tx)];
            Write(db, Batch(db, es, height)) == Survivors(db, es) + Stored(es, height)
  {
    hide Full, Left;
    var es := init + [Create(tx)];
    assert es[..|es| - 1] == init;
    WriteAppend(db, Batch(db, init, height), Put(tx.id, Full(tx, height)));
    assert Survivors(db, es) == Survivors(db, init);
    AddAfterUnion(Survivors(db, init), Stored(init, height), tx.id, Full(tx, height));
  }

  lemma {:induction false} SpendStep(db: Index, init: seq<Event>, i: TxIn, height: int)
    requires db.Keys !! Stored(init, height).Keys
    requires Write(db, Batch(db, init, height)) == Survivors(db, init) + Stored(init, height)
    ensures var es := init + [Spend(i)];
            Write(db, Batch(db, es, height)) == Survivors(db, es) + Stored(es, height)
  {
    hide Erase, LastNamed, Survivors, Full;
    var es := init + [Spend(i)];
    assert es[..|es| - 1] == init;
    var kept, added := Survivors(db, init), Stored(init, height);
    SurvivorsSpend(db, init, i);
    if i.txid in db {
      WriteAppend(db, Batch(db, init, height), OpsOf(db, Spend(i), height)[0]);
      ChangeBeforeUnion(kept, added, i.txid, Erase(db[i.txid], i.vout));
    } else {
      assert Batch(db, es, height) == Batch(db, init, height);
    }
  }

  lemma {:induction false} ChangeBeforeUnion(a: Index, b: Index, id: Bytes, outs: TXOutputs)
    requires id !in b
    ensures (a + b)[id := outs] == a[id := outs] + b
    ensures (a + b) - {id} == (a - {id}) + b
  {
  }

  lemma {:induction false} AddAfterUnion(a: Index, b: Index, id: Bytes, outs: TXOutputs)
    ensures (a + b)[id := outs] == a + b[id := outs]
  {
  }

  lemma {:induction false} SurvivorsSpend(db: Index, init: seq<Event>, i: TxIn)
    ensures var es := init + [Spend(i)];
      Survivors(db, es) ==
        if i.txid !in db then Survivors(db, init)
        else var outs := Erase(db[i.txid], i.vout);
          if outs.outputs == map[] then Survivors(db, init) - {i.txid} else Survivors(db, init)[i.txid := outs]
  {
    var es := init + [Spend(i)];
    assert es[..|es| - 1] == init;
    forall id ensures LastNamed(es, id) == if i.txid == id then Some(i.vout) else LastNamed(init, id) {
    }
  }

  // ---------------------------------------------------------------- events and transactions

  ghost predicate Mentions(es: seq<Event>, o: Outpoint) {
    exists k :: 0 <= k < |es| && es[k].Spend? && Spent(es[k].input) == o
  }

  lemma {:induction false} MentionsConcat(a: seq<Event>, b: seq<Event>, o: Outpoint)
    ensures Mentions(a + b, o) <==> Mentions(a, o) || Mentions(b, o)
  {
    assert forall k :: 0 <= k < |a| ==> (a + b)[k] == a[k];
    assert forall k :: 0 <= k < |b| ==> (a + b)[|a| + k] == b[k];
  }

  lemma {:induction false} MentionsOf(tx: Transaction, o: Outpoint)
    ensures Mentions(EventsOf(tx), o) <==> o in SpendsOf(tx)
  {
    var es := EventsOf(tx);
    if o in SpendsOf(tx) {
      var j :| 0 <= j < |tx.vin| && Spent(tx.vin[j]) == o;
      assert es[j] == Spend(tx.vin[j]);
    }
  }

  lemma {:induction false} EventsSpend(txs: seq<Transaction>, o: Outpoint)
    ensures o in Spends(txs) <==> Mentions(Events(txs), o)
  {
    hide SpendsOf, EventsOf;
    if txs != [] {
      var init, last := txs[..|txs| - 1], txs[|txs| - 1];
      EventsSpend(init, o);
      MentionsConcat(Events(init), EventsOf(last), o);
      MentionsOf(last, o);
    }
  }

  lemma {:induction false} LastNamedIs(es: seq<Event>, id: Bytes)
    ensures LastNamed(es, id) == None <==> forall k :: 0 <= k < |es| && es[k].Spend? ==> es[k].input.txid != id
    ensures LastNamed(es, id).Some? ==> Mentions(es, Outpoint(id, LastNamed(es, id).value))
  {
    if es != [] {
      LastNamedIs(es[..|es| - 1], id);
      if es[|es| - 1].Spend? && es[|es| - 1].input.txid == id {
        assert es[|es| - 1].Spend?;
      }
    }
  }

  lemma {:induction false} SpendsStoreNothing(es: seq<Event>, vin: seq<TxIn>, height: int)
    ensures Creates(es + SpendEvents(vin)) == Creates(es)
    ensures Stored(es + SpendEvents(vin), height) == Stored(es, height)
  {
    var all := es + SpendEvents(vin);
    if vin == [] {
      assert all == es;
    } else {
      SpendsStoreNothing(es, vin[..|vin| - 1], height);
      assert all[..|all| - 1] == es + SpendEvents(vin[..|vin| - 1]);
    }
  }

  lemma {:induction false} EventsSnoc(txs: seq<Transaction>, height: int)
    requires txs != []
    ensures var init, last := txs[..|txs| - 1], txs[|txs| - 1];
            && Creates(Events(txs)) == Creates(Events(init)) + {last.id}
            && Stored(Events(txs), height) == Stored(Events(init), height)[last.id := Full(last, height)]
  {
    var init, last := txs[..|txs| - 1], txs[|txs| - 1];
    var vin := if last.IsCoinbase() then [] else last.vin;
    var all, before := Events(txs), Events(init) + SpendEvents(vin);
    SpendsStoreNothing(Events(init), vin, height);
    assert all == before + [Create(last)];
    assert all[..|all| - 1] == before;
  }

  lemma {:induction false} EventsCreate(txs: seq<Transaction>, height: int)
    ensures Creates(Events(txs)) == TxIds(txs) == Stored(Events(txs), height).Keys
    decreases |txs|, 1
  {
    if txs != [] {
      EventsCreateStep(txs, height);
    }
  }

  lemma {:induction false} EventsCreateStep(txs: seq<Transaction>, height: int)
    requires txs != []
    ensures Creates(Events(txs)) == TxIds(txs) == Stored(Events(txs), height).Keys
    decreases |txs|, 0
  {
    hide Events, Creates, Stored, TxIds;
    EventsSnoc(txs, height);
    EventsCreate(txs[..|txs| - 1], height);
    TxIdsSnoc(txs);
  }

  ghost predicate AllHaveOutputs(txs: seq<Transaction>) {
    forall t :: 0 <= t < |txs| ==> txs[t].vout != []
  }

  /** Storing every transaction is what a rebuild does, unless one has no outputs. */
  lemma {:induction false} StoredIsCreated(txs: seq<Transaction>, height: int)
    requires Shaped(txs)
    ensures Stored(Events(txs), height) == Created(txs, height, {}) <==> AllHaveOutputs(txs)
    decreases |txs|, 1
  {
    if txs != [] {
      StoredIsCreatedStep(txs, height);
    }
  }

  lemma {:induction false} StoredIsCreatedStep(txs: seq<Transaction>, height: int)
    requires txs != [] && Shaped(txs)
    ensures Stored(Events(txs), height) == Created(txs, height, {}) <==> AllHaveOutputs(txs)
    decreases |txs|, 0
  {
    hide Stored, Events, Creates, Full, Remaining, Shaped, PutNonEmpty;
    var init, last := txs[..|txs| - 1], txs[|txs| - 1];
    ShapedInit(txs);
    EventsSnoc(txs, height);
    EventsCreate(init, height);
    CreatedKeys(init, height, {});
    StoredIsCreated(init, height);
    AddedIsPut(Stored(Events(init), height), Created(init, height, {}), last, height);
    assert AllHaveOutputs(txs) <==> AllHaveOutputs(init) && last.vout != [];
  }

  lemma {:induction false} AddedIsPut(a: Index, b: Index, tx: Transaction, height: int)
    requires tx.id !in a && tx.id !in b
    ensures a[tx.id := Full(tx, height)] == PutNonEmpty(b, tx.id, Remaining(tx, height, {})) <==>
              a == b && tx.vout != []
  {
    EmptyFull(tx, height);
    if tx.vout != [] {
      UpdateInjective(a, b, tx.id, Full(tx, height));
    } else {
      assert tx.id in a[tx.id := Full(tx, height)];
    }
  }

  lemma {:induction false} EmptyFull(tx: Transaction, height: int)
    ensures Full(tx, height).outputs == map[] <==> tx.vout == []
  {
    if tx.vout != [] {
      assert 0 in Full(tx, height).outputs;
    }
  }

  lemma {:induction false} UpdateInjective(a: Index, b: Index, id: Bytes, outs: TXOutputs)
    requires id !in a && id !in b
    ensures a[id := outs] == b[id := outs] <==> a == b
  {
    if a[id := outs] == b[id := outs] {
      assert a == a[id := outs] - {id};
      assert b == b[id := outs] - {id};
    }
  }

  // ---------------------------------------------------------------- when the update agrees with the rebuild

  /**
   * Every output of the index that the block spends belongs to the input handled last among those that
   * name its transaction. A caller can check this before the call.
   */
  ghost predicate NoLostSpend(db: Index, txs: seq<Transaction>) {
    forall o: Outpoint :: o in Spends(txs) && o.txid in db && o.vout in db[o.txid].outputs ==>
      LastNamed(Events(txs), o.txid) == Some(o.vout)
  }

  lemma {:induction false} ErasesWhatIsSpent(db: Index, txs: seq<Transaction>, id: Bytes)
    requires id in db && db[id].outputs != map[]
    ensures var left := Left(db[id], LastNamed(Events(txs), id));
            (if left.Some? then Kept(db[id], id, Spends(txs)) == left.value
             else Kept(db[id], id, Spends(txs)).outputs == map[])
            <==>
            (forall i :: i in db[id].outputs && Outpoint(id, i) in Spends(txs) ==>
              LastNamed(Events(txs), id) == Some(i))
  {
    var outs, spent, last := db[id], Spends(txs), LastNamed(Events(txs), id);
    LastNamedIs(Events(txs), id);
    match last {
      case None =>
        forall i ensures Outpoint(id, i) !in spent {
          EventsSpend(txs, Outpoint(id, i));
        }
        assert Kept(outs, id, spent).outputs == outs.outputs;
      case Some(l) =>
        EventsSpend(txs, Outpoint(id, l));
        KeptIsErased(outs, id, spent, l);
    }
  }

  lemma {:induction false} KeptIsErased(outs: TXOutputs, id: Bytes, spent: set<Outpoint>, l: Int32)
    requires Outpoint(id, l) in spent
    ensures Kept(outs, id, spent) == Erase(outs, l) <==>
              forall i :: i in outs.outputs && Outpoint(id, i) in spent ==> i == l
  {
    var kept, erased := Kept(outs, id, spent).outputs, Erase(outs, l).outputs;
    if forall i :: i in outs.outputs && Outpoint(id, i) in spent ==> i == l {
      assert kept == erased;
    } else {
      var i :| i in outs.outputs && Outpoint(id, i) in spent && i != l;
      assert i in erased && i !in kept;
    }
  }

  /** The entries the update leaves are those a rebuild would leave, exactly when no spend is lost. */
  lemma {:induction false} SurvivorsAreKept(db: Index, txs: seq<Transaction>)
    requires forall id :: id in db ==> db[id].outputs != map[]
    ensures Survivors(db, Events(txs)) == Filter(db, Spends(txs)) <==> NoLostSpend(db, txs)
  {
    hide Survivors, Filter, Events, Spends, LastNamed;
    var after, filtered := Survivors(db, Events(txs)), Filter(db, Spends(txs));
    PartsOnly(db, txs);
    forall id | id in db ensures SameAt(after, filtered, id) <==> KeepsSpends(db, txs, id) {
      AgreeAt(db, txs, id);
    }
    if NoLostSpend(db, txs) {
      forall id | id in db ensures SameAt(after, filtered, id) {
        assert KeepsSpends(db, txs, id);
      }
      assert after == filtered;
    } else {
      var o: Outpoint :| o in Spends(txs) && o.txid in db && o.vout in db[o.txid].outputs &&
        LastNamed(Events(txs), o.txid) != Some(o.vout);
      assert o == Outpoint(o.txid, o.vout);
      assert !KeepsSpends(db, txs, o.txid);
    }
  }

  lemma {:induction false} PartsOnly(db: Index, txs: seq<Transaction>)
    ensures Survivors(db, Events(txs)).Keys <= db.Keys && Filter(db, Spends(txs)).Keys <= db.Keys
  {
  }

  ghost predicate SameAt(a: Index, b: Index, id: Bytes) {
    (id in a <==> id in b) && (id in a && id in b ==> a[id] == b[id])
  }

  ghost predicate KeepsSpends(db: Index, txs: seq<Transaction>, id: Bytes)
    requires id in db
  {
    forall i :: i in db[id].outputs && Outpoint(id, i) in Spends(txs) ==> LastNamed(Events(txs), id) == Some(i)
  }

  lemma {:induction false} AgreeAt(db: Index, txs: seq<Transaction>, id: Bytes)
    requires id in db && db[id].outputs != map[]
    ensures SameAt(Survivors(db, Events(txs)), Filter(db, Spends(txs)), id) <==> KeepsSpends(db, txs, id)
  {
    hide Events, Spends, LastNamed, Kept, Erase;
    ErasesWhatIsSpent(db, txs, id);
  }

  /**
   * Starting from the rebuilt index, the incremental update of one more block gives the index a rebuild
   * would give if and only if every transaction has outputs and no spend is lost.
   */
  lemma {:induction false} UpdateAgrees(c: seq<Block>, b: Block)
    requires WellShaped(c + [b])
    ensures Update(Rebuild(c), b.txs, |c|) == Rebuild(c + [b]) <==>
              AllHaveOutputs(b.txs) && NoLostSpend(Rebuild(c), b.txs)
  {
    var db, es := Rebuild(c), Events(b.txs);
    assert (c + [b])[..|c|] == c;
    RebuildStep(c, b);
    RebuildKeys(c);
    RebuildNonEmpty(c);
    EventsCreate(b.txs, |c|);
    AfterBatch(db, es, |c|);
    StoredIsCreated(b.txs, |c|);
    SurvivorsAreKept(db, b.txs);
    CreatedKeys(b.txs, |c|, {});
    hide WellShaped, Rebuild, Survivors, Stored, Created, Filter, Spends, Events;
    SplitByKeys(Survivors(db, es), Stored(es, |c|), Filter(db, Spends(b.txs)), Created(b.txs, |c|, {}), TxIds(b.txs));
  }

  /** Two unions agree exactly when their parts do, if the keys of the parts are kept apart. */
  lemma {:induction false} SplitByKeys(a1: Index, b1: Index, a2: Index, b2: Index, ids: set<Bytes>)
    requires a1.Keys !! ids && a2.Keys !! ids && b1.Keys <= ids && b2.Keys <= ids
    ensures a1 + b1 == b2 + a2 <==> b1 == b2 && a1 == a2
  {
    if a1 + b1 == b2 + a2 {
      assert b1 == map id | id in a1 + b1 && id in ids :: (a1 + b1)[id];
      assert b2 == map id | id in b2 + a2 && id in ids :: (b2 + a2)[id];
      assert a1 == map id | id in a1 + b1 && id !in ids :: (a1 + b1)[id];
      assert a2 == map id | id in b2 + a2 && id !in ids :: (b2 + a2)[id];
    }
  }

  // ---------------------------------------------------------------- whole runs

  /** The index grown from nothing by one update per block. */
  function Incremental(c: seq<Block>): Index {
    if c == [] then map[] else Update(Incremental(c[..|c| - 1]), c[|c| - 1].txs, |c| - 1)
  }

  lemma {:induction false} OneMoreUpdate(c: seq<Block>, b: Block)
    ensures Incremental(c + [b]) == Update(Incremental(c), b.txs, |c|)
  {
    assert (c + [b])[..|c|] == c;
  }

  ghost predicate Careful(db: Index, txs: seq<Transaction>) {
    AllHaveOutputs(txs) && NoLostSpend(db, txs)
  }

  ghost predicate CarefulRun(c: seq<Block>) {
    c == [] || (CarefulRun(c[..|c| - 1]) && Careful(Rebuild(c[..|c| - 1]), c[|c| - 1].txs))
  }

  ghost predicate AgreeingRun(c: seq<Block>) {
    (c == [] || AgreeingRun(c[..|c| - 1])) && Incremental(c) == Rebuild(c)
  }

  /** Along a whole run, the two indexes agree after every block if and only if every block was careful. */
  lemma {:induction false} RunAgrees(c: seq<Block>)
    requires WellShaped(c)
    ensures AgreeingRun(c) <==> CarefulRun(c)
  {
    if c != [] {
      var init, last := c[..|c| - 1], c[|c| - 1];
      assert c == init + [last];
      RunAgrees(init);
      UpdateAgrees(init, last);
    }
  }

  ghost predicate AllLive(db: Index, spent: set<Outpoint>) {
    forall o: Outpoint :: o in spent ==> o.txid in db && o.vout in db[o.txid].outputs
  }

  ghost predicate OneOutputPerTransaction(spent: set<Outpoint>) {
    forall o1: Outpoint, o2: Outpoint :: o1 in spent && o2 in spent && o1.txid == o2.txid ==> o1 == o2
  }

  /** For a block whose inputs are all live, no spend is lost exactly when no transaction is named twice. */
  lemma {:induction false} LiveInputs(db: Index, txs: seq<Transaction>)
    requires AllLive(db, Spends(txs))
    ensures NoLostSpend(db, txs) <==> OneOutputPerTransaction(Spends(txs))
  {
    var es := Events(txs);
    forall o: Outpoint | o in Spends(txs)
      ensures LastNamed(es, o.txid).Some? && Outpoint(o.txid, LastNamed(es, o.txid).value) in Spends(txs)
    {
      EventsSpend(txs, o);
      LastNamedIs(es, o.txid);
      EventsSpend(txs, Outpoint(o.txid, LastNamed(es, o.txid).value));
    }
  }

  /** A transaction that spends two outputs of one earlier transaction. */
  ghost predicate PicksTwo(tx: Transaction) {
    !tx.IsCoinbase() &&
    exists i, j :: 0 <= i < j < |tx.vin| && tx.vin[i].txid == tx.vin[j].txid && tx.vin[i].vout != tx.vin[j].vout
  }

  /** Every block of live inputs with such a transaction takes the updated index away from the rebuilt one. */
  lemma {:induction false} PairLoses(c: seq<Block>, b: Block, t: nat)
    requires WellShaped(c + [b]) && AllLive(Rebuild(c), Spends(b.txs)) && t < |b.txs| && PicksTwo(b.txs[t])
    ensures Update(Rebuild(c), b.txs, |c|) != Rebuild(c + [b])
  {
    hide WellShaped, Rebuild, Update;
    var tx := b.txs[t];
    var i, j :| 0 <= i < j < |tx.vin| && tx.vin[i].txid == tx.vin[j].txid && tx.vin[i].vout != tx.vin[j].vout;
    SpendsMember(b.txs, Spent(tx.vin[i]));
    SpendsMember(b.txs, Spent(tx.vin[j]));
    assert tx.vin[i] in tx.vin && tx.vin[j] in tx.vin;
    assert Spent(tx.vin[i]) in SpendsOf(b.txs[t]) && Spent(tx.vin[j]) in SpendsOf(b.txs[t]);
    LiveInputs(Rebuild(c), b.txs);
    UpdateAgrees(c, b);
  }
}

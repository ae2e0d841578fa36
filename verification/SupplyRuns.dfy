/**
 * The supply of coins over whole runs, whatever ids the blocks bring: a transaction that repeats the id of another
 * only overwrites the entry of the other (`include/config.h`, `src/node.cpp`, `src/utxoSet.cpp`).
 */
module SupplyRuns {
  import opened Base
  import opened Ledger
  import opened ChainModel
  import opened Sums
  import opened Supply
  import opened UtxoIndex
  import opened UtxoUpdate
  import opened Validation
  import BlockCodec
  import T = TransactionCodec

  // ---------------------------------------------------------------- subsidies

  function SubsidySum(n: nat): nat {
    if n == 0 then 0 else SubsidySum(n - 1) + Subsidy(n - 1)
  }

  const MAX_SUPPLY := 3_780_000

  lemma {:induction false} SubsidyEras(height: nat)
    ensures Subsidy(height) ==
      if height < HALVING_INTERVAL then 10
      else if height < 2 * HALVING_INTERVAL then 5
      else if height < 3 * HALVING_INTERVAL then 2
      else if height < 4 * HALVING_INTERVAL then 1
      else 0
  {
    var halvings := height / HALVING_INTERVAL;
    if halvings >= 4 {
      ShiftedAway(halvings);
    } else {
      FirstShifts();
      assert halvings == 0 || halvings == 1 || halvings == 2 || halvings == 3;
    }
  }

  lemma {:induction false} FirstShifts()
    ensures ShiftRight(SUBSIDY, 0) == 10 && ShiftRight(SUBSIDY, 1) == 5
    ensures ShiftRight(SUBSIDY, 2) == 2 && ShiftRight(SUBSIDY, 3) == 1
  {
    assert ShiftRight(SUBSIDY, 2) == ShiftRight(5, 1) == ShiftRight(2, 0);
    assert ShiftRight(SUBSIDY, 3) == ShiftRight(5, 2) == ShiftRight(2, 1) == ShiftRight(1, 0);
  }

  lemma {:induction false} ShiftedAway(n: nat)
    requires n >= 4
    ensures ShiftRight(SUBSIDY, n) == 0
  {
    assert ShiftRight(SUBSIDY, n) == ShiftRight(5, n - 1) == ShiftRight(2, n - 2)
      == ShiftRight(1, n - 3) == ShiftRight(0, n - 4);
    ShiftZero(n - 4);
  }

  lemma {:induction false} ShiftZero(n: nat)
    ensures ShiftRight(0, n) == 0
  {
    if n > 0 {
      ShiftZero(n - 1);
    }
  }

  /** The subsidies of the first `n` blocks. */
  lemma {:induction false} SubsidySumIs(n: nat)
    ensures SubsidySum(n) ==
      if n <= HALVING_INTERVAL then 10 * n
      else if n <= 2 * HALVING_INTERVAL then 2_100_000 + 5 * (n - HALVING_INTERVAL)
      else if n <= 3 * HALVING_INTERVAL then 3_150_000 + 2 * (n - 2 * HALVING_INTERVAL)
      else if n <= 4 * HALVING_INTERVAL then 3_570_000 + (n - 3 * HALVING_INTERVAL)
      else MAX_SUPPLY
  {
    if n > 0 {
      SubsidySumIs(n - 1);
      SubsidyEras(n - 1);
    }
  }

  // ---------------------------------------------------------------- one update, repeated ids allowed

  /** Whatever the batch leaves under an id is either an old entry it left or an entry it stored. */
  ghost predicate OldOrStored(db: Index, es: seq<Event>, height: int, after: Index) {
    forall id :: id in after ==>
      (id in Survivors(db, es) && after[id] == Survivors(db, es)[id]) ||
      (id in Stored(es, height) && after[id] == Stored(es, height)[id])
  }

  lemma {:induction false} BatchLeaves(db: Index, es: seq<Event>, height: int)
    ensures OldOrStored(db, es, height, Write(db, Batch(db, es, height)))
  {
    hide OldOrStored, Write, Batch;
    if es == [] {
      NothingLeft(db, height);
    } else {
      var init, last := es[..|es| - 1], es[|es| - 1];
      BatchLeaves(db, init, height);
      BatchLeavesStep(db, init, last, height, Write(db, Batch(db, init, height)));
      assert es == init + [last];
    }
  }

  lemma {:induction false} NothingLeft(db: Index, height: int)
    ensures OldOrStored(db, [], height, Write(db, Batch(db, [], height)))
  {
    assert Survivors(db, []) == db;
  }

  lemma {:induction false} BatchLeavesStep(db: Index, init: seq<Event>, e: Event, height: int, before: Index)
    requires before == Write(db, Batch(db, init, height)) && OldOrStored(db, init, height, before)
    ensures OldOrStored(db, init + [e], height, Write(db, Batch(db, init + [e], height)))
  {
    hide Full, Erase, Survivors, Stored, Write, OldOrStored, Batch;
    var batch := Batch(db, init, height);
    BatchMore(db, init, e, height);
    match e {
      case Create(tx) =>
        WriteAppend(db, batch, Put(tx.id, Full(tx, height)));
        LeavesCreate(db, init, tx, height, before);
      case Spend(i) =>
        if i.txid in db {
          WriteAppend(db, batch, OpsOf(db, e, height)[0]);
        } else {
          assert batch + [] == batch;
        }
        LeavesSpend(db, init, i, height, before);
    }
  }

  lemma {:induction false} BatchMore(db: Index, init: seq<Event>, e: Event, height: int)
    ensures Batch(db, init + [e], height) == Batch(db, init, height) + OpsOf(db, e, height)
  {
    hide OpsOf;
    assert (init + [e])[..|init|] == init;
  }

  lemma {:induction false} LeavesCreate(db: Index, init: seq<Event>, tx: Transaction, height: int, before: Index)
    requires OldOrStored(db, init, height, before)
    ensures OldOrStored(db, init + [Create(tx)], height, before[tx.id := Full(tx, height)])
  {
    hide Full, Survivors, Stored;
    CreateKeeps(db, init, tx, height);
  }

  lemma {:induction false} LeavesSpend(db: Index, init: seq<Event>, i: TxIn, height: int, before: Index)
    requires OldOrStored(db, init, height, before)
    ensures OldOrStored(db, init + [Spend(i)], height,
      if i.txid !in db then before
      else var outs := Erase(db[i.txid], i.vout);
         if outs.outputs == map[] then before - {i.txid} else before[i.txid := outs])
  {
    hide Erase, Survivors, Stored;
    SurvivorsSpend(db, init, i);
    SpendStoresNothing(init, i, height);
  }

  lemma {:induction false} CreateKeeps(db: Index, init: seq<Event>, tx: Transaction, height: int)
    ensures Survivors(db, init + [Create(tx)]) == Survivors(db, init)
    ensures Stored(init + [Create(tx)], height) == Stored(init, height)[tx.id := Full(tx, height)]
  {
    var es := init + [Create(tx)];
    assert es[..|es| - 1] == init;
  }

  lemma {:induction false} SpendStoresNothing(init: seq<Event>, i: TxIn, height: int)
    ensures Stored(init + [Spend(i)], height) == Stored(init, height)
  {
    var es := init + [Spend(i)];
    assert es[..|es| - 1] == init;
  }

  /** A sum is covered by two others if each of its parts is a part of one of them. */
  lemma {:induction false} SumCovered(m: Coins, a: Coins, b: Coins)
    requires forall o :: o in m ==> (o in a && m[o] == a[o]) || (o in b && m[o] == b[o])
    ensures Sum(m) <= Sum(a) + Sum(b)
  {
    hide Sum;
    var inA := map o | o in m && o in a && m[o] == a[o] :: m[o];
    var rest := map o | o in m && o !in inA :: m[o];
    assert m == inA + rest;
    SumUnion(inA, rest);
    SumLess(inA, a);
    SumLess(rest, b);
  }

  lemma {:induction false} TotalCovered(after: Index, a: Index, b: Index)
    requires forall id :: id in after ==> (id in a && after[id] == a[id]) || (id in b && after[id] == b[id])
    ensures Total(after) <= Total(a) + Total(b)
  {
    hide Flat, Sum;
    forall o | o in Flat(after)
      ensures (o in Flat(a) && Flat(after)[o] == Flat(a)[o]) || (o in Flat(b) && Flat(after)[o] == Flat(b)[o])
    {
      FlatAt(after, o);
      FlatAt(a, o);
      FlatAt(b, o);
    }
    SumCovered(Flat(after), Flat(a), Flat(b));
  }

  /** One entry is worth no more than the outputs it was made from. */
  lemma {:induction false} FullTotal(tx: Transaction, height: int)
    ensures Total(map[tx.id := Full(tx, height)]) <= OutputSum(tx.vout)
  {
    hide Flat, Sum, Outs;
    var entry := map[tx.id := Full(tx, height)];
    forall o | o in Flat(entry) ensures o in Outs(tx, |tx.vout|) && Outs(tx, |tx.vout|)[o] == Flat(entry)[o] {
      FlatAt(entry, o);
      OutsLookup(tx, |tx.vout|, o);
    }
    SumLess(Flat(entry), Outs(tx, |tx.vout|));
    OutsTotal(tx);
  }

  lemma {:induction false} OutsTotal(tx: Transaction)
    ensures Sum(Outs(tx, |tx.vout|)) == OutputSum(tx.vout)
  {
    hide Outs;
    EmptySum();
    SumOuts(map[], tx, |tx.vout|);
    assert map[] + Outs(tx, |tx.vout|) == Outs(tx, |tx.vout|);
    assert tx.vout[..|tx.vout|] == tx.vout;
  }

  /** What a block stores is worth no more than its outputs. */
  lemma {:induction false} StoredAtMost(txs: seq<Transaction>, height: int)
    ensures Total(Stored(Events(txs), height)) <= AllOutputs(txs)
  {
    hide Stored, Events, Full;
    if txs == [] {
      StoredNothing(height);
      EmptyTotal();
    } else {
      var init, last := txs[..|txs| - 1], txs[|txs| - 1];
      StoredAtMost(init, height);
      EventsSnoc(txs, height);
      FullTotal(last, height);
      TotalCovered(Stored(Events(txs), height), Stored(Events(init), height), map[last.id := Full(last, height)]);
    }
  }

  lemma {:induction false} StoredNothing(height: int)
    ensures Stored(Events([]), height) == map[]
  {
  }

  lemma {:induction false} EmptyTotal()
    ensures Total(map[]) == 0
  {
    hide Sum;
    EmptyFlat();
    EmptySum();
  }

  lemma {:induction false} EmptyFlat()
    ensures Flat(map[]) == map[]
  {
  }

  lemma {:induction false} EmptySum()
    ensures Sum<Outpoint>(map[]) == 0
  {
  }

  /** The value of the index after any update whatever: at most what is left and what comes in. */
  lemma {:induction false} TotalAtMost(utxo: Index, txs: seq<Transaction>, height: int)
    ensures Total(Update(utxo, txs, height)) <= Sum(Flat(utxo) - Spends(txs)) + Sum(Lost(utxo, txs)) + AllOutputs(txs)
  {
    hide Survivors, Stored, Events, Flat, Sum, Spends, Batch, Write;
    var es := Events(txs);
    BatchLeaves(utxo, es, height);
    TotalCovered(Update(utxo, txs, height), Survivors(utxo, es), Stored(es, height));
    FlatSurvivors(utxo, txs);
    SumUnion(Flat(utxo) - Spends(txs), Lost(utxo, txs));
    StoredAtMost(txs, height);
  }

  // ---------------------------------------------------------------- the index and the chain, repeated ids allowed

  /** A transaction of the chain. */
  ghost predicate OnChain(c: seq<Block>, tx: Transaction) {
    exists h, t :: 0 <= h < |c| && 0 <= t < |c[h].txs| && c[h].txs[t] == tx
  }

  /** Every entry holds outputs of some transaction of the chain with its id. */
  ghost predicate Backed(utxo: Index, c: seq<Block>) {
    forall id :: id in utxo ==> BackedAt(utxo[id], c, id)
  }

  ghost predicate BackedAt(outs: TXOutputs, c: seq<Block>, id: Bytes) {
    exists tx :: OnChain(c, tx) && tx.id == id && Agrees(outs, tx)
  }

  /** Transactions of the chain with one id have the same outputs. */
  ghost predicate Consistent(c: seq<Block>) {
    forall a, b :: OnChain(c, a) && OnChain(c, b) && a.id == b.id ==> a.vout == b.vout
  }

  lemma {:induction false} StillOnChain(c: seq<Block>, b: Block, tx: Transaction)
    requires OnChain(c, tx) || tx in b.txs
    ensures OnChain(c + [b], tx)
  {
    if OnChain(c, tx) {
      var h, t :| 0 <= h < |c| && 0 <= t < |c[h].txs| && c[h].txs[t] == tx;
      assert (c + [b])[h].txs[t] == tx;
    } else {
      var t :| 0 <= t < |b.txs| && b.txs[t] == tx;
      assert (c + [b])[|c|].txs[t] == tx;
    }
  }

  lemma {:induction false} StoredIs(txs: seq<Transaction>, height: int, id: Bytes) returns (tx: Transaction)
    requires id in Stored(Events(txs), height)
    ensures tx in txs && tx.id == id && Stored(Events(txs), height)[id] == Full(tx, height)
  {
    hide Stored, Events, Full;
    if txs == [] {
      StoredNothing(height);
      tx := Transaction([], [], []);
    } else {
      EventsSnoc(txs, height);
      tx := txs[|txs| - 1];
      if tx.id != id {
        tx := StoredIs(txs[..|txs| - 1], height, id);
      }
    }
  }

  lemma {:induction false} FullAgrees(tx: Transaction, height: int)
    ensures Agrees(Full(tx, height), tx)
  {
  }

  lemma {:induction false} SurvivorAgrees(utxo: Index, es: seq<Event>, id: Bytes, tx: Transaction)
    requires id in Survivors(utxo, es) && Agrees(utxo[id], tx)
    ensures id in utxo && Agrees(Survivors(utxo, es)[id], tx)
  {
    hide LastNamed;
  }

  lemma {:induction false} BackedUpdate(utxo: Index, c: seq<Block>, b: Block, height: int)
    requires Backed(utxo, c)
    ensures Backed(Update(utxo, b.txs, height), c + [b])
  {
    hide Survivors, Stored, Events, Batch, Write, Full, OnChain, Agrees;
    var es, after := Events(b.txs), Update(utxo, b.txs, height);
    BatchLeaves(utxo, es, height);
    SurvivorKeys(utxo, es);
    forall id | id in after ensures BackedAt(after[id], c + [b], id) {
      if id in Survivors(utxo, es) && after[id] == Survivors(utxo, es)[id] {
        assert BackedAt(utxo[id], c, id);
        var tx :| OnChain(c, tx) && tx.id == id && Agrees(utxo[id], tx);
        SurvivorAgrees(utxo, es, id, tx);
        StillOnChain(c, b, tx);
      } else {
        var tx := StoredIs(b.txs, height, id);
        FullAgrees(tx, height);
        StillOnChain(c, b, tx);
      }
    }
  }

  /** An index kept up to date along any chain at all is backed by it. */
  lemma {:induction false} IncrementalBacked(c: seq<Block>)
    ensures Backed(Incremental(c), c)
  {
    hide BackedAt, Update;
    if c != [] {
      var init := c[..|c| - 1];
      IncrementalBacked(init);
      BackedUpdate(Incremental(init), init, Tip(c), |init|);
      assert c == init + [Tip(c)];
    }
  }

  lemma {:induction false} FoundOnChain(c: seq<Block>, id: Bytes)
    requires FindTx(c, id).Some?
    ensures OnChain(c, FindTx(c, id).value.0) && FindTx(c, id).value.0.id == id
  {
    hide FindTx;
    FindTxIs(c, id);
    var (tx, h) := FindTx(c, id).value;
    var t :| 0 <= t < |c[h].txs| && c[h].txs[t] == tx;
  }

  lemma {:induction false} SameOutputs(outs: TXOutputs, c: seq<Block>, id: Bytes, tx: Transaction)
    requires BackedAt(outs, c, id) && Consistent(c) && OnChain(c, tx) && tx.id == id
    ensures Agrees(outs, tx)
  {
    hide OnChain;
  }

  lemma {:induction false} BackedLater(outs: TXOutputs, c: seq<Block>, b: Block, id: Bytes)
    requires BackedAt(outs, c, id)
    ensures BackedAt(outs, c + [b], id)
  {
    hide OnChain, Agrees;
    var tx :| OnChain(c, tx) && tx.id == id && Agrees(outs, tx);
    StillOnChain(c, b, tx);
  }

  /** So validation finds the outputs the index holds, in the chain and in the block under way. */
  lemma {:induction false} BackedSpeaks(utxo: Index, c: seq<Block>, b: Block)
    requires Backed(utxo, c) && Consistent(c + [b])
    ensures Speaks(utxo, c, b.txs)
  {
    hide OnChain, Agrees, FindTx, BackedAt, Consistent;
    forall id | id in utxo && FindTx(c, id).Some? ensures Agrees(utxo[id], FindTx(c, id).value.0) {
      var tx := FindTx(c, id).value.0;
      FoundOnChain(c, id);
      StillOnChain(c, b, tx);
      BackedLater(utxo[id], c, b, id);
      SameOutputs(utxo[id], c + [b], id, tx);
    }
    forall t | 0 <= t < |b.txs| && b.txs[t].id in utxo ensures Agrees(utxo[b.txs[t].id], b.txs[t]) {
      StillOnChain(c, b, b.txs[t]);
      BackedLater(utxo[b.txs[t].id], c, b, b.txs[t].id);
      SameOutputs(utxo[b.txs[t].id], c + [b], b.txs[t].id, b.txs[t]);
    }
  }

  lemma {:induction false} ConsistentInit(c: seq<Block>, b: Block)
    requires Consistent(c + [b])
    ensures Consistent(c)
  {
    hide OnChain;
    forall a, d | OnChain(c, a) && OnChain(c, d) && a.id == d.id ensures a.vout == d.vout {
      StillOnChain(c, b, a);
      StillOnChain(c, b, d);
    }
  }

  // ---------------------------------------------------------------- whole runs

  /**
   * A run of accepted blocks from a genesis block: each is made of transactions as they are read from bytes, and passes
   * the value checks. Ids may repeat, and nothing is asked of the inputs.
   */
  ghost predicate AcceptedRun(k: Crypto, c: seq<Block>) {
    && c != [] && OnlyFirstCoinbase(Tip(c).txs) && AllEncodable(k.sha, Tip(c).txs)
    && (if |c| == 1 then |c[0].txs| == 1 && OutputSum(c[0].txs[0].vout) == Subsidy(0)
        else AcceptedRun(k, c[..|c| - 1]) && ValuesPass(k, c[..|c| - 1], Tip(c).txs))
  }

  ghost predicate AllEncodable(sha: Sha256, txs: seq<Transaction>) {
    forall t :: 0 <= t < |txs| ==> BlockCodec.EncodableTx(sha, txs[t])
  }

  /** Such a run whose every block spends live outputs only, and names no earlier transaction by two indices. */
  ghost predicate SoundRun(k: Crypto, c: seq<Block>) {
    AcceptedRun(k, c) && SoundInputs(c)
  }

  ghost predicate SoundInputs(c: seq<Block>) {
    |c| <= 1 || (SoundInputs(c[..|c| - 1]) && GoodInputs(Incremental(c[..|c| - 1]), Tip(c).txs))
  }

  /** What one more block draws beside the index, and the coins it loses. */
  ghost function ExcessOf(k: Crypto, c: seq<Block>, txs: seq<Transaction>): nat {
    DeadDrawn(k, c, Flat(Incremental(c)), txs) + Sum(Lost(Incremental(c), txs))
  }

  /** The same over all the blocks after the first. */
  ghost function Excess(k: Crypto, c: seq<Block>): nat {
    if |c| <= 1 then 0 else Excess(k, c[..|c| - 1]) + ExcessOf(k, c[..|c| - 1], Tip(c).txs)
  }

  /** A block that passes adds at most its coinbase less its fees, the coins it loses, and what it draws beside. */
  lemma {:induction false} GainAtMost(k: Crypto, c: seq<Block>, utxo: Index, txs: seq<Transaction>)
    requires Speaks(utxo, c, txs) && RunTxs(k, c, txs).Going? && OnlyFirstCoinbase(txs)
    ensures Total(Update(utxo, txs, |c|)) <= Total(utxo) + OutputSum(txs[0].vout) - RunTxs(k, c, txs).fees
      + Sum(Lost(utxo, txs)) + DeadDrawn(k, c, Flat(utxo), txs)
  {
    hide Speaks, RunTxs, Flat, Sum, Spends, BlockPoints, NoRepeat, Update, Lost, DeadDrawn;
    SpendsArePoints(txs);
    FeesOfBlock(k, c, utxo, txs);
    TotalAtMost(utxo, txs, |c|);
    PaidOutAndCoinbase(txs);
  }

  lemma {:induction false} BoundStep(k: Crypto, c: seq<Block>, b: Block)
    requires Consistent(c + [b]) && OnlyFirstCoinbase(b.txs) && ValuesPass(k, c, b.txs)
    ensures Total(Incremental(c + [b])) <= Total(Incremental(c)) + Subsidy(|c|) + ExcessOf(k, c, b.txs)
  {
    hide Consistent, RunTxs, Subsidy, Update, Lost, Backed, Speaks, Incremental, Total, Sum, OutputSum, CheckedSum,
      DeadDrawn;
    OneMoreUpdate(c, b);
    IncrementalBacked(c);
    BackedSpeaks(Incremental(c), c, b);
    GainAtMost(k, c, Incremental(c), b.txs);
    CheckedSumIs(b.txs[0].vout);
  }

  /** The account, as long as transactions with one id have the same outputs. */
  lemma {:induction false} AccountIfConsistent(k: Crypto, c: seq<Block>)
    requires AcceptedRun(k, c) && Consistent(c)
    ensures Total(Incremental(c)) <= SubsidySum(|c|) + Excess(k, c)
  {
    hide Consistent, Incremental, Subsidy, ValuesPass, AcceptedRun, Total, OutputSum, ExcessOf;
    RunParts(k, c);
    var init := c[..|c| - 1];
    assert c == init + [Tip(c)];
    if |c| == 1 {
      GenesisTotal(c[0]);
      assert c == [c[0]];
    } else {
      ConsistentInit(init, Tip(c));
      AccountIfConsistent(k, init);
      BoundStep(k, init, Tip(c));
    }
  }

  lemma {:induction false} RunParts(k: Crypto, c: seq<Block>)
    requires AcceptedRun(k, c)
    ensures c != [] && OnlyFirstCoinbase(Tip(c).txs)
    ensures |c| == 1 ==> |c[0].txs| == 1 && OutputSum(c[0].txs[0].vout) == Subsidy(0)
    ensures |c| > 1 ==> AcceptedRun(k, c[..|c| - 1]) && ValuesPass(k, c[..|c| - 1], Tip(c).txs)
  {
    hide ValuesPass, Subsidy;
  }

  lemma {:induction false} GenesisTotal(g: Block)
    requires |g.txs| == 1 && OutputSum(g.txs[0].vout) == Subsidy(0)
    ensures Total(Incremental([g])) <= SubsidySum(1)
  {
    hide Sum, Flat, OutputSum, Subsidy, Update, Spends, Lost;
    assert [g][..0] == [] && Incremental([]) == map[];
    TotalAtMost(map[], g.txs, 0);
    EmptyFlat();
    EmptySum();
    NothingToLose(g.txs);
    assert g.txs[..0] == [] && AllOutputs(g.txs[..0]) == 0;
    assert SubsidySum(0) == 0;
  }

  lemma {:induction false} NothingToLose(txs: seq<Transaction>)
    ensures Flat(map[]) - Spends(txs) == map[] && Lost(map[], txs) == map[]
  {
    hide Spends, Events, LastNamed, Flat;
    EmptyFlat();
  }

  /** Every transaction of the chain is as transactions read from bytes are. */
  ghost predicate EncodableChain(sha: Sha256, c: seq<Block>) {
    forall h :: 0 <= h < |c| ==> AllEncodable(sha, c[h].txs)
  }

  lemma {:induction false} EncodableMore(sha: Sha256, c: seq<Block>, b: Block)
    requires EncodableChain(sha, c) && AllEncodable(sha, b.txs)
    ensures EncodableChain(sha, c + [b])
  {
    hide AllEncodable;
  }

  lemma {:induction false} RunEncodable(k: Crypto, c: seq<Block>)
    requires AcceptedRun(k, c)
    ensures EncodableChain(k.sha, c)
  {
    hide ValuesPass, Subsidy, AllEncodable;
    assert c == c[..|c| - 1] + [Tip(c)];
    if |c| > 1 {
      RunEncodable(k, c[..|c| - 1]);
      EncodableMore(k.sha, c[..|c| - 1], Tip(c));
    }
  }

  lemma {:induction false} OnChainEncodable(sha: Sha256, c: seq<Block>, tx: Transaction)
    requires EncodableChain(sha, c) && OnChain(c, tx)
    ensures BlockCodec.EncodableTx(sha, tx)
  {
    hide BlockCodec.EncodableTx;
    var h, t :| 0 <= h < |c| && 0 <= t < |c[h].txs| && c[h].txs[t] == tx;
    assert AllEncodable(sha, c[h].txs);
  }

  lemma {:induction false} ConsistentOrCollision(sha: Sha256, c: seq<Block>) returns (col: Option<Collision>)
    requires EncodableChain(sha, c)
    ensures if col.Some? then IsCollision(sha, col.value) else Consistent(c)
  {
    hide EncodableChain, OnChain;
    col := None;
    if !Consistent(c) {
      var a, b :| OnChain(c, a) && OnChain(c, b) && a.id == b.id && a.vout != b.vout;
      OnChainEncodable(sha, c, a);
      OnChainEncodable(sha, c, b);
      T.IdsIdentify(sha, a, b);
      col := Some(Collision(T.Encode(a), T.Encode(b)));
    }
  }

  /**
   * Over every run of accepted blocks whatever, the index never holds more than the subsidies so far and the excess; or
   * two transactions of the run share an id without being equal, and a collision of the hash function comes of them.
   */
  lemma {:induction false} SupplyAccount(k: Crypto, c: seq<Block>) returns (col: Option<Collision>)
    requires AcceptedRun(k, c)
    ensures col.Some? ==> IsCollision(k.sha, col.value)
    ensures col.None? ==> Total(Incremental(c)) <= SubsidySum(|c|) + Excess(k, c)
  {
    hide AcceptedRun, Consistent, Incremental, Total, Excess, EncodableChain;
    RunEncodable(k, c);
    col := ConsistentOrCollision(k.sha, c);
    if col.None? {
      AccountIfConsistent(k, c);
    }
  }

  lemma {:induction false} SoundHasNoExcess(k: Crypto, c: seq<Block>)
    requires SoundInputs(c)
    ensures Excess(k, c) == 0
  {
    hide Incremental, DeadDrawn, Lost, Sum, Flat, Spends, OneOutputPerTransaction, AllLive;
    if |c| > 1 {
      var init := c[..|c| - 1];
      SoundHasNoExcess(k, init);
      NothingDead(k, init, Incremental(init), Tip(c).txs);
      NothingLost(Incremental(init), Tip(c).txs);
    }
  }

  /** With sound inputs there is no excess, so the index never holds more than the subsidies, nor than the cap. */
  lemma {:induction false} SupplyBound(k: Crypto, c: seq<Block>) returns (col: Option<Collision>)
    requires SoundRun(k, c)
    ensures col.Some? ==> IsCollision(k.sha, col.value)
    ensures col.None? ==> Total(Incremental(c)) <= SubsidySum(|c|) <= MAX_SUPPLY
  {
    hide AcceptedRun, SoundInputs, Incremental, Total, Excess;
    col := SupplyAccount(k, c);
    SoundHasNoExcess(k, c);
    SubsidySumIs(|c|);
  }

  /** A run whose blocks bring new ids only, and whose coinbases take all they may. */
  ghost predicate FullRun(k: Crypto, c: seq<Block>) {
    && AcceptedRun(k, c) && WellShaped(c) && Fits(Tip(c).txs)
    && (|c| == 1 || (FullRun(k, c[..|c| - 1]) &&
        OutputSum(Tip(c).txs[0].vout) == Subsidy(|c| - 1) + RunTxs(k, c[..|c| - 1], Tip(c).txs).fees))
  }

  /** Over such a run the account is exact: the supply stays within the subsidies if and only if there is no excess. */
  lemma {:induction false} SupplyExactly(k: Crypto, c: seq<Block>)
    requires FullRun(k, c)
    ensures Total(Incremental(c)) == SubsidySum(|c|) + Excess(k, c)
  {
    hide Incremental, Subsidy, ValuesPass, AcceptedRun, Total, OutputSum, ExcessOf, WellShaped, RunTxs, Fits;
    RunParts(k, c);
    var init := c[..|c| - 1];
    assert c == init + [Tip(c)];
    if |c| == 1 {
      GenesisExactly(c[0]);
      assert c == [c[0]];
    } else {
      SupplyExactly(k, init);
      ExactStep(k, init, Tip(c));
    }
  }

  lemma {:induction false} ExactStep(k: Crypto, c: seq<Block>, b: Block)
    requires WellShaped(c + [b]) && WellShaped(c) && Fits(b.txs) && OnlyFirstCoinbase(b.txs) && ValuesPass(k, c, b.txs)
    requires OutputSum(b.txs[0].vout) == Subsidy(|c|) + RunTxs(k, c, b.txs).fees
    ensures Total(Incremental(c + [b])) == Total(Incremental(c)) + Subsidy(|c|) + ExcessOf(k, c, b.txs)
  {
    hide RunTxs, Subsidy, Update, Lost, Incremental, Total, Sum, OutputSum, DeadDrawn, Matches, Ids, TxIds, Shaped,
      Fits;
    assert (c + [b])[..|c|] == c;
    OneMoreUpdate(c, b);
    IncrementalMatches(c);
    MatchedIds(Incremental(c), c);
    Conservation(k, c, Incremental(c), b.txs);
  }

  lemma {:induction false} GenesisExactly(g: Block)
    requires |g.txs| == 1 && OutputSum(g.txs[0].vout) == Subsidy(0) && Fits(g.txs)
    ensures Total(Incremental([g])) == SubsidySum(1)
  {
    hide Sum, Flat, OutputSum, Subsidy, Update, Spends, Lost, TxIds;
    assert [g][..0] == [] && Incremental([]) == map[];
    TotalAfter(map[], g.txs, 0);
    EmptyFlat();
    EmptySum();
    NothingToLose(g.txs);
    assert g.txs[..0] == [] && AllOutputs(g.txs[..0]) == 0;
    assert SubsidySum(0) == 0;
  }

  // ---------------------------------------------------------------- what an accepted block meets

  /** A block that a node reads from bytes and accepts carries a run on, whatever its inputs. */
  lemma {:induction false} AcceptedExtends(k: Crypto, c: seq<Block>, data: Bytes, now: int)
    requires AcceptedRun(k, c) && TipInRange(c) && BlockCodec.Decode(k.sha, data).Ok?
    requires Judge(k, c, BlockCodec.Decode(k.sha, data).value, |data|, now) == Accept
    ensures var b := BlockCodec.Decode(k.sha, data).value;
            AcceptedRun(k, c + [b]) && (SoundRun(k, c) && GoodInputs(Incremental(c), b.txs) ==> SoundRun(k, c + [b]))
  {
    hide BlockCodec.Decode, Judge, ValuesPass, GoodInputs, OnlyFirstCoinbase, BlockCodec.EncodableTx, Incremental;
    var b := BlockCodec.Decode(k.sha, data).value;
    AcceptedPass(k, c, b, |data|, now);
    BlockCodec.DecodedTxs(k.sha, data);
    assert (c + [b])[..|c|] == c;
  }

  // ---------------------------------------------------------------- sums in range

  lemma {:induction false} SpentLess(coins: Coins, spent: set<Outpoint>)
    ensures Sum(coins - spent) <= Sum(coins)
  {
    hide Sum;
    SumLess(coins - spent, coins);
  }

  lemma {:induction false} SpendPrefix(spent: set<Outpoint>, vin: seq<TxIn>, n: nat)
    requires SpendAll(spent, vin).Some? && n <= |vin|
    ensures SpendAll(spent, vin[..n]).Some?
  {
    if n < |vin| {
      SpendPrefix(spent, vin[..|vin| - 1], n);
      assert vin[..|vin| - 1][..n] == vin[..n];
    } else {
      assert vin[..n] == vin;
    }
  }

  /**
   * Live inputs, looked at in the order of the sum, never add up to more than the index holds; so no sum on the input
   * side comes near the end of the 64-bit range while that holds less.
   */
  lemma {:induction false} InputsInRange(k: Crypto, c: seq<Block>, utxo: Index, init: seq<Transaction>, tx: Transaction,
                                         n: nat)
    requires Speaks(utxo, c, init) && RunTxs(k, c, init).Going? && !tx.IsCoinbase() && n <= |tx.vin|
    requires AllLive(utxo, SpendsOf(tx)) && SpendAll(RunTxs(k, c, init).spent, tx.vin).Some?
    ensures var sum := InputSum(tx.vin[..n], PrevsOf(c, RunTxs(k, c, init).ctx, tx.vin));
            sum.Ok? ==> sum.value <= Total(utxo)
  {
    hide Speaks, Sum, Flat, RunTxs, InputSum, Drawn, DrawnDead, SpendAll, PrevsOf, SpeaksIn;
    var p := RunTxs(k, c, init);
    var prevs := PrevsOf(c, p.ctx, tx.vin);
    if InputSum(tx.vin[..n], prevs).Ok? {
      FeesOfBlock(k, c, utxo, init);
      SpeaksLess(utxo, c, init);
      GatheredSpeaks(c, utxo, p.ctx, tx.vin);
      InputSumSplit(utxo, prevs, tx.vin[..n]);
      LiveInFlat(utxo, tx);
      LiveDrawsNothingDead(Flat(utxo), prevs, tx.vin[..n]);
      SpendPrefix(p.spent, tx.vin, n);
      SpendRemoves(Flat(utxo), p.spent, tx.vin[..n]);
      SpentLess(Flat(utxo), p.spent);
    }
  }

  lemma {:induction false} SpeaksLess(utxo: Index, c: seq<Block>, txs: seq<Transaction>)
    requires Speaks(utxo, c, txs)
    ensures Speaks(utxo, c, [])
  {
    hide FindTx, Agrees;
  }

  lemma {:induction false} GatheredSpeaks(c: seq<Block>, utxo: Index, ctx: Context, vin: seq<TxIn>)
    requires Speaks(utxo, c, []) && SpeaksIn(utxo, ctx)
    ensures SpeaksIn(utxo, PrevsOf(c, ctx, vin))
  {
    hide Agrees, FindTx;
    if Gather(c, ctx, |c|, vin).Prevs? {
      GatherSound(c, ctx, |c|, vin);
    }
  }

  lemma {:induction false} LiveInFlat(utxo: Index, tx: Transaction)
    requires AllLive(utxo, SpendsOf(tx)) && !tx.IsCoinbase()
    ensures forall i :: 0 <= i < |tx.vin| ==> Spent(tx.vin[i]) in Flat(utxo)
  {
    hide Flat;
    forall i | 0 <= i < |tx.vin| ensures Spent(tx.vin[i]) in Flat(utxo) {
      assert tx.vin[i] in tx.vin;
      assert Spent(tx.vin[i]) in SpendsOf(tx);
      FlatAt(utxo, Spent(tx.vin[i]));
    }
  }

  /**
   * On top of a sound run: as a block read from bytes is checked, no sum over live inputs exceeds 3,780,000, or a
   * collision comes out. So `OutputSum(tx.vout) < TWO_63` is all that is left to ask for the unchecked sums of
   * the original to be those of the model.
   */
  lemma {:induction false} RunInputsInRange(k: Crypto, c: seq<Block>, b: Block, t: nat, n: nat)
    returns (col: Option<Collision>)
    requires SoundRun(k, c) && AllEncodable(k.sha, b.txs)
    requires t < |b.txs| && !b.txs[t].IsCoinbase() && n <= |b.txs[t].vin| && RunTxs(k, c, b.txs[..t]).Going?
    requires AllLive(Incremental(c), SpendsOf(b.txs[t]))
    requires SpendAll(RunTxs(k, c, b.txs[..t]).spent, b.txs[t].vin).Some?
    ensures col.Some? ==> IsCollision(k.sha, col.value)
    ensures var sum := InputSum(b.txs[t].vin[..n], PrevsOf(c, RunTxs(k, c, b.txs[..t]).ctx, b.txs[t].vin));
            col.None? && sum.Ok? ==> sum.value <= MAX_SUPPLY < TWO_63
  {
    hide AcceptedRun, AllEncodable, RunTxs, AllLive, Incremental, Consistent, SpendAll, InputSum, PrevsOf, Speaks,
      Total,
      SubsidySum, SoundInputs;
    RunEncodable(k, c);
    EncodableMore(k.sha, c, b);
    col := ConsistentOrCollision(k.sha, c + [b]);
    if col.None? {
      col := SupplyBound(k, c);
      IncrementalBacked(c);
      BackedSpeaks(Incremental(c), c, b);
      SpeaksPrefix(Incremental(c), c, b.txs, t);
      InputsInRange(k, c, Incremental(c), b.txs[..t], b.txs[t], n);
    }
  }

  lemma {:induction false} SpeaksPrefix(utxo: Index, c: seq<Block>, txs: seq<Transaction>, t: nat)
    requires Speaks(utxo, c, txs) && t <= |txs|
    ensures Speaks(utxo, c, txs[..t])
  {
    hide FindTx, Agrees;
  }
}

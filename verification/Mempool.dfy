/** The pool of unconfirmed transactions: `src/mempool.cpp`. */
module Mempool {
  import opened Base
  import opened Ledger
  import opened Sums
  import opened UtxoIndex
  import T = TransactionCodec

  datatype Entry = Entry(tx: Transaction, feeRate: real, txSize: nat)

  type Entries = map<Bytes, Entry>

  function Sizes(entries: Entries): map<Bytes, nat> {
    map id | id in entries :: entries[id].txSize
  }

  ghost function TotalSize(entries: Entries): nat {
    Sum(Sizes(entries))
  }

  /** No room for one more transaction of this size, and something could be evicted to make some. */
  ghost predicate Full(entries: Entries, size: nat) {
    entries != map[] && (TotalSize(entries) + size > MAX_MEMPOOL_SIZE || |entries| >= MAX_MEMPOOL_ENTRIES)
  }

  ghost predicate Lowest(entries: Entries, worst: Bytes) {
    worst in entries && forall id :: id in entries ==> entries[worst].feeRate <= entries[id].feeRate
  }

  /**
   * What an addition may have evicted: entries with a lower rate than the newcomer, none with a higher rate than
   * an entry that stays, and not one more than needed.
   */
  ghost predicate Evicted(before: Entries, after: Entries, size: nat, feeRate: real) {
    && after.Keys <= before.Keys && (forall id :: id in after ==> after[id] == before[id])
    && (forall id :: id in before && id !in after ==> before[id].feeRate < feeRate)
    && (forall id, kept :: id in before && id !in after && kept in after ==> before[id].feeRate <= before[kept].feeRate)
    && (after != before ==> exists last :: last in before && last !in after && Full(after[last := before[last]], size))
  }

  /** There is room up to and including 50,000,000 bytes and 10,000 entries, the newcomer counted in both. */
  lemma {:induction false} RoomMeans(entries: Entries, size: nat)
    requires entries != map[]
    ensures !Full(entries, size) <==> TotalSize(entries) + size <= 50_000_000 && |entries| + 1 <= 10_000
  {
  }

  lemma {:induction false} SizeAdd(entries: Entries, id: Bytes, e: Entry)
    requires id !in entries
    ensures TotalSize(entries[id := e]) == TotalSize(entries) + e.txSize && |entries[id := e]| == |entries| + 1
  {
    hide Sum, Sizes;
    SizesAdd(entries, id, e);
    SumAdd(Sizes(entries), id, e.txSize);
    assert entries[id := e].Keys == entries.Keys + {id};
  }

  lemma {:induction false} SizesAdd(entries: Entries, id: Bytes, e: Entry)
    ensures Sizes(entries[id := e]) == Sizes(entries)[id := e.txSize] && Sizes(entries).Keys == entries.Keys
  {
  }

  lemma {:induction false} SizeRemove(entries: Entries, id: Bytes)
    requires id in entries
    ensures TotalSize(entries - {id}) == TotalSize(entries) - entries[id].txSize && |entries - {id}| == |entries| - 1
    ensures entries == (entries - {id})[id := entries[id]]
  {
    SizeAdd(entries - {id}, id, entries[id]);
    assert entries == (entries - {id})[id := entries[id]];
  }

  lemma {:induction false} NothingEvicted(entries: Entries, size: nat, feeRate: real)
    ensures Evicted(entries, entries, size, feeRate)
  {
  }

  /** Evicting the lowest entry of a full pool, if the newcomer has a higher rate. */
  lemma {:induction false} EvictedMore(before: Entries, after: Entries, worst: Bytes, size: nat, feeRate: real)
    requires Evicted(before, after, size, feeRate) && Full(after, size)
    requires Lowest(after, worst) && after[worst].feeRate < feeRate
    ensures Evicted(before, after - {worst}, size, feeRate)
  {
    hide Full;
    SizeRemove(after, worst);
  }

  /** A pool with room for the newcomer loses nothing. */
  lemma {:induction false} EvictsOnlyWhenFull(before: Entries, after: Entries, size: nat, feeRate: real)
    requires Evicted(before, after, size, feeRate) && !Full(before, size)
    ensures after == before
  {
    if after != before {
      var last :| last in before && last !in after && Full(after[last := before[last]], size);
      var fewer := after[last := before[last]];
      SumLess(Sizes(fewer), Sizes(before));
      FewerKeys(fewer, before);
    }
  }

  lemma {:induction false} FewerKeys(a: Entries, b: Entries)
    requires a.Keys <= b.Keys
    ensures |a| <= |b|
  {
    assert a.Keys + (b.Keys - a.Keys) == b.Keys;
  }

  /** So a newcomer for whom there is room enters, and everybody stays. */
  lemma {:induction false} RoomIsTaken(before: Entries, after: Entries, tx: Transaction, feeRate: real)
    requires Offered(before, after, tx, feeRate) && tx.id !in before && !Full(before, |T.Encode(tx)|)
    ensures after == before[tx.id := Entry(tx, feeRate, |T.Encode(tx)|)]
  {
    hide T.Encode, Full;
    EvictsOnlyWhenFull(before, after - {tx.id}, |T.Encode(tx)|, feeRate);
    assert tx.id !in after ==> after - {tx.id} == after;
  }

  /** One who pays no more than anybody in a full pool is turned away, and everybody stays. */
  lemma {:induction false} NoBetterIsRejected(before: Entries, after: Entries, tx: Transaction, feeRate: real)
    requires Offered(before, after, tx, feeRate) && tx.id !in before && Full(before, |T.Encode(tx)|)
    requires forall id :: id in before ==> feeRate <= before[id].feeRate
    ensures after == before
  {
    hide T.Encode, Full;
    var stayed := after - {tx.id};
    forall id | id in before ensures id in stayed {
    }
    assert stayed == before;
    if tx.id !in after {
      assert stayed == after;
    }
  }

  /** A newcomer can push an entry out and be turned away by the next one. */
  lemma {:induction false} RejectedAfterEviction(tx: Transaction)
    returns (before: Entries, after: Entries, size: nat, feeRate: real)
    ensures Evicted(before, after, size, feeRate) && after != before
    ensures Full(after, size) && forall id :: id in after ==> feeRate <= after[id].feeRate
  {
    var cheap, dear := Entry(tx, 1.0, 1), Entry(tx, 3.0, MAX_MEMPOOL_SIZE - 1);
    size, feeRate := 2, 2.0;
    assert [1] != [2] by { assert [1][0] != [2][0]; }
    after := map[[2] := dear];
    before := after[[1] := cheap];
    SizeAdd(map[], [2], dear);
    assert map[][[2] := dear] == after && Sizes(map[]) == map[];
    SizeAdd(after, [1], cheap);
    NothingEvicted(before, size, feeRate);
    EvictedMore(before, before, [1], size, feeRate);
    assert before - {[1]} == after;
  }

  /** Every transaction of the pool once, by descending rate. */
  ghost predicate ByFeeRate(entries: Entries, sorted: seq<Transaction>) {
    && |sorted| == |entries|
    && (forall i :: 0 <= i < |sorted| ==> sorted[i].id in entries && entries[sorted[i].id].tx == sorted[i])
    && (forall i, j :: 0 <= i < j < |sorted| ==> sorted[i].id != sorted[j].id)
    && forall i, j :: 0 <= i < j < |sorted| ==> entries[sorted[i].id].feeRate >= entries[sorted[j].id].feeRate
  }

  /** Every entry is there, and none is behind one with a lower rate. */
  lemma {:induction false} SortedMeans(entries: Entries, sorted: seq<Transaction>, id: Bytes) returns (i: nat)
    requires ByFeeRate(entries, sorted) && id in entries
    ensures i < |sorted| && sorted[i].id == id
    ensures forall j :: 0 <= j < i ==> entries[sorted[j].id].feeRate >= entries[id].feeRate
  {
    assert entries.Keys == (entries.Keys - {id}) + {id};
    if forall j :: 0 <= j < |sorted| ==> sorted[j].id != id {
      FewIds(entries.Keys - {id}, sorted);
    }
    i :| 0 <= i < |sorted| && sorted[i].id == id;
  }

  lemma {:induction false} FewIds(ids: set<Bytes>, txs: seq<Transaction>)
    requires forall i :: 0 <= i < |txs| ==> txs[i].id in ids
    requires forall i, j :: 0 <= i < j < |txs| ==> txs[i].id != txs[j].id
    ensures |txs| <= |ids|
  {
    if txs != [] {
      var last := txs[|txs| - 1].id;
      FewIds(ids - {last}, txs[..|txs| - 1]);
      assert ids == (ids - {last}) + {last};
    }
  }

  /** What offering a transaction to the pool does: room is made for it, and it enters, or too little was made. */
  ghost predicate Offered(before: Entries, after: Entries, tx: Transaction, feeRate: real) {
    var txSize := |T.Encode(tx)|;
    if tx.id in before then after == before
    else
      && Evicted(before, after - {tx.id}, txSize, feeRate)
      && if tx.id in after then after[tx.id] == Entry(tx, feeRate, txSize) && !Full(after - {tx.id}, txSize)
         else Full(after, txSize) && forall id :: id in after ==> feeRate <= after[id].feeRate
  }

  // ---------------------------------------------------------------- the invariant

  /** The byte total is exact; there are never too many entries, nor too many bytes unless one entry alone has them. */
  ghost predicate Sound(entries: Entries, totalBytes: int) {
    && totalBytes == TotalSize(entries) && |entries| <= MAX_MEMPOOL_ENTRIES
    && (totalBytes > MAX_MEMPOOL_SIZE ==> |entries| == 1)
    && forall id :: id in entries ==> entries[id].tx.id == id && entries[id].txSize == |T.Encode(entries[id].tx)|
  }

  lemma {:induction false} SoundRemove(entries: Entries, totalBytes: nat, id: Bytes)
    requires Sound(entries, totalBytes) && id in entries
    ensures Sound(entries - {id}, totalBytes - entries[id].txSize)
  {
    hide T.Encode, Sizes;
    SizeRemove(entries, id);
    if |entries| == 1 {
      NoSize(entries - {id});
    }
  }

  lemma {:induction false} NoSize(entries: Entries)
    requires |entries| == 0
    ensures entries == map[] && TotalSize(entries) == 0
  {
    assert Sizes(entries) == map[];
  }

  lemma {:induction false} SoundAdd(entries: Entries, totalBytes: nat, tx: Transaction, feeRate: real)
    requires Sound(entries, totalBytes) && tx.id !in entries && !Full(entries, |T.Encode(tx)|)
    ensures Sound(entries[tx.id := Entry(tx, feeRate, |T.Encode(tx)|)], totalBytes + |T.Encode(tx)|)
  {
    hide T.Encode, Sizes;
    SizeAdd(entries, tx.id, Entry(tx, feeRate, |T.Encode(tx)|));
    if entries == map[] {
      NoSize(entries);
    }
  }

  /** If no single transaction exceeds the byte limit, neither does the pool. */
  lemma {:induction false} WithinBytes(entries: Entries, totalBytes: int)
    requires Sound(entries, totalBytes)
    ensures totalBytes <= MAX_MEMPOOL_SIZE <==> forall id :: id in entries ==> entries[id].txSize <= MAX_MEMPOOL_SIZE
  {
    hide T.Encode;
    forall id | id in entries ensures entries[id].txSize <= totalBytes {
      SizeRemove(entries, id);
    }
    if totalBytes > MAX_MEMPOOL_SIZE {
      var id := Pick(entries.Keys);
      SizeRemove(entries, id);
      NoSize(entries - {id});
    }
  }

  class Mempool {
    var entries: Entries
    var totalBytes: nat

    ghost predicate Valid()
      reads this
    {
      Sound(entries, totalBytes)
    }

    constructor ()
      ensures Valid() && entries == map[]
    {
      entries, totalBytes := map[], 0;
      NoSize(map[]);
    }

    method FindWorst() returns (worst: Bytes)
      requires entries != map[]
      ensures Lowest(entries, worst)
    {
      var rest := entries.Keys;
      worst :| worst in rest;
      while rest != {}
        invariant rest <= entries.Keys && worst in entries
        invariant forall id :: id in entries && id !in rest ==> entries[worst].feeRate <= entries[id].feeRate
        decreases |rest|
      {
        var id :| id in rest;
        if entries[id].feeRate < entries[worst].feeRate {
          worst := id;
        }
        rest := rest - {id};
      }
    }

    method EvictLowestFeeRate() returns (evicted: bool)
      requires Valid()
      modifies this
      ensures Valid()
      ensures evicted <==> old(entries) != map[]
      ensures !evicted ==> entries == old(entries)
      ensures evicted ==> exists worst :: Lowest(old(entries), worst) && entries == old(entries) - {worst}
    {
      hide Sound;
      if entries == map[] { return false; }
      var worst := FindWorst();
      Remove(worst);
      return true;
    }

    /** Evicts the lowest rates until a transaction of this size fits, or until one is not below its rate. */
    method MakeRoom(txSize: nat, feeRate: real) returns (room: bool)
      requires Valid()
      modifies this
      ensures Valid() && Evicted(old(entries), entries, txSize, feeRate)
      ensures room ==> !Full(entries, txSize)
      ensures !room ==> Full(entries, txSize) && forall id :: id in entries ==> feeRate <= entries[id].feeRate
    {
      hide Evicted, Sound, TotalSize;
      NothingEvicted(entries, txSize, feeRate);
      SoundTotal(entries, totalBytes);
      while (totalBytes + txSize > MAX_MEMPOOL_SIZE || |entries| >= MAX_MEMPOOL_ENTRIES) && entries != map[]
        invariant Valid() && totalBytes == TotalSize(entries)
        invariant Evicted(old(entries), entries, txSize, feeRate)
        decreases |entries|
      {
        var worst := FindWorst();
        if feeRate <= entries[worst].feeRate { return false; }
        ghost var before := entries;
        var evicted := EvictLowestFeeRate();
        ghost var gone :| Lowest(before, gone) && entries == before - {gone};
        EvictedMore(old(entries), before, gone, txSize, feeRate);
        SizeRemove(before, gone);
        SoundTotal(entries, totalBytes);
      }
      return true;
    }

    /** Makes room for the newcomer, and may still turn it away. */
    method AddTransaction(tx: Transaction, feeRate: real) returns (accepted: bool)
      requires Valid()
      modifies this
      ensures Valid()
      ensures Offered(old(entries), entries, tx, feeRate) && (accepted <==> tx.id in entries)
    {
      hide Sound, T.Encode, Full;
      var txSize := |T.Encode(tx)|;
      if tx.id in entries { return true; }
      var room := MakeRoom(txSize, feeRate);
      assert entries - {tx.id} == entries;
      if !room { return false; }
      SoundAdd(entries, totalBytes, tx, feeRate);
      assert entries[tx.id := Entry(tx, feeRate, txSize)] - {tx.id} == entries;
      entries := entries[tx.id := Entry(tx, feeRate, txSize)];
      totalBytes := totalBytes + txSize;
      return true;
    }

    method Remove(id: Bytes)
      requires Valid()
      modifies this
      ensures Valid() && entries == old(entries) - {id}
    {
      hide Sound, Lowest;
      if id in entries {
        SoundRemove(entries, totalBytes, id);
        SoundTotal(entries, totalBytes);
        SizeRemove(entries, id);
        totalBytes := totalBytes - entries[id].txSize;
        entries := entries - {id};
      } else {
        assert entries - {id} == entries;
      }
    }

    method RemoveBlockTransactions(block: Block)
      requires Valid()
      modifies this
      ensures Valid()
      ensures entries == old(entries) - TxIds(block.txs)
    {
      hide Sound, TxIds;
      NoIds();
      assert entries - {} == entries;
      for t := 0 to |block.txs|
        invariant Valid() && entries == old(entries) - TxIds(block.txs[..t])
      {
        TxIdsSnoc(block.txs[..t + 1]);
        assert block.txs[..t + 1][..t] == block.txs[..t];
        Remove(block.txs[t].id);
        MinusTwice(old(entries), TxIds(block.txs[..t]), block.txs[t].id);
      }
      assert block.txs[..|block.txs|] == block.txs;
    }

    method GetTransactionsSortedByFeeRate() returns (result: seq<Transaction>)
      requires Valid()
      ensures ByFeeRate(entries, result)
    {
      hide T.Encode, SortedPart;
      result := [];
      var rest, pool := entries.Keys, entries;
      NothingSorted(pool);
      while rest != {}
        invariant SortedPart(pool, rest, result)
        decreases |rest|
      {
        var id :| id in rest;
        result := InsertByRate(pool, rest, result, id);
        rest := rest - {id};
      }
      AllSorted(pool, result);
    }
  }

  // ---------------------------------------------------------------- sorting by rate

  /** The entries outside `rest`, each once, by descending rate. */
  ghost predicate SortedPart(entries: Entries, rest: set<Bytes>, sorted: seq<Transaction>) {
    && (forall id :: id in entries ==> entries[id].tx.id == id)
    && rest <= entries.Keys && |sorted| + |rest| == |entries|
    && (forall i :: 0 <= i < |sorted| ==>
           sorted[i].id in entries && sorted[i].id !in rest && entries[sorted[i].id].tx == sorted[i])
    && (forall i, j :: 0 <= i < j < |sorted| ==> sorted[i].id != sorted[j].id)
    && forall i, j :: 0 <= i < j < |sorted| ==> entries[sorted[i].id].feeRate >= entries[sorted[j].id].feeRate
  }

  lemma {:induction false} NothingSorted(entries: Entries)
    requires forall id :: id in entries ==> entries[id].tx.id == id
    ensures SortedPart(entries, entries.Keys, [])
  {
  }

  lemma {:induction false} AllSorted(entries: Entries, sorted: seq<Transaction>)
    requires SortedPart(entries, {}, sorted)
    ensures ByFeeRate(entries, sorted)
  {
  }

  lemma {:induction false} Inserted(entries: Entries, rest: set<Bytes>, sorted: seq<Transaction>, at: nat, id: Bytes)
    requires SortedPart(entries, rest, sorted) && id in rest && at <= |sorted|
    requires forall i :: 0 <= i < at ==> entries[sorted[i].id].feeRate >= entries[id].feeRate
    requires forall i :: at <= i < |sorted| ==> entries[sorted[i].id].feeRate <= entries[id].feeRate
    ensures SortedPart(entries, rest - {id}, sorted[..at] + [entries[id].tx] + sorted[at..])
  {
    var tx := entries[id].tx;
    var all := sorted[..at] + [tx] + sorted[at..];
    assert forall i :: 0 <= i < |all| ==> all[i] == if i < at then sorted[i] else if i == at then tx else sorted[i - 1];
  }

  method InsertByRate(entries: Entries, ghost rest: set<Bytes>, sorted: seq<Transaction>, id: Bytes)
    returns (r: seq<Transaction>)
    requires SortedPart(entries, rest, sorted) && id in rest
    ensures SortedPart(entries, rest - {id}, r)
  {
    var at := 0;
    while at < |sorted| && entries[sorted[at].id].feeRate > entries[id].feeRate
      invariant 0 <= at <= |sorted|
      invariant forall i :: 0 <= i < at ==> entries[sorted[i].id].feeRate >= entries[id].feeRate
    {
      at := at + 1;
    }
    Inserted(entries, rest, sorted, at, id);
    r := sorted[..at] + [entries[id].tx] + sorted[at..];
  }

  lemma {:induction false} SoundTotal(entries: Entries, totalBytes: int)
    requires Sound(entries, totalBytes)
    ensures totalBytes == TotalSize(entries)
  {
  }

  lemma {:induction false} MinusTwice(entries: Entries, ids: set<Bytes>, id: Bytes)
    ensures entries - ids - {id} == entries - (ids + {id})
  {
  }

  lemma {:induction false} NoIds()
    ensures TxIds([]) == {}
  {
  }
}

/** The block store and its backward walk: `src/blockchain.cpp`, `src/blockchainIterator.cpp`. */
module ChainStore {
  import opened Base
  import opened Ledger
  import opened ChainModel
  import MedianTime
  import Miner
  import ProofOfWork
  import Retarget
  import TransactionOps
  import UtxoScan
  import U = UtxoIndex
  import V = Validation
  import Wallet

  /** `GetBlock`: the block stored under a hash. */
  function Stored(db: Store, hash: Bytes): Result<Block> {
    if hash in db.blocks then Ok(db.blocks[hash]) else Throws
  }

  function HeightOf(db: Store, hash: Bytes): int {
    if hash in db.heights then db.heights[hash] else -1
  }

  /** The hash from which a walk has `n` blocks of the chain before it. */
  function HashBelow(c: seq<Block>, n: nat): Bytes
    requires n <= |c|
  {
    if n == 0 then ZERO_HASH else c[n - 1].hash
  }

  predicate AllZero(h: Bytes) {
    forall i :: 0 <= i < |h| ==> h[i] == 0
  }

  lemma {:induction false} ZeroHashOnly(h: Bytes)
    requires |h| == 32
    ensures AllZero(h) <==> h == ZERO_HASH
  {
  }

  lemma {:induction false} HashBelowStep(c: seq<Block>, n: nat)
    requires Linked(c) && 0 < n <= |c|
    ensures |HashBelow(c, n)| == 32 && !AllZero(HashBelow(c, n)) && HashBelow(c, n) != ZERO_HASH
    ensures Stored(StoreOf(c), HashBelow(c, n)) == Ok(c[n - 1])
    ensures HeightOf(StoreOf(c), HashBelow(c, n)) == n - 1
    ensures c[n - 1].prev == HashBelow(c, n - 1)
  {
    hide Linked, StoreOf, AllZero;
    StoreLookup(c, n - 1);
    ZeroHashOnly(c[n - 1].hash);
  }

  /** Walks a store from a hash backwards. */
  class BlockchainIterator {
    var currentHash: Bytes
    const db: Store

    constructor (tip: Bytes, db: Store)
      ensures currentHash == tip && this.db == db
    {
      currentHash, this.db := tip, db;
    }

    /** There are exactly `n` more blocks of the chain to come. */
    ghost predicate Before(c: seq<Block>, n: nat)
      reads this
    {
      Linked(c) && db == StoreOf(c) && n <= |c| && currentHash == HashBelow(c, n)
    }

    method HasNext() returns (more: bool)
      ensures more <==> !AllZero(currentHash)
    {
      for i := 0 to |currentHash|
        invariant forall j :: 0 <= j < i ==> currentHash[j] == 0
      {
        if currentHash[i] != 0 { return true; }
      }
      return false;
    }

    method Next() returns (r: Result<Block>)
      modifies this
      ensures r == Stored(db, old(currentHash))
      ensures currentHash == if r.Ok? then r.value.prev else old(currentHash)
    {
      if currentHash !in db.blocks { return Throws; }
      var block := db.blocks[currentHash];
      currentHash := block.prev;
      return Ok(block);
    }

    method HasBlock(ghost c: seq<Block>, ghost n: nat) returns (more: bool)
      requires Before(c, n)
      ensures more <==> n > 0
    {
      more := HasNext();
      if n > 0 {
        HashBelowStep(c, n);
      } else {
        ZeroHashOnly(currentHash);
      }
    }

    method NextBlock(ghost c: seq<Block>, ghost n: nat) returns (b: Block)
      requires Before(c, n) && n > 0
      modifies this
      ensures b == c[n - 1] && Before(c, n - 1)
    {
      HashBelowStep(c, n);
      var r := Next();
      b := r.value;
    }
  }

  /** Every block of a chain is met exactly once, newest first, and then the walk is over. */
  method Walk(db: Store, tip: Bytes, ghost c: seq<Block>) returns (blocks: seq<Block>)
    requires Linked(c) && db == StoreOf(c) && tip == Tip(c).hash
    ensures |blocks| == |c| && forall i :: 0 <= i < |c| ==> blocks[i] == c[|c| - 1 - i]
  {
    var bci := new BlockchainIterator(tip, db);
    ghost var n: nat := |c|;
    blocks := [];
    var more := bci.HasBlock(c, n);
    while more
      invariant bci.Before(c, n) && (more <==> n > 0)
      invariant |blocks| == |c| - n && forall i :: 0 <= i < |blocks| ==> blocks[i] == c[|c| - 1 - i]
      decreases n
    {
      var block := bci.NextBlock(c, n);
      n := n - 1;
      blocks := blocks + [block];
      more := bci.HasBlock(c, n);
    }
  }

  // ---------------------------------------------------------------- facts the loops need

  lemma {:induction false} SlicePop(c: seq<Block>, n: nat)
    requires 0 < n <= |c|
    ensures c[..n] != [] && c[..n][..n - 1] == c[..n - 1] && Tip(c[..n]) == c[n - 1] && |c[..n]| == n
  {
  }

  lemma {:induction false} GatherStays(c: seq<Block>, ctx: V.Context, h: int, vin: seq<TxIn>, n: nat)
    requires n <= |vin| && !V.Gather(c, ctx, h, vin[..n]).Prevs?
    ensures V.Gather(c, ctx, h, vin) == V.Gather(c, ctx, h, vin[..n])
    decreases |vin| - n
  {
    if n < |vin| {
      assert vin[..n + 1][..n] == vin[..n];
      GatherStays(c, ctx, h, vin, n + 1);
    } else {
      assert vin[..n] == vin;
    }
  }

  lemma {:induction false} HashInAt(c: seq<Block>, h: Bytes) returns (i: nat)
    requires HashIn(c, h)
    ensures i < |c| && c[i].hash == h
  {
    i :| 0 <= i < |c| && c[i].hash == h;
  }

  lemma {:induction false} OldestFirst(c: seq<Block>, newestFirst: seq<Bytes>, hashes: seq<Bytes>)
    requires |newestFirst| == |c| == |hashes|
    requires forall i :: 0 <= i < |c| ==> newestFirst[i] == c[|c| - 1 - i].hash
    requires forall i :: 0 <= i < |c| ==> hashes[i] == newestFirst[|c| - 1 - i]
    ensures hashes == Hashes(c) && forall i :: 0 <= i < |c| ==> hashes[i] == c[i].hash
  {
  }

  lemma {:induction false} SuffixIs(c: seq<Block>, after: Bytes, i: nat)
    requires i <= |c| && (i < |c| ==> c[i].hash == after) && forall j :: 0 <= j < i ==> c[j].hash != after
    ensures HashesAfter(c, after) == if i == |c| then [] else Hashes(c)[i + 1..]
  {
    hide Hashes, HashesAfter;
    if i == |c| {
      HashesAfterNone(c, after);
    } else {
      HashesAfterIs(c, after, i);
      HashesDrop(c, i + 1);
    }
  }

  lemma {:induction false} HashesDrop(c: seq<Block>, k: nat)
    requires k <= |c|
    ensures Hashes(c)[k..] == Hashes(c[k..])
  {
  }

  predicate AllPass(k: V.Crypto, c: seq<Block>, txs: seq<Transaction>) {
    forall t :: 0 <= t < |txs| ==> V.CheckOnChain(k, c, txs[t]).Fee?
  }

  method Reverse(s: seq<Bytes>) returns (r: seq<Bytes>)
    ensures |r| == |s| && forall i :: 0 <= i < |s| ==> r[i] == s[|s| - 1 - i]
  {
    r := [];
    for i := 0 to |s|
      invariant |r| == i && forall j :: 0 <= j < i ==> r[j] == s[|s| - 1 - j]
    {
      r := r + [s[|s| - 1 - i]];
    }
  }

  /** The first position of a hash, or the length. */
  method Find(s: seq<Bytes>, hash: Bytes) returns (i: nat)
    ensures i <= |s| && (i < |s| ==> s[i] == hash) && forall j :: 0 <= j < i ==> s[j] != hash
  {
    for k := 0 to |s|
      invariant forall j :: 0 <= j < k ==> s[j] != hash
    {
      if s[k] == hash { return k; }
    }
    return |s|;
  }

  lemma {:induction false} GenesisLinked(g: Block)
    requires |g.hash| == 32 && g.prev == ZERO_HASH
    ensures Linked([g]) <==> g.hash != ZERO_HASH
  {
  }

  lemma {:induction false} TimesCarry(c: seq<Block>, n: nat, k: nat, done: seq<Int64>)
    requires 0 < n <= |c| && k > 0
    ensures done + NewestTimes(c[..n], k) == (done + [c[n - 1].timestamp]) + NewestTimes(c[..n - 1], k - 1)
  {
    SlicePop(c, n);
  }

  lemma {:induction false} HashBelowEnds(c: seq<Block>)
    requires Linked(c)
    ensures c != [] && HashBelow(c, 0) == ZERO_HASH && HashBelow(c, |c|) == Tip(c).hash
  {
  }

  lemma {:induction false} TimesOver(c: seq<Block>, k: nat)
    requires c == [] || k == 0
    ensures NewestTimes(c, k) == []
  {
  }

  function Ascii(s: string): (b: Bytes)
    ensures |b| == |s| && forall i :: 0 <= i < |s| ==> b[i] == s[i] as int % 256
  {
    if s == "" then [] else Ascii(s[..|s| - 1]) + [s[|s| - 1] as int % 256]
  }

  /** `GENESIS_COINBASE_DATA`. */
  function GenesisData(): Bytes {
    Ascii("The Times 03/Jan/2009 Chancellor on brink of second bailout for banks")
  }

  /** Writes a new store with its first block, mined over a coinbase that pays the first subsidy to an address. */
  method CreateStore(sha: Sha256, address: Bytes, now: Int64) returns (r: Result<Block>, db: Store)
    ensures r.Ok? <==> Wallet.Locked(address).Ok?
    ensures r.Ok? ==> r.value.txs == [Miner.Coinbase(sha, Wallet.Locked(address).value, GenesisData(), 10)]
    ensures r.Ok? ==> r.value.prev == ZERO_HASH && r.value.bits == 17 && r.value.timestamp == now
    ensures r.Ok? ==> (r.value.nonce < ProofOfWork.MAX_NONCE <==> ProofOfWork.Mined(sha, r.value))
    ensures r.Ok? ==> db == StoreOf([r.value]) && (Linked([r.value]) <==> r.value.hash != ZERO_HASH)
  {
    hide ProofOfWork.Mined, Wallet.Locked, GenesisData, Miner.Coinbase;
    db := Store(map[], map[], ZERO_HASH);
    var out := Wallet.NewTXOutput(V.Subsidy(0), address);
    if out.Throws? { return Throws, db; }
    var cbtx := Miner.Coinbase(sha, out.value.pubKeyHash, GenesisData(), out.value.value);
    var genesis := ProofOfWork.NewBlock(sha, [cbtx], ZERO_HASH, INITIAL_BITS, now);
    GenesisLinked(genesis);
    db := Store(map[genesis.hash := genesis], map[genesis.hash := 0], genesis.hash);
    return Ok(genesis), db;
  }

  lemma {:induction false} NothingSpent()
    ensures Listed(map[]) == {}
  {
  }

  // ---------------------------------------------------------------- the block chain

  class Blockchain {
    var tip: Bytes
    var tipHeight: int
    var recentTimestamps: seq<Int64>
    var db: Store
    ghost var chain: seq<Block>

    /** The store holds a linked chain, and the cached fields are what loading that store would give. */
    ghost predicate Valid()
      reads this
    {
      && Linked(chain) && V.TipInRange(chain) && db == StoreOf(chain)
      && tip == Tip(chain).hash && tipHeight == |chain| - 1 && recentTimestamps == RecentTimes(chain)
    }

    /** Opens an existing store. */
    constructor (db: Store, ghost c: seq<Block>)
      requires Linked(c) && V.TipInRange(c) && db == StoreOf(c)
      ensures Valid() && chain == c && this.db == db
    {
      this.db, tip, chain := db, db.last, c;
      recentTimestamps := [];
      tipHeight := HeightOf(db, db.last);
      new;
      StoreLookup(c, |c| - 1);
      LoadRecentTimestamps();
    }

    method LoadRecentTimestamps()
      requires Linked(chain) && db == StoreOf(chain) && tip == Tip(chain).hash
      modifies this`recentTimestamps
      ensures recentTimestamps == RecentTimes(chain)
    {
      hide Linked, StoreOf, NewestTimes, HashBelow;
      HashBelowEnds(chain);
      recentTimestamps := [];
      var current := tip;
      var i := 0;
      ghost var n: nat := |chain|;
      assert chain[..n] == chain;
      while i < MEDIAN_TIME_SPAN && current != ZERO_HASH
        invariant 0 <= i <= MEDIAN_TIME_SPAN && n <= |chain| && current == HashBelow(chain, n)
        invariant recentTimestamps + NewestTimes(chain[..n], MEDIAN_TIME_SPAN - i) == RecentTimes(chain)
        decreases MEDIAN_TIME_SPAN - i
      {
        HashBelowStep(chain, n);
        TimesCarry(chain, n, MEDIAN_TIME_SPAN - i, recentTimestamps);
        var block := Stored(db, current).value;
        recentTimestamps := recentTimestamps + [block.timestamp];
        current := block.prev;
        i, n := i + 1, n - 1;
      }
      if n > 0 {
        HashBelowStep(chain, n);
      }
      TimesOver(chain[..n], MEDIAN_TIME_SPAN - i);
      assert recentTimestamps + [] == recentTimestamps;
    }

    method PushTimestamp(ts: Int64)
      requires |recentTimestamps| <= MEDIAN_TIME_SPAN
      modifies this`recentTimestamps
      ensures recentTimestamps == MedianTime.Push(old(recentTimestamps), ts)
    {
      recentTimestamps := [ts] + recentTimestamps;
      while |recentTimestamps| > MEDIAN_TIME_SPAN
        invariant MEDIAN_TIME_SPAN <= |recentTimestamps| || recentTimestamps == [ts] + old(recentTimestamps)
        invariant recentTimestamps == [ts] + old(recentTimestamps) ||
          recentTimestamps == ([ts] + old(recentTimestamps))[..MEDIAN_TIME_SPAN]
      {
        recentTimestamps := recentTimestamps[..|recentTimestamps| - 1];
      }
    }

    method GetMedianTimePast() returns (t: Int64)
      ensures t == MedianTime.Median(recentTimestamps)
    {
      if recentTimestamps == [] { return 0; }
      var sorted := MedianTime.Sort(recentTimestamps);
      return sorted[|sorted| / 2];
    }

    /** The anchor is reached by walking back one block fewer than the interval. */
    method GetNextWorkRequired(nextBlockHeight: int) returns (bits: Int32)
      requires Valid()
      ensures bits == NextBits(chain, nextBlockHeight)
    {
      hide Linked, StoreOf;
      HashBelowStep(chain, |chain|);
      if tip == ZERO_HASH { return INITIAL_BITS; }
      var tipBlock := Stored(db, tip).value;
      if nextBlockHeight % RETARGET_INTERVAL != 0 { return tipBlock.bits; }
      var anchorHash := tip;
      ghost var n: nat := |chain|;
      for i := 0 to RETARGET_INTERVAL - 1
        invariant n == |chain| - i && n > 0 && anchorHash == HashBelow(chain, n)
      {
        HashBelowStep(chain, n);
        var b := Stored(db, anchorHash).value;
        anchorHash, n := b.prev, n - 1;
        if anchorHash == ZERO_HASH {
          if n > 0 {
            HashBelowStep(chain, n);
          }
          return tipBlock.bits;
        }
      }
      HashBelowStep(chain, n);
      var anchorBlock := Stored(db, anchorHash).value;
      return Retarget.Retarget(tipBlock.bits, tipBlock.timestamp - anchorBlock.timestamp);
    }

    /** Writes a block and makes it the tip; sound unless the hash is taken or marks the end of the walk. */
    method Append(block: Block)
      requires Valid() && |block.hash| == 32 && block.prev == tip && MIN_BITS <= block.bits <= MAX_BITS
      modifies this
      ensures chain == old(chain) + [block] && db == WithBlock(old(db), block, |old(chain)|)
      ensures tip == block.hash && tipHeight == old(tipHeight) + 1 && recentTimestamps == RecentTimes(chain)
      ensures Valid() <==> block.hash != ZERO_HASH && !HashIn(old(chain), block.hash)
    {
      RecentTimesPush(chain, block);
      NewestTimesCount(chain, MEDIAN_TIME_SPAN);
      StoredKeepsLinked(chain, block);
      hide Linked, StoreOf, NewestTimes, MedianTime.Push;
      db := WithBlock(db, block, tipHeight + 1);
      tip := block.hash;
      tipHeight := tipHeight + 1;
      PushTimestamp(block.timestamp);
      chain := chain + [block];
    }

    /**
     * Stores the block, says nothing about one that is already there, and throws on the rest. The one block it
     * stores that breaks the store is a block whose hash marks the end of the walk.
     */
    method AddBlock(block: Block, now: int) returns (r: AddResult)
      requires Valid() && |block.hash| == 32
      modifies this
      ensures r == AddOutcome(old(chain), block, now)
      ensures r != Added ==> chain == old(chain) && db == old(db) && Valid()
      ensures r == Added ==> chain == old(chain) + [block] && db == WithBlock(old(db), block, |old(chain)|)
      ensures r == Added ==> tip == block.hash && tipHeight == |old(chain)|
      ensures r == Added ==> (Valid() <==> block.hash != ZERO_HASH)
      ensures r == Added ==> MedianTimePast(old(chain)) < block.timestamp <= now + 7200
    {
      hide Linked, StoreOf;
      if block.prev != tip { return Rejected; }
      var expectedBits := GetNextWorkRequired(tipHeight + 1);
      if block.bits != expectedBits { return Rejected; }
      var mtp := GetMedianTimePast();
      if block.timestamp <= mtp { return Rejected; }
      if block.timestamp > now + MAX_FUTURE_BLOCK_TIME { return Rejected; }
      StoreKeys(chain, block.hash);
      if block.hash in db.blocks { return AlreadyKnown; }
      NextBitsInRange(chain, tipHeight + 1);
      Append(block);
      return Added;
    }

    /** Mining on the chain itself: the clock is not checked, nor whether the hash is already there. */
    method MineBlock(k: V.Crypto, transactions: seq<Transaction>, now: Int64) returns (r: Result<Block>)
      requires Valid()
      modifies this
      ensures r.Ok? <==> transactions != [] && AllPass(k, old(chain), transactions)
      ensures r.Throws? ==> chain == old(chain) && db == old(db) && Valid()
      ensures r.Ok? ==> r.value.txs == transactions && r.value.prev == old(tip) && r.value.timestamp == now
      ensures r.Ok? ==> r.value.bits == NextBits(old(chain), |old(chain)|)
      ensures r.Ok? ==> (r.value.nonce < ProofOfWork.MAX_NONCE <==> ProofOfWork.Mined(k.sha, r.value))
      ensures r.Ok? ==> chain == old(chain) + [r.value] && db == WithBlock(old(db), r.value, |old(chain)|)
      ensures r.Ok? ==> recentTimestamps == RecentTimes(chain)
      ensures r.Ok? ==> (Valid() <==> r.value.hash != ZERO_HASH && !HashIn(old(chain), r.value.hash))
    {
      hide Linked, StoreOf, V.Check, ProofOfWork.Mined;
      for t := 0 to |transactions|
        invariant Valid() && chain == old(chain) && db == old(db) && tip == old(tip)
        invariant AllPass(k, chain, transactions[..t])
      {
        assert transactions[..t + 1] == transactions[..t] + [transactions[t]];
        var checked := VerifyTransaction(k, transactions[t]);
        if !checked.Fee? { return Throws; }
      }
      assert transactions[..|transactions|] == transactions;
      if transactions == [] { return Throws; }
      var nextBits := GetNextWorkRequired(tipHeight + 1);
      NextBitsInRange(chain, tipHeight + 1);
      var newBlock := ProofOfWork.NewBlock(k.sha, transactions, tip, nextBits, now);
      Append(newBlock);
      return Ok(newBlock);
    }

    // ------------------------------------------------------------ questions

    method GetBlock(hash: Bytes) returns (r: Result<Block>)
      requires Valid()
      ensures r.Ok? <==> HashIn(chain, hash)
      ensures r.Ok? ==> r.value in chain && r.value.hash == hash
    {
      StoreKeys(chain, hash);
      if hash !in db.blocks { return Throws; }
      ghost var i := HashInAt(chain, hash);
      StoreLookup(chain, i);
      return Ok(db.blocks[hash]);
    }

    /** A block's distance from genesis, or -1 for a hash that is not on the chain. */
    method GetBlockHeight(hash: Bytes) returns (height: int)
      requires Valid()
      ensures -1 <= height < |chain|
      ensures height >= 0 ==> chain[height].hash == hash
      ensures height == -1 ==> !HashIn(chain, hash)
    {
      StoreKeys(chain, hash);
      if hash !in db.heights { return -1; }
      ghost var i := HashInAt(chain, hash);
      StoreLookup(chain, i);
      return db.heights[hash];
    }

    method CollectHashes() returns (newestFirst: seq<Bytes>)
      requires Valid()
      ensures |newestFirst| == |chain| && forall i :: 0 <= i < |chain| ==> newestFirst[i] == chain[|chain| - 1 - i].hash
    {
      hide Linked, StoreOf;
      var bci := new BlockchainIterator(tip, db);
      ghost var n: nat := |chain|;
      newestFirst := [];
      var more := bci.HasBlock(chain, n);
      while more
        invariant bci.Before(chain, n) && (more <==> n > 0)
        invariant |newestFirst| == |chain| - n
        invariant forall i :: 0 <= i < |newestFirst| ==> newestFirst[i] == chain[|chain| - 1 - i].hash
        decreases n
      {
        var block := bci.NextBlock(chain, n);
        n := n - 1;
        newestFirst := newestFirst + [block.hash];
        more := bci.HasBlock(chain, n);
      }
    }

    /** The hashes are collected newest first, reversed, and searched from the oldest. */
    method GetBlockHashesAfter(afterHash: Bytes) returns (hashes: seq<Bytes>)
      requires Valid()
      ensures hashes == HashesAfter(chain, afterHash)
    {
      hide Linked, StoreOf, Hashes, HashesAfter;
      var newestFirst := CollectHashes();
      var allHashes := Reverse(newestFirst);
      OldestFirst(chain, newestFirst, allHashes);
      var i := Find(allHashes, afterHash);
      SuffixIs(chain, afterHash, i);
      return if i == |allHashes| then [] else allHashes[i + 1..];
    }

    method FindTransactionWithHeight(id: Bytes) returns (r: Option<(Transaction, int)>)
      requires Valid()
      ensures r == FindTx(chain, id)
    {
      hide Linked, StoreOf;
      var bci := new BlockchainIterator(tip, db);
      ghost var n: nat := |chain|;
      assert chain[..n] == chain;
      var more := bci.HasBlock(chain, n);
      while more
        invariant bci.Before(chain, n) && (more <==> n > 0)
        invariant FindTx(chain[..n], id) == FindTx(chain, id)
        decreases n
      {
        SlicePop(chain, n);
        HashBelowStep(chain, n);
        var block := bci.NextBlock(chain, n);
        n := n - 1;
        for t := 0 to |block.txs|
          invariant FindInBlock(block.txs, id) == FindInBlock(block.txs[t..], id)
        {
          if block.txs[t].id == id {
            return Some((block.txs[t], HeightOf(db, block.hash)));
          }
          assert block.txs[t..][1..] == block.txs[t + 1..];
        }
        more := bci.HasBlock(chain, n);
      }
      return None;
    }

    /** The unspent outputs of the whole chain, scanned newest block first. */
    method FindUTXO() returns (utxo: U.Index)
      requires Valid() && forall i :: 0 <= i < |chain| ==> U.Fits(chain[i].txs)
      ensures utxo == U.Rebuild(chain)
    {
      hide Linked, StoreOf, U.ScanTxs, Listed;
      var bci := new BlockchainIterator(tip, db);
      ghost var n: nat := |chain|;
      var spentTXOs: IndexLists := map[];
      utxo := map[];
      assert chain[..n] == chain;
      NothingSpent();
      var more := bci.HasBlock(chain, n);
      while more
        invariant bci.Before(chain, n) && (more <==> n > 0)
        invariant U.ScanDown(chain[..n], U.Scan(utxo, Listed(spentTXOs))).utxo == U.Rebuild(chain)
        decreases n
      {
        SlicePop(chain, n);
        HashBelowStep(chain, n);
        var block := bci.NextBlock(chain, n);
        n := n - 1;
        utxo, spentTXOs := UtxoScan.ScanBlock(utxo, spentTXOs, block.txs, HeightOf(db, block.hash));
        more := bci.HasBlock(chain, n);
      }
    }

    // ------------------------------------------------------------ verifying a transaction

    /** A previous transaction: from the block under way if it is there, else from the chain. */
    method FindPrevious(blockCtx: V.Context, spendHeight: int, id: Bytes) returns (r: V.Found)
      requires Valid()
      ensures r == V.Lookup(chain, blockCtx, spendHeight, id)
    {
      hide Linked, StoreOf, FindTx;
      if id in blockCtx {
        if blockCtx[id].IsCoinbase() { return V.TooYoung; }
        return V.Found(blockCtx[id]);
      }
      var found := FindTransactionWithHeight(id);
      if found.None? { return V.NotFound; }
      var (prevTX, prevHeight) := found.value;
      if prevTX.IsCoinbase() && spendHeight - prevHeight < COINBASE_MATURITY { return V.TooYoung; }
      return V.Found(prevTX);
    }

    method CollectPrevious(blockCtx: V.Context, spendHeight: int, vin: seq<TxIn>) returns (r: V.Gathered)
      requires Valid()
      ensures r == V.Gather(chain, blockCtx, spendHeight, vin)
    {
      hide Linked, StoreOf, V.Lookup;
      var prevTXs: V.Context := map[];
      for i := 0 to |vin|
        invariant V.Gather(chain, blockCtx, spendHeight, vin[..i]) == V.Prevs(prevTXs)
      {
        assert vin[..i + 1][..i] == vin[..i];
        var found := FindPrevious(blockCtx, spendHeight, vin[i].txid);
        match found {
          case Found(tx) =>
            if vin[i].txid !in prevTXs {
              prevTXs := prevTXs[vin[i].txid := tx];
            }
          case TooYoung =>
            GatherStays(chain, blockCtx, spendHeight, vin, i + 1);
            return V.Immature;
          case NotFound =>
            GatherStays(chain, blockCtx, spendHeight, vin, i + 1);
            return V.Missing;
        }
      }
      assert vin[..|vin|] == vin;
      return V.Prevs(prevTXs);
    }

    method VerifyWith(k: V.Crypto, tx: Transaction, blockCtx: V.Context, spendHeight: int) returns (r: V.Checked)
      requires Valid()
      ensures r == V.Check(k, chain, blockCtx, spendHeight, tx)
    {
      hide Linked, StoreOf, V.Gather, V.CheckAgainst;
      if tx.IsCoinbase() { return V.Fee(0); }
      if tx.vin == [] || tx.vout == [] { return V.Refused; }
      var prevTXs := CollectPrevious(blockCtx, spendHeight, tx.vin);
      match prevTXs {
        case Missing => return V.Aborted;
        case Immature => return V.Refused;
        case Prevs(prevs) => r := Settle(k, tx, prevs);
      }
    }

    /** For the mempool and the miner. */
    method VerifyTransaction(k: V.Crypto, tx: Transaction) returns (r: V.Checked)
      requires Valid()
      ensures r == V.CheckOnChain(k, chain, tx)
    {
      r := VerifyWith(k, tx, map[], tipHeight);
    }

    /** For a block: transactions before it in the block come first, and may not be coinbases. */
    method VerifyInBlock(k: V.Crypto, tx: Transaction, blockCtx: V.Context) returns (r: V.Checked)
      requires Valid()
      ensures r == V.CheckInBlock(k, chain, blockCtx, tx)
    {
      r := VerifyWith(k, tx, blockCtx, tipHeight + 1);
    }

    /** The fee, then the signatures, against the previous transactions gathered. */
    method Settle(k: V.Crypto, tx: Transaction, prevTXs: V.Context) returns (r: V.Checked)
      ensures r == V.CheckAgainst(k, tx, prevTXs)
    {
      var fee := TransactionOps.CalculateFee(tx, prevTXs);
      if fee.Throws? { return V.Aborted; }
      if fee.value < 0 { return V.Refused; }
      var good := TransactionOps.Verify(k, tx, prevTXs);
      if good.Throws? { return V.Aborted; }
      if !good.value { return V.Refused; }
      return V.Fee(fee.value);
    }
  }
}

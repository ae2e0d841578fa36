/** A node: its chain, index and pool, and its handlers for the messages of a peer (`src/node.cpp`). */
module Node {
  import opened Base
  import opened BlockAssembly
  import opened Ledger
  import opened ChainModel
  import opened ChainStore
  import opened IndexStep
  import opened Mempool
  import opened Protocol
  import opened Relay
  import opened UtxoIndex
  import opened UtxoSet
  import opened Validation
  import BlockCheck
  import BlockCodec
  import InvCodec
  import ProofOfWork
  import T = TransactionCodec
  import UtxoUpdate

  /** One connection; what is sent over it is appended to `outbox`. */
  class PeerState {
    const addr: nat
    var connected: bool
    var versionSent: bool
    var versionReceived: bool
    var handshakeComplete: bool
    var remoteHeight: int
    var misbehaviorScore: int
    var outbox: seq<Msg>

    constructor (addr: nat)
      ensures View() == Link(addr, true, false, false, false, -1, 0) && outbox == []
    {
      this.addr, connected, versionSent, versionReceived, handshakeComplete := addr, true, false, false, false;
      remoteHeight, misbehaviorScore, outbox := -1, 0, [];
    }

    function View(): Link
      reads this
    {
      Link(addr, connected, versionSent, versionReceived, handshakeComplete, remoteHeight, misbehaviorScore)
    }

    method SendMessage(m: Msg)
      modifies this`outbox
      ensures outbox == old(outbox) + [m]
    {
      outbox := outbox + [m];
    }

    /** A peer whose score reaches the threshold is banned and disconnected. */
    method Punish(score: int)
      modifies this
      ensures View() == Misbehave(old(View()), score) && outbox == old(outbox)
    {
      misbehaviorScore := misbehaviorScore + score;
      if misbehaviorScore >= BAN_SCORE_THRESHOLD {
        connected := false;
      }
    }
  }

  function Transactions(entries: Entries): map<Bytes, Transaction> {
    map id | id in entries :: entries[id].tx
  }

  class Node {
    const blockchain: Blockchain
    const utxoSet: UTXOSet
    const mempool: Mempool
    var blockchainHeight: int
    var syncing: bool
    var syncPeerAddr: nat

    constructor (blockchain: Blockchain, utxoSet: UTXOSet, mempool: Mempool)
      requires blockchain.Valid() && mempool.Valid() && utxoSet.blockchain == blockchain
      ensures Valid() && this.blockchain == blockchain && this.utxoSet == utxoSet && this.mempool == mempool
      ensures !syncing && syncPeerAddr == 0
    {
      hide Linked, StoreOf, NewestTimes, Sound;
      this.blockchain, this.utxoSet, this.mempool := blockchain, utxoSet, mempool;
      blockchainHeight, syncing, syncPeerAddr := blockchain.tipHeight, false, 0;
    }

    ghost predicate Valid()
      reads this, blockchain, utxoSet, mempool
    {
      blockchain.Valid() && mempool.Valid() && utxoSet.blockchain == blockchain &&
      blockchainHeight == blockchain.tipHeight
    }

    /** The index is the one that grew with the chain, block by block. */
    ghost predicate InStep()
      reads this, blockchain, utxoSet
    {
      utxoSet.db == UtxoUpdate.Incremental(blockchain.chain)
    }

    ghost function View(): Local
      reads this, blockchain, mempool
    {
      Local(blockchain.chain, Transactions(mempool.entries), syncing, syncPeerAddr)
    }

    // ------------------------------------------------------------ handshake

    method SendVersion(peer: PeerState)
      modifies peer
      ensures peer.View() == old(peer.View()).(versionSent := true)
      ensures peer.outbox == old(peer.outbox) + [Version(blockchainHeight)]
    {
      peer.SendMessage(Version(blockchainHeight));
      peer.versionSent := true;
    }

    method HandleVersion(peer: PeerState, startHeight: int)
      requires Valid()
      modifies this`syncing, this`syncPeerAddr, peer
      ensures Valid()
      ensures var out := OnVersion(old(View()), old(peer.View()), startHeight);
              View() == out.local && peer.View() == out.link && peer.outbox == old(peer.outbox) + out.replies
    {
      hide Linked, StoreOf, NewestTimes, Sound;
      peer.versionReceived := true;
      peer.remoteHeight := startHeight;
      if !peer.versionSent {
        SendVersion(peer);
      }
      peer.SendMessage(Verack);
      if startHeight > blockchainHeight && !syncing {
        syncing, syncPeerAddr := true, peer.addr;
        peer.SendMessage(GetBlocks(blockchain.tip));
      }
    }

    method HandleVerack(peer: PeerState)
      modifies peer
      ensures var out := OnVerack(View(), old(peer.View()));
              peer.View() == out.link && peer.outbox == old(peer.outbox) + out.replies
    {
      peer.handshakeComplete := true;
      peer.SendMessage(GetAddr);
    }

    // ------------------------------------------------------------ sync

    method HandleGetBlocks(peer: PeerState, tipHash: Bytes)
      requires blockchain.Valid()
      modifies peer`outbox
      ensures peer.outbox == old(peer.outbox) + OnGetBlocks(View(), old(peer.View()), tipHash).replies
    {
      hide Linked, StoreOf, NewestTimes, HashesAfter, Transactions;
      var hashes := blockchain.GetBlockHashesAfter(tipHash);
      if hashes == [] { return; }
      var inventory := BlockInventory(hashes);
      var inv := InvCodec.New(inventory);
      if inv.Ok? {
        peer.SendMessage(Inv(inv.value));
      }
    }

    method HandleInv(peer: PeerState, items: Items)
      modifies peer`outbox
      ensures peer.outbox == old(peer.outbox) + OnInv(View(), old(peer.View()), items).replies
    {
      hide Wanted;
      var toRequest := NotInPool(mempool.entries, items);
      if toRequest == [] { return; }
      var getData := InvCodec.New(toRequest);
      if getData.Ok? {
        peer.SendMessage(GetData(getData.value));
      }
    }

    /** The blocks asked for that are stored, then the transactions asked for that are in the pool. */
    method HandleGetData(peer: PeerState, items: Items)
      requires blockchain.Valid()
      modifies peer`outbox
      ensures peer.outbox == old(peer.outbox) + OnGetData(View(), old(peer.View()), items).replies
    {
      hide Linked, StoreOf, NewestTimes, BlocksFor, TxsFor, Transactions;
      var blocks := CollectBlocks(blockchain.db, items);
      var txs := CollectTransactions(mempool.entries, items);
      peer.outbox := peer.outbox + (blocks + txs);
    }

    // ------------------------------------------------------------ blocks

    /**
     * Adds a block to the chain, unless it is refused, and updates the index and the pool. The update runs as well for
     * a block that was not stored because its hash is taken; then the index holds transactions the chain does not.
     */
    method Commit(block: Block, now: int) returns (r: AddResult)
      requires Valid() && |block.hash| == 32 && Fits(block.txs)
      modifies this`blockchainHeight, blockchain, utxoSet, mempool
      ensures r == AddOutcome(old(blockchain.chain), block, now)
      ensures r == Rejected ==> View() == old(View()) && utxoSet.db == old(utxoSet.db)
      ensures r != Rejected ==>
                View() == old(View()).(chain := blockchain.chain, pool := old(View()).pool - TxIds(block.txs))
      ensures blockchain.chain == if r == Added then old(blockchain.chain) + [block] else old(blockchain.chain)
      ensures r != Rejected ==> utxoSet.db == UtxoUpdate.Update(old(utxoSet.db), block.txs, |blockchain.chain| - 1)
      ensures r == Added && old(InStep()) ==> InStep()
      ensures r != Rejected ==> (r == AlreadyKnown <==> HashIn(old(blockchain.chain), block.hash))
      ensures r != Rejected && old(InStep()) && NewIds(old(blockchain.chain), block) ==> (InStep() <==> r == Added)
      ensures blockchainHeight == |blockchain.chain| - 1
      ensures if r == Added then Valid() <==> block.hash != ZERO_HASH else Valid()
    {
      hide Linked, StoreOf, NewestTimes, Sound, AddOutcome, UtxoUpdate.Update, UtxoUpdate.Incremental, TxIds,
        Transactions, HashIn, Fits, NewIds, NextBits, MedianTimePast;
      OutcomeMeans(blockchain.chain, block, now);
      UtxoUpdate.OneMoreUpdate(blockchain.chain, block);
      if NewIds(blockchain.chain, block) {
        InStepExactly(blockchain.chain, block);
      }
      r := blockchain.AddBlock(block, now);
      if r == Rejected { return; }
      utxoSet.Update(block);
      WithoutMined(mempool.entries, TxIds(block.txs));
      mempool.RemoveBlockTransactions(block);
      blockchainHeight := blockchain.tipHeight;
    }

    /** Stores a block that passed, and sees whether syncing is over. */
    method StoreBlock(peer: PeerState, block: Block, now: int) returns (r: AddResult)
      requires Valid() && |block.hash| == 32 && Fits(block.txs)
      modifies this, blockchain, utxoSet, mempool
      ensures r == AddOutcome(old(blockchain.chain), block, now)
      ensures r == Rejected ==> View() == old(View()) && utxoSet.db == old(utxoSet.db)
      ensures r != Rejected ==>
                View() == OnVerdict(old(View()), peer.View(), block, if r == Added then Accept else Known).local
      ensures r != Rejected ==> utxoSet.db == UtxoUpdate.Update(old(utxoSet.db), block.txs, |blockchain.chain| - 1)
      ensures r == Added && old(InStep()) ==> InStep()
      ensures r != Rejected ==> (r == AlreadyKnown <==> HashIn(old(blockchain.chain), block.hash))
      ensures r != Rejected && old(InStep()) && NewIds(old(blockchain.chain), block) ==> (InStep() <==> r == Added)
      ensures if r == Added then Valid() <==> block.hash != ZERO_HASH else Valid()
    {
      hide Linked, StoreOf, NewestTimes, Sound, AddOutcome, UtxoUpdate.Update, UtxoUpdate.Incremental, TxIds,
        Transactions,
        HashIn, NewIds;
      r := Commit(block, now);
      if r == Rejected { return; }
      if syncing && peer.addr == syncPeerAddr && blockchainHeight >= peer.remoteHeight {
        syncing, syncPeerAddr := false, 0;
      }
    }

    /**
     * Does with a block exactly what the judgement on it says: stores it, or, if its hash is taken, updates the index
     * without storing it, or punishes the peer, or does nothing. For a block that could be stored and brings new ids,
     * the index stays in step with the chain if and only if its hash was not on the chain.
     */
    method HandleBlock(k: Crypto, peer: PeerState, payload: Bytes, now: int)
      requires Valid()
      modifies this, blockchain, utxoSet, mempool, peer
      ensures var out := OnBlock(k, old(View()), old(peer.View()), payload, now);
              View() == out.local && peer.View() == out.link && peer.outbox == old(peer.outbox) + out.replies
      ensures var verdict := VerdictOn(k, old(blockchain.chain), payload, now);
              if verdict == Accept || verdict == Known
              then utxoSet.db == UtxoUpdate.Update(old(utxoSet.db),
                                                    BlockCodec.Decode(k.sha, payload).value.txs, |blockchain.chain| - 1)
              else utxoSet.db == old(utxoSet.db)
      ensures old(InStep()) && VerdictOn(k, old(blockchain.chain), payload, now) != Known ==> InStep()
      ensures old(InStep()) && Storable(k, old(blockchain.chain), payload, now) ==>
                (InStep() <==> !HashIn(old(blockchain.chain), BlockCodec.Decode(k.sha, payload).value.hash))
      ensures VerdictOn(k, old(blockchain.chain), payload, now) == Accept ==>
                (Valid() <==> BlockCodec.Decode(k.sha, payload).value.hash != ZERO_HASH)
      ensures VerdictOn(k, old(blockchain.chain), payload, now) != Accept ==> Valid()
      ensures var r := BlockCodec.Decode(k.sha, payload);
              r.Ok? && !(MedianTimePast(old(blockchain.chain)) < r.value.timestamp <= now + 7200) ==>
                blockchain.chain == old(blockchain.chain) && utxoSet.db == old(utxoSet.db)
    {
      hide Linked, StoreOf, NewestTimes, Sound, AddOutcome, UtxoUpdate.Update, UtxoUpdate.Incremental, TxIds, Precheck,
        BlockCodec.Decode, Fits, Settled, Transactions, HashIn, NewIds;
      var r := BlockCodec.Deserialize(k.sha, payload);
      if r.Throws? { return; }
      var block := r.value;
      OutcomeMeans(blockchain.chain, block, now);
      var verdict := BlockCheck.CheckBlock(k, blockchain, block, |payload|);
      match verdict {
        case Penalise => peer.Punish(100);
        case Drop =>
        case Accept =>
          DecodedFits(k, blockchain.chain, payload);
          HashIs32(k.sha, payload);
          var added := StoreBlock(peer, block, now);
      }
    }

    // ------------------------------------------------------------ mining

    /** Fills a block from the pool, best rate first, mines it on the current tip and stores it. */
    method MineBlock(k: Crypto, address: Bytes, placeholder: Bytes, data: Bytes, time: Int64, now: int)
      returns (r: Result<Block>, ghost sorted: seq<Transaction>)
      requires Valid() && |placeholder| == |data|
      modifies this`blockchainHeight, blockchain, utxoSet, mempool
      ensures r.Ok? <==> !syncing && Fillable(k, old(blockchain.chain), address, data, sorted) &&
                         MedianTimePast(old(blockchain.chain)) < time <= now + 7200
      ensures !syncing ==> ByFeeRate(old(mempool.entries), sorted)
      ensures r.Ok? ==> Filled(k, old(blockchain.chain), address, data, sorted, r.value) && r.value.timestamp == time
      ensures r.Ok? ==> (r.value.nonce < ProofOfWork.MAX_NONCE <==> ProofOfWork.Mined(k.sha, r.value))
      ensures r.Ok? ==> AddOutcome(old(blockchain.chain), r.value, now) != Rejected
      ensures r.Ok? ==> View().pool == old(View()).pool - TxIds(r.value.txs)
      ensures r.Ok? ==> utxoSet.db == UtxoUpdate.Update(old(utxoSet.db), r.value.txs, |blockchain.chain| - 1)
      ensures r.Ok? ==> blockchain.chain == ChainAfter(old(blockchain.chain), r.value)
      ensures r.Ok? ==> (Valid() <==> HashIn(old(blockchain.chain), r.value.hash) || r.value.hash != ZERO_HASH)
      ensures r.Ok? && old(InStep()) && !HashIn(old(blockchain.chain), r.value.hash) ==> InStep()
      ensures r.Ok? && old(InStep()) && NewIds(old(blockchain.chain), r.value) ==>
                (InStep() <==> !HashIn(old(blockchain.chain), r.value.hash))
      ensures r.Throws? ==> Valid() && View() == old(View()) && utxoSet.db == old(utxoSet.db)
    {
      hide Linked, StoreOf, NewestTimes, Sound, AddOutcome, UtxoUpdate.Update, UtxoUpdate.Incremental, TxIds,
        Transactions, T.Encode, ProofOfWork.Mined,
        ByFeeRate, NextBits, Fits, Subsidy, Content, HashIn, NewIds;
      sorted := [];
      if syncing { return Throws, []; }
      var sortedTxs := mempool.GetTransactionsSortedByFeeRate();
      sorted := sortedTxs;
      var txs := FillBlock(k, blockchain, address, placeholder, data, sortedTxs);
      if txs.Throws? { return Throws, sorted; }
      ContentFits(k, blockchain.chain, address, data, sortedTxs, txs.value);
      var nextBits := blockchain.GetNextWorkRequired(blockchainHeight + 1);
      var minedBlock := ProofOfWork.NewBlock(k.sha, txs.value, blockchain.tip, nextBits, time);
      OutcomeMeans(blockchain.chain, minedBlock, now);
      var added := Commit(minedBlock, now);
      if added == Rejected { return Throws, sorted; }
      return Ok(minedBlock), sorted;
    }

    // ------------------------------------------------------------ transactions

    /** Offers the transaction to the pool at its fee rate, if it passes and pays enough. */
    method HandleTx(k: Crypto, peer: PeerState, tx: Transaction)
      requires Valid()
      modifies mempool, peer
      ensures Valid() && blockchain.chain == old(blockchain.chain) && peer.outbox == old(peer.outbox)
      ensures peer.View() == if Punished(k, old(View()), tx) then Misbehave(old(peer.View()), 10) else old(peer.View())
      ensures var verdict := JudgeTx(k, blockchain.chain, tx);
              if verdict.Offer? then Offered(old(mempool.entries), mempool.entries, tx, verdict.feeRate)
              else mempool.entries == old(mempool.entries)
    {
      hide Linked, StoreOf, NewestTimes, Sound, Check, T.Encode, Evicted, Full, FeeRate;
      if tx.id in mempool.entries { return; }
      if tx.IsCoinbase() || tx.vin == [] || tx.vout == [] { return; }
      var fee := blockchain.VerifyTransaction(k, tx);
      match fee {
        case Refused => peer.Punish(10);
        case Aborted =>
        case Fee(value) =>
          var feeRate := FeeRate(value, |T.Encode(tx)|);
          if feeRate >= MIN_RELAY_FEE_RATE {
            var accepted := mempool.AddTransaction(tx, feeRate);
          }
      }
    }

    // ------------------------------------------------------------ dispatch

    /** One message, handled as the protocol says; what becomes of a transaction is for the pool to say. */
    method DispatchMessage(k: Crypto, peer: PeerState, m: Msg, now: int, knowsAddresses: bool)
      requires Valid()
      modifies this, blockchain, utxoSet, mempool, peer
      ensures var env := Env(now, knowsAddresses, m.Tx? && Punished(k, old(View()), m.tx), View().pool);
              var out := Receive(k, env, old(View()), old(peer.View()), m);
              View() == out.local && peer.View() == out.link && peer.outbox == old(peer.outbox) + out.replies
      ensures !m.BlockData? ==> Valid()
    {
      hide Linked, StoreOf, NewestTimes, Sound, Judge, Precheck, JudgeTx, BlockCodec.Decode, T.Encode, OnVersion,
        OnBlock, Transactions, Offered, HashesAfter,
        BlockItems, Wanted, BlocksFor, TxsFor;
      if m.Version? {
        HandleVersion(peer, m.height);
        return;
      }
      if m.Verack? {
        HandleVerack(peer);
        return;
      }
      if !peer.handshakeComplete {
        peer.Punish(10);
        return;
      }
      match m {
        case Ping(nonce) => peer.SendMessage(Pong(nonce));
        case Pong(_) =>
        case Inv(items) => HandleInv(peer, items);
        case GetBlocks(tipHash) => HandleGetBlocks(peer, tipHash);
        case GetData(items) => HandleGetData(peer, items);
        case Tx(tx) => HandleTx(k, peer, tx);
        case BlockData(bytes) => HandleBlock(k, peer, bytes, now);
        case Addr =>
        case GetAddr =>
          if knowsAddresses {
            peer.SendMessage(Addr);
          }
      }
    }
  }

  /** A transaction that is new to the pool and fails on the chain is held against the peer. */
  predicate Punished(k: Crypto, n: Local, tx: Transaction) {
    tx.id !in n.pool && JudgeTx(k, n.chain, tx) == Punish
  }

  // ---------------------------------------------------------------- what becomes of a block

  /** What a payload is worth: one that cannot be read is dropped. */
  function VerdictOn(k: Crypto, c: seq<Block>, payload: Bytes, now: int): Verdict
    requires TipInRange(c)
  {
    match BlockCodec.Decode(k.sha, payload)
    case Throws => Drop
    case Ok(b) => Judge(k, c, b, |payload|, now)
  }

  lemma {:induction false} WithoutMined(entries: Entries, ids: set<Bytes>)
    ensures Transactions(entries - ids) == Transactions(entries) - ids
  {
  }

  /** A block that passes every check, whether or not its hash is taken, and brings new ids. */
  ghost predicate Storable(k: Crypto, c: seq<Block>, payload: Bytes, now: int)
    requires TipInRange(c)
  {
    var r := BlockCodec.Decode(k.sha, payload);
    r.Ok? && Precheck(k, c, r.value, |payload|) == Accept &&
    AddOutcome(c, r.value, now) != Rejected && NewIds(c, r.value)
  }

  /** A block from outside the window of time is neither stored nor known. */
  lemma {:induction false} UntimelyIsDropped(k: Crypto, c: seq<Block>, b: Block, size: nat, now: int)
    requires TipInRange(c) && !(MedianTimePast(c) < b.timestamp <= now + 7200)
    ensures Judge(k, c, b, size, now) == Drop || Judge(k, c, b, size, now) == Penalise
  {
    hide Precheck, MedianTimePast, NextBits, HashIn;
  }

  lemma {:induction false} HashIs32(sha: Sha256, payload: Bytes)
    requires BlockCodec.Decode(sha, payload).Ok?
    ensures |BlockCodec.Decode(sha, payload).value.hash| == 32
  {
  }

  /** A block small enough to be stored fits the index. */
  lemma {:induction false} DecodedFits(k: Crypto, c: seq<Block>, payload: Bytes)
    requires BlockCodec.Decode(k.sha, payload).Ok?
    requires Precheck(k, c, BlockCodec.Decode(k.sha, payload).value, |payload|) == Accept
    ensures Fits(BlockCodec.Decode(k.sha, payload).value.txs)
  {
    hide BlockCodec.Decode, RunTxs, CoinbaseOk, BlockCodec.Encode;
    BlockCodec.FewOutputsInBlock(k.sha, payload);
  }

  // ---------------------------------------------------------------- the loops of the handlers

  method BlockInventory(hashes: seq<Bytes>) returns (inventory: Items)
    ensures inventory == BlockItems(hashes)
  {
    inventory := [];
    for i := 0 to |hashes|
      invariant inventory == BlockItems(hashes[..i])
    {
      assert hashes[..i + 1][..i] == hashes[..i];
      inventory := inventory + [InvCodec.InvVector(InvCodec.Block, hashes[i])];
    }
    assert hashes[..|hashes|] == hashes;
  }

  method NotInPool(entries: Entries, items: Items) returns (toRequest: Items)
    ensures toRequest == Wanted(Transactions(entries), items)
  {
    toRequest := [];
    for i := 0 to |items|
      invariant toRequest == Wanted(Transactions(entries), items[..i])
    {
      assert items[..i + 1][..i] == items[..i];
      if items[i].kind != InvCodec.Tx || items[i].hash !in entries {
        toRequest := toRequest + [items[i]];
      }
    }
    assert items[..|items|] == items;
  }

  method CollectBlocks(db: Store, items: Items) returns (blocks: seq<Msg>)
    ensures blocks == BlocksFor(db, items)
  {
    hide BlockCodec.Encode;
    blocks := [];
    for i := 0 to |items|
      invariant blocks == BlocksFor(db, items[..i])
    {
      assert items[..i + 1][..i] == items[..i];
      if items[i].kind == InvCodec.Block && items[i].hash in db.blocks {
        blocks := blocks + [BlockData(BlockCodec.Encode(db.blocks[items[i].hash]))];
      }
    }
    assert items[..|items|] == items;
  }

  method CollectTransactions(entries: Entries, items: Items) returns (txs: seq<Msg>)
    ensures txs == TxsFor(Transactions(entries), items)
  {
    txs := [];
    for i := 0 to |items|
      invariant txs == TxsFor(Transactions(entries), items[..i])
    {
      assert items[..i + 1][..i] == items[..i];
      if items[i].kind == InvCodec.Tx && items[i].hash in entries {
        txs := txs + [Tx(entries[items[i].hash].tx)];
      }
    }
    assert items[..|items|] == items;
  }
}

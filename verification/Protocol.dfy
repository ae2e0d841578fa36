/** How a node answers each message of a peer: `src/node.cpp`, one handler at a time. */
module Protocol {
  import opened Base
  import opened Ledger
  import opened ChainModel
  import opened UtxoIndex
  import opened Validation
  import BlockCodec
  import InvCodec

  const BAN_SCORE_THRESHOLD := 100

  type Items = seq<InvCodec.InvVector>

  datatype Msg =
    | Version(height: int)
    | Verack
    | Ping(nonce: nat)
    | Pong(nonce: nat)
    | GetAddr
    | Addr
    | GetBlocks(tip: Bytes)
    | Inv(items: Items)
    | GetData(items: Items)
    | BlockData(bytes: Bytes)
    | Tx(tx: Transaction)
  {
    predicate IsHandshake() {
      Version? || Verack?
    }
  }

  /** What a node keeps for itself: its chain, its pool by id, and whom it is syncing from. */
  datatype Local = Local(chain: seq<Block>, pool: map<Bytes, Transaction>, syncing: bool, syncPeer: nat) {
    predicate Ready() {
      TipInRange(chain)
    }

    function Height(): int {
      |chain| - 1
    }
  }

  /** What a node keeps for one peer. */
  datatype Link = Link(addr: nat, connected: bool, versionSent: bool, versionReceived: bool, handshakeComplete: bool,
                       remoteHeight: int, score: int)

  /** What a handler takes from outside: the clock, whether it knows addresses, and how it judges a transaction. */
  datatype Env = Env(now: int, knowsAddresses: bool, invalidTx: bool, poolAfterTx: map<Bytes, Transaction>)

  datatype Outcome = Outcome(local: Local, link: Link, replies: seq<Msg>)

  // ---------------------------------------------------------------- handlers

  function Misbehave(l: Link, score: int): Link {
    l.(score := l.score + score, connected := l.connected && l.score + score < BAN_SCORE_THRESHOLD)
  }

  /** The version goes back first if it was not sent yet, then the verack, then the request to sync. */
  function OnVersion(n: Local, l: Link, height: int): Outcome
    requires n.Ready()
  {
    var answer := (if l.versionSent then [] else [Version(n.Height())]) + [Verack];
    var l' := l.(versionReceived := true, versionSent := true, remoteHeight := height);
    if height > n.Height() && !n.syncing
    then Outcome(n.(syncing := true, syncPeer := l.addr), l', answer + [GetBlocks(Tip(n.chain).hash)])
    else Outcome(n, l', answer)
  }

  function OnVerack(n: Local, l: Link): Outcome {
    Outcome(n, l.(handshakeComplete := true), [GetAddr])
  }

  function BlockItems(hashes: seq<Bytes>): (r: Items)
    ensures |r| == |hashes| && forall i :: 0 <= i < |r| ==> r[i] == InvCodec.InvVector(InvCodec.Block, hashes[i])
  {
    if hashes == [] then []
    else BlockItems(hashes[..|hashes| - 1]) + [InvCodec.InvVector(InvCodec.Block, hashes[|hashes| - 1])]
  }

  /** Nothing to tell, or more than one message can hold: then nothing is sent. */
  function OnGetBlocks(n: Local, l: Link, tip: Bytes): Outcome {
    var hashes := HashesAfter(n.chain, tip);
    if hashes == [] then Outcome(n, l, [])
    else match InvCodec.New(BlockItems(hashes))
      case Throws => Outcome(n, l, [])
      case Ok(items) => Outcome(n, l, [Inv(items)])
  }

  /** Transactions already in the pool are not asked for; blocks always are. */
  function Wanted(pool: map<Bytes, Transaction>, items: Items): (r: Items)
    ensures |r| <= |items|
  {
    if items == [] then []
    else
      var last := items[|items| - 1];
      Wanted(pool, items[..|items| - 1]) + if last.kind == InvCodec.Tx && last.hash in pool then [] else [last]
  }

  function OnInv(n: Local, l: Link, items: Items): Outcome {
    var wanted := Wanted(n.pool, items);
    if wanted == [] || InvCodec.New(wanted).Throws? then Outcome(n, l, []) else Outcome(n, l, [GetData(wanted)])
  }

  function BlocksFor(db: Store, items: Items): seq<Msg> {
    if items == [] then []
    else
      var last := items[|items| - 1];
      BlocksFor(db, items[..|items| - 1]) +
      if last.kind == InvCodec.Block && last.hash in db.blocks
        then [BlockData(BlockCodec.Encode(db.blocks[last.hash]))] else []
  }

  function TxsFor(pool: map<Bytes, Transaction>, items: Items): seq<Msg> {
    if items == [] then []
    else
      var last := items[|items| - 1];
      TxsFor(pool, items[..|items| - 1]) +
      if last.kind == InvCodec.Tx && last.hash in pool then [Tx(pool[last.hash])] else []
  }

  /** The blocks first, then the transactions. */
  function OnGetData(n: Local, l: Link, items: Items): Outcome {
    Outcome(n, l, BlocksFor(StoreOf(n.chain), items) + TxsFor(n.pool, items))
  }

  /** Syncing is over once the chain is as high as the peer said its own was. */
  function Settled(n: Local, l: Link): Local {
    if n.syncing && l.addr == n.syncPeer && n.Height() >= l.remoteHeight then n.(syncing := false, syncPeer := 0) else n
  }

  function OnBlock(k: Crypto, n: Local, l: Link, bytes: Bytes, now: int): Outcome
    requires n.Ready()
  {
    match BlockCodec.Decode(k.sha, bytes)
    case Throws => Outcome(n, l, [])
    case Ok(b) => OnVerdict(n, l, b, Judge(k, n.chain, b, |bytes|, now))
  }

  function OnVerdict(n: Local, l: Link, b: Block, verdict: Verdict): Outcome {
    match verdict
    case Accept => Outcome(Settled(n.(chain := n.chain + [b], pool := n.pool - TxIds(b.txs)), l), l, [])
    case Known => Outcome(Settled(n.(pool := n.pool - TxIds(b.txs)), l), l, [])
    case Penalise => Outcome(n, Misbehave(l, 100), [])
    case Drop => Outcome(n, l, [])
  }

  /** `DispatchMessage`: only the handshake itself is taken before the handshake is complete. */
  function Receive(k: Crypto, env: Env, n: Local, l: Link, m: Msg): Outcome
    requires n.Ready()
  {
    match m
    case Version(height) => OnVersion(n, l, height)
    case Verack => OnVerack(n, l)
    case _ => if l.handshakeComplete then Answer(k, env, n, l, m) else Outcome(n, Misbehave(l, 10), [])
  }

  function Answer(k: Crypto, env: Env, n: Local, l: Link, m: Msg): Outcome
    requires n.Ready() && !m.IsHandshake()
  {
    match m
    case Ping(nonce) => Outcome(n, l, [Pong(nonce)])
    case Pong(_) => Outcome(n, l, [])
    case GetAddr => Outcome(n, l, if env.knowsAddresses then [Addr] else [])
    case Addr => Outcome(n, l, [])
    case GetBlocks(tip) => OnGetBlocks(n, l, tip)
    case Inv(items) => OnInv(n, l, items)
    case GetData(items) => OnGetData(n, l, items)
    case BlockData(bytes) => OnBlock(k, n, l, bytes, env.now)
    case Tx(_) =>
      if env.invalidTx then Outcome(n, Misbehave(l, 10), []) else Outcome(n.(pool := env.poolAfterTx), l, [])
  }

  // ---------------------------------------------------------------- what the handlers share

  lemma {:induction false} RepliesAreNoHandshake(k: Crypto, env: Env, n: Local, l: Link, m: Msg)
    requires n.Ready() && !m.IsHandshake()
    ensures forall i :: 0 <= i < |Answer(k, env, n, l, m).replies| ==> !Answer(k, env, n, l, m).replies[i].IsHandshake()
    ensures var l' := Answer(k, env, n, l, m).link;
            && l'.versionSent == l.versionSent && l'.versionReceived == l.versionReceived
            && l'.handshakeComplete == l.handshakeComplete && l'.addr == l.addr
  {
    hide Judge, BlockCodec.Decode, BlocksFor, TxsFor, Wanted, HashesAfter, StoreOf, TxIds, TipInRange, InvCodec.New;
    if m.GetData? {
      DataIsNoHandshake(StoreOf(n.chain), n.pool, m.items);
    }
  }

  lemma {:induction false} DataIsNoHandshake(db: Store, pool: map<Bytes, Transaction>, items: Items)
    ensures forall i :: 0 <= i < |BlocksFor(db, items)| ==> BlocksFor(db, items)[i].BlockData?
    ensures forall i :: 0 <= i < |TxsFor(pool, items)| ==> TxsFor(pool, items)[i].Tx?
  {
    if items != [] {
      DataIsNoHandshake(db, pool, items[..|items| - 1]);
    }
  }

  lemma {:induction false} AcceptMeans(k: Crypto, c: seq<Block>, b: Block, size: nat, now: int)
    requires TipInRange(c) && Judge(k, c, b, size, now) == Accept
    ensures AddOutcome(c, b, now) == Added
  {
    hide RunTxs, CoinbaseOk, AddOutcome;
  }

  /** A node stays ready: a stored block has the difficulty the rules ask for. */
  lemma {:induction false} StaysReady(k: Crypto, env: Env, n: Local, l: Link, m: Msg)
    requires n.Ready()
    ensures Receive(k, env, n, l, m).local.Ready()
  {
    hide Judge, NextBits, BlockCodec.Decode, StoreOf, HashesAfter, BlocksFor, TxsFor, Wanted, TxIds;
    if m.BlockData? && l.handshakeComplete && BlockCodec.Decode(k.sha, m.bytes).Ok? {
      var b := BlockCodec.Decode(k.sha, m.bytes).value;
      if Judge(k, n.chain, b, |m.bytes|, env.now) == Accept {
        AcceptMeans(k, n.chain, b, |m.bytes|, env.now);
        NextBitsInRange(n.chain, |n.chain|);
      }
    }
  }

  // ---------------------------------------------------------------- what each message brings about

  /** A node that is not syncing starts to, from whoever says to be higher, and asks for what comes after its tip. */
  lemma {:induction false} VersionStartsSync(n: Local, l: Link, height: int)
    requires n.Ready()
    ensures var out := OnVersion(n, l, height); var starts := height > |n.chain| - 1 && !n.syncing;
            && out.local.chain == n.chain && out.local.pool == n.pool && out.link.remoteHeight == height
            && (out.local.syncing <==> n.syncing || starts)
            && out.local.syncPeer == (if starts then l.addr else n.syncPeer)
            && (GetBlocks(n.chain[|n.chain| - 1].hash) in out.replies <==> starts)
            && (Version(|n.chain| - 1) in out.replies <==> !l.versionSent) && Verack in out.replies
  {
    hide TipInRange;
  }

  /** Asked for what comes after the block at height `j`, a node names all of it in order, if there are 1 to 255. */
  lemma {:induction false} GetBlocksNames(n: Local, l: Link, j: nat)
    requires j < |n.chain| && forall i :: 0 <= i < j ==> n.chain[i].hash != n.chain[j].hash
    ensures var out := OnGetBlocks(n, l, n.chain[j].hash); var missing := |n.chain| - 1 - j;
            && out.local == n && out.link == l
            && if 1 <= missing <= 255
               then |out.replies| == 1 && out.replies[0].Inv? && |out.replies[0].items| == missing &&
                    forall i :: 0 <= i < missing ==>
                      out.replies[0].items[i] == InvCodec.InvVector(InvCodec.Block, n.chain[j + 1 + i].hash)
               else out.replies == []
  {
    HashesAfterIs(n.chain, n.chain[j].hash, j);
  }

  /** What is asked for of an inventory is decided item by item, in order: all but transactions already in the pool. */
  lemma {:induction false} WantedItems(pool: map<Bytes, Transaction>, items: Items, v: InvCodec.InvVector)
    ensures Wanted(pool, items + [v]) ==
      Wanted(pool, items) + if v.kind == InvCodec.Tx && v.hash in pool then [] else [v]
    ensures v in Wanted(pool, items) <==> v in items && !(v.kind == InvCodec.Tx && v.hash in pool)
  {
    assert (items + [v])[..|items|] == items;
    if items != [] {
      WantedItems(pool, items[..|items| - 1], v);
      assert items == items[..|items| - 1] + [items[|items| - 1]];
    }
  }

  /** An inventory of up to 255 items is answered with one request for all that is wanted of it, if that is anything. */
  lemma {:induction false} InventoryAsks(n: Local, l: Link, items: Items)
    requires |items| <= 255
    ensures var out := OnInv(n, l, items);
            && out.local == n && out.link == l
            && (out.replies == [] <==> forall v :: v in items ==> v.kind == InvCodec.Tx && v.hash in n.pool)
            && (out.replies != [] ==> out.replies == [GetData(Wanted(n.pool, items))])
  {
    hide Wanted;
    var wanted := Wanted(n.pool, items);
    forall v ensures v in wanted <==> v in items && !(v.kind == InvCodec.Tx && v.hash in n.pool) {
      WantedItems(n.pool, items, v);
    }
    if wanted == [] {
      forall v | v in items ensures v.kind == InvCodec.Tx && v.hash in n.pool {
        assert v !in wanted;
      }
    } else {
      assert wanted[0] in wanted;
    }
  }

  /** What is sent for one more item: the block or the transaction of that hash, if the node has it. */
  lemma {:induction false} DataForItem(db: Store, pool: map<Bytes, Transaction>, items: Items, v: InvCodec.InvVector)
    ensures BlocksFor(db, items + [v]) == BlocksFor(db, items) +
      if v.kind == InvCodec.Block && v.hash in db.blocks then [BlockData(BlockCodec.Encode(db.blocks[v.hash]))] else []
    ensures TxsFor(pool, items + [v]) == TxsFor(pool, items) +
      if v.kind == InvCodec.Tx && v.hash in pool then [Tx(pool[v.hash])] else []
  {
    hide BlockCodec.Encode;
    assert (items + [v])[..|items|] == items;
  }

  /** Each transaction sent for an inventory is one of the pool that was asked for, and all of those are sent. */
  lemma {:induction false} TxsAsked(pool: map<Bytes, Transaction>, items: Items, tx: Transaction)
    ensures Tx(tx) in TxsFor(pool, items) <==>
      exists v :: v in items && v.kind == InvCodec.Tx && v.hash in pool && pool[v.hash] == tx
  {
    if items != [] {
      var init, last := items[..|items| - 1], items[|items| - 1];
      TxsAsked(pool, init, tx);
      assert items == init + [last];
    }
  }

  /**
   * What a block brings about: a stored one extends the chain; the pool loses the transactions of a stored or known one
   * and no others; its sender is cut off exactly if it is punished; and syncing ends exactly when a stored or known
   * one from the peer synced with leaves the chain as high as that peer said to be.
   */
  lemma {:induction false} BlockBringsAbout(k: Crypto, n: Local, l: Link, bytes: Bytes, now: int)
    requires n.Ready() && BlockCodec.Decode(k.sha, bytes).Ok? && l.score >= 0
    ensures var b, out := BlockCodec.Decode(k.sha, bytes).value, OnBlock(k, n, l, bytes, now);
            var verdict := Judge(k, n.chain, b, |bytes|, now); var taken := verdict == Accept || verdict == Known;
            && out.replies == [] && out.local.chain == n.chain + (if verdict == Accept then [b] else [])
            && (forall id :: id in out.local.pool <==>
                  id in n.pool && !(taken && exists t :: 0 <= t < |b.txs| && b.txs[t].id == id))
            && (verdict != Penalise ==> out.link == l)
            && (verdict == Penalise ==> out.link.score == l.score + 100 && !out.link.connected)
            && (out.local.syncing <==>
                  n.syncing && !(taken && l.addr == n.syncPeer && |out.local.chain| - 1 >= l.remoteHeight))
  {
    hide BlockCodec.Decode, Judge, TipInRange;
    var b := BlockCodec.Decode(k.sha, bytes).value;
    forall id | id in TxIds(b.txs) ensures exists t :: 0 <= t < |b.txs| && b.txs[t].id == id {
      var tx :| tx in b.txs && tx.id == id;
    }
    assert n.chain + [] == n.chain;
  }

  /** Points add up, and a peer is listened to as long as they are fewer than a hundred. */
  lemma {:induction false} CutOffAtHundred(l: Link, first: nat, second: nat)
    requires l.connected && l.score == 0
    ensures var after := Misbehave(Misbehave(l, first), second);
            after.score == first + second && (after.connected <==> first + second < 100)
  {
  }

  /** A ping is answered with a pong of the same nonce. */
  lemma {:induction false} PingComesBack(k: Crypto, env: Env, n: Local, l: Link, nonce: nat)
    requires n.Ready()
    ensures var out := Receive(k, env, n, l, Ping(nonce));
            out.local == n && out.replies == (if l.handshakeComplete then [Pong(nonce)] else [])
  {
  }
}

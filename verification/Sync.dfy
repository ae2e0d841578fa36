/**
 * A node that is behind asks a node that is ahead for its blocks. Every node answers each message in one way, so
 * what the two send each other is fixed from the start, and a run can only differ in how far each side has got.
 */
module Sync {
  import opened Base
  import opened Ledger
  import opened ChainModel
  import opened Handshake
  import opened Protocol
  import opened Validation
  import BlockCodec
  import InvCodec

  /** The chain of the server, how much of it the requester has, and who opened the connection. */
  datatype Gap = Gap(chain: seq<Block>, have: nat, fromRequester: bool, serverAddr: nat, requesterAddr: nat) {
    ghost predicate Valid() {
      Linked(chain) && BitsInRange(chain) && 0 < have < |chain|
    }

    function Missing(): nat
      requires have <= |chain|
    {
      |chain| - have
    }

    predicate FitsOneMessage()
      requires have <= |chain|
    {
      Missing() <= InvCodec.MAX_INV
    }
  }

  /** Every missing block passes at time `since`, on top of the blocks before it. */
  ghost predicate Passing(k: Crypto, g: Gap, since: int)
    requires g.Valid()
  {
    forall h :: g.have <= h < |g.chain| ==>
      && BlockCodec.Encodable(k.sha, g.chain[h])
      && TipInRange(g.chain[..h])
      && Judge(k, g.chain[..h], g.chain[h], |BlockCodec.Encode(g.chain[h])|, since) == Accept
  }

  // ---------------------------------------------------------------- messages that do not matter here

  predicate OnlyTxs(items: Items) {
    forall i :: 0 <= i < |items| ==> items[i].kind == InvCodec.Tx
  }

  predicate IsNoise(m: Msg) {
    match m
    case Ping(_) => true
    case Pong(_) => true
    case GetAddr => true
    case Addr => true
    case Tx(_) => true
    case Inv(items) => OnlyTxs(items)
    case GetData(items) => OnlyTxs(items)
    case _ => false
  }

  predicate AllNoise(ms: seq<Msg>) {
    forall i :: 0 <= i < |ms| ==> IsNoise(ms[i])
  }

  function Kept(m: Msg): seq<Msg> {
    if IsNoise(m) then [] else [m]
  }

  function Core(ms: seq<Msg>): seq<Msg> {
    if ms == [] then [] else Kept(ms[0]) + Core(ms[1..])
  }

  lemma {:induction false} CoreAppend(a: seq<Msg>, b: seq<Msg>)
    ensures Core(a + b) == Core(a) + Core(b)
  {
    hide Kept;
    if a == [] {
      assert a + b == b;
    } else {
      CoreAppend(a[1..], b);
      assert (a + b)[1..] == a[1..] + b && (a + b)[0] == a[0];
      assert Kept(a[0]) + (Core(a[1..]) + Core(b)) == (Kept(a[0]) + Core(a[1..])) + Core(b);
    }
  }

  lemma {:induction false} CoreNoise(ms: seq<Msg>)
    requires AllNoise(ms)
    ensures Core(ms) == []
  {
    if ms != [] {
      CoreNoise(ms[1..]);
    }
  }

  lemma {:induction false} CoreAll(ms: seq<Msg>)
    requires forall i :: 0 <= i < |ms| ==> !IsNoise(ms[i])
    ensures Core(ms) == ms
  {
    if ms != [] {
      CoreAll(ms[1..]);
      assert ms == [ms[0]] + ms[1..];
    }
  }

  lemma {:induction false} WantedTxs(pool: map<Bytes, Transaction>, items: Items)
    requires OnlyTxs(items)
    ensures OnlyTxs(Wanted(pool, items))
  {
    if items != [] {
      WantedTxs(pool, items[..|items| - 1]);
    }
  }

  lemma {:induction false} NoBlocksFor(db: Store, items: Items)
    requires OnlyTxs(items)
    ensures BlocksFor(db, items) == []
  {
    if items != [] {
      NoBlocksFor(db, items[..|items| - 1]);
    }
  }

  /** A transaction that the receiver holds against its sender. */
  predicate IsInvalid(env: Env, m: Msg) {
    m.Tx? && env.invalidTx
  }

  /** Noise is answered with noise, and changes nothing but the pool, and the score for an invalid transaction. */
  lemma {:induction false} NoiseAnswer(k: Crypto, env: Env, n: Local, l: Link, m: Msg)
    requires n.Ready() && IsNoise(m)
    ensures var out := Answer(k, env, n, l, m);
            && AllNoise(out.replies) && out.link == (if IsInvalid(env, m) then Misbehave(l, 10) else l)
            && out.local == n.(pool := out.local.pool)
  {
    hide Wanted, BlocksFor, TxsFor, StoreOf, TipInRange, Judge;
    match m {
      case Inv(items) => WantedTxs(n.pool, items);
      case GetData(items) =>
        NoBlocksFor(StoreOf(n.chain), items);
        DataIsNoHandshake(StoreOf(n.chain), n.pool, items);
      case _ =>
    }
  }

  // ---------------------------------------------------------------- the two streams

  function MissingItems(g: Gap): Items
    requires g.have <= |g.chain|
  {
    BlockItems(Hashes(g.chain[g.have..]))
  }

  function DataOf(blocks: seq<Block>): (r: seq<Msg>)
    ensures |r| == |blocks| && forall i :: 0 <= i < |r| ==> r[i] == BlockData(BlockCodec.Encode(blocks[i]))
  {
    seq(|blocks|, i requires 0 <= i < |blocks| => BlockData(BlockCodec.Encode(blocks[i])))
  }

  function MissingBlocks(g: Gap): (r: seq<Msg>)
    requires g.have <= |g.chain|
    ensures |r| == g.Missing()
    ensures forall i :: 0 <= i < |r| ==> r[i] == BlockData(BlockCodec.Encode(g.chain[g.have + i]))
  {
    DataOf(g.chain[g.have..])
  }

  /** All the requester ever sends, apart from noise. */
  function ToServer(g: Gap): seq<Msg>
    requires 0 < g.have <= |g.chain|
  {
    [Version(g.have - 1), Verack, GetBlocks(g.chain[g.have - 1].hash)] +
    if g.FitsOneMessage() then [GetData(MissingItems(g))] else []
  }

  /** All the server ever sends, apart from noise. */
  function ToRequester(g: Gap): seq<Msg>
    requires g.have <= |g.chain|
  {
    [Version(|g.chain| - 1), Verack] + if g.FitsOneMessage() then [Inv(MissingItems(g))] + MissingBlocks(g) else []
  }

  /** How much the requester has sent once it has handled `j` messages. */
  function SentByRequester(g: Gap, j: nat): nat {
    if j == 0 then (if g.fromRequester then 1 else 0) else if j < 3 then 3 else 4
  }

  /** How much the server has sent once it has handled `i` messages. */
  function SentByServer(g: Gap, i: nat): nat
    requires g.have <= |g.chain|
  {
    if i == 0 then (if g.fromRequester then 0 else 1)
    else if i < 3 || !g.FitsOneMessage() then 2
    else if i == 3 then 3
    else 3 + g.Missing()
  }

  /** The stream piece by piece, as it is sent. */
  lemma {:induction false} ToServerIs(g: Gap)
    requires g.Valid()
    ensures |ToServer(g)| == (if g.FitsOneMessage() then 4 else 3)
    ensures ToServer(g)[0] == Version(g.have - 1) && ToServer(g)[1] == Verack
    ensures ToServer(g)[2] == GetBlocks(g.chain[g.have - 1].hash)
    ensures ToServer(g)[0..3] == [Version(g.have - 1), Verack, GetBlocks(g.chain[g.have - 1].hash)]
    ensures ToServer(g)[1..3] == [Verack, GetBlocks(g.chain[g.have - 1].hash)]
    ensures g.FitsOneMessage() ==>
              ToServer(g)[3] == GetData(MissingItems(g)) && ToServer(g)[3..4] == [GetData(MissingItems(g))]
  {
    hide MissingItems;
  }

  lemma {:induction false} ToRequesterIs(g: Gap)
    requires g.Valid()
    ensures |ToRequester(g)| == (if g.FitsOneMessage() then 3 + g.Missing() else 2)
    ensures ToRequester(g)[0] == Version(|g.chain| - 1) && ToRequester(g)[1] == Verack
    ensures ToRequester(g)[0..2] == [Version(|g.chain| - 1), Verack] && ToRequester(g)[1..2] == [Verack]
    ensures g.FitsOneMessage() ==>
              ToRequester(g)[2] == Inv(MissingItems(g)) && ToRequester(g)[2..3] == [Inv(MissingItems(g))]
    ensures g.FitsOneMessage() ==> ToRequester(g)[3..3 + g.Missing()] == MissingBlocks(g)
    ensures g.FitsOneMessage() ==>
      forall j :: 3 <= j < 3 + g.Missing() ==>
        ToRequester(g)[j] == BlockData(BlockCodec.Encode(g.chain[g.have + j - 3]))
  {
    hide MissingItems, BlockCodec.Encode, Linked, BitsInRange;
    if g.FitsOneMessage() {
      Appended([Version(|g.chain| - 1), Verack], [Inv(MissingItems(g))], MissingBlocks(g));
    }
  }

  lemma {:induction false} Appended(a: seq<Msg>, b: seq<Msg>, c: seq<Msg>)
    requires |a| == 2 && |b| == 1
    ensures var all := a + (b + c); all[0..2] == a && all[1..2] == [a[1]] && all[2..3] == b && all[3..3 + |c|] == c
  {
  }

  // ---------------------------------------------------------------- where a run can be

  function RequesterLink(g: Gap, j: nat): Link {
    Link(g.serverAddr, true, g.fromRequester || j >= 1, j >= 1, j >= 2, if j >= 1 then |g.chain| - 1 else -1, 0)
  }

  function ServerLink(g: Gap, i: nat): Link {
    Link(g.requesterAddr, true, !g.fromRequester || i >= 1, i >= 1, i >= 2, if i >= 1 then g.have - 1 else -1, 0)
  }

  /** The same link with a score; at the threshold the peer is no longer listened to. */
  function Scored(l: Link, score: int): Link {
    l.(score := score, connected := score < BAN_SCORE_THRESHOLD)
  }

  function BlocksHeld(g: Gap, j: nat): nat {
    g.have + if j < 3 then 0 else j - 3
  }

  ghost predicate RequesterAt(g: Gap, n: Local, j: nat) {
    && BlocksHeld(g, j) <= |g.chain| && n.chain == g.chain[..BlocksHeld(g, j)]
    && (n.syncing <==> j >= 1 && BlocksHeld(g, j) < |g.chain|)
    && n.syncPeer == if n.syncing then g.serverAddr else 0
  }

  /** The requester has handled `j` messages and the server `i`; what is under way is the rest of what was sent. */
  ghost predicate Reached(g: Gap, net: Net, i: nat, j: nat)
    requires g.Valid()
  {
    && i <= SentByRequester(g, j) <= |ToServer(g)| && j <= SentByServer(g, i) <= |ToRequester(g)|
    && RequesterAt(g, net.x.local, j) && net.x.link == Scored(RequesterLink(g, j), net.x.link.score)
    && net.y.local.chain == g.chain && net.y.link == Scored(ServerLink(g, i), net.y.link.score)
    && Core(net.toY) == ToServer(g)[i..SentByRequester(g, j)]
    && Core(net.toX) == ToRequester(g)[j..SentByServer(g, i)]
  }

  // ---------------------------------------------------------------- the requester's steps

  /** The requester's turn went as planned: it has handled one message more, and sent what comes next. */
  ghost predicate RequesterMoved(g: Gap, out: Outcome, j: nat)
    requires g.Valid()
  {
    && SentByRequester(g, j) <= SentByRequester(g, j + 1) <= |ToServer(g)|
    && RequesterAt(g, out.local, j + 1) && out.link == RequesterLink(g, j + 1)
    && Core(out.replies) == ToServer(g)[SentByRequester(g, j)..SentByRequester(g, j + 1)]
  }

  lemma {:induction false} RequesterGetsVersion(g: Gap, n: Local)
    requires g.Valid() && n.Ready() && RequesterAt(g, n, 0)
    ensures RequesterMoved(g, OnVersion(n, RequesterLink(g, 0), |g.chain| - 1), 0)
  {
    hide ToServer, Linked, TipInRange, OnVersion;
    RequesterAsks(g, n);
    CoreAll(OnVersion(n, RequesterLink(g, 0), |g.chain| - 1).replies);
    ToServerIs(g);
  }

  /** The version unless it has gone out before, the verack, and the request for what is missing. */
  lemma {:induction false} RequesterAsks(g: Gap, n: Local)
    requires g.Valid() && n.Ready() && RequesterAt(g, n, 0)
    ensures var out := OnVersion(n, RequesterLink(g, 0), |g.chain| - 1);
            && out.link == RequesterLink(g, 1) && RequesterAt(g, out.local, 1)
            && out.replies == (if g.fromRequester then [] else [Version(g.have - 1)]) +
                 [Verack, GetBlocks(g.chain[g.have - 1].hash)]
  {
    hide Linked, TipInRange;
    assert Tip(n.chain) == g.chain[g.have - 1];
  }

  lemma {:induction false} RequesterGetsVerack(g: Gap, n: Local)
    requires g.Valid() && RequesterAt(g, n, 1)
    ensures RequesterMoved(g, OnVerack(n, RequesterLink(g, 1)), 1)
  {
    CoreNoise([GetAddr]);
  }

  lemma {:induction false} WantedBlocks(pool: map<Bytes, Transaction>, items: Items)
    requires forall i :: 0 <= i < |items| ==> items[i].kind == InvCodec.Block
    ensures Wanted(pool, items) == items
  {
    if items != [] {
      WantedBlocks(pool, items[..|items| - 1]);
    }
  }

  lemma {:induction false} RequesterGetsInv(g: Gap, n: Local)
    requires g.Valid() && g.FitsOneMessage() && RequesterAt(g, n, 2)
    ensures RequesterMoved(g, OnInv(n, RequesterLink(g, 2), MissingItems(g)), 2)
  {
    hide ToServer, Linked, MissingItems, Wanted, Core, BitsInRange;
    var items := MissingItems(g);
    ItemsAreBlocks(g);
    WantedBlocks(n.pool, items);
    CoreAll([GetData(items)]);
    ToServerIs(g);
  }

  /** A block that passes at one time passes at every later time: the clock only rules out blocks from the future. */
  lemma {:induction false} JudgedLater(k: Crypto, c: seq<Block>, b: Block, size: nat, since: int, now: int)
    requires TipInRange(c) && since <= now && Judge(k, c, b, size, since) == Accept
    ensures Judge(k, c, b, size, now) == Accept
  {
    hide RunTxs, CoinbaseOk, NextBits, HashIn, MedianTimePast;
  }

  lemma {:induction false} PrevIsProper(g: Gap, h: nat)
    requires g.Valid() && h < |g.chain|
    ensures |g.chain[h].prev| == 32
  {
    hide StoreOf;
    StoreLookup(g.chain, h);
    if h > 0 {
      StoreLookup(g.chain, h - 1);
    }
  }

  /** A missing block, read back from its bytes, passes whenever it comes. */
  lemma {:induction false} MissingBlockPasses(k: Crypto, g: Gap, since: int, h: nat, now: int)
    requires g.Valid() && Passing(k, g, since) && since <= now && g.have <= h < |g.chain|
    ensures TipInRange(g.chain[..h])
    ensures var bytes := BlockCodec.Encode(g.chain[h]);
            BlockCodec.Decode(k.sha, bytes) == Ok(g.chain[h]) &&
            Judge(k, g.chain[..h], g.chain[h], |bytes|, now) == Accept
  {
    hide Linked, BitsInRange, Judge, BlockCodec.Encode, BlockCodec.Decode, TipInRange;
    var b := g.chain[h];
    PrevIsProper(g, h);
    BlockCodec.DecodeBeginning(k.sha, b, BlockCodec.Encode(b));
    assert b.(prev := BlockCodec.PrevBytes(b.prev)) == b;
    JudgedLater(k, g.chain[..h], b, |BlockCodec.Encode(b)|, since, now);
  }

  lemma {:induction false} RequesterStores(g: Gap, n: Local, j: nat)
    requires g.Valid() && g.FitsOneMessage() && RequesterAt(g, n, j) && 3 <= j < 3 + g.Missing()
    ensures RequesterMoved(g, OnVerdict(n, RequesterLink(g, j), g.chain[g.have + j - 3], Accept), j)
  {
    hide Linked, BitsInRange, ToServer;
    var h := g.have + j - 3;
    assert g.chain[..h] + [g.chain[h]] == g.chain[..h + 1];
    ToServerIs(g);
  }

  lemma {:induction false} RequesterGetsBlock(k: Crypto, g: Gap, since: int, n: Local, j: nat, now: int)
    requires g.Valid() && g.FitsOneMessage() && Passing(k, g, since) && since <= now
    requires n.Ready() && RequesterAt(g, n, j) && 3 <= j < 3 + g.Missing()
    ensures RequesterMoved(g, OnBlock(k, n, RequesterLink(g, j), BlockCodec.Encode(g.chain[g.have + j - 3]), now), j)
  {
    hide Linked, BitsInRange, Judge, BlockCodec.Encode, BlockCodec.Decode, ToServer, Passing, TipInRange, OnVerdict,
      RequesterMoved, RequesterLink;
    MissingBlockPasses(k, g, since, g.have + j - 3, now);
    RequesterStores(g, n, j);
  }

  lemma {:induction false} RequesterHandles(k: Crypto, g: Gap, since: int, env: Env, n: Local, j: nat)
    requires g.Valid() && Passing(k, g, since) && since <= env.now
    requires n.Ready() && RequesterAt(g, n, j) && j < |ToRequester(g)|
    ensures !IsNoise(ToRequester(g)[j])
    ensures RequesterMoved(g, Receive(k, env, n, RequesterLink(g, j), ToRequester(g)[j]), j)
  {
    hide RequesterMoved, Linked, RequesterAt, OnVersion, OnInv, OnBlock, OnVerack, Passing, MissingItems, ToServer,
      ToRequester, BlockCodec.Encode;
    ToRequesterIs(g);
    if j == 0 {
      RequesterGetsVersion(g, n);
    } else if j == 1 {
      RequesterGetsVerack(g, n);
    } else if j == 2 {
      RequesterGetsInv(g, n);
      ItemsAreBlocks(g);
    } else {
      RequesterGetsBlock(k, g, since, n, j, env.now);
    }
  }

  lemma {:induction false} ItemsAreBlocks(g: Gap)
    requires g.Valid()
    ensures !IsNoise(Inv(MissingItems(g))) && !IsNoise(GetData(MissingItems(g)))
    ensures |MissingItems(g)| == g.Missing()
    ensures forall i :: 0 <= i < |MissingItems(g)| ==> MissingItems(g)[i].kind == InvCodec.Block
  {
    assert MissingItems(g)[0].kind == InvCodec.Block;
  }

  // ---------------------------------------------------------------- the server's steps

  ghost predicate ServerMoved(g: Gap, n: Local, out: Outcome, i: nat)
    requires g.Valid()
  {
    && SentByServer(g, i) <= SentByServer(g, i + 1) <= |ToRequester(g)|
    && out.local == n && out.link == ServerLink(g, i + 1)
    && Core(out.replies) == ToRequester(g)[SentByServer(g, i)..SentByServer(g, i + 1)]
  }

  lemma {:induction false} ServerGetsVersion(g: Gap, n: Local)
    requires g.Valid() && n.Ready() && n.chain == g.chain
    ensures ServerMoved(g, n, OnVersion(n, ServerLink(g, 0), g.have - 1), 0)
  {
    var out := OnVersion(n, ServerLink(g, 0), g.have - 1);
    CoreAll(out.replies);
    ToRequesterIs(g);
    hide ToRequester, Linked;
  }

  lemma {:induction false} ServerGetsVerack(g: Gap, n: Local)
    requires g.Valid()
    ensures ServerMoved(g, n, OnVerack(n, ServerLink(g, 1)), 1)
  {
    CoreNoise([GetAddr]);
  }

  /** The hashes after the requester's tip are those of the missing blocks. */
  lemma {:induction false} MissingHashes(g: Gap)
    requires g.Valid()
    ensures HashesAfter(g.chain, g.chain[g.have - 1].hash) == Hashes(g.chain[g.have..])
  {
    hide StoreOf;
    StoreLookup(g.chain, g.have - 1);
    forall h | 0 <= h < g.have - 1 ensures g.chain[h].hash != g.chain[g.have - 1].hash {
      StoreLookup(g.chain, h);
    }
    HashesAfterIs(g.chain, g.chain[g.have - 1].hash, g.have - 1);
  }

  lemma {:induction false} ItemsAreMissing(g: Gap)
    requires g.Valid()
    ensures MissingItems(g) == BlockItems(Hashes(g.chain[g.have..])) && |Hashes(g.chain[g.have..])| == g.Missing()
  {
  }

  lemma {:induction false} ServerGetsRequest(g: Gap, n: Local)
    requires g.Valid() && n.chain == g.chain
    ensures ServerMoved(g, n, OnGetBlocks(n, ServerLink(g, 2), g.chain[g.have - 1].hash), 2)
  {
    hide Linked, HashesAfter, ToRequester, BitsInRange, MissingItems, BlockItems;
    ItemsAreMissing(g);
    MissingHashes(g);
    ItemsAreBlocks(g);
    CoreAll([Inv(MissingItems(g))]);
    ToRequesterIs(g);
  }

  lemma {:induction false} BlocksForItems(db: Store, blocks: seq<Block>)
    requires forall i :: 0 <= i < |blocks| ==> blocks[i].hash in db.blocks && db.blocks[blocks[i].hash] == blocks[i]
    ensures BlocksFor(db, BlockItems(Hashes(blocks))) == DataOf(blocks)
  {
    hide BlockCodec.Encode, BlocksFor, DataOf;
    if blocks == [] {
      NoItems(db);
    } else {
      var init := blocks[..|blocks| - 1];
      BlocksForItems(db, init);
      BlocksForSnoc(db, BlockItems(Hashes(init)), Tip(blocks).hash);
      DataSnoc(blocks);
    }
  }

  lemma {:induction false} DataSnoc(blocks: seq<Block>)
    requires blocks != []
    ensures DataOf(blocks) == DataOf(blocks[..|blocks| - 1]) + [BlockData(BlockCodec.Encode(Tip(blocks)))]
  {
    hide BlockCodec.Encode;
  }

  lemma {:induction false} NoItems(db: Store)
    ensures BlocksFor(db, BlockItems(Hashes([]))) == []
  {
  }

  lemma {:induction false} BlocksForSnoc(db: Store, items: Items, h: Bytes)
    requires h in db.blocks
    ensures BlocksFor(db, items + [InvCodec.InvVector(InvCodec.Block, h)]) ==
      BlocksFor(db, items) + [BlockData(BlockCodec.Encode(db.blocks[h]))]
  {
    hide BlockCodec.Encode;
    assert (items + [InvCodec.InvVector(InvCodec.Block, h)])[..|items|] == items;
  }

  lemma {:induction false} NoTxsFor(pool: map<Bytes, Transaction>, items: Items)
    requires forall i :: 0 <= i < |items| ==> items[i].kind == InvCodec.Block
    ensures TxsFor(pool, items) == []
  {
    if items != [] {
      NoTxsFor(pool, items[..|items| - 1]);
    }
  }

  lemma {:induction false} DataForMissing(g: Gap, pool: map<Bytes, Transaction>)
    requires g.Valid()
    ensures BlocksFor(StoreOf(g.chain), MissingItems(g)) + TxsFor(pool, MissingItems(g)) == MissingBlocks(g)
  {
    hide Linked, StoreOf, BlocksFor, TxsFor, BlockCodec.Encode, BitsInRange, BlockItems, Hashes, DataOf;
    BlocksStored(g.chain, g.have);
    BlocksForItems(StoreOf(g.chain), g.chain[g.have..]);
    ItemsAreBlocks(g);
    NoTxsFor(pool, MissingItems(g));
    assert MissingBlocks(g) + [] == MissingBlocks(g);
  }

  lemma {:induction false} BlocksStored(c: seq<Block>, low: nat)
    requires Linked(c) && low <= |c|
    ensures var blocks := c[low..];
            forall i :: 0 <= i < |blocks| ==>
              blocks[i].hash in StoreOf(c).blocks && StoreOf(c).blocks[blocks[i].hash] == blocks[i]
  {
    hide Linked, StoreOf;
    var blocks := c[low..];
    forall i | 0 <= i < |blocks|
      ensures blocks[i].hash in StoreOf(c).blocks && StoreOf(c).blocks[blocks[i].hash] == blocks[i]
    {
      StoreLookup(c, low + i);
      assert blocks[i] == c[low + i];
    }
  }

  lemma {:induction false} ServerGetsData(g: Gap, n: Local)
    requires g.Valid() && g.FitsOneMessage() && n.chain == g.chain
    ensures ServerMoved(g, n, OnGetData(n, ServerLink(g, 3), MissingItems(g)), 3)
  {
    hide Linked, StoreOf, ToRequester, BlocksFor, TxsFor, BlockCodec.Encode, Core, BitsInRange, BlockItems,
      MissingItems;
    DataForMissing(g, n.pool);
    CoreAll(MissingBlocks(g));
    ToRequesterIs(g);
  }

  lemma {:induction false} ServerHandles(k: Crypto, g: Gap, env: Env, n: Local, i: nat)
    requires g.Valid() && n.Ready() && n.chain == g.chain && i < |ToServer(g)|
    ensures !IsNoise(ToServer(g)[i])
    ensures ServerMoved(g, n, Receive(k, env, n, ServerLink(g, i), ToServer(g)[i]), i)
  {
    hide ServerMoved, Linked, OnVersion, OnGetBlocks, OnGetData, OnVerack, MissingItems, ToServer, ToRequester;
    ToServerIs(g);
    if i == 0 {
      ServerGetsVersion(g, n);
    } else if i == 1 {
      ServerGetsVerack(g, n);
    } else if i == 2 {
      ServerGetsRequest(g, n);
    } else {
      ServerGetsData(g, n);
      ItemsAreBlocks(g);
    }
  }

  // ---------------------------------------------------------------- runs

  /** One side handles the oldest message sent to it, or says something that has nothing to do with blocks. */
  datatype Event = Handle(atRequester: bool, env: Env) | Chat(atRequester: bool, msg: Msg)

  predicate CanHandle(since: int, net: Net, env: Env) {
    net.toX != [] && net.x.link.connected && since <= env.now
  }

  predicate CanChat(net: Net, m: Msg) {
    IsNoise(m) && net.x.link.versionSent && if m.Ping? then net.x.link.versionReceived else net.x.link.handshakeComplete
  }

  predicate Enabled(since: int, net: Net, ev: Event) {
    var side := if ev.atRequester then net else net.Flip();
    net.Ready() && match ev case Handle(_, env) => CanHandle(since, side, env) case Chat(_, m) => CanChat(side, m)
  }

  function Handled(k: Crypto, net: Net, env: Env): Net
    requires net.Ready() && net.toX != []
  {
    var out := Receive(k, env, net.x.local, net.x.link, net.toX[0]);
    Net(End(out.local, out.link), net.y, net.toX[1..], net.toY + out.replies)
  }

  function Apply(k: Crypto, since: int, net: Net, ev: Event): Net
    requires Enabled(since, net, ev)
  {
    match ev
    case Handle(true, env) => Handled(k, net, env)
    case Handle(false, env) => Handled(k, net.Flip(), env).Flip()
    case Chat(true, m) => net.(toY := net.toY + [m])
    case Chat(false, m) => net.(toX := net.toX + [m])
  }

  /** Handling of a transaction that one side holds against the other. */
  predicate IsBlamed(net: Net, ev: Event, atRequester: bool) {
    var ch := if atRequester then net.toX else net.toY;
    ev.Handle? && ev.atRequester == atRequester && ch != [] && IsInvalid(ev.env, ch[0])
  }

  function Blame(net: Net, ev: Event, atRequester: bool): nat {
    if IsBlamed(net, ev, atRequester) then 10 else 0
  }

  /** What is not held against the peer is handled alike whatever the score. */
  lemma {:induction false} ScoreIgnored(k: Crypto, env: Env, n: Local, l: Link, score: int, m: Msg)
    requires n.Ready() && l.connected && l.score == 0 && Receive(k, env, n, l, m).link.score == 0
    ensures var out := Receive(k, env, n, l, m);
            Receive(k, env, n, Scored(l, score), m) == Outcome(out.local, Scored(out.link, score), out.replies)
  {
    hide Judge, BlockCodec.Decode, StoreOf, HashesAfter, Wanted, BlocksFor, TxsFor, TipInRange;
  }

  lemma {:induction false} BlameAdds(l: Link, score: int)
    requires l.connected && l.score == 0 && score < BAN_SCORE_THRESHOLD
    ensures Misbehave(Scored(l, score), 10) == Scored(l, score + 10)
  {
  }

  lemma {:induction false} LinksAreClean(g: Gap, i: nat)
    ensures RequesterLink(g, i).score == 0 && RequesterLink(g, i).connected
    ensures ServerLink(g, i).score == 0 && ServerLink(g, i).connected
  {
  }

  /** Handling of a message that matters to the exchange. */
  predicate IsProgress(net: Net, ev: Event) {
    var ch := if ev.atRequester then net.toX else net.toY;
    ev.Handle? && ch != [] && !IsNoise(ch[0])
  }

  lemma {:induction false} CoreHead(ms: seq<Msg>, all: seq<Msg>, low: nat, high: nat)
    requires ms != [] && low <= high <= |all| && Core(ms) == all[low..high]
    ensures IsNoise(ms[0]) ==> Core(ms[1..]) == all[low..high]
    ensures !IsNoise(ms[0]) ==> low < high && ms[0] == all[low] && Core(ms[1..]) == all[low + 1..high]
  {
    hide IsNoise;
    var rest := Core(ms[1..]);
    if !IsNoise(ms[0]) {
      assert ([ms[0]] + rest)[1..] == rest;
      assert all[low..high][1..] == all[low + 1..high];
    }
  }

  lemma {:induction false} CoreTail(ms: seq<Msg>, more: seq<Msg>, all: seq<Msg>, low: nat, mid: nat, high: nat)
    requires low <= mid <= high <= |all| && Core(ms) == all[low..mid] && Core(more) == all[mid..high]
    ensures Core(ms + more) == all[low..high]
  {
    CoreAppend(ms, more);
    assert all[low..mid] + all[mid..high] == all[low..high];
  }

  lemma {:induction false} ReachedIsReady(g: Gap, net: Net, i: nat, j: nat)
    requires g.Valid() && Reached(g, net, i, j)
    ensures net.Ready()
  {
    hide Linked, ToServer, ToRequester, Core;
  }

  lemma {:induction false} RequesterStep(k: Crypto, g: Gap, since: int, net: Net, env: Env, i: nat, j: nat)
    requires g.Valid() && Passing(k, g, since) && Reached(g, net, i, j) && Safe(net) && net.Ready()
    requires CanHandle(since, net, env)
    ensures Reached(g, Handled(k, net, env), i, if IsNoise(net.toX[0]) then j else j + 1)
    ensures Handled(k, net, env).x.link.score == net.x.link.score + if IsInvalid(env, net.toX[0]) then 10 else 0
  {
    hide Linked, ToServer, ToRequester, Core, IsNoise, Passing, Ordered, Answer, BitsInRange, SentByServer,
      SentByRequester, TipInRange, RequesterLink, ServerLink, BlocksHeld, IsInvalid, OnVersion, OnVerack;
    var m, net' := net.toX[0], Handled(k, net, env);
    var replies := Receive(k, env, net.x.local, net.x.link, m).replies;
    CoreHead(net.toX, ToRequester(g), j, SentByServer(g, i));
    LinksAreClean(g, j);
    LinksAreClean(g, j + 1);
    if IsNoise(m) {
      BlameAdds(RequesterLink(g, j), net.x.link.score);
      NoiseIsNoHandshake(m);
      HeadIsOrdered(net.y.link, net.x.link, net.toX);
      NoiseAnswer(k, env, net.x.local, net.x.link, m);
      CoreNoise(replies);
      CoreAppend(net.toY, replies);
      assert Core(net.toY) + [] == Core(net.toY);
    } else {
      RequesterHandles(k, g, since, env, net.x.local, j);
      ScoreIgnored(k, env, net.x.local, RequesterLink(g, j), net.x.link.score, m);
      InvalidIsNoise(env, m);
      CoreTail(net.toY, replies, ToServer(g), i, SentByRequester(g, j), SentByRequester(g, j + 1));
    }
  }

  lemma {:induction false} NoiseIsNoHandshake(m: Msg)
    requires IsNoise(m)
    ensures !m.IsHandshake()
  {
  }

  lemma {:induction false} InvalidIsNoise(env: Env, m: Msg)
    ensures IsInvalid(env, m) ==> IsNoise(m)
  {
  }

  lemma {:induction false} ServerStep(k: Crypto, g: Gap, since: int, net: Net, env: Env, i: nat, j: nat)
    requires g.Valid() && Reached(g, net, i, j) && Safe(net) && net.Ready() && CanHandle(since, net.Flip(), env)
    ensures Reached(g, Handled(k, net.Flip(), env).Flip(), if IsNoise(net.toY[0]) then i else i + 1, j)
    ensures Handled(k, net.Flip(), env).x.link.score == net.y.link.score + if IsInvalid(env, net.toY[0]) then 10 else 0
  {
    hide Linked, ToServer, ToRequester, Core, IsNoise, Ordered, Answer, BitsInRange, SentByServer, SentByRequester,
      TipInRange, RequesterLink, ServerLink, BlocksHeld, RequesterAt, IsInvalid, OnVersion, OnVerack;
    var m := net.toY[0];
    var replies := Receive(k, env, net.y.local, net.y.link, m).replies;
    CoreHead(net.toY, ToServer(g), i, SentByRequester(g, j));
    LinksAreClean(g, i);
    LinksAreClean(g, i + 1);
    if IsNoise(m) {
      BlameAdds(ServerLink(g, i), net.y.link.score);
      NoiseIsNoHandshake(m);
      HeadIsOrdered(net.x.link, net.y.link, net.toY);
      NoiseAnswer(k, env, net.y.local, net.y.link, m);
      CoreNoise(replies);
      CoreAppend(net.toX, replies);
      assert Core(net.toX) + [] == Core(net.toX);
    } else {
      ServerHandles(k, g, env, net.y.local, i);
      ScoreIgnored(k, env, net.y.local, ServerLink(g, i), net.y.link.score, m);
      InvalidIsNoise(env, m);
      CoreTail(net.toX, replies, ToRequester(g), j, SentByServer(g, i), SentByServer(g, i + 1));
    }
  }

  lemma {:induction false} ChatStep(g: Gap, net: Net, m: Msg, i: nat, j: nat)
    requires g.Valid() && Reached(g, net, i, j) && IsNoise(m)
    ensures Reached(g, net.(toY := net.toY + [m]), i, j) && Reached(g, net.(toX := net.toX + [m]), i, j)
  {
    hide Linked, ToServer, ToRequester, Core, BitsInRange, SentByServer, SentByRequester, RequesterLink, ServerLink,
      RequesterAt, IsNoise;
    CoreNoise([m]);
    CoreAppend(net.toX, [m]);
    CoreAppend(net.toY, [m]);
    assert Core(net.toX) + [] == Core(net.toX) && Core(net.toY) + [] == Core(net.toY);
  }

  /** Every enabled event takes a run from one such state to another, one message further or none. */
  lemma {:induction false} EventStep(k: Crypto, g: Gap, since: int, net: Net, ev: Event, i: nat, j: nat)
    requires g.Valid() && Passing(k, g, since) && Reached(g, net, i, j) && Safe(net) && Enabled(since, net, ev)
    ensures var net', gain := Apply(k, since, net, ev), if IsProgress(net, ev) then 1 else 0;
            && Safe(net') && net'.Ready()
            && (ev.atRequester ==> Reached(g, net', i, j + gain)) && (!ev.atRequester ==> Reached(g, net', i + gain, j))
            && net'.x.link.score == net.x.link.score + Blame(net, ev, true)
            && net'.y.link.score == net.y.link.score + Blame(net, ev, false)
  {
    hide Linked, Reached, IsInvalid, Passing, Ordered, IsNoise, Receive, TipInRange;
    var net' := Apply(k, since, net, ev);
    match ev {
      case Handle(true, env) =>
        RequesterStep(k, g, since, net, env, i, j);
        ReachedIsReady(g, net', i, if IsNoise(net.toX[0]) then j else j + 1);
        DeliverKeeps(k, env, net, net');
      case Handle(false, env) =>
        ServerStep(k, g, since, net, env, i, j);
        ReachedIsReady(g, net', if IsNoise(net.toY[0]) then i else i + 1, j);
        DeliverKeeps(k, env, net.Flip(), net'.Flip());
      case Chat(true, m) =>
        ChatStep(g, net, m, i, j);
        NoiseIsNoHandshake(m);
        assert Sent(net, net', m);
        SendKeeps(net, net', m);
      case Chat(false, m) =>
        ChatStep(g, net, m, i, j);
        NoiseIsNoHandshake(m);
        assert Sent(net.Flip(), net'.Flip(), m);
        SendKeeps(net.Flip(), net'.Flip(), m);
    }
  }

  // ---------------------------------------------------------------- whole runs

  /** A fresh connection between a requester that holds a prefix and a server that holds the chain. */
  ghost predicate Start(g: Gap, net: Net) {
    && g.Valid() && net.Ready()
    && net.x.local.chain == g.chain[..g.have] && !net.x.local.syncing && net.x.local.syncPeer == 0
    && net.y.local.chain == g.chain
    && net.x.link == RequesterLink(g, 0) && net.y.link == ServerLink(g, 0)
    && (if g.fromRequester then net.toX == [] && net.toY == [Version(g.have - 1)]
        else net.toX == [Version(|g.chain| - 1)] && net.toY == [])
  }

  /** The state after a sequence of events, if each of them could happen. */
  function After(k: Crypto, since: int, net: Net, evs: seq<Event>): Option<Net> {
    if evs == [] then Some(net)
    else match After(k, since, net, evs[..|evs| - 1])
      case None => None
      case Some(before) =>
        if Enabled(since, before, evs[|evs| - 1]) then Some(Apply(k, since, before, evs[|evs| - 1])) else None
  }

  /** How many of the events handled a message that matters. */
  function Progress(k: Crypto, since: int, net: Net, evs: seq<Event>): nat {
    if evs == [] then 0
    else match After(k, since, net, evs[..|evs| - 1])
      case None => 0
      case Some(before) =>
        Progress(k, since, net, evs[..|evs| - 1]) + if IsProgress(before, evs[|evs| - 1]) then 1 else 0
  }

  /** What the invalid transactions that one side handled cost the other. */
  function Blamed(k: Crypto, since: int, net: Net, evs: seq<Event>, atRequester: bool): nat {
    if evs == [] then 0
    else match After(k, since, net, evs[..|evs| - 1])
      case None => 0
      case Some(before) =>
        Blamed(k, since, net, evs[..|evs| - 1], atRequester) + Blame(before, evs[|evs| - 1], atRequester)
  }

  /** Nothing that matters is under way. */
  predicate Quiet(net: Net) {
    Core(net.toX) == [] && Core(net.toY) == []
  }

  lemma {:induction false} StartReached(g: Gap, net: Net)
    requires Start(g, net)
    ensures Reached(g, net, 0, 0) && Safe(net)
  {
    hide Linked, BitsInRange, TipInRange, ToServer, ToRequester, Core, Safe, RequesterAt, RequesterLink, ServerLink,
      Scored, SentByRequester, SentByServer, IsNoise;
    StartSafe(g, net);
    StartSides(g, net);
    StartStreams(g);
  }

  lemma {:induction false} StartSides(g: Gap, net: Net)
    requires Start(g, net)
    ensures RequesterAt(g, net.x.local, 0) && net.x.link == Scored(RequesterLink(g, 0), net.x.link.score)
    ensures net.y.link == Scored(ServerLink(g, 0), net.y.link.score)
  {
    hide Linked, BitsInRange, TipInRange;
  }

  lemma {:induction false} StartStreams(g: Gap)
    requires g.Valid()
    ensures SentByRequester(g, 0) <= |ToServer(g)| && SentByServer(g, 0) <= |ToRequester(g)|
    ensures Core(if g.fromRequester then [Version(g.have - 1)] else []) == ToServer(g)[0..SentByRequester(g, 0)]
    ensures Core(if g.fromRequester then [] else [Version(|g.chain| - 1)]) == ToRequester(g)[0..SentByServer(g, 0)]
  {
    hide Linked, BitsInRange, ToServer, ToRequester, Core;
    ToServerIs(g);
    ToRequesterIs(g);
    CoreOfOne(Version(g.have - 1));
    CoreOfOne(Version(|g.chain| - 1));
    assert ToServer(g)[0..0] == [] && ToRequester(g)[0..0] == [];
    assert ToServer(g)[0..1] == [ToServer(g)[0]];
    assert ToRequester(g)[0..1] == [ToRequester(g)[0]];
  }

  lemma {:induction false} CoreOfOne(m: Msg)
    requires !IsNoise(m)
    ensures Core([m]) == [m] && Core([]) == []
  {
    CoreAll([m]);
  }

  lemma {:induction false} StartSafe(g: Gap, net: Net)
    requires Start(g, net)
    ensures Safe(net)
  {
    hide Linked, BitsInRange, RequesterAt, TipInRange;
    assert net.toX == [] || net.toX[1..] == [];
    assert net.toY == [] || net.toY[1..] == [];
  }

  lemma {:induction false} RunReached(k: Crypto, g: Gap, since: int, net: Net, evs: seq<Event>) returns (i: nat, j: nat)
    requires Start(g, net) && Passing(k, g, since) && After(k, since, net, evs).Some?
    ensures var now := After(k, since, net, evs).value;
            && Reached(g, now, i, j) && Safe(now) && now.Ready() && i + j == Progress(k, since, net, evs)
            && now.x.link.score == Blamed(k, since, net, evs, true)
            && now.y.link.score == Blamed(k, since, net, evs, false)
  {
    hide Reached, Blame, Safe, Passing, Enabled, Apply, IsProgress, Linked, BitsInRange;
    if evs == [] {
      i, j := 0, 0;
      StartReached(g, net);
      ReachedIsReady(g, net, 0, 0);
    } else {
      var before, ev := After(k, since, net, evs[..|evs| - 1]).value, evs[|evs| - 1];
      i, j := RunReached(k, g, since, net, evs[..|evs| - 1]);
      EventStep(k, g, since, before, ev, i, j);
      if IsProgress(before, ev) {
        if ev.atRequester { j := j + 1; } else { i := i + 1; }
      }
    }
  }

  lemma {:induction false} CoreEmpty(all: seq<Msg>, low: nat, high: nat)
    requires low <= high <= |all| && all[low..high] == []
    ensures low == high
  {
  }

  /**
   * The sync theorem. Whatever the interleaving, and whatever else is said, at most 7 + n messages matter; and once
   * none of them is left, the requester has the chain of the server and has stopped syncing if and only if the n
   * missing hashes fit one inventory message. If they do not, it has no block more and waits for ever.
   */
  lemma {:induction false} SyncConverges(k: Crypto, g: Gap, since: int, net: Net, evs: seq<Event>)
    requires Start(g, net) && Passing(k, g, since) && After(k, since, net, evs).Some?
    ensures Progress(k, since, net, evs) <= 7 + g.Missing()
    ensures var now := After(k, since, net, evs).value;
            Quiet(now) ==>
              && (now.x.local.chain == g.chain && !now.x.local.syncing <==> g.FitsOneMessage())
              && (!g.FitsOneMessage() ==> now.x.local.chain == g.chain[..g.have] && now.x.local.syncing)
              && now.y.local.chain == g.chain
  {
    hide Safe, Passing, Linked, BitsInRange, ToServer, ToRequester, Core, Progress, After, Reached;
    var now := After(k, since, net, evs).value;
    var i, j := RunReached(k, g, since, net, evs);
    FarAtMost(g, now, i, j);
    if Quiet(now) {
      QuietEnds(g, now, i, j);
    }
  }

  lemma {:induction false} FarAtMost(g: Gap, net: Net, i: nat, j: nat)
    requires g.Valid() && Reached(g, net, i, j)
    ensures i + j <= 7 + g.Missing() && net.y.local.chain == g.chain
  {
    hide Linked, BitsInRange, ToServer, ToRequester, Core;
    ToServerIs(g);
    ToRequesterIs(g);
  }

  lemma {:induction false} QuietEnds(g: Gap, net: Net, i: nat, j: nat)
    requires g.Valid() && Reached(g, net, i, j) && Quiet(net)
    ensures if g.FitsOneMessage() then net.x.local.chain == g.chain && !net.x.local.syncing
            else net.x.local.chain == g.chain[..g.have] && net.x.local.syncing
  {
    hide Linked, BitsInRange, ToServer, ToRequester, Core;
    ToServerIs(g);
    ToRequesterIs(g);
    CoreEmpty(ToServer(g), i, SentByRequester(g, j));
    CoreEmpty(ToRequester(g), j, SentByServer(g, i));
    assert g.chain[..|g.chain|] == g.chain;
  }

  /** As long as something that matters is under way and both sides still listen, some node can handle a message. */
  lemma {:induction false} SyncGoesOn(k: Crypto, g: Gap, since: int, net: Net, evs: seq<Event>, env: Env)
    requires Start(g, net) && Passing(k, g, since) && After(k, since, net, evs).Some?
    requires since <= env.now && !Quiet(After(k, since, net, evs).value)
    requires var now := After(k, since, net, evs).value; now.x.link.connected && now.y.link.connected
    ensures var now := After(k, since, net, evs).value;
            Enabled(since, now, Handle(true, env)) || Enabled(since, now, Handle(false, env))
  {
    hide Safe, Passing, Linked, BitsInRange, ToServer, ToRequester, IsNoise, After, Reached, Blamed;
    var i, j := RunReached(k, g, since, net, evs);
  }

  /**
   * No message of such a run is punished for coming before the handshake, and no block is: each side loses ten points
   * for every invalid transaction it relays, and nothing else. It is cut off by the tenth.
   */
  lemma {:induction false} SyncIsPolite(k: Crypto, g: Gap, since: int, net: Net, evs: seq<Event>)
    requires Start(g, net) && Passing(k, g, since) && After(k, since, net, evs).Some?
    ensures var now := After(k, since, net, evs).value;
            && !Premature(now) && !Premature(now.Flip())
            && now.x.link.score == Blamed(k, since, net, evs, true)
            && now.y.link.score == Blamed(k, since, net, evs, false)
            && (now.x.link.connected <==> now.x.link.score < BAN_SCORE_THRESHOLD)
            && (now.y.link.connected <==> now.y.link.score < BAN_SCORE_THRESHOLD)
  {
    hide Ordered, Passing, Linked, BitsInRange, ToServer, ToRequester, IsNoise, After, Core, Blamed;
    var now := After(k, since, net, evs).value;
    var i, j := RunReached(k, g, since, net, evs);
    if now.toX != [] {
      HeadIsOrdered(now.y.link, now.x.link, now.toX);
    }
    if now.toY != [] {
      HeadIsOrdered(now.x.link, now.y.link, now.toY);
    }
  }
}

/** The block chain as a value: what the store represents, and the rules `AddBlock` applies. */
module ChainModel {
  import opened Base
  import opened Ledger
  import MedianTime
  import Retarget

  /** The block database: blocks under 'b' + hash, heights under 'h' + hash, the tip under "l". */
  datatype Store = Store(blocks: map<Bytes, Block>, heights: map<Bytes, int>, last: Bytes)

  predicate ProperHash(h: Bytes) {
    |h| == 32 && h != ZERO_HASH
  }

  /** A chain, genesis first: each block names its predecessor, and hashes are proper and distinct. */
  ghost predicate Linked(c: seq<Block>) {
    && c != [] && ProperHash(Tip(c).hash)
    && (if |c| == 1 then Tip(c).prev == ZERO_HASH
        else var init := c[..|c| - 1];
          Linked(init) && Tip(c).prev == Tip(init).hash && !HashIn(init, Tip(c).hash))
  }

  /** What the store holds after the blocks of a chain were put one by one, each at its distance from genesis. */
  function StoreOf(c: seq<Block>): Store {
    if c == [] then Store(map[], map[], ZERO_HASH)
    else WithBlock(StoreOf(c[..|c| - 1]), c[|c| - 1], |c| - 1)
  }

  function WithBlock(db: Store, b: Block, height: int): Store {
    Store(db.blocks[b.hash := b], db.heights[b.hash := height], b.hash)
  }

  lemma {:induction false} StoreLookup(c: seq<Block>, i: nat)
    requires Linked(c) && i < |c|
    ensures ProperHash(c[i].hash) && c[i].prev == if i == 0 then ZERO_HASH else c[i - 1].hash
    ensures c[i].hash in StoreOf(c).blocks && StoreOf(c).blocks[c[i].hash] == c[i]
    ensures c[i].hash in StoreOf(c).heights && StoreOf(c).heights[c[i].hash] == i
  {
    if i < |c| - 1 {
      var init := c[..|c| - 1];
      StoreLookup(init, i);
      assert init[i] in init;
    }
  }

  lemma {:induction false} StoreKeys(c: seq<Block>, h: Bytes)
    ensures h in StoreOf(c).blocks <==> HashIn(c, h)
    ensures h in StoreOf(c).heights <==> HashIn(c, h)
  {
    if c != [] {
      StoreKeys(c[..|c| - 1], h);
      assert c == c[..|c| - 1] + [c[|c| - 1]];
      HashInSnoc(c[..|c| - 1], c[|c| - 1], h);
    }
  }

  lemma {:induction false} HashInSnoc(c: seq<Block>, b: Block, h: Bytes)
    ensures HashIn(c + [b], h) <==> HashIn(c, h) || b.hash == h
  {
    if b.hash == h {
      assert b in c + [b];
    }
    if x :| x in c && x.hash == h {
      assert x in c + [b];
    }
  }

  function Tip(c: seq<Block>): Block
    requires c != []
  {
    c[|c| - 1]
  }

  predicate HashIn(c: seq<Block>, h: Bytes) {
    exists b :: b in c && b.hash == h
  }

  // ---------------------------------------------------------------- timestamps and difficulty

  /** The timestamps of the newest `n` blocks, newest first. */
  function NewestTimes(c: seq<Block>, n: nat): seq<Int64> {
    if n == 0 || c == [] then [] else [Tip(c).timestamp] + NewestTimes(c[..|c| - 1], n - 1)
  }

  function RecentTimes(c: seq<Block>): seq<Int64> {
    NewestTimes(c, MEDIAN_TIME_SPAN)
  }

  function MedianTimePast(c: seq<Block>): Int64 {
    MedianTime.Median(RecentTimes(c))
  }

  /** The difficulty required at `height`, for the chain up to its tip. */
  function NextBits(c: seq<Block>, height: int): Int32
    requires c != [] && MIN_BITS <= Tip(c).bits <= MAX_BITS
  {
    if height % RETARGET_INTERVAL != 0 || |c| < RETARGET_INTERVAL then Tip(c).bits
    else Retarget.Retarget(Tip(c).bits, Tip(c).timestamp - c[|c| - RETARGET_INTERVAL].timestamp)
  }

  lemma {:induction false} NextBitsInRange(c: seq<Block>, height: int)
    requires c != [] && MIN_BITS <= Tip(c).bits <= MAX_BITS
    ensures MIN_BITS <= NextBits(c, height) <= MAX_BITS
  {
    if height % RETARGET_INTERVAL == 0 && |c| >= RETARGET_INTERVAL {
      Retarget.RetargetMoves(Tip(c).bits, Tip(c).timestamp - c[|c| - RETARGET_INTERVAL].timestamp);
    }
  }

  ghost predicate BitsInRange(c: seq<Block>) {
    forall i :: 0 <= i < |c| ==> MIN_BITS <= c[i].bits <= MAX_BITS
  }

  // ---------------------------------------------------------------- adding a block

  datatype AddResult = Added | AlreadyKnown | Rejected

  function AddOutcome(c: seq<Block>, b: Block, now: int): AddResult
    requires c != [] && MIN_BITS <= Tip(c).bits <= MAX_BITS
  {
    if b.prev != Tip(c).hash then Rejected
    else if b.bits != NextBits(c, |c|) then Rejected
    else if b.timestamp <= MedianTimePast(c) then Rejected
    else if b.timestamp > now + MAX_FUTURE_BLOCK_TIME then Rejected
    else if HashIn(c, b.hash) then AlreadyKnown
    else Added
  }

  /** A block is refused unless it extends the tip at the right difficulty and at a time within the window. */
  lemma {:induction false} OutcomeMeans(c: seq<Block>, b: Block, now: int)
    requires c != [] && MIN_BITS <= Tip(c).bits <= MAX_BITS
    ensures AddOutcome(c, b, now) != Rejected <==>
      b.prev == Tip(c).hash && b.bits == NextBits(c, |c|) && MedianTimePast(c) < b.timestamp <= now + 7200
    ensures AddOutcome(c, b, now) != Rejected ==> (AddOutcome(c, b, now) == AlreadyKnown <==> HashIn(c, b.hash))
  {
    hide NextBits, MedianTimePast;
  }

  lemma {:induction false} NewestTimesCount(c: seq<Block>, n: nat)
    ensures |NewestTimes(c, n)| == if |c| < n then |c| else n
  {
    if n > 0 && c != [] {
      NewestTimesCount(c[..|c| - 1], n - 1);
    }
  }

  /** The timestamps of the newest blocks, newest first, at most eleven of them. */
  lemma {:induction false} RecentTimesAre(c: seq<Block>, i: nat)
    ensures |RecentTimes(c)| == if |c| < 11 then |c| else 11
    ensures i < |RecentTimes(c)| ==> RecentTimes(c)[i] == c[|c| - 1 - i].timestamp
  {
    NewestTimesCount(c, MEDIAN_TIME_SPAN);
    NewestTimesAt(c, MEDIAN_TIME_SPAN, i);
  }

  lemma {:induction false} NewestTimesAt(c: seq<Block>, n: nat, i: nat)
    ensures i < |NewestTimes(c, n)| ==> i < |c| && NewestTimes(c, n)[i] == c[|c| - 1 - i].timestamp
  {
    if n > 0 && c != [] && i > 0 {
      NewestTimesAt(c[..|c| - 1], n - 1, i - 1);
    }
  }

  lemma {:induction false} NewestTimesTake(c: seq<Block>, n: nat)
    requires n > 0
    ensures NewestTimes(c, n - 1) == if |NewestTimes(c, n)| < n then NewestTimes(c, n) else NewestTimes(c, n)[..n - 1]
  {
    NewestTimesCount(c, n);
    if c != [] && n > 1 {
      NewestTimesTake(c[..|c| - 1], n - 1);
    }
  }

  /** Pushing onto the cache gives what loading the longer chain would. */
  lemma {:induction false} RecentTimesPush(c: seq<Block>, b: Block)
    ensures RecentTimes(c + [b]) == MedianTime.Push(RecentTimes(c), b.timestamp)
  {
    assert (c + [b])[..|c|] == c;
    NewestTimesCount(c, MEDIAN_TIME_SPAN);
    NewestTimesTake(c, MEDIAN_TIME_SPAN);
  }

  /** The threshold a block timestamp must exceed never goes down. */
  lemma {:induction false} MedianNeverFalls(c: seq<Block>, b: Block)
    requires c != [] && b.timestamp > MedianTimePast(c)
    ensures MedianTimePast(c + [b]) >= MedianTimePast(c)
  {
    RecentTimesPush(c, b);
    NewestTimesCount(c, MEDIAN_TIME_SPAN);
    MedianTime.PushKeepsMedian(RecentTimes(c), b.timestamp);
  }

  /** A stored block keeps the chain linked, unless its hash is taken or marks the end of the walk. */
  lemma {:induction false} StoredKeepsLinked(c: seq<Block>, b: Block)
    requires Linked(c) && b.prev == Tip(c).hash && |b.hash| == 32
    ensures Linked(c + [b]) <==> b.hash != ZERO_HASH && !HashIn(c, b.hash)
    ensures StoreOf(c + [b]) == WithBlock(StoreOf(c), b, |c|)
  {
    assert (c + [b])[..|c|] == c;
  }

  // ---------------------------------------------------------------- whole runs

  /** How a block came to the chain: through `AddBlock`, at some clock reading, or mined on the chain itself. */
  datatype Origin = ByAddBlock(now: int) | ByMining

  /** What lets a block in: mining follows the same difficulty rule, but looks neither at the time nor at the hash. */
  ghost predicate LetIn(c: seq<Block>, b: Block, origin: Origin)
    requires c != [] && MIN_BITS <= Tip(c).bits <= MAX_BITS
  {
    match origin
    case ByAddBlock(now) => AddOutcome(c, b, now) == Added
    case ByMining => b.prev == Tip(c).hash && b.bits == NextBits(c, |c|) && !HashIn(c, b.hash)
  }

  /** A chain grown from a genesis block by additions and by mining, in any order, with proper hashes. */
  ghost predicate Grown(c: seq<Block>, origins: seq<Origin>)
  {
    && c != [] && |origins| == |c|
    && (if |c| == 1 then c[0].prev == ZERO_HASH && ProperHash(c[0].hash) && c[0].bits == INITIAL_BITS
        else var init := c[..|c| - 1];
          && Grown(init, origins[..|c| - 1])
          && MIN_BITS <= Tip(init).bits <= MAX_BITS && ProperHash(Tip(c).hash)
          && LetIn(init, Tip(c), origins[|c| - 1]))
  }

  lemma {:induction false} GrownLinked(c: seq<Block>, origins: seq<Origin>)
    requires Grown(c, origins)
    ensures Linked(c)
  {
    hide MedianTimePast, NextBits, HashIn;
    if |c| > 1 {
      GrownLinked(c[..|c| - 1], origins[..|c| - 1]);
      StoredKeepsLinked(c[..|c| - 1], Tip(c));
      assert c == c[..|c| - 1] + [Tip(c)];
    }
  }

  /** The difficulty of the block at height `i`, in range, against the blocks before it. */
  ghost predicate BitsRule(c: seq<Block>, i: nat)
    requires i < |c|
  {
    && 1 <= c[i].bits <= 255
    && (i > 0 && i % 2016 != 0 ==> c[i].bits == c[i - 1].bits)
    && (i > 0 && i % 2016 == 0 ==>
          i >= 2016 && 1 <= c[i - 1].bits <= 255 &&
          c[i].bits == Retarget.Retarget(c[i - 1].bits, c[i - 1].timestamp - c[i - 2016].timestamp))
  }

  /**
   * Difficulty along a run: always in [1, 255]; it changes only at multiples of the interval, and there it is
   * retargeted over the timespan from the block one interval back to the block before.
   */
  lemma {:induction false} DifficultyAlongRun(c: seq<Block>, origins: seq<Origin>, i: nat)
    requires Grown(c, origins) && i < |c|
    ensures BitsRule(c, i)
    decreases |c|
  {
    if i < |c| - 1 {
      DifficultyAlongRun(c[..|c| - 1], origins[..|c| - 1], i);
    } else if i > 0 {
      DifficultyAtTip(c[..|c| - 1], Tip(c), origins[|c| - 1]);
      assert c == c[..|c| - 1] + [Tip(c)];
    }
  }

  lemma {:induction false} DifficultyAtTip(c: seq<Block>, b: Block, origin: Origin)
    requires c != [] && MIN_BITS <= Tip(c).bits <= MAX_BITS && LetIn(c, b, origin)
    ensures BitsRule(c + [b], |c|)
  {
    if |c| % RETARGET_INTERVAL == 0 {
      MultipleAtLeast(|c|, RETARGET_INTERVAL);
      Retarget.RetargetMoves(Tip(c).bits, Tip(c).timestamp - c[|c| - RETARGET_INTERVAL].timestamp);
    }
  }

  lemma {:induction false} MultipleAtLeast(n: nat, m: nat)
    requires m > 0 && n > 0 && n % m == 0
    ensures n >= m
  {
  }

  /** Along a run, a block added at some clock reading is later than the median and at most two hours ahead. */
  lemma {:induction false} AddedInTime(c: seq<Block>, origins: seq<Origin>, i: nat)
    requires Grown(c, origins) && 0 < i < |c| && origins[i].ByAddBlock?
    ensures MedianTimePast(c[..i]) < c[i].timestamp <= origins[i].now + 7200
    decreases |c|
  {
    hide MedianTimePast, NextBits, HashIn;
    var last := |c| - 1;
    if i < last {
      AddedInTime(c[..last], origins[..last], i);
      assert c[..last][..i] == c[..i];
    }
  }

  /** A block that `AddBlock` let in, or one mined at a time that `AddBlock` would have let in. */
  ghost predicate Timely(c: seq<Block>, origins: seq<Origin>, i: nat)
    requires i < |c| == |origins|
  {
    origins[i].ByAddBlock? || c[i].timestamp > MedianTimePast(c[..i])
  }

  /** Median time past along a run: it never decreases from one height to a later one, if no block mined is untimely. */
  lemma {:induction false} MedianAlongRun(c: seq<Block>, origins: seq<Origin>, m: nat)
    requires Grown(c, origins) && 1 <= m <= |c| && forall i :: m <= i < |c| ==> Timely(c, origins, i)
    ensures MedianTimePast(c[..m]) <= MedianTimePast(c)
    decreases |c|
  {
    hide MedianTimePast, NextBits, HashIn;
    if m == |c| {
      assert c[..m] == c;
    } else {
      var init, last := c[..|c| - 1], |c| - 1;
      forall i | m <= i < last ensures Timely(init, origins[..last], i) {
        assert Timely(c, origins, i) && init[..i] == c[..i];
      }
      MedianAlongRun(init, origins[..last], m);
      assert init[..m] == c[..m] && c == init + [Tip(c)];
      assert Timely(c, origins, last) && c[..last] == init;
      MedianNeverFalls(init, Tip(c));
    }
  }

  /** Mining two blocks in the past lowers it. */
  lemma {:induction false} MiningLowersMedian() returns (c: seq<Block>, origins: seq<Origin>)
    ensures Grown(c, origins) && |c| == 3 && MedianTimePast(c) < MedianTimePast(c[..2])
  {
    hide MedianTime.Median, MedianTime.Push, NewestTimes;
    var h1, h2, h3 := ZERO_HASH[0 := 1], ZERO_HASH[0 := 2], ZERO_HASH[0 := 3];
    assert h1[0] == 1 && h2[0] == 2 && h3[0] == 3 && ZERO_HASH[0] == 0;
    var g := Block(5, [], ZERO_HASH, h1, 0, INITIAL_BITS);
    var a := Block(4, [], h1, h2, 0, INITIAL_BITS);
    var b := Block(3, [], h2, h3, 0, INITIAL_BITS);
    c, origins := [g, a, b], [ByMining, ByMining, ByMining];
    assert c[..2] == [g, a] && c[..2][..1] == [g] && origins[..2][..1] == [ByMining];
    assert Grown([g], [ByMining]);
    assert Grown([g, a], origins[..2]);
    RecentTimesPush([], g);
    RecentTimesPush([g], a);
    RecentTimesPush([g, a], b);
    assert [] + [g] == [g] && [g] + [a] == [g, a] && [g, a] + [b] == c;
    FirstTimes();
    MedianTime.MedianCanFall();
  }

  lemma {:induction false} FirstTimes()
    ensures RecentTimes([]) == [] && MedianTime.Push([], 5) == [5]
  {
  }

  // ---------------------------------------------------------------- questions about a chain

  function Hashes(c: seq<Block>): (r: seq<Bytes>)
    ensures |r| == |c| && forall i :: 0 <= i < |c| ==> r[i] == c[i].hash
  {
    if c == [] then [] else Hashes(c[..|c| - 1]) + [Tip(c).hash]
  }

  /** The hashes after the block named, oldest first; none for a block that is not on the chain. */
  function HashesAfter(c: seq<Block>, after: Bytes): seq<Bytes> {
    if c == [] then []
    else if c[0].hash == after then Hashes(c[1..])
    else HashesAfter(c[1..], after)
  }

  lemma {:induction false} HashesAfterIs(c: seq<Block>, after: Bytes, i: nat)
    requires i < |c| && c[i].hash == after && forall j :: 0 <= j < i ==> c[j].hash != after
    ensures HashesAfter(c, after) == Hashes(c[i + 1..])
  {
    if i > 0 {
      HashesAfterIs(c[1..], after, i - 1);
      assert c[1..][i..] == c[i + 1..];
    }
  }

  lemma {:induction false} HashesAfterNone(c: seq<Block>, after: Bytes)
    requires forall i :: 0 <= i < |c| ==> c[i].hash != after
    ensures HashesAfter(c, after) == []
  {
    if c != [] {
      HashesAfterNone(c[1..], after);
    }
  }

  function FindInBlock(txs: seq<Transaction>, id: Bytes): Option<Transaction> {
    if txs == [] then None else if txs[0].id == id then Some(txs[0]) else FindInBlock(txs[1..], id)
  }

  /** The newest block that holds a transaction with this id, and its height. */
  function FindTx(c: seq<Block>, id: Bytes): Option<(Transaction, int)> {
    if c == [] then None
    else match FindInBlock(Tip(c).txs, id)
      case Some(tx) => Some((tx, |c| - 1))
      case None => FindTx(c[..|c| - 1], id)
  }
}

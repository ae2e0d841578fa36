/** What a walk over the store does once a further block was put: `src/blockchain.cpp`, `src/blockchainIterator.cpp`. */
module Walks {
  import opened Base
  import opened ChainModel
  import opened ChainStore
  import opened Ledger

  /** Where an iterator stands after handing out `n` blocks; none if it is at the end, or at a missing block, before. */
  function Back(db: Store, from: Bytes, n: nat): Option<Bytes> {
    if n == 0 then Some(from)
    else match Back(db, from, n - 1)
      case None => None
      case Some(h) => if !AllZero(h) && Stored(db, h).Ok? then Some(Stored(db, h).value.prev) else None
  }

  /** The walk is over after exactly `n` blocks. */
  predicate EndsAfter(db: Store, from: Bytes, n: nat) {
    Back(db, from, n).Some? && AllZero(Back(db, from, n).value)
  }

  ghost predicate Ends(db: Store, from: Bytes) {
    exists n: nat :: EndsAfter(db, from, n)
  }

  lemma {:induction false} EndsThen(db: Store, from: Bytes, n: nat)
    requires EndsAfter(db, from, n)
    ensures Ends(db, from)
  {
  }

  /** From a block on the chain, the walk meets those below it one by one. */
  lemma {:induction false} BackInChain(c: seq<Block>, b: Block, from: nat, n: nat)
    requires Linked(c) && from <= |c| && n <= from
    requires forall i :: from - n <= i < from ==> c[i].hash != b.hash
    ensures Back(WithBlock(StoreOf(c), b, |c|), HashBelow(c, from), n) == Some(HashBelow(c, from - n))
  {
    hide Linked, StoreOf, AllZero, HashBelow;
    if n > 0 {
      BackInChain(c, b, from, n - 1);
      HashBelowStep(c, from - n + 1);
      assert HashBelow(c, from - n + 1) != b.hash by { HashBelowAt(c, from - n + 1); }
      StoredBeside(StoreOf(c), b, |c|, HashBelow(c, from - n + 1));
    }
  }

  lemma {:induction false} HashBelowAt(c: seq<Block>, n: nat)
    requires 0 < n <= |c|
    ensures HashBelow(c, n) == c[n - 1].hash
  {
  }

  lemma {:induction false} StoredBeside(db: Store, b: Block, height: int, h: Bytes)
    ensures Stored(WithBlock(db, b, height), b.hash) == Ok(b)
    ensures h != b.hash ==> Stored(WithBlock(db, b, height), h) == Stored(db, h)
  {
  }

  /** A walk that first hands out one block goes on from its predecessor. */
  lemma {:induction false} BackFirst(db: Store, from: Bytes, n: nat)
    requires !AllZero(from) && Stored(db, from).Ok?
    ensures Back(db, from, n + 1) == Back(db, Stored(db, from).value.prev, n)
  {
    hide AllZero;
    if n == 0 {
      assert Back(db, from, 0) == Some(from);
    } else {
      BackFirst(db, from, n - 1);
    }
  }

  /** With a hash that is new and not all zeros, the walk from the new tip meets the whole chain and is over. */
  lemma {:induction false} NewHashEnds(c: seq<Block>, b: Block)
    requires Linked(c) && b.prev == Tip(c).hash && |b.hash| == 32 && b.hash != ZERO_HASH && !HashIn(c, b.hash)
    ensures EndsAfter(WithBlock(StoreOf(c), b, |c|), b.hash, |c| + 1)
    ensures forall n :: 0 <= n <= |c| ==>
      Back(WithBlock(StoreOf(c), b, |c|), b.hash, n) == Some((c + [b])[|c| - n].hash)
  {
    hide Linked, StoreOf, AllZero, WithBlock;
    var db := WithBlock(StoreOf(c), b, |c|);
    ZeroHashOnly(b.hash);
    ZeroHashOnly(ZERO_HASH);
    StoredBeside(StoreOf(c), b, |c|, b.hash);
    HashBelowEnds(c);
    forall i | 0 <= i < |c| ensures c[i].hash != b.hash {
      assert c[i] in c;
    }
    forall n | 0 <= n <= |c| ensures Back(db, b.hash, n) == Some((c + [b])[|c| - n].hash) {
      if n > 0 {
        BackFirst(db, b.hash, n - 1);
        BackInChain(c, b, |c|, n - 1);
      }
    }
    BackFirst(db, b.hash, |c|);
    BackInChain(c, b, |c|, |c|);
  }

  /** With the hash of the block at height `i`, the walk never leaves the heights from `i` on. */
  lemma {:induction false} TakenHashStays(c: seq<Block>, b: Block, i: nat, n: nat) returns (j: nat)
    requires Linked(c) && b.prev == Tip(c).hash && i < |c| && c[i].hash == b.hash
    ensures i < j <= |c| && Back(WithBlock(StoreOf(c), b, |c|), b.hash, n) == Some(HashBelow(c, j))
    ensures !EndsAfter(WithBlock(StoreOf(c), b, |c|), b.hash, n)
  {
    hide Linked, StoreOf, AllZero, WithBlock;
    var db := WithBlock(StoreOf(c), b, |c|);
    j := i + 1;
    HashBelowAt(c, j);
    if n > 0 {
      var before := TakenHashStays(c, b, i, n - 1);
      HashBelowStep(c, before);
      HashBelowAt(c, before);
      HashBelowEnds(c);
      StoredBeside(StoreOf(c), b, |c|, HashBelow(c, before));
      j := if before == i + 1 then |c| else before - 1;
      if before > i + 1 {
        OnlyOnce(c, i, before - 1);
      }
    }
    HashBelowStep(c, j);
  }

  /** It comes round to where it began, again and again. */
  lemma {:induction false} TakenHashReturns(c: seq<Block>, b: Block, i: nat, rounds: nat)
    requires Linked(c) && b.prev == Tip(c).hash && i < |c| && c[i].hash == b.hash
    ensures Back(WithBlock(StoreOf(c), b, |c|), b.hash, rounds * (|c| - i)) == Some(b.hash)
  {
    hide Linked, StoreOf, AllZero, WithBlock, Back;
    OneRound(c, b, i);
    Rounds(WithBlock(StoreOf(c), b, |c|), b.hash, |c| - i, rounds);
  }

  lemma {:induction false} OneRound(c: seq<Block>, b: Block, i: nat)
    requires Linked(c) && b.prev == Tip(c).hash && i < |c| && c[i].hash == b.hash
    ensures Back(WithBlock(StoreOf(c), b, |c|), b.hash, |c| - i) == Some(b.hash)
  {
    hide Linked, StoreOf, AllZero, WithBlock, Back;
    StoredBeside(StoreOf(c), b, |c|, b.hash);
    HashBelowEnds(c);
    HashBelowStep(c, i + 1);
    HashBelowAt(c, i + 1);
    forall k | i < k < |c| ensures c[k].hash != b.hash {
      OnlyOnce(c, i, k);
    }
    BackFirst(WithBlock(StoreOf(c), b, |c|), b.hash, |c| - i - 1);
    BackInChain(c, b, |c|, |c| - i - 1);
  }

  lemma {:induction false} Rounds(db: Store, from: Bytes, round: nat, rounds: nat)
    requires Back(db, from, round) == Some(from)
    ensures Back(db, from, rounds * round) == Some(from)
  {
    hide Back;
    if rounds == 0 {
      BackAtOnce(db, from);
    } else {
      Rounds(db, from, round, rounds - 1);
      BackAdds(db, from, (rounds - 1) * round, round);
      OneMore(rounds - 1, round);
    }
  }

  lemma {:induction false} BackAtOnce(db: Store, from: Bytes)
    ensures Back(db, from, 0) == Some(from)
  {
  }

  lemma {:induction false} OneMore(n: nat, m: nat)
    ensures n * m + m == (n + 1) * m
  {
  }

  lemma {:induction false} BackAdds(db: Store, from: Bytes, m: nat, n: nat)
    requires Back(db, from, m).Some?
    ensures Back(db, from, m + n) == Back(db, Back(db, from, m).value, n)
  {
    if n > 0 {
      BackAdds(db, from, m, n - 1);
    }
  }

  lemma {:induction false} OnlyOnce(c: seq<Block>, i: nat, j: nat)
    requires Linked(c) && i < |c| && j < |c| && i != j
    ensures c[i].hash != c[j].hash
  {
    StoreLookup(c, i);
    StoreLookup(c, j);
  }

  /**
   * The walk from a tip put on a linked chain ever ends if and only if its hash was not on the chain; and it ends with
   * every block met if and only if the hash was also not all zeros, for then it meets none at all.
   */
  lemma {:induction false} WalkEnds(c: seq<Block>, b: Block)
    requires Linked(c) && b.prev == Tip(c).hash && |b.hash| == 32
    ensures Ends(WithBlock(StoreOf(c), b, |c|), b.hash) <==> !HashIn(c, b.hash)
    ensures EndsAfter(WithBlock(StoreOf(c), b, |c|), b.hash, |c| + 1) <==> !HashIn(c, b.hash) && b.hash != ZERO_HASH
    ensures EndsAfter(WithBlock(StoreOf(c), b, |c|), b.hash, 0) <==> b.hash == ZERO_HASH
  {
    hide Linked, StoreOf, AllZero, WithBlock, Back, EndsAfter;
    var db := WithBlock(StoreOf(c), b, |c|);
    EndsAtOnce(db, b.hash);
    if HashIn(c, b.hash) {
      var i := HashInAt(c, b.hash);
      forall n: nat ensures !EndsAfter(db, b.hash, n) {
        var j := TakenHashStays(c, b, i, n);
      }
    } else if b.hash != ZERO_HASH {
      NewHashEnds(c, b);
      EndsThen(db, b.hash, |c| + 1);
    } else {
      EndsThen(db, b.hash, 0);
      StopsAt(db, b.hash, |c| + 1);
    }
  }

  lemma {:induction false} EndsAtOnce(db: Store, from: Bytes)
    requires |from| == 32
    ensures EndsAfter(db, from, 0) <==> from == ZERO_HASH
  {
    ZeroHashOnly(from);
  }

  lemma {:induction false} StopsAt(db: Store, from: Bytes, n: nat)
    requires from == ZERO_HASH && n > 0
    ensures Back(db, from, n) == None && !EndsAfter(db, from, n)
  {
    hide AllZero;
    ZeroHashOnly(from);
    if n > 1 {
      StopsAt(db, from, n - 1);
    }
  }
}

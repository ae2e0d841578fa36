/** Merkle trees and proofs: `src/merkleTree.cpp`, `src/merkleProof.cpp`. */
module Merkle {
  import opened Base
  import opened Ledger
  import T = TransactionCodec
  import Retarget

  /** A stored hash; the levels of a tree are sequences of them. */
  datatype Digest = Digest(bytes: Bytes)

  type Level = seq<Digest>

  datatype Step = Step(hash: Digest, isLeft: bool)

  datatype Proof = Proof(txHash: Digest, txIndex: nat, merkleRoot: Digest, path: seq<Step>)

  // ---------------------------------------------------------------- the tree

  /** `combineAndHash`. */
  function Node(sha: Sha256, left: Digest, right: Digest): (hash: Digest)
    ensures |hash.bytes| == 32
  {
    Digest(sha.Of(left.bytes + right.bytes))
  }

  function Leaves(sha: Sha256, txs: seq<Transaction>): (leaves: Level)
    ensures |leaves| == |txs|
  {
    if txs == [] then [] else Leaves(sha, txs[..|txs| - 1]) + [Digest(sha.Of(T.Encode(txs[|txs| - 1])))]
  }

  function Pad(level: Level): (padded: Level)
    ensures |padded| % 2 == 0
  {
    if |level| % 2 != 0 then level + [level[|level| - 1]] else level
  }

  /** The second of the pair that starts a level: a lone last node is paired with itself. */
  function Second(level: Level): Digest
    requires level != []
  {
    if |level| == 1 then level[0] else level[1]
  }

  function AfterPair(level: Level): (rest: Level)
    requires level != []
    ensures |rest| < |level|
  {
    if |level| == 1 then [] else level[2..]
  }

  /** The hashes of neighbouring pairs, an odd level being padded on the fly. */
  function Above(sha: Sha256, level: Level): (above: Level)
    ensures |above| == (|level| + 1) / 2
    decreases |level|
  {
    if level == [] then [] else [Node(sha, level[0], Second(level))] + Above(sha, AfterPair(level))
  }

  ghost predicate Sized(level: Level) {
    forall i :: 0 <= i < |level| ==> |level[i].bytes| == 32
  }

  /** A node and its right neighbour, or itself when it is the last of an odd level. */
  function Partner(level: Level, i: nat): Digest
    requires i < |level|
  {
    if i + 1 < |level| then level[i + 1] else level[i]
  }

  lemma {:induction false} AboveUnfold(sha: Sha256, level: Level)
    requires level != []
    ensures Above(sha, level) == [Node(sha, level[0], Second(level))] + Above(sha, AfterPair(level))
  {
  }

  lemma {:induction false} AboveAt(sha: Sha256, level: Level, p: nat)
    requires 2 * p < |level|
    ensures Above(sha, level)[p] == Node(sha, level[2 * p], Partner(level, 2 * p))
    decreases p
  {
    hide Node, Above;
    AboveUnfold(sha, level);
    if p > 0 {
      AboveAt(sha, level[2..], p - 1);
    }
  }

  lemma {:induction false} LeafAt(sha: Sha256, txs: seq<Transaction>, i: nat)
    requires i < |txs|
    ensures Leaves(sha, txs)[i].bytes == sha.Of(T.Encode(txs[i]))
  {
    if i < |txs| - 1 {
      LeafAt(sha, txs[..|txs| - 1], i);
    }
  }

  /** The levels from one up to the root, each stored without padding. */
  function LevelsFrom(sha: Sha256, level: Level): (levels: seq<Level>)
    ensures levels != [] && levels[0] == level
    decreases |level|
  {
    if |level| <= 1 then [level] else [level] + LevelsFrom(sha, Above(sha, level))
  }

  /** Only the leaves are padded before they are stored. */
  function Levels(sha: Sha256, txs: seq<Transaction>): (levels: seq<Level>)
    ensures levels != [] && levels[0] == Pad(Leaves(sha, txs))
  {
    LevelsFrom(sha, Pad(Leaves(sha, txs)))
  }

  function RootFrom(sha: Sha256, level: Level): Digest
    requires level != []
    decreases |level|
  {
    if |level| == 1 then level[0] else RootFrom(sha, Above(sha, level))
  }

  function Root(sha: Sha256, txs: seq<Transaction>): Digest
    requires txs != []
  {
    RootFrom(sha, Pad(Leaves(sha, txs)))
  }

  lemma {:induction false} TopIsRoot(sha: Sha256, level: Level)
    requires level != []
    ensures LevelsFrom(sha, level)[|LevelsFrom(sha, level)| - 1] == [RootFrom(sha, level)]
    decreases |level|
  {
    if |level| > 1 {
      TopIsRoot(sha, Above(sha, level));
    }
  }

  // ---------------------------------------------------------------- proofs

  /** `idx ^ 1`, or the node itself when it is the last of an odd level. */
  function Sibling(size: nat, idx: nat): nat {
    var other := if idx % 2 == 0 then idx + 1 else idx - 1;
    if other >= size then idx else other
  }

  function StepAt(level: Level, idx: nat): Step
    requires idx < |level|
  {
    Step(level[Sibling(|level|, idx)], idx % 2 == 1)
  }

  /** The siblings met on the way up through stored levels. */
  function Path(levels: seq<Level>, idx: nat): seq<Step> {
    if |levels| <= 1 || idx >= |levels[0]| then [] else [StepAt(levels[0], idx)] + Path(levels[1..], idx / 2)
  }

  function PathFrom(sha: Sha256, level: Level, idx: nat): seq<Step>
    requires idx < |level|
    decreases |level|
  {
    if |level| == 1 then [] else [StepAt(level, idx)] + PathFrom(sha, Above(sha, level), idx / 2)
  }

  function GenerateProof(levels: seq<Level>, txIndex: nat): Result<Proof> {
    if levels == [] || txIndex >= |levels[0]| || levels[|levels| - 1] == [] then Throws
    else Ok(Proof(levels[0][txIndex], txIndex, levels[|levels| - 1][0], Path(levels, txIndex)))
  }

  function Combine(sha: Sha256, current: Digest, step: Step): Digest {
    if step.isLeft then Node(sha, step.hash, current) else Node(sha, current, step.hash)
  }

  function Fold(sha: Sha256, current: Digest, path: seq<Step>): Digest
    decreases |path|
  {
    if path == [] then current else Fold(sha, Combine(sha, current, path[0]), path[1..])
  }

  predicate Verifies(sha: Sha256, proof: Proof) {
    proof.txHash.bytes != [] && proof.merkleRoot.bytes != [] && Fold(sha, proof.txHash, proof.path) == proof.merkleRoot
  }

  /** A proof without a leaf or without a root is worth nothing, whatever its path. */
  lemma {:induction false} EmptyIsRefused(sha: Sha256, proof: Proof)
    requires proof.txHash.bytes == [] || proof.merkleRoot.bytes == []
    ensures !Verifies(sha, proof)
  {
  }

  // ---------------------------------------------------------------- completeness

  lemma {:induction false} PathIs(sha: Sha256, level: Level, idx: nat)
    requires idx < |level|
    ensures Path(LevelsFrom(sha, level), idx) == PathFrom(sha, level, idx)
    ensures |PathFrom(sha, level, idx)| == |LevelsFrom(sha, level)| - 1
    decreases |level|
  {
    hide Above, StepAt;
    if |level| > 1 {
      var above := Above(sha, level);
      assert LevelsFrom(sha, level)[1..] == LevelsFrom(sha, above);
      PathIs(sha, above, idx / 2);
    }
  }

  /** Combining a node with its recorded sibling gives its parent. */
  lemma {:induction false} StepUp(sha: Sha256, level: Level, idx: nat)
    requires idx < |level|
    ensures Combine(sha, level[idx], StepAt(level, idx)) == Above(sha, level)[idx / 2]
  {
    hide Above, Node;
    AboveAt(sha, level, idx / 2);
  }

  lemma {:induction false} PathFolds(sha: Sha256, level: Level, idx: nat)
    requires idx < |level|
    ensures Fold(sha, level[idx], PathFrom(sha, level, idx)) == RootFrom(sha, level)
    decreases |level|
  {
    hide Above, StepAt, Combine;
    if |level| > 1 {
      var path := PathFrom(sha, level, idx);
      StepUp(sha, level, idx);
      PathFolds(sha, Above(sha, level), idx / 2);
      assert path[1..] == PathFrom(sha, Above(sha, level), idx / 2);
    }
  }

  /** Every proof the tree generates verifies, for every stored leaf, the padding included. */
  lemma {:induction false} Complete(sha: Sha256, txs: seq<Transaction>, txIndex: nat)
    requires txs != [] && txIndex < |Pad(Leaves(sha, txs))|
    ensures var r := GenerateProof(Levels(sha, txs), txIndex);
            r.Ok? && Verifies(sha, r.value) && |r.value.path| == |Levels(sha, txs)| - 1
  {
    var leaves := Pad(Leaves(sha, txs));
    hide Leaves, Pad, PathFrom, Path;
    TopIsRoot(sha, leaves);
    PathIs(sha, leaves, txIndex);
    PathFolds(sha, leaves, txIndex);
    LeavesSized(sha, txs);
    RootSize(sha, leaves);
  }

  lemma {:induction false} LeavesSized(sha: Sha256, txs: seq<Transaction>)
    ensures Sized(Pad(Leaves(sha, txs)))
  {
    hide Leaves;
    forall i | 0 <= i < |txs| ensures |Leaves(sha, txs)[i].bytes| == 32 {
      LeafAt(sha, txs, i);
    }
  }

  lemma {:induction false} AboveSized(sha: Sha256, level: Level)
    ensures Sized(Above(sha, level))
  {
    hide Above;
    forall p | 0 <= p < |Above(sha, level)| ensures |Above(sha, level)[p].bytes| == 32 {
      AboveAt(sha, level, p);
    }
  }

  lemma {:induction false} RootSize(sha: Sha256, level: Level)
    requires level != [] && Sized(level)
    ensures |RootFrom(sha, level).bytes| == 32
    decreases |level|
  {
    if |level| > 1 {
      AboveSized(sha, level);
      RootSize(sha, Above(sha, level));
    }
  }

  lemma {:induction false} RootIsSized(sha: Sha256, txs: seq<Transaction>)
    requires txs != []
    ensures |Root(sha, txs).bytes| == 32
  {
    hide Leaves, Pad, RootFrom, Sized;
    LeavesSized(sha, txs);
    PaddedIsSome(sha, txs);
    RootSize(sha, Pad(Leaves(sha, txs)));
  }

  lemma {:induction false} PaddedIsSome(sha: Sha256, txs: seq<Transaction>)
    requires txs != []
    ensures Pad(Leaves(sha, txs)) != []
  {
  }

  /** A proof has as many steps as the ceiling of the base-2 logarithm of the number of leaves. */
  lemma {:induction false} PathLength(sha: Sha256, level: Level)
    requires level != []
    ensures var n := |LevelsFrom(sha, level)| - 1;
            |level| <= Retarget.Pow2(n) && (n > 0 ==> Retarget.Pow2(n - 1) < |level|)
    decreases |level|
  {
    if |level| > 1 {
      var above := Above(sha, level);
      hide Above;
      PathLength(sha, above);
      assert |above| == (|level| + 1) / 2;
      assert |LevelsFrom(sha, level)| == 1 + |LevelsFrom(sha, above)|;
    }
  }

  // ---------------------------------------------------------------- soundness

  /** The node the `isLeft` bits lead down to; the missing sibling of an odd level is the last node itself. */
  function Position(sha: Sha256, level: Level, path: seq<Step>): (p: nat)
    requires level != [] && |path| == |LevelsFrom(sha, level)| - 1
    ensures p < |level|
    decreases |level|
  {
    if |level| == 1 then 0
    else
      var child := 2 * Position(sha, Above(sha, level), path[1..]) + if path[0].isLeft then 1 else 0;
      if child >= |level| then child - 1 else child
  }

  ghost predicate StepsSized(path: seq<Step>) {
    forall i :: 0 <= i < |path| ==> |path[i].hash.bytes| == 32
  }

  /** Two nodes with the same hash have the same children, or their inputs collide. */
  lemma {:induction false} NodesBind(sha: Sha256, a: Digest, b: Digest, c: Digest, d: Digest)
    returns (col: Option<Collision>)
    requires |a.bytes| == |c.bytes| && Node(sha, a, b) == Node(sha, c, d)
    ensures col.Some? ==> IsCollision(sha, col.value)
    ensures col.None? ==> a == c && b == d
  {
    var x, y, n := a.bytes + b.bytes, c.bytes + d.bytes, |a.bytes|;
    if x != y {
      return Some(Collision(x, y));
    }
    assert a.bytes == x[..n] == y[..n] == c.bytes;
    assert b.bytes == x[n..] == y[n..] == d.bytes;
    return None;
  }

  /** One level of soundness: the child that hashes to node `p` above is the node the step's side selects. */
  lemma {:induction false} StepDown(sha: Sha256, level: Level, current: Digest, step: Step, p: nat)
    returns (col: Option<Collision>)
    requires Sized(level) && |current.bytes| == 32 && |step.hash.bytes| == 32
    requires 2 * p < |level| && Combine(sha, current, step) == Above(sha, level)[p]
    ensures col.Some? ==> IsCollision(sha, col.value)
    ensures col.None? ==> current == if step.isLeft then Partner(level, 2 * p) else level[2 * p]
  {
    hide Above, Node;
    AboveAt(sha, level, p);
    if step.isLeft {
      col := NodesBind(sha, step.hash, current, level[2 * p], Partner(level, 2 * p));
    } else {
      col := NodesBind(sha, current, step.hash, level[2 * p], Partner(level, 2 * p));
    }
  }

  /**
   * A proof of the right length that folds to the root proves membership: its hash is the node its bits
   * select, or two inputs with the same digest come out of it.
   */
  lemma {:induction false} Sound(sha: Sha256, level: Level, current: Digest, path: seq<Step>)
    returns (col: Option<Collision>)
    requires level != [] && Sized(level) && |current.bytes| == 32 && StepsSized(path)
    requires |path| == |LevelsFrom(sha, level)| - 1 && Fold(sha, current, path) == RootFrom(sha, level)
    ensures col.Some? ==> IsCollision(sha, col.value)
    ensures col.None? ==> current == level[Position(sha, level, path)]
    decreases |level|
  {
    hide Above, Combine, Sized;
    if |level| == 1 {
      return None;
    }
    var above := Above(sha, level);
    AboveSized(sha, level);
    CombineSized(sha, current, path[0]);
    col := Sound(sha, above, Combine(sha, current, path[0]), path[1..]);
    if col.None? {
      col := StepDown(sha, level, current, path[0], Position(sha, above, path[1..]));
    }
  }

  lemma {:induction false} CombineSized(sha: Sha256, current: Digest, step: Step)
    ensures |Combine(sha, current, step).bytes| == 32
  {
  }

  /** A proof that verifies against the root of a block carries the hash of the transaction its bits select. */
  lemma {:induction false} ProofShowsMember(sha: Sha256, txs: seq<Transaction>, proof: Proof)
    returns (i: nat, col: Option<Collision>)
    requires txs != [] && Verifies(sha, proof) && proof.merkleRoot == Root(sha, txs)
    requires |proof.txHash.bytes| == 32 && StepsSized(proof.path) && |proof.path| == |Levels(sha, txs)| - 1
    ensures i < |txs| && (col.Some? ==> IsCollision(sha, col.value))
    ensures col.None? ==> proof.txHash.bytes == sha.Of(T.Encode(txs[i]))
    ensures var position := Position(sha, Pad(Leaves(sha, txs)), proof.path);
            i == if position < |txs| then position else |txs| - 1
  {
    hide Leaves, Sized, Position, T.Encode;
    var leaves := Leaves(sha, txs);
    LeavesSized(sha, txs);
    col := Sound(sha, Pad(leaves), proof.txHash, proof.path);
    var position := Position(sha, Pad(leaves), proof.path);
    i := if position < |txs| then position else |txs| - 1;
    LeafAt(sha, txs, i);
    assert Pad(leaves)[position] == leaves[i];
  }

  // ---------------------------------------------------------------- what the root binds

  /** Two levels of the same size under one root are the same level, or a collision comes out. */
  lemma {:induction false} RootBinds(sha: Sha256, a: Level, b: Level) returns (col: Option<Collision>)
    requires |a| == |b| > 0 && Sized(a) && Sized(b) && RootFrom(sha, a) == RootFrom(sha, b)
    ensures col.Some? ==> IsCollision(sha, col.value)
    ensures col.None? ==> a == b
    decreases |a|
  {
    hide Above, Sized;
    if |a| == 1 {
      return None;
    }
    AboveSized(sha, a);
    AboveSized(sha, b);
    col := RootBinds(sha, Above(sha, a), Above(sha, b));
    if col.None? {
      col := PairsBind(sha, a, b);
    }
  }

  lemma {:induction false} PairsBind(sha: Sha256, a: Level, b: Level) returns (col: Option<Collision>)
    requires |a| == |b| && Sized(a) && Sized(b) && Above(sha, a) == Above(sha, b)
    ensures col.Some? ==> IsCollision(sha, col.value)
    ensures col.None? ==> a == b
    decreases |a|
  {
    if a == [] {
      return None;
    }
    hide Above, Node;
    AboveCons(sha, a);
    AboveCons(sha, b);
    col := NodesBind(sha, a[0], Second(a), b[0], Second(b));
    if col.Some? {
      return;
    }
    col := PairsBind(sha, AfterPair(a), AfterPair(b));
    if col.None? {
      PairCons(a);
      PairCons(b);
    }
  }

  lemma {:induction false} AboveCons(sha: Sha256, level: Level)
    requires level != []
    ensures Above(sha, level)[0] == Node(sha, level[0], Second(level))
    ensures Above(sha, level)[1..] == Above(sha, AfterPair(level))
  {
    hide Node;
  }

  lemma {:induction false} PairCons(level: Level)
    requires level != []
    ensures level == if |level| == 1 then [level[0]] else [level[0], Second(level)] + AfterPair(level)
  {
  }

  /** Equal roots over equally many transactions: the same inputs and outputs throughout, or a collision. */
  lemma {:induction false} TransactionsBound(sha: Sha256, a: seq<Transaction>, b: seq<Transaction>)
    returns (col: Option<Collision>)
    requires |a| == |b| > 0 && Root(sha, a) == Root(sha, b)
    requires forall i :: 0 <= i < |a| ==> T.Encodable(a[i]) && T.Encodable(b[i])
    ensures col.Some? ==> IsCollision(sha, col.value)
    ensures col.None? ==> forall i :: 0 <= i < |a| ==> a[i].vin == b[i].vin && a[i].vout == b[i].vout
  {
    hide T.Encode, T.Encodable;
    var la, lb := Leaves(sha, a), Leaves(sha, b);
    LeavesSized(sha, a);
    LeavesSized(sha, b);
    col := RootBinds(sha, Pad(la), Pad(lb));
    if col.None? {
      assert la == Pad(la)[..|a|] == Pad(lb)[..|a|] == lb;
      if i :| 0 <= i < |a| && T.Encode(a[i]) != T.Encode(b[i]) {
        LeafAt(sha, a, i);
        LeafAt(sha, b, i);
        return Some(Collision(T.Encode(a[i]), T.Encode(b[i])));
      }
      forall i | 0 <= i < |a| ensures a[i].vin == b[i].vin && a[i].vout == b[i].vout {
        T.EncodeInjective(a[i], b[i]);
      }
    }
  }

  /** Lists of different lengths can share a root: an odd list and the list that repeats its last transaction. */
  lemma {:induction false} RepeatedLast(sha: Sha256, txs: seq<Transaction>)
    requires |txs| % 2 == 1
    ensures Root(sha, txs + [txs[|txs| - 1]]) == Root(sha, txs)
  {
    var last := txs[|txs| - 1];
    assert (txs + [last])[..|txs|] == txs;
  }

  // ---------------------------------------------------------------- lists of different lengths

  function Height(sha: Sha256, level: Level): nat {
    |LevelsFrom(sha, level)| - 1
  }

  /** Which node of a level of `n` stands in place `j` of the full tree of that height; padding repeats the last. */
  function Slot(n: nat, height: nat, j: nat): (i: nat)
    requires n > 0
    ensures i < n
    decreases height
  {
    if n == 1 || height == 0 then 0
    else
      var child := 2 * Slot((n + 1) / 2, height - 1, j / 2) + j % 2;
      if child >= n then n - 1 else child
  }

  /** A node stands in its own place. */
  lemma {:induction false} SlotSelf(sha: Sha256, level: Level, i: nat)
    requires i < |level|
    ensures Slot(|level|, Height(sha, level), i) == i
    decreases |level|
  {
    hide Above;
    if |level| > 1 {
      SlotSelf(sha, Above(sha, level), i / 2);
    }
  }

  /** Two levels of one height under one root have the same node in every place, or a collision comes out. */
  lemma {:induction false} PlacesBind(sha: Sha256, a: Level, b: Level, j: nat) returns (col: Option<Collision>)
    requires a != [] && b != [] && Sized(a) && Sized(b) && RootFrom(sha, a) == RootFrom(sha, b)
    requires Height(sha, a) == Height(sha, b)
    ensures col.Some? ==> IsCollision(sha, col.value)
    ensures col.None? ==> a[Slot(|a|, Height(sha, a), j)] == b[Slot(|b|, Height(sha, b), j)]
    decreases |a|
  {
    hide Above, Sized, Node, Slot, Height, RootFrom;
    OneLevelUp(sha, a, j);
    OneLevelUp(sha, b, j);
    if |a| == 1 {
      return None;
    }
    var above, beside := Above(sha, a), Above(sha, b);
    AboveSized(sha, a);
    AboveSized(sha, b);
    col := PlacesBind(sha, above, beside, j / 2);
    if col.None? {
      var p, q := Slot(|above|, Height(sha, above), j / 2), Slot(|beside|, Height(sha, beside), j / 2);
      AboveAt(sha, a, p);
      AboveAt(sha, b, q);
      col := ChildrenBind(sha, a, p, b, q);
    }
  }

  /** Root, height and places of a level, told by the level above. */
  lemma {:induction false} OneLevelUp(sha: Sha256, level: Level, j: nat)
    requires level != []
    ensures |level| == 1 <==> Height(sha, level) == 0
    ensures |level| == 1 ==> RootFrom(sha, level) == level[0]
    ensures |level| > 1 ==> var above := Above(sha, level); above != [] && RootFrom(sha, level) == RootFrom(sha, above)
    ensures |level| > 1 ==> Height(sha, level) == Height(sha, Above(sha, level)) + 1
    ensures |level| > 1 ==>
      var above := Above(sha, level);
      var p := Slot(|above|, Height(sha, above), j / 2);
      level[Slot(|level|, Height(sha, level), j)] == if j % 2 == 0 then level[2 * p] else Partner(level, 2 * p)
  {
    hide Above, Sized, Node;
  }

  lemma {:induction false} ChildrenBind(sha: Sha256, a: Level, p: nat, b: Level, q: nat)
    returns (col: Option<Collision>)
    requires Sized(a) && Sized(b) && 2 * p < |a| && 2 * q < |b|
    requires Node(sha, a[2 * p], Partner(a, 2 * p)) == Node(sha, b[2 * q], Partner(b, 2 * q))
    ensures col.Some? ==> IsCollision(sha, col.value)
    ensures col.None? ==> a[2 * p] == b[2 * q] && Partner(a, 2 * p) == Partner(b, 2 * q)
  {
    hide Node;
    col := NodesBind(sha, a[2 * p], Partner(a, 2 * p), b[2 * q], Partner(b, 2 * q));
  }

  /** Which transaction of a list stands in a place of the full tree. */
  function Standing(sha: Sha256, txs: seq<Transaction>, j: nat): (i: nat)
    requires txs != []
    ensures i < |txs|
  {
    var p := Slot(|Pad(Leaves(sha, txs))|, Height(sha, Pad(Leaves(sha, txs))), j);
    if p < |txs| then p else |txs| - 1
  }

  lemma {:induction false} StandingSelf(sha: Sha256, txs: seq<Transaction>, i: nat)
    requires i < |txs|
    ensures Standing(sha, txs, i) == i
  {
    SlotSelf(sha, Pad(Leaves(sha, txs)), i);
  }

  lemma {:induction false} StandsThere(sha: Sha256, txs: seq<Transaction>, j: nat)
    requires txs != []
    ensures var leaves := Pad(Leaves(sha, txs));
            leaves[Slot(|leaves|, Height(sha, leaves), j)].bytes == sha.Of(T.Encode(txs[Standing(sha, txs, j)]))
  {
    hide Leaves, Height, Slot, T.Encode;
    LeafAt(sha, txs, Standing(sha, txs, j));
  }

  lemma {:induction false} PlaceBinds(sha: Sha256, a: seq<Transaction>, b: seq<Transaction>, j: nat)
    returns (col: Option<Collision>)
    requires a != [] && b != [] && Root(sha, a) == Root(sha, b) && |Levels(sha, a)| == |Levels(sha, b)|
    ensures col.Some? ==> IsCollision(sha, col.value)
    ensures col.None? ==> T.Encode(a[Standing(sha, a, j)]) == T.Encode(b[Standing(sha, b, j)])
  {
    hide T.Encode, Leaves, Standing, Slot, Pad;
    PaddedIsSome(sha, a);
    PaddedIsSome(sha, b);
    LeavesSized(sha, a);
    LeavesSized(sha, b);
    StandsThere(sha, a, j);
    StandsThere(sha, b, j);
    col := PlacesBind(sha, Pad(Leaves(sha, a)), Pad(Leaves(sha, b)), j);
    var x, y := T.Encode(a[Standing(sha, a, j)]), T.Encode(b[Standing(sha, b, j)]);
    if col.None? && x != y {
      return Some(Collision(x, y));
    }
  }

  /**
   * Lists of whatever lengths with trees of one height: under one root they have, place by place of the full tree, the
   * same inputs and outputs, so that one can only be longer by what padding repeats of the other; or a collision.
   */
  lemma {:induction false} PaddingOnly(sha: Sha256, a: seq<Transaction>, b: seq<Transaction>)
    returns (col: Option<Collision>)
    requires a != [] && b != [] && Root(sha, a) == Root(sha, b) && |Levels(sha, a)| == |Levels(sha, b)|
    requires forall i :: 0 <= i < |a| ==> T.Encodable(a[i])
    requires forall i :: 0 <= i < |b| ==> T.Encodable(b[i])
    ensures col.Some? ==> IsCollision(sha, col.value)
    ensures col.None? ==> forall j: nat :: Alike(a[Standing(sha, a, j)], b[Standing(sha, b, j)])
    ensures col.None? ==> forall i :: 0 <= i < |b| ==> Alike(a[Standing(sha, a, i)], b[i])
  {
    hide T.Encode, T.Encodable, Standing, Levels, Root;
    col := None;
    if j: nat :| T.Encode(a[Standing(sha, a, j)]) != T.Encode(b[Standing(sha, b, j)]) {
      col := PlaceBinds(sha, a, b, j);
      return;
    }
    forall j: nat ensures Alike(a[Standing(sha, a, j)], b[Standing(sha, b, j)]) {
      T.EncodeInjective(a[Standing(sha, a, j)], b[Standing(sha, b, j)]);
    }
    forall i | 0 <= i < |b| ensures Alike(a[Standing(sha, a, i)], b[i]) {
      StandingSelf(sha, b, i);
    }
  }

  predicate Alike(a: Transaction, b: Transaction) {
    a.vin == b.vin && a.vout == b.vout
  }

  // ---------------------------------------------------------------- trees of different heights

  lemma {:induction false} LevelAt(sha: Sha256, level: Level, d: nat)
    requires level != [] && Sized(level) && d < |LevelsFrom(sha, level)|
    ensures var at := LevelsFrom(sha, level)[d];
            && at != [] && Sized(at) && RootFrom(sha, at) == RootFrom(sha, level)
            && Height(sha, at) == Height(sha, level) - d
    ensures d > 0 ==> LevelsFrom(sha, level)[d] == Above(sha, LevelsFrom(sha, level)[d - 1])
    decreases |level|
  {
    hide Above, Sized;
    if d > 0 {
      AboveSized(sha, level);
      LevelAt(sha, Above(sha, level), d - 1);
    }
  }

  /** Its bytes are two neighbouring hashes of the level. */
  ghost predicate IsPair(level: Level, b: Bytes) {
    exists p: nat :: 2 * p < |level| && b == level[2 * p].bytes + Partner(level, 2 * p).bytes
  }

  lemma {:induction false} LeafIsNode(sha: Sha256, txs: seq<Transaction>, low: Level, i: nat)
    returns (col: Option<Collision>)
    requires i < |txs| && low != [] && RootFrom(sha, Above(sha, low)) == Root(sha, txs)
    requires Height(sha, Above(sha, low)) == Height(sha, Pad(Leaves(sha, txs)))
    ensures col.Some? ==> IsCollision(sha, col.value)
    ensures col.None? ==> IsPair(low, T.Encode(txs[i]))
  {
    hide T.Encode, Leaves, Pad, Above, Height, Slot, RootFrom, Standing;
    var leaves, above := Pad(Leaves(sha, txs)), Above(sha, low);
    var p := Slot(|above|, Height(sha, above), i);
    PaddedIsSome(sha, txs);
    LeavesSized(sha, txs);
    AboveSized(sha, low);
    StandsThere(sha, txs, i);
    StandingSelf(sha, txs, i);
    col := PlacesBind(sha, leaves, above, i);
    if col.None? {
      AboveAt(sha, low, p);
      var x, y := T.Encode(txs[i]), low[2 * p].bytes + Partner(low, 2 * p).bytes;
      if x != y {
        return Some(Collision(x, y));
      }
    }
  }

  /**
   * A lower tree under the root of a higher one: every transaction of the shorter list encodes to a pair of
   * neighbouring hashes of the other tree, one level below its own height; or a collision.
   */
  lemma {:induction false} LowerTree(sha: Sha256, a: seq<Transaction>, b: seq<Transaction>)
    returns (col: Option<Collision>)
    requires a != [] && b != [] && Root(sha, a) == Root(sha, b) && |Levels(sha, a)| < |Levels(sha, b)|
    ensures col.Some? ==> IsCollision(sha, col.value)
    ensures var low := Levels(sha, b)[|Levels(sha, b)| - |Levels(sha, a)| - 1];
            col.None? ==> forall i :: 0 <= i < |a| ==> IsPair(low, T.Encode(a[i])) && |T.Encode(a[i])| == 64
  {
    hide T.Encode, Leaves, Pad, Above, RootFrom, IsPair, LevelsFrom;
    var d := |Levels(sha, b)| - |Levels(sha, a)|;
    var low := Levels(sha, b)[d - 1];
    PaddedIsSome(sha, b);
    LeavesSized(sha, b);
    LevelAt(sha, Pad(Leaves(sha, b)), d);
    LevelAt(sha, Pad(Leaves(sha, b)), d - 1);
    col := None;
    if i :| 0 <= i < |a| && !IsPair(low, T.Encode(a[i])) {
      col := LeafIsNode(sha, a, low, i);
      return;
    }
    forall i | 0 <= i < |a| ensures |T.Encode(a[i])| == 64 {
      PairSize(low, T.Encode(a[i]));
    }
  }

  lemma {:induction false} PairSize(level: Level, b: Bytes)
    requires Sized(level) && IsPair(level, b)
    ensures |b| == 64
  {
  }

  // ---------------------------------------------------------------- the loops of the source

  method BuildLeaves(sha: Sha256, txs: seq<Transaction>) returns (level: Level)
    ensures level == Leaves(sha, txs)
  {
    level := [];
    for i := 0 to |txs|
      invariant level == Leaves(sha, txs[..i])
    {
      assert txs[..i + 1][..i] == txs[..i];
      level := level + [Digest(sha.Of(T.Encode(txs[i])))];
    }
    assert txs[..|txs|] == txs;
  }

  lemma {:induction false} AbovePad(sha: Sha256, level: Level)
    ensures Above(sha, Pad(level)) == Above(sha, level)
    decreases |level|
  {
    hide Above, Pad, Second, AfterPair;
    PadTail(level);
    if level != [] {
      AboveUnfold(sha, level);
      AboveUnfold(sha, Pad(level));
      AbovePad(sha, AfterPair(level));
    }
  }

  lemma {:induction false} PadTail(level: Level)
    ensures level == [] ==> Pad(level) == level
    ensures level != [] ==> Pad(level) != [] && Pad(level)[0] == level[0] && Second(Pad(level)) == Second(level)
    ensures level != [] ==> AfterPair(Pad(level)) == Pad(AfterPair(level))
  {
  }

  method HashPairs(sha: Sha256, current: Level, ghost pairs: nat) returns (next: Level)
    requires |current| == 2 * pairs
    ensures next == Above(sha, current)
  {
    hide Node, Above;
    next := [];
    var i := 0;
    ghost var k := 0;
    assert current[0..] == current;
    while i + 1 < |current|
      invariant i == 2 * k <= |current|
      invariant next + Above(sha, current[i..]) == Above(sha, current)
    {
      AboveSplit(sha, current, i, next);
      next := next + [Node(sha, current[i], current[i + 1])];
      i, k := i + 2, k + 1;
    }
    AboveNothing(sha, current[i..]);
    assert next + [] == next;
  }

  lemma {:induction false} AboveNothing(sha: Sha256, level: Level)
    requires level == []
    ensures Above(sha, level) == []
  {
  }

  method BuildAbove(sha: Sha256, level: Level) returns (next: Level)
    ensures next == Above(sha, level)
  {
    hide Above;
    var current := level;
    if |current| % 2 != 0 {
      current := current + [current[|current| - 1]];
    }
    AbovePad(sha, level);
    next := HashPairs(sha, current, |current| / 2);
  }

  lemma {:induction false} AboveSplit(sha: Sha256, level: Level, i: nat, done: Level)
    requires i + 1 < |level|
    ensures done + Above(sha, level[i..]) == (done + [Node(sha, level[i], level[i + 1])]) + Above(sha, level[i + 2..])
  {
    hide Node;
    assert level[i..][2..] == level[i + 2..];
    assert Above(sha, level[i..]) == [Node(sha, level[i], level[i + 1])] + Above(sha, level[i + 2..]);
  }

  method BuildTree(sha: Sha256, txs: seq<Transaction>) returns (levels: Result<seq<Level>>)
    ensures levels == if txs == [] then Throws else Ok(Levels(sha, txs))
  {
    hide Leaves, Above;
    if txs == [] { return Throws; }
    var current := BuildLeaves(sha, txs);
    if |current| % 2 != 0 {
      current := current + [current[|current| - 1]];
    }
    var stored := [current];
    while |current| > 1
      invariant current != []
      invariant stored + LevelsFrom(sha, current)[1..] == Levels(sha, txs)
      decreases |current|
    {
      var next := BuildAbove(sha, current);
      assert LevelsFrom(sha, current)[1..] == LevelsFrom(sha, next) == [next] + LevelsFrom(sha, next)[1..];
      stored, current := stored + [next], next;
    }
    assert stored + [] == stored;
    return Ok(stored);
  }

  /** Each level has a node for every pair below it. */
  ghost predicate TreeShaped(levels: seq<Level>) {
    && (forall i :: 0 <= i < |levels| ==> levels[i] != [])
    && forall i :: 1 <= i < |levels| ==> |levels[i]| == (|levels[i - 1]| + 1) / 2
  }

  lemma {:induction false} LevelsShaped(sha: Sha256, level: Level)
    requires level != []
    ensures TreeShaped(LevelsFrom(sha, level))
    decreases |level|
  {
    if |level| > 1 {
      var above := Above(sha, level);
      hide Above;
      LevelsShaped(sha, above);
      var rest := LevelsFrom(sha, above);
      assert LevelsFrom(sha, level) == [level] + rest && rest[0] == above;
    }
  }

  /** A tree over some transactions, and the proof of one of its leaves: it is there if and only if the leaf is. */
  method ProveMember(sha: Sha256, txs: seq<Transaction>, txIndex: nat) returns (r: Result<Proof>)
    ensures r.Ok? <==> txs != [] && txIndex < |Pad(Leaves(sha, txs))|
    ensures r.Ok? ==> Verifies(sha, r.value) && r.value.merkleRoot == Root(sha, txs) && r.value.txIndex == txIndex
    ensures r.Ok? ==> r.value.txHash == Pad(Leaves(sha, txs))[txIndex]
  {
    hide Leaves, Pad, LevelsFrom, Verifies;
    var levels := BuildTree(sha, txs);
    if levels.Throws? { return Throws; }
    PadKeeps(sha, txs);
    LevelsShaped(sha, Pad(Leaves(sha, txs)));
    TopIsRoot(sha, Pad(Leaves(sha, txs)));
    if txIndex < |Pad(Leaves(sha, txs))| {
      Complete(sha, txs, txIndex);
    }
    r := Prove(levels.value, txIndex);
  }

  lemma {:induction false} PadKeeps(sha: Sha256, txs: seq<Transaction>)
    requires txs != []
    ensures Pad(Leaves(sha, txs)) != []
  {
    hide Leaves;
  }

  method Prove(levels: seq<Level>, txIndex: nat) returns (r: Result<Proof>)
    requires TreeShaped(levels)
    ensures r == GenerateProof(levels, txIndex)
  {
    if levels == [] || txIndex >= |levels[0]| { return Throws; }
    var path: seq<Step> := [];
    var idx: nat := txIndex;
    for level := 0 to |levels| - 1
      invariant 0 <= idx < |levels[level]|
      invariant path + Path(levels[level..], idx) == Path(levels, txIndex)
    {
      var current := levels[level];
      var siblingIdx := if idx % 2 == 0 then idx + 1 else idx - 1;
      if siblingIdx >= |current| {
        siblingIdx := idx;
      }
      assert levels[level..][1..] == levels[level + 1..];
      path := path + [Step(current[siblingIdx], idx % 2 == 1)];
      idx := idx / 2;
    }
    assert Path(levels[|levels| - 1..], idx) == [] && path + [] == path;
    return Ok(Proof(levels[0][txIndex], txIndex, levels[|levels| - 1][0], path));
  }

  method VerifyMerkleProof(sha: Sha256, proof: Proof) returns (ok: bool)
    ensures ok <==> Verifies(sha, proof)
  {
    if proof.txHash.bytes == [] || proof.merkleRoot.bytes == [] { return false; }
    var current := proof.txHash;
    for i := 0 to |proof.path|
      invariant Fold(sha, current, proof.path[i..]) == Fold(sha, proof.txHash, proof.path)
    {
      assert proof.path[i..][1..] == proof.path[i + 1..];
      var step := proof.path[i];
      current := if step.isLeft then Node(sha, step.hash, current) else Node(sha, current, step.hash);
    }
    return current == proof.merkleRoot;
  }
}

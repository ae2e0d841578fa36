/** Which unspent outputs are locked to a key, what they are worth, and what a selection of them must satisfy. */
module CoinSelection {
  import opened Base
  import opened Ledger
  import opened UtxoIndex
  import opened Sums
  import opened Supply
  import opened Validation

  /** A coinbase output must be buried before it counts. */
  predicate Mature(outs: TXOutputs, height: int) {
    outs.isCoinbase ==> height - outs.blockHeight >= COINBASE_MATURITY
  }

  predicate CanSpend(db: Index, height: int, pubKeyHash: Bytes, o: Outpoint) {
    && o.txid in db && Mature(db[o.txid], height)
    && o.vout in db[o.txid].outputs && db[o.txid].outputs[o.vout].pubKeyHash == pubKeyHash
  }

  /** The mature outputs locked to a key at a height, among those of the given transactions. */
  ghost function Spendable(db: Index, height: int, pubKeyHash: Bytes, ids: set<Bytes>): set<Outpoint> {
    set o | o in Flat(db) && o.txid in ids && CanSpend(db, height, pubKeyHash, o)
  }

  /** The outputs of one transaction that are locked to a key, among the given indices. */
  ghost function LockedIn(db: Index, pubKeyHash: Bytes, id: Bytes, keys: seq<Int32>): set<Outpoint>
    requires id in db
  {
    set k | k in keys && k in db[id].outputs && db[id].outputs[k].pubKeyHash == pubKeyHash :: Outpoint(id, k)
  }

  ghost function Chosen(db: Index, points: set<Outpoint>): Coins {
    map o | o in Flat(db) && o in points :: Flat(db)[o]
  }

  ghost function Worth(db: Index, points: set<Outpoint>): nat {
    Sum(Chosen(db, points))
  }

  /** The amount is reached, and was not before the last pick. */
  ghost predicate JustEnough(db: Index, points: set<Outpoint>, amount: int) {
    || (points == {} && amount <= 0)
    || exists last :: last in points && Worth(db, points - {last}) < amount
  }

  /** Indices stand in ascending order, none twice. */
  ghost predicate Distinct(lists: IndexLists) {
    forall id :: id in lists ==> lists[id] != [] && Rising(lists[id])
  }

  ghost predicate Rising(s: seq<Int32>) {
    forall j, k :: 0 <= j < k < |s| ==> s[j] < s[k]
  }

  /** A selection among the outputs seen so far. */
  ghost predicate Selected(db: Index, seen: set<Outpoint>, amount: int, accumulated: int, picks: IndexLists) {
    && Distinct(picks) && Listed(picks) <= seen
    && accumulated == Worth(db, Listed(picks))
    && (accumulated < amount ==> Listed(picks) == seen)
    && (accumulated >= amount ==> JustEnough(db, Listed(picks), amount))
  }

  /** A selection that reaches a positive amount has an output without which it would not. */
  lemma {:induction false} NotOneTooMany(db: Index, seen: set<Outpoint>, amount: int, accumulated: int,
                                         picks: IndexLists)
    returns (last: Outpoint)
    requires Selected(db, seen, amount, accumulated, picks) && accumulated >= amount > 0
    ensures last in Listed(picks) && Worth(db, Listed(picks) - {last}) < amount <= Worth(db, Listed(picks))
  {
    hide Worth, Listed;
    last :| last in Listed(picks) && Worth(db, Listed(picks) - {last}) < amount;
  }

  lemma {:induction false} WorthAdd(db: Index, points: set<Outpoint>, o: Outpoint)
    requires o in Flat(db) && o !in points
    ensures Worth(db, points + {o}) == Worth(db, points) + Flat(db)[o]
  {
    hide Flat;
    assert Chosen(db, points + {o}) == Chosen(db, points)[o := Flat(db)[o]];
    SumAdd(Chosen(db, points), o, Flat(db)[o]);
  }

  lemma {:induction false} WorthNothing(db: Index)
    ensures Worth(db, {}) == 0
  {
    assert Chosen(db, {}) == map[];
  }

  lemma {:induction false} SpendableNone(db: Index, height: int, pubKeyHash: Bytes)
    ensures Spendable(db, height, pubKeyHash, {}) == {}
  {
  }

  /** Coming to one more transaction, whose keys are all looked at. */
  lemma {:induction false} SpendableAdd(db: Index, height: int, pubKeyHash: Bytes, ids: set<Bytes>, id: Bytes,
                                        keys: seq<Int32>)
    requires id in db && forall k :: k in keys <==> k in db[id].outputs
    ensures Spendable(db, height, pubKeyHash, ids + {id}) ==
      if Mature(db[id], height) then Spendable(db, height, pubKeyHash, ids) + LockedIn(db, pubKeyHash, id, keys)
      else Spendable(db, height, pubKeyHash, ids)
  {
    hide Flat, Mature;
    forall o: Outpoint
      ensures o in Spendable(db, height, pubKeyHash, ids + {id}) <==>
        o in Spendable(db, height, pubKeyHash, ids) ||
        (Mature(db[id], height) && o in LockedIn(db, pubKeyHash, id, keys))
    {
      FlatAt(db, o);
    }
  }

  lemma {:induction false} LockedInStep(db: Index, pubKeyHash: Bytes, id: Bytes, keys: seq<Int32>, j: nat)
    requires id in db && j < |keys| && keys[j] in db[id].outputs && Rising(keys)
    ensures var o, before := Outpoint(id, keys[j]), LockedIn(db, pubKeyHash, id, keys[..j]);
            && o !in before
            && LockedIn(db, pubKeyHash, id, keys[..j + 1]) ==
                 if db[id].outputs[keys[j]].pubKeyHash == pubKeyHash then before + {o} else before
  {
    assert keys[..j + 1] == keys[..j] + [keys[j]];
  }

  /** Picking one more output while the amount is not reached. */
  lemma {:induction false} SelectedPick(db: Index, seen: set<Outpoint>, amount: int, accumulated: int,
                                        picks: IndexLists, id: Bytes, i: Int32)
    requires Selected(db, seen, amount, accumulated, picks) && accumulated < amount
    requires Outpoint(id, i) !in seen && id in db && i in db[id].outputs
    requires id in picks ==> picks[id] != [] && picks[id][|picks[id]| - 1] < i
    ensures Selected(db, seen + {Outpoint(id, i)}, amount, accumulated + db[id].outputs[i].value, Append(picks, id, i))
  {
    hide Flat, Listed, Worth;
    var o, before := Outpoint(id, i), Listed(picks);
    FlatAt(db, o);
    WorthAdd(db, before, o);
    ListedAppend(picks, id, i);
    assert before + {o} - {o} == before;
  }

  lemma {:induction false} SelectedMore(db: Index, seen: set<Outpoint>, more: set<Outpoint>, amount: int,
                                        accumulated: int, picks: IndexLists)
    requires Selected(db, seen, amount, accumulated, picks) && accumulated >= amount && seen <= more
    ensures Selected(db, more, amount, accumulated, picks)
  {
  }

  lemma {:induction false} NothingSelected(db: Index, height: int, pubKeyHash: Bytes, amount: int)
    ensures Selected(db, Spendable(db, height, pubKeyHash, {}), amount, 0, map[])
  {
    SpendableNone(db, height, pubKeyHash);
    WorthNothing(db);
    assert Listed(map[]) == {};
  }

  lemma {:induction false} SpendableApart(db: Index, height: int, pubKeyHash: Bytes, ids: set<Bytes>)
    ensures forall o :: o in Spendable(db, height, pubKeyHash, ids) ==> o.txid in ids
  {
  }

  lemma {:induction false} SpendableGrows(db: Index, height: int, pubKeyHash: Bytes, ids: set<Bytes>, more: set<Bytes>)
    requires ids <= more
    ensures Spendable(db, height, pubKeyHash, ids) <= Spendable(db, height, pubKeyHash, more)
  {
  }

  lemma {:induction false} NoneLocked(db: Index, pubKeyHash: Bytes, id: Bytes)
    requires id in db
    ensures LockedIn(db, pubKeyHash, id, []) == {}
  {
  }

  lemma {:induction false} LockedGrows(db: Index, pubKeyHash: Bytes, id: Bytes, keys: seq<Int32>, j: nat)
    requires id in db && j <= |keys|
    ensures LockedIn(db, pubKeyHash, id, keys[..j]) <= LockedIn(db, pubKeyHash, id, keys)
  {
  }

  /** The outputs at a set of points, each once, in some order. */
  ghost predicate Collected(db: Index, points: set<Outpoint>, utxos: seq<TxOut>) {
    exists order: seq<Outpoint> :: NoRepeat(order) && Elements(order) == points && OutputsAt(db, order, utxos)
  }

  ghost predicate OutputsAt(db: Index, order: seq<Outpoint>, utxos: seq<TxOut>) {
    && |order| == |utxos|
    && forall i :: 0 <= i < |order| ==>
         order[i].txid in db && order[i].vout in db[order[i].txid].outputs &&
         utxos[i] == db[order[i].txid].outputs[order[i].vout]
  }

  lemma {:induction false} NothingCollected(db: Index, height: int, pubKeyHash: Bytes)
    ensures Collected(db, Spendable(db, height, pubKeyHash, {}), [])
  {
    SpendableNone(db, height, pubKeyHash);
    assert NoRepeat([]) && Elements([]) == {} && OutputsAt(db, [], []);
  }

  lemma {:induction false} CollectedMore(db: Index, points: set<Outpoint>, utxos: seq<TxOut>, id: Bytes, i: Int32)
    requires Collected(db, points, utxos) && Outpoint(id, i) !in points && id in db && i in db[id].outputs
    ensures Collected(db, points + {Outpoint(id, i)}, utxos + [db[id].outputs[i]])
  {
    hide NoRepeat, Elements, OutputsAt;
    var order :| NoRepeat(order) && Elements(order) == points && OutputsAt(db, order, utxos);
    var o := Outpoint(id, i);
    ElementsSnoc(order, o);
    ElementsMember(order, o);
    OutputsAtMore(db, order, utxos, id, i);
    CollectedBy(db, order + [o], points + {o}, utxos + [db[id].outputs[i]]);
  }

  lemma {:induction false} CollectedBy(db: Index, order: seq<Outpoint>, points: set<Outpoint>, utxos: seq<TxOut>)
    requires NoRepeat(order) && Elements(order) == points && OutputsAt(db, order, utxos)
    ensures Collected(db, points, utxos)
  {
    hide NoRepeat, Elements, OutputsAt;
  }

  lemma {:induction false} OutputsAtMore(db: Index, order: seq<Outpoint>, utxos: seq<TxOut>, id: Bytes, i: Int32)
    requires OutputsAt(db, order, utxos) && id in db && i in db[id].outputs
    ensures OutputsAt(db, order + [Outpoint(id, i)], utxos + [db[id].outputs[i]])
  {
  }

  /** So their values add up to what the points are worth. */
  lemma {:induction false} CollectedWorth(db: Index, points: set<Outpoint>, utxos: seq<TxOut>)
    requires Collected(db, points, utxos)
    ensures OutputSum(utxos) == Worth(db, points)
  {
    hide NoRepeat, Worth, OutputsAt;
    var order :| NoRepeat(order) && Elements(order) == points && OutputsAt(db, order, utxos);
    OrderWorth(db, order, utxos);
  }

  lemma {:induction false} OrderWorth(db: Index, order: seq<Outpoint>, utxos: seq<TxOut>)
    requires NoRepeat(order) && OutputsAt(db, order, utxos)
    ensures OutputSum(utxos) == Worth(db, Elements(order))
  {
    hide Worth, Elements, Flat;
    if order == [] {
      WorthNothing(db);
      NoElements();
    } else {
      var last := |order| - 1;
      OrderWorth(db, order[..last], utxos[..last]);
      FlatAt(db, order[last]);
      ElementsSnoc(order[..last], order[last]);
      ElementsMember(order[..last], order[last]);
      WorthAdd(db, Elements(order[..last]), order[last]);
      assert order == order[..last] + [order[last]];
    }
  }

  lemma {:induction false} NoElements()
    ensures Elements([]) == {} && NoRepeat([])
  {
  }

  /** The picks made for a transaction so far all come before its key number `j`. */
  ghost predicate PicksBefore(picks: IndexLists, id: Bytes, keys: seq<Int32>, j: nat)
    requires j <= |keys|
  {
    id in picks ==> j > 0 && picks[id] != [] && picks[id][|picks[id]| - 1] <= keys[j - 1]
  }

  /** Looking at one more output: it is picked if it is locked to the key and the amount is not reached. */
  lemma {:induction false} SelectStep(db: Index, pubKeyHash: Bytes, id: Bytes, keys: seq<Int32>, j: nat,
                   seen: set<Outpoint>, amount: int, accumulated: int, picks: IndexLists)
    requires id in db && j < |keys| && keys[j] in db[id].outputs && Rising(keys) && PicksBefore(picks, id, keys, j)
    requires forall o :: o in seen ==> o.txid != id
    requires Selected(db, seen + LockedIn(db, pubKeyHash, id, keys[..j]), amount, accumulated, picks)
    ensures var out, now := db[id].outputs[keys[j]], seen + LockedIn(db, pubKeyHash, id, keys[..j + 1]);
            if out.pubKeyHash == pubKeyHash && accumulated < amount
            then Selected(db, now, amount, accumulated + out.value, Append(picks, id, keys[j])) &&
                 PicksBefore(Append(picks, id, keys[j]), id, keys, j + 1)
            else Selected(db, now, amount, accumulated, picks) && PicksBefore(picks, id, keys, j + 1)
  {
    hide Selected, LockedIn;
    var o, examined := Outpoint(id, keys[j]), seen + LockedIn(db, pubKeyHash, id, keys[..j]);
    LockedInStep(db, pubKeyHash, id, keys, j);
    if db[id].outputs[keys[j]].pubKeyHash == pubKeyHash {
      assert seen + LockedIn(db, pubKeyHash, id, keys[..j + 1]) == examined + {o};
      if accumulated < amount {
        SelectedPick(db, examined, amount, accumulated, picks, id, keys[j]);
      } else {
        SelectedMore(db, examined, examined + {o}, amount, accumulated, picks);
      }
    }
  }

  lemma {:induction false} CollectStep(db: Index, pubKeyHash: Bytes, id: Bytes, keys: seq<Int32>, j: nat,
                                       seen: set<Outpoint>, utxos: seq<TxOut>)
    requires id in db && j < |keys| && keys[j] in db[id].outputs && Rising(keys)
    requires forall o :: o in seen ==> o.txid != id
    requires Collected(db, seen + LockedIn(db, pubKeyHash, id, keys[..j]), utxos)
    ensures var out := db[id].outputs[keys[j]];
            Collected(db, seen + LockedIn(db, pubKeyHash, id, keys[..j + 1]),
                      if out.pubKeyHash == pubKeyHash then utxos + [out] else utxos)
  {
    hide Collected, LockedIn;
    var o, examined := Outpoint(id, keys[j]), seen + LockedIn(db, pubKeyHash, id, keys[..j]);
    LockedInStep(db, pubKeyHash, id, keys, j);
    if db[id].outputs[keys[j]].pubKeyHash == pubKeyHash {
      assert seen + LockedIn(db, pubKeyHash, id, keys[..j + 1]) == examined + {o};
      CollectedMore(db, examined, utxos, id, keys[j]);
    }
  }

  /** Once the amount is reached, what has not been looked at does not matter. */
  lemma {:induction false} SelectedRest(db: Index, pubKeyHash: Bytes, id: Bytes, keys: seq<Int32>, j: nat,
                     seen: set<Outpoint>, amount: int, accumulated: int, picks: IndexLists)
    requires id in db && j <= |keys| && accumulated >= amount
    requires Selected(db, seen + LockedIn(db, pubKeyHash, id, keys[..j]), amount, accumulated, picks)
    ensures Selected(db, seen + LockedIn(db, pubKeyHash, id, keys), amount, accumulated, picks)
  {
    hide Selected, LockedIn;
    LockedGrows(db, pubKeyHash, id, keys, j);
    SelectedMore(db, seen + LockedIn(db, pubKeyHash, id, keys[..j]),
                 seen + LockedIn(db, pubKeyHash, id, keys), amount, accumulated, picks);
  }

  lemma {:induction false} SelectedAll(db: Index, height: int, pubKeyHash: Bytes, done: set<Bytes>, amount: int,
                                       accumulated: int, picks: IndexLists)
    requires Selected(db, Spendable(db, height, pubKeyHash, done), amount, accumulated, picks)
    requires done <= db.Keys && (accumulated >= amount || done == db.Keys)
    ensures Selected(db, Spendable(db, height, pubKeyHash, db.Keys), amount, accumulated, picks)
  {
    hide Selected, Spendable;
    if accumulated >= amount {
      SpendableGrows(db, height, pubKeyHash, done, db.Keys);
      SelectedMore(db, Spendable(db, height, pubKeyHash, done),
                   Spendable(db, height, pubKeyHash, db.Keys), amount, accumulated, picks);
    }
  }
}

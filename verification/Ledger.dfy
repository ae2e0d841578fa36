/** The entities of the ledger and its consensus constants. */
module Ledger {
  import opened Base

  datatype TxIn = TxIn(txid: Bytes, vout: Int32, signature: Bytes, pubKey: Bytes)

  datatype TxOut = TxOut(value: Amount, pubKeyHash: Bytes)

  datatype Transaction = Transaction(id: Bytes, vin: seq<TxIn>, vout: seq<TxOut>) {
    predicate IsCoinbase() {
      |vin| == 1 && vin[0].txid == [] && vin[0].vout == -1
    }
  }

  datatype Block = Block(timestamp: Int64, txs: seq<Transaction>, prev: Bytes, hash: Bytes, nonce: Int32, bits: Int32)

  /** What the unspent-output index keeps for one transaction, by original output index. */
  datatype TXOutputs = TXOutputs(outputs: map<Int32, TxOut>, isCoinbase: bool, blockHeight: int)

  datatype Outpoint = Outpoint(txid: Bytes, vout: int)

  // include/config.h
  const SUBSIDY := 10
  const HALVING_INTERVAL := 210_000
  const COINBASE_MATURITY := 100
  const INITIAL_BITS: Int32 := 17
  const RETARGET_INTERVAL := 2016
  const TARGET_TIMESPAN := 2016 * 10 * 60
  const MIN_BITS: Int32 := 1
  const MAX_BITS: Int32 := 255
  const MEDIAN_TIME_SPAN := 11
  const MAX_FUTURE_BLOCK_TIME := 2 * 60 * 60
  const MAX_BLOCK_SIZE := 1_000_000
  const MAX_BLOCK_TXS := 5_000
  const MAX_MEMPOOL_SIZE := 50_000_000
  const MAX_MEMPOOL_ENTRIES := 10_000

  function Spent(i: TxIn): Outpoint {
    Outpoint(i.txid, i.vout)
  }

  // ---------------------------------------------------------------- output indices by transaction

  type IndexLists = map<Bytes, seq<Int32>>

  /** The outputs named by the lists. */
  function Listed(lists: IndexLists): set<Outpoint> {
    set id, i | id in lists && i in lists[id] :: Outpoint(id, i)
  }

  /** `lists[id].push_back(i)`. */
  function Append(lists: IndexLists, id: Bytes, i: Int32): IndexLists {
    lists[id := (if id in lists then lists[id] else []) + [i]]
  }

  lemma {:induction false} ListedAppend(lists: IndexLists, id: Bytes, i: Int32)
    ensures Listed(Append(lists, id, i)) == Listed(lists) + {Outpoint(id, i)}
  {
    var after := Append(lists, id, i);
    assert i in after[id];
    forall o | o in Listed(lists) ensures o in Listed(after) {
    }
  }

  lemma {:induction false} ListedMember(lists: IndexLists, id: Bytes, i: Int32)
    ensures Outpoint(id, i) in Listed(lists) <==> id in lists && i in lists[id]
  {
  }

  // ---------------------------------------------------------------- ordered keys

  lemma {:induction false} LeastOf(s: set<Int32>) returns (k: Int32)
    requires s != {}
    ensures k in s && forall j :: j in s ==> k <= j
  {
    var x := Pick(s);
    var rest := s - {x};
    assert s == rest + {x};
    k := x;
    if rest != {} {
      var least := LeastOf(rest);
      if least < x {
        k := least;
      }
    }
  }

  function Least(s: set<Int32>): (k: Int32)
    requires s != {}
    ensures k in s && forall j :: j in s ==> k <= j
  {
    assert exists k :: k in s && forall j :: j in s ==> k <= j by {
      var k := LeastOf(s);
    }
    var k :| k in s && forall j :: j in s ==> k <= j;
    k
  }

  lemma {:induction false} AscendingMore(s: set<Int32>, k: Int32, rest: seq<Int32>)
    requires k in s && forall j :: j in s ==> k <= j
    requires |rest| == |s - {k}| && (forall i :: i in rest <==> i in s - {k})
    requires forall i, j :: 0 <= i < j < |rest| ==> rest[i] < rest[j]
    ensures |[k] + rest| == |s| && forall i :: i in [k] + rest <==> i in s
    ensures forall i, j :: 0 <= i < j < |[k] + rest| ==> ([k] + rest)[i] < ([k] + rest)[j]
  {
    assert s == (s - {k}) + {k};
    assert forall i :: 0 <= i < |rest| ==> rest[i] in rest;
  }

  /** The order in which a `std::map<int, …>` is walked. */
  function Ascending(s: set<Int32>): (keys: seq<Int32>)
    ensures |keys| == |s|
    ensures forall i :: i in keys <==> i in s
    ensures forall j, k :: 0 <= j < k < |keys| ==> keys[j] < keys[k]
  {
    if s == {} then []
    else
      var k := Least(s);
      var rest := Ascending(s - {k});
      AscendingMore(s, k, rest);
      [k] + rest
  }
}

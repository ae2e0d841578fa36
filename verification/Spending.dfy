/**
 * What a transaction must have shown to pass, said of positions on the chain: which transactions its inputs may take,
 * how deep a coinbase must stand, and that every signature is good (`src/blockchain.cpp`, `src/transaction.cpp`).
 */
module Spending {
  import opened Base
  import opened ChainModel
  import opened Ledger
  import opened Validation
  import T = TransactionCodec

  /** A coinbase spends one outpoint, which names no transaction and the index -1; nothing else does. */
  lemma {:induction false} CoinbaseMeans(tx: Transaction)
    ensures tx.IsCoinbase() <==> Points(tx.vin) == [Outpoint([], -1)]
  {
    if |tx.vin| == 1 {
      assert tx.vin[..0] == [] && Points(tx.vin[..0]) == [];
      assert Points(tx.vin) == [Spent(tx.vin[0])];
    }
  }

  /** It passes wherever it is looked at by itself, needs no signature, and pays no fee. */
  lemma {:induction false} CoinbaseIsFree(k: Crypto, c: seq<Block>, ctx: Context, height: int, tx: Transaction,
                                          prevs: Context)
    requires Points(tx.vin) == [Outpoint([], -1)]
    ensures Check(k, c, ctx, height, tx) == Fee(0)
    ensures CalculateFee(tx, prevs) == Ok(0) && VerifySignatures(k, tx, prevs) == Ok(true)
  {
    CoinbaseMeans(tx);
  }

  // ---------------------------------------------------------------- what an id names

  /** The newest block with a transaction of this id is at height `h`, and the first of them there is number `t`. */
  ghost predicate Stands(c: seq<Block>, h: nat, t: nat, id: Bytes) {
    && h < |c| && t < |c[h].txs| && c[h].txs[t].id == id
    && (forall u :: 0 <= u < t ==> c[h].txs[u].id != id)
    && (forall g, u :: h < g < |c| && 0 <= u < |c[g].txs| ==> c[g].txs[u].id != id)
  }

  ghost predicate Absent(c: seq<Block>, id: Bytes) {
    forall g, u :: 0 <= g < |c| && 0 <= u < |c[g].txs| ==> c[g].txs[u].id != id
  }

  lemma {:induction false} FirstInBlock(txs: seq<Transaction>, id: Bytes) returns (t: nat)
    ensures t <= |txs| && forall u :: 0 <= u < t ==> txs[u].id != id
    ensures FindInBlock(txs, id) == if t == |txs| then None else Some(txs[t])
    ensures t < |txs| ==> txs[t].id == id
  {
    if txs == [] || txs[0].id == id {
      t := 0;
    } else {
      var rest := FirstInBlock(txs[1..], id);
      t := rest + 1;
      forall u | 0 <= u < t ensures txs[u].id != id {
        if u > 0 {
          assert txs[u] == txs[1..][u - 1];
        }
      }
    }
  }

  /** Searching from the tip finds what the id names, and nothing exactly if no transaction has it. */
  lemma {:induction false} FindTxStands(c: seq<Block>, id: Bytes) returns (h: nat, t: nat)
    ensures FindTx(c, id) == None <==> Absent(c, id)
    ensures FindTx(c, id).Some? ==> Stands(c, h, t, id) && FindTx(c, id) == Some((c[h].txs[t], h))
  {
    h, t := 0, 0;
    if c != [] {
      var init := c[..|c| - 1];
      t := FirstInBlock(Tip(c).txs, id);
      if t < |Tip(c).txs| {
        h := |c| - 1;
        assert !Absent(c, id) by { assert c[h].txs[t].id == id; }
      } else {
        h, t := FindTxStands(init, id);
        assert forall g :: 0 <= g < |init| ==> init[g] == c[g];
      }
    }
  }

  lemma {:induction false} StandsOnce(c: seq<Block>, h: nat, t: nat, h': nat, t': nat, id: Bytes)
    requires Stands(c, h, t, id) && Stands(c, h', t', id)
    ensures h == h' && t == t'
  {
  }

  lemma {:induction false} StandsFound(c: seq<Block>, h: nat, t: nat, id: Bytes)
    requires Stands(c, h, t, id)
    ensures FindTx(c, id) == Some((c[h].txs[t], h))
  {
    hide FindTx;
    var h', t' := FindTxStands(c, id);
    if FindTx(c, id).Some? {
      StandsOnce(c, h, t, h', t', id);
    }
  }

  // ---------------------------------------------------------------- what an input may take

  /** A transaction of the block under way that is no coinbase, or one on the chain, if a coinbase 100 blocks deep. */
  ghost predicate MayTake(c: seq<Block>, ctx: Context, height: int, id: Bytes, tx: Transaction) {
    if id in ctx then tx == ctx[id] && !tx.IsCoinbase()
    else exists h: nat, t: nat :: Stands(c, h, t, id) && tx == c[h].txs[t] && (tx.IsCoinbase() ==> height - h >= 100)
  }

  /** The id names a coinbase of the block under way, or one less than 100 blocks deep. */
  ghost predicate TooNew(c: seq<Block>, ctx: Context, height: int, id: Bytes) {
    if id in ctx then ctx[id].IsCoinbase()
    else exists h: nat, t: nat :: Stands(c, h, t, id) && c[h].txs[t].IsCoinbase() && height - h < 100
  }

  ghost predicate Unknown(c: seq<Block>, ctx: Context, id: Bytes) {
    id !in ctx && Absent(c, id)
  }

  /** Looking an id up says which of the three it is. */
  lemma {:induction false} LookupMeans(c: seq<Block>, ctx: Context, height: int, id: Bytes, tx: Transaction)
    ensures Lookup(c, ctx, height, id) == Found(tx) <==> MayTake(c, ctx, height, id, tx)
    ensures Lookup(c, ctx, height, id) == TooYoung <==> TooNew(c, ctx, height, id)
    ensures Lookup(c, ctx, height, id) == NotFound <==> Unknown(c, ctx, id)
  {
    hide FindTx, Stands, Absent;
    if id !in ctx {
      var h, t := FindTxStands(c, id);
      if FindTx(c, id).Some? {
        forall h': nat, t': nat | Stands(c, h', t', id) ensures h' == h && t' == t {
          StandsOnce(c, h, t, h', t', id);
        }
      } else {
        forall h': nat, t': nat | Stands(c, h', t', id) ensures false {
          StandsFound(c, h', t', id);
        }
      }
    }
  }

  /** Every input may take the transaction given for its id. */
  ghost predicate AllMayTake(c: seq<Block>, ctx: Context, height: int, vin: seq<TxIn>, prevs: Context) {
    forall i :: 0 <= i < |vin| ==> vin[i].txid in prevs && MayTake(c, ctx, height, vin[i].txid, prevs[vin[i].txid])
  }

  lemma {:induction false} GatheredMayTake(c: seq<Block>, ctx: Context, height: int, vin: seq<TxIn>)
    requires Gather(c, ctx, height, vin).Prevs?
    ensures AllMayTake(c, ctx, height, vin, Gather(c, ctx, height, vin).prevs)
  {
    hide Gather, Lookup, MayTake;
    var prevs := Gather(c, ctx, height, vin).prevs;
    forall i | 0 <= i < |vin| ensures vin[i].txid in prevs && MayTake(c, ctx, height, vin[i].txid, prevs[vin[i].txid]) {
      GatherLookup(c, ctx, height, vin, i);
      LookupMeans(c, ctx, height, vin[i].txid, prevs[vin[i].txid]);
    }
  }

  /** What all may take is what is gathered. */
  lemma {:induction false} MayTakeGathers(c: seq<Block>, ctx: Context, height: int, vin: seq<TxIn>, prevs: Context)
    requires AllMayTake(c, ctx, height, vin, prevs)
    ensures Gather(c, ctx, height, vin).Prevs?
    ensures var found := Gather(c, ctx, height, vin).prevs;
            forall i :: 0 <= i < |vin| ==> vin[i].txid in found && found[vin[i].txid] == prevs[vin[i].txid]
  {
    hide Lookup, MayTake;
    if vin != [] {
      var init, last := vin[..|vin| - 1], vin[|vin| - 1];
      MayTakeGathers(c, ctx, height, init, prevs);
      LookupMeans(c, ctx, height, last.txid, prevs[last.txid]);
      forall i | 0 <= i < |vin|
        ensures vin[i].txid in Gather(c, ctx, height, vin).prevs
        ensures Gather(c, ctx, height, vin).prevs[vin[i].txid] == prevs[vin[i].txid]
      {
        if i < |vin| - 1 {
          assert init[i] == vin[i];
        } else {
          GatherLookup(c, ctx, height, vin, i);
        }
      }
    }
  }

  /** Otherwise the first input that may take nothing decides. */
  lemma {:induction false} FirstCannotTake(c: seq<Block>, ctx: Context, height: int, vin: seq<TxIn>, prevs: Context,
                                           i: nat)
    requires i < |vin| && AllMayTake(c, ctx, height, vin[..i], prevs)
    ensures TooNew(c, ctx, height, vin[i].txid) ==> Gather(c, ctx, height, vin) == Immature
    ensures Unknown(c, ctx, vin[i].txid) ==> Gather(c, ctx, height, vin) == Missing
  {
    hide Lookup, TooNew, Unknown, MayTake;
    var last := |vin| - 1;
    if i < last {
      assert vin[..last][..i] == vin[..i];
      FirstCannotTake(c, ctx, height, vin[..last], prevs, i);
    } else {
      MayTakeGathers(c, ctx, height, vin[..last], prevs);
      LookupMeans(c, ctx, height, vin[i].txid, Transaction([], [], []));
    }
  }

  /** The inputs up to the first that may take nothing. */
  lemma {:induction false} UpToFirst(c: seq<Block>, ctx: Context, height: int, vin: seq<TxIn>)
    returns (i: nat, prevs: Context)
    ensures i <= |vin| && AllMayTake(c, ctx, height, vin[..i], prevs)
    ensures i < |vin| ==> TooNew(c, ctx, height, vin[i].txid) || Unknown(c, ctx, vin[i].txid)
  {
    hide Lookup, TooNew, Unknown, MayTake;
    if vin == [] {
      return 0, map[];
    }
    var last := |vin| - 1;
    i, prevs := UpToFirst(c, ctx, height, vin[..last]);
    if i < last {
      assert vin[..last][..i] == vin[..i];
      return;
    }
    assert vin[..last][..last] == vin[..last];
    MayTakeGathers(c, ctx, height, vin[..last], prevs);
    LookupMeans(c, ctx, height, vin[last].txid, Transaction([], [], []));
    if Gather(c, ctx, height, vin).Prevs? {
      GatheredMayTake(c, ctx, height, vin);
      assert vin[..|vin|] == vin;
      return |vin|, Gather(c, ctx, height, vin).prevs;
    }
  }

  // ---------------------------------------------------------------- signatures

  /** What checking the signature of input `i` says, when that input spends an output locked to this key hash. */
  function SignatureOf(k: Crypto, tx: Transaction, i: nat, pubKeyHash: Bytes): SigCheck
    requires i < |tx.vin|
  {
    k.check(tx.vin[i].pubKey, Digest(k.sha, tx, i, pubKeyHash), tx.vin[i].signature)
  }

  predicate HasOutput(prevs: Context, i: TxIn) {
    i.txid in prevs && 0 <= i.vout < |prevs[i.txid].vout|
  }

  /** The output an input spends. */
  function Output(prevs: Context, i: TxIn): TxOut
    requires HasOutput(prevs, i)
  {
    prevs[i.txid].vout[i.vout]
  }

  ghost predicate GoodUpTo(k: Crypto, tx: Transaction, prevs: Context, n: nat)
    requires n <= |tx.vin|
  {
    forall i :: 0 <= i < n ==>
      HasOutput(prevs, tx.vin[i]) && SignatureOf(k, tx, i, Output(prevs, tx.vin[i]).pubKeyHash) == Good
  }

  /** The first signature that is not good decides, and there is none exactly if all of them are. */
  lemma {:induction false} FirstNotGood(k: Crypto, tx: Transaction, prevs: Context, from: nat) returns (n: nat)
    requires from <= |tx.vin| && GoodUpTo(k, tx, prevs, from)
    requires forall i :: 0 <= i < |tx.vin| ==> HasOutput(prevs, tx.vin[i])
    ensures n <= |tx.vin| && GoodUpTo(k, tx, prevs, n)
    ensures n < |tx.vin| ==> SignatureOf(k, tx, n, Output(prevs, tx.vin[n]).pubKeyHash) != Good
    ensures VerifyFrom(k, tx, prevs, from) ==
      if n == |tx.vin| then Ok(true)
      else if SignatureOf(k, tx, n, Output(prevs, tx.vin[n]).pubKeyHash) == Bad then Ok(false) else Throws
    decreases |tx.vin| - from
  {
    hide Digest;
    n := from;
    if from < |tx.vin| && SignatureOf(k, tx, from, Output(prevs, tx.vin[from]).pubKeyHash) == Good {
      n := FirstNotGood(k, tx, prevs, from + 1);
    }
  }

  // ---------------------------------------------------------------- what a signature covers

  lemma {:induction false} Trimmed(tx: Transaction, n: nat, pubKeyHash: Bytes) returns (copy: Transaction)
    requires n < |tx.vin| && T.Encodable(tx) && |pubKeyHash| < TWO_32
    ensures T.Encodable(copy) && copy.vout == tx.vout && |copy.vin| == |tx.vin|
    ensures forall i :: 0 <= i < |tx.vin| ==>
      copy.vin[i] == TxIn(tx.vin[i].txid, tx.vin[i].vout, [], if i == n then pubKeyHash else [])
    ensures forall sha: Sha256 :: Digest(sha, tx, n, pubKeyHash) == sha.Of(T.Encode(copy))
  {
    hide T.Encode, TrimmedIns;
    var trimmed := TrimmedIns(tx.vin);
    copy := Transaction(tx.id, trimmed[n := trimmed[n].(pubKey := pubKeyHash)], tx.vout);
    forall i | 0 <= i < |tx.vin|
      ensures copy.vin[i] == TxIn(tx.vin[i].txid, tx.vin[i].vout, [], if i == n then pubKeyHash else [])
      ensures T.EncodableIn(copy.vin[i])
    {
      TrimmedAt(tx.vin, i);
      TrimmedAt(tx.vin, n);
      assert T.EncodableIn(tx.vin[i]);
    }
  }

  /**
   * Equal digests: the same outputs spent in the same order, the same outputs made, and at the same input the same
   * lock; or two different inputs of the hash function with one digest come out of them.
   */
  lemma {:induction false} DigestBinds(sha: Sha256, a: Transaction, n: nat, pubKeyHash: Bytes,
                                       b: Transaction, m: nat, pubKeyHash': Bytes)
    returns (col: Option<Collision>)
    requires n < |a.vin| && T.Encodable(a) && |pubKeyHash| < TWO_32
    requires m < |b.vin| && T.Encodable(b) && |pubKeyHash'| < TWO_32
    requires Digest(sha, a, n, pubKeyHash) == Digest(sha, b, m, pubKeyHash')
    ensures col.Some? ==> IsCollision(sha, col.value)
    ensures col.None? ==> |a.vin| == |b.vin| && a.vout == b.vout
    ensures col.None? ==> forall i :: 0 <= i < |a.vin| ==> Spent(a.vin[i]) == Spent(b.vin[i])
    ensures col.None? ==> pubKeyHash == pubKeyHash' && (n == m || pubKeyHash == [])
  {
    hide T.Encode, T.Encodable, Digest;
    var x := Trimmed(a, n, pubKeyHash);
    var y := Trimmed(b, m, pubKeyHash');
    if T.Encode(x) != T.Encode(y) {
      return Some(Collision(T.Encode(x), T.Encode(y)));
    }
    T.EncodeInjective(x, y);
    forall i | 0 <= i < |a.vin| ensures Spent(a.vin[i]) == Spent(b.vin[i]) {
      assert x.vin[i] == y.vin[i];
    }
    assert x.vin[n] == y.vin[n] && x.vin[m] == y.vin[m];
    return None;
  }

  // ---------------------------------------------------------------- the whole check

  /** All that is asked besides signatures: transactions to take, with the outputs named, worth what is paid out. */
  ghost predicate Funded(c: seq<Block>, ctx: Context, height: int, tx: Transaction, prevs: Context) {
    && !tx.IsCoinbase() && tx.vin != [] && tx.vout != [] && AllMayTake(c, ctx, height, tx.vin, prevs)
    && (forall i :: 0 <= i < |tx.vin| ==> HasOutput(prevs, tx.vin[i]) && prevs[tx.vin[i].txid].id != [])
    && InputSum(tx.vin, prevs).Ok? && InputSum(tx.vin, prevs).value >= OutputSum(tx.vout)
  }

  lemma {:induction false} SumsAlike(vin: seq<TxIn>, a: Context, b: Context)
    requires forall i :: 0 <= i < |vin| ==> vin[i].txid in a && vin[i].txid in b && a[vin[i].txid] == b[vin[i].txid]
    ensures InputSum(vin, a) == InputSum(vin, b)
  {
    if vin != [] {
      SumsAlike(vin[..|vin| - 1], a, b);
    }
  }

  lemma {:induction false} SumsNeedOutputs(vin: seq<TxIn>, prevs: Context)
    ensures InputSum(vin, prevs).Ok? <==> forall i :: 0 <= i < |vin| ==> HasOutput(prevs, vin[i])
  {
    if vin != [] {
      SumsNeedOutputs(vin[..|vin| - 1], prevs);
    }
  }

  /**
   * What becomes of a funded transaction: it passes exactly when every signature is good, with inputs less outputs for
   * its fee; else the first that is not good decides: refused if it is false, an exception if its key cannot be read.
   */
  lemma {:induction false} FundedOutcome(k: Crypto, c: seq<Block>, ctx: Context, height: int, tx: Transaction,
                                         prevs: Context)
    returns (n: nat)
    requires Funded(c, ctx, height, tx, prevs)
    ensures n <= |tx.vin| && GoodUpTo(k, tx, prevs, n)
    ensures n < |tx.vin| ==> SignatureOf(k, tx, n, Output(prevs, tx.vin[n]).pubKeyHash) != Good
    ensures Check(k, c, ctx, height, tx) ==
      if n == |tx.vin| then Fee(InputSum(tx.vin, prevs).value - OutputSum(tx.vout))
      else if SignatureOf(k, tx, n, Output(prevs, tx.vin[n]).pubKeyHash) == Bad then Refused else Aborted
  {
    hide MayTake, InputSum, OutputSum, Digest, Gather, VerifyFrom;
    MayTakeGathers(c, ctx, height, tx.vin, prevs);
    var gathered := Gather(c, ctx, height, tx.vin).prevs;
    forall i | 0 <= i < |tx.vin|
      ensures HasOutput(gathered, tx.vin[i]) && gathered[tx.vin[i].txid] == prevs[tx.vin[i].txid]
    {
      assert HasOutput(prevs, tx.vin[i]);
    }
    SumsAlike(tx.vin, gathered, prevs);
    n := FirstNotGood(k, tx, gathered, 0);
  }

  /** Only funded transactions with good signatures pass. */
  lemma {:induction false} PassesMeans(k: Crypto, c: seq<Block>, ctx: Context, height: int, tx: Transaction)
    returns (prevs: Context)
    requires Check(k, c, ctx, height, tx).Fee? && !tx.IsCoinbase()
    ensures Funded(c, ctx, height, tx, prevs) && GoodUpTo(k, tx, prevs, |tx.vin|)
    ensures Check(k, c, ctx, height, tx).fee == InputSum(tx.vin, prevs).value - OutputSum(tx.vout)
  {
    hide MayTake, InputSum, OutputSum, Digest, Gather, VerifyFrom;
    prevs := Gather(c, ctx, height, tx.vin).prevs;
    GatheredMayTake(c, ctx, height, tx.vin);
    SumsNeedOutputs(tx.vin, prevs);
    forall i | 0 <= i < |tx.vin| ensures prevs[tx.vin[i].txid].id != [] {
      assert tx.vin[i] in tx.vin;
    }
    var n := FirstNotGood(k, tx, prevs, 0);
  }

  /** What becomes of a transaction that is not funded. */
  lemma {:induction false} UnfundedOutcome(k: Crypto, c: seq<Block>, ctx: Context, height: int, tx: Transaction)
    returns (i: nat, prevs: Context)
    requires !tx.IsCoinbase()
    ensures tx.vin == [] || tx.vout == [] ==> Check(k, c, ctx, height, tx) == Refused
    ensures i <= |tx.vin| && AllMayTake(c, ctx, height, tx.vin[..i], prevs)
    ensures i < |tx.vin| ==> TooNew(c, ctx, height, tx.vin[i].txid) || Unknown(c, ctx, tx.vin[i].txid)
    ensures i < |tx.vin| && tx.vout != [] ==>
      Check(k, c, ctx, height, tx) == if TooNew(c, ctx, height, tx.vin[i].txid) then Refused else Aborted
    ensures i == |tx.vin| > 0 && tx.vout != [] && InputSum(tx.vin, prevs).Throws? ==>
      Check(k, c, ctx, height, tx) == Aborted && exists j :: 0 <= j < |tx.vin| && !HasOutput(prevs, tx.vin[j])
    ensures i == |tx.vin| > 0 && tx.vout != [] && InputSum(tx.vin, prevs).Ok? ==>
      if InputSum(tx.vin, prevs).value < OutputSum(tx.vout) then Check(k, c, ctx, height, tx) == Refused
      else !Funded(c, ctx, height, tx, prevs) ==> Check(k, c, ctx, height, tx) == Aborted
  {
    hide MayTake, TooNew, Unknown, InputSum, OutputSum, Digest, Gather, VerifyFrom;
    i, prevs := UpToFirst(c, ctx, height, tx.vin);
    if i < |tx.vin| {
      FirstCannotTake(c, ctx, height, tx.vin, prevs, i);
      TooNewIsKnown(c, ctx, height, tx.vin[i].txid);
    } else {
      assert tx.vin[..i] == tx.vin;
      MayTakeGathers(c, ctx, height, tx.vin, prevs);
      var gathered := Gather(c, ctx, height, tx.vin).prevs;
      SumsAlike(tx.vin, gathered, prevs);
      SumsNeedOutputs(tx.vin, prevs);
      NoEmptyIds(gathered, prevs, tx.vin);
    }
  }

  lemma {:induction false} NoEmptyIds(gathered: Context, prevs: Context, vin: seq<TxIn>)
    requires forall i :: 0 <= i < |vin| ==>
      vin[i].txid in prevs && vin[i].txid in gathered && gathered[vin[i].txid] == prevs[vin[i].txid]
    ensures PrevKnown(gathered, vin) <==> forall i :: 0 <= i < |vin| ==> prevs[vin[i].txid].id != []
  {
    forall i | 0 <= i < |vin| ensures vin[i] in vin {
    }
  }

  lemma {:induction false} TooNewIsKnown(c: seq<Block>, ctx: Context, height: int, id: Bytes)
    ensures !(TooNew(c, ctx, height, id) && Unknown(c, ctx, id))
  {
    hide Stands;
    if id !in ctx && Absent(c, id) {
      forall h: nat, t: nat | Stands(c, h, t, id) ensures false {
        StandsAt(c, h, t, id);
      }
    }
  }

  lemma {:induction false} StandsAt(c: seq<Block>, h: nat, t: nat, id: Bytes)
    requires Stands(c, h, t, id)
    ensures h < |c| && t < |c[h].txs| && c[h].txs[t].id == id
  {
  }

  // ---------------------------------------------------------------- maturity

  /** What an input of a transaction that passes in a block spends: no coinbase of that block, and none too young. */
  lemma {:induction false} SpentInBlockIsMature(k: Crypto, c: seq<Block>, ctx: Context, tx: Transaction, i: nat)
    returns (h: nat, t: nat)
    requires CheckInBlock(k, c, ctx, tx).Fee? && !tx.IsCoinbase() && i < |tx.vin|
    ensures var id := tx.vin[i].txid;
            if id in ctx then !ctx[id].IsCoinbase()
            else Stands(c, h, t, id) && (c[h].txs[t].IsCoinbase() ==> |c| - h >= 100)
  {
    hide Check, Stands;
    var prevs := PassesMeans(k, c, ctx, |c|, tx);
    h, t := TakenFrom(c, ctx, |c|, tx.vin[i].txid, prevs[tx.vin[i].txid]);
  }

  /** The same for the pool and the miner, one block earlier. */
  lemma {:induction false} SpentOnChainIsMature(k: Crypto, c: seq<Block>, tx: Transaction, i: nat)
    returns (h: nat, t: nat)
    requires CheckOnChain(k, c, tx).Fee? && !tx.IsCoinbase() && i < |tx.vin|
    ensures Stands(c, h, t, tx.vin[i].txid) && (c[h].txs[t].IsCoinbase() ==> |c| - 1 - h >= 100)
  {
    hide Check, Stands;
    var prevs := PassesMeans(k, c, map[], |c| - 1, tx);
    h, t := TakenFrom(c, map[], |c| - 1, tx.vin[i].txid, prevs[tx.vin[i].txid]);
  }

  lemma {:induction false} TakenFrom(c: seq<Block>, ctx: Context, height: int, id: Bytes, tx: Transaction)
    returns (h: nat, t: nat)
    requires MayTake(c, ctx, height, id, tx)
    ensures if id in ctx then tx == ctx[id] && !tx.IsCoinbase()
            else Stands(c, h, t, id) && tx == c[h].txs[t] && (tx.IsCoinbase() ==> height - h >= 100)
  {
    h, t := 0, 0;
    if id !in ctx {
      h, t :| Stands(c, h, t, id) && tx == c[h].txs[t] && (tx.IsCoinbase() ==> height - h >= 100);
    }
  }

  /** An input that names a coinbase of the block, or one that is too young, has the transaction refused. */
  lemma {:induction false} YoungIsRefused(k: Crypto, c: seq<Block>, ctx: Context, height: int, tx: Transaction, i: nat)
    requires !tx.IsCoinbase() && tx.vout != [] && i < |tx.vin| && TooNew(c, ctx, height, tx.vin[i].txid)
    requires forall j :: 0 <= j < |tx.vin| ==> !Unknown(c, ctx, tx.vin[j].txid)
    ensures Check(k, c, ctx, height, tx) == Refused
  {
    hide Check, MayTake, TooNew, Unknown, InputSum;
    var n, prevs := UnfundedOutcome(k, c, ctx, height, tx);
    if n == |tx.vin| {
      assert tx.vin[..n] == tx.vin;
      TakenIsNotNew(c, ctx, height, tx.vin[i].txid, prevs[tx.vin[i].txid]);
    }
  }

  lemma {:induction false} TakenIsNotNew(c: seq<Block>, ctx: Context, height: int, id: Bytes, tx: Transaction)
    requires MayTake(c, ctx, height, id, tx)
    ensures !TooNew(c, ctx, height, id)
  {
    hide Lookup;
    LookupMeans(c, ctx, height, id, tx);
  }

  // ---------------------------------------------------------------- whole blocks

  /** Number `u` is the last of the first transactions of a block with this id. */
  ghost predicate LastOf(txs: seq<Transaction>, u: nat, id: Bytes) {
    u < |txs| && txs[u].id == id && forall v :: u < v < |txs| ==> txs[v].id != id
  }

  /** What the loop over a block has in reach: the transactions handled, the last one of each id. */
  lemma {:induction false} RunContext(k: Crypto, c: seq<Block>, txs: seq<Transaction>, id: Bytes) returns (u: nat)
    requires RunTxs(k, c, txs).Going?
    ensures if id in RunTxs(k, c, txs).ctx then LastOf(txs, u, id) && RunTxs(k, c, txs).ctx[id] == txs[u]
            else forall v :: 0 <= v < |txs| ==> txs[v].id != id
  {
    hide Check, SpendAll;
    u := 0;
    if txs != [] {
      var init, last := txs[..|txs| - 1], txs[|txs| - 1];
      u := RunContext(k, c, init, id);
      assert forall v :: 0 <= v < |init| ==> txs[v] == init[v];
      if last.id == id {
        u := |txs| - 1;
      }
    }
  }

  lemma {:induction false} RunPrefix(k: Crypto, c: seq<Block>, txs: seq<Transaction>, t: nat)
    requires RunTxs(k, c, txs).Going? && t < |txs|
    ensures RunTxs(k, c, txs[..t]).Going?
    ensures !txs[t].IsCoinbase() ==> CheckInBlock(k, c, RunTxs(k, c, txs[..t]).ctx, txs[t]).Fee?
  {
    hide Check, SpendAll;
    var last := |txs| - 1;
    if t < last {
      RunPrefix(k, c, txs[..last], t);
      assert txs[..last][..t] == txs[..t];
    }
  }

  /**
   * In a block that passes, each input of each transaction spends an output that exists: of the last transaction of
   * that id further up in the block, which is no coinbase; or, if there is none, of the one its id names on the chain,
   * which is 100 deep if it is a coinbase. And its signature is good for the lock of that output.
   */
  lemma {:induction false} BlockSpends(k: Crypto, c: seq<Block>, txs: seq<Transaction>, t: nat, i: nat)
    returns (prev: Transaction, h: nat, u: nat)
    requires RunTxs(k, c, txs).Going? && t < |txs| && !txs[t].IsCoinbase() && i < |txs[t].vin|
    ensures prev.id == txs[t].vin[i].txid && 0 <= txs[t].vin[i].vout < |prev.vout|
    ensures if exists v :: 0 <= v < t && txs[v].id == prev.id
            then LastOf(txs[..t], u, prev.id) && prev == txs[u] && !prev.IsCoinbase()
            else Stands(c, h, u, prev.id) && prev == c[h].txs[u] && (prev.IsCoinbase() ==> |c| - h >= 100)
    ensures SignatureOf(k, txs[t], i, prev.vout[txs[t].vin[i].vout].pubKeyHash) == Good
  {
    hide Check, Stands, RunTxs, Digest, InputSum;
    RunPrefix(k, c, txs, t);
    var ctx, id := RunTxs(k, c, txs[..t]).ctx, txs[t].vin[i].txid;
    var prevs := PassesMeans(k, c, ctx, |c|, txs[t]);
    prev := prevs[id];
    h, u := TakenFrom(c, ctx, |c|, id, prev);
    var last := RunContext(k, c, txs[..t], id);
    if id in ctx {
      u := last;
      assert txs[..t][u] == txs[u];
    } else {
      StandsAt(c, h, u, id);
      forall v | 0 <= v < t ensures txs[v].id != id {
        assert txs[..t][v].id != id;
      }
    }
  }
}

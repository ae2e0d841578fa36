/** Building and signing a payment: `Transaction::NewUTXOTransaction` in `src/transaction.cpp`. */
module Payment {
  import opened Base
  import opened Ledger
  import opened ChainModel
  import opened ChainStore
  import opened CoinSelection
  import opened Sums
  import opened Supply
  import opened UtxoIndex
  import opened UtxoSet
  import opened Validation
  import Spending
  import T = TransactionCodec
  import Wallet

  /** The keys of a wallet; signing is opaque. */
  datatype KeyPair = KeyPair(public: Bytes, sign: Bytes -> Bytes)

  /** The signatures made with this key are accepted by the check. */
  ghost predicate SignsFor(k: Crypto, w: KeyPair) {
    forall digest: Bytes :: k.check(w.public, digest, w.sign(digest)) == Good
  }

  // ---------------------------------------------------------------- inputs

  lemma {:induction false} DrawnIsWorth(db: Index, vin: seq<TxIn>)
    requires NoRepeat(Points(vin)) && forall i :: 0 <= i < |vin| ==> Spent(vin[i]) in Flat(db)
    ensures Drawn(Flat(db), vin) == Worth(db, Elements(Points(vin)))
  {
    hide Flat, Worth, NoRepeat, Elements;
    if vin == [] {
      WorthNothing(db);
      assert Elements([]) == {} by { NoElements(); }
    } else {
      var init, o := vin[..|vin| - 1], Spent(vin[|vin| - 1]);
      ElementsSnoc(Points(init), o);
      ElementsMember(Points(init), o);
      DrawnIsWorth(db, init);
      WorthAdd(db, Elements(Points(init)), o);
    }
  }

  function Unsigned(id: Bytes, i: Int32, pubKey: Bytes): TxIn {
    TxIn(id, i, [], pubKey)
  }

  ghost predicate NamesExactly(vin: seq<TxIn>, lists: IndexLists, pubKey: Bytes) {
    && NoRepeat(Points(vin)) && Elements(Points(vin)) == Listed(lists)
    && forall i :: 0 <= i < |vin| ==> vin[i] == Unsigned(vin[i].txid, vin[i].vout, pubKey)
  }

  lemma {:induction false} NamesOneMore(vin: seq<TxIn>, lists: IndexLists, pubKey: Bytes, id: Bytes, i: Int32)
    requires NamesExactly(vin, lists, pubKey) && !(id in lists && i in lists[id])
    ensures NamesExactly(vin + [Unsigned(id, i, pubKey)], Append(lists, id, i), pubKey)
  {
    hide Listed, Append;
    var o := Outpoint(id, i);
    assert (vin + [Unsigned(id, i, pubKey)])[..|vin|] == vin;
    ElementsSnoc(Points(vin), o);
    ElementsMember(Points(vin), o);
    ListedMember(lists, id, i);
    ListedAppend(lists, id, i);
  }

  /** One unsigned input for each pick, the transactions taken in whatever order. */
  method BuildInputs(picks: IndexLists, pubKey: Bytes) returns (inputs: seq<TxIn>)
    requires Distinct(picks)
    ensures NamesExactly(inputs, picks, pubKey)
  {
    hide NamesExactly, Rising;
    inputs := [];
    var rest := picks.Keys;
    NamesNothing(pubKey);
    assert picks - rest == map[];
    while rest != {}
      invariant rest <= picks.Keys && NamesExactly(inputs, picks - rest, pubKey)
      decreases |rest|
    {
      var id :| id in rest;
      inputs := AddInputs(id, picks[id], pubKey, inputs, picks - rest);
      OneEntryMore(picks, rest, id);
      rest := rest - {id};
    }
    assert picks - {} == picks;
  }

  lemma {:induction false} OneEntryMore(picks: IndexLists, rest: set<Bytes>, id: Bytes)
    requires id in rest && id in picks
    ensures (picks - rest)[id := picks[id]] == picks - (rest - {id})
  {
  }

  method AddInputs(id: Bytes, indices: seq<Int32>, pubKey: Bytes, before: seq<TxIn>, ghost lists: IndexLists)
    returns (inputs: seq<TxIn>)
    requires id !in lists && indices != [] && Rising(indices) && NamesExactly(before, lists, pubKey)
    ensures NamesExactly(inputs, lists[id := indices], pubKey)
  {
    hide NamesExactly;
    inputs := before;
    for j := 0 to |indices|
      invariant NamesExactly(inputs, if j == 0 then lists else lists[id := indices[..j]], pubKey)
    {
      ghost var sofar := if j == 0 then lists else lists[id := indices[..j]];
      RisingFresh(indices, j);
      assert indices[..j + 1] == indices[..j] + [indices[j]];
      assert Append(sofar, id, indices[j]) == lists[id := indices[..j + 1]];
      NamesOneMore(inputs, sofar, pubKey, id, indices[j]);
      inputs := inputs + [Unsigned(id, indices[j], pubKey)];
    }
    assert indices[..|indices|] == indices;
  }

  lemma {:induction false} NamesNothing(pubKey: Bytes)
    ensures NamesExactly([], map[], pubKey)
  {
    assert Listed(map[]) == {};
  }

  lemma {:induction false} RisingFresh(s: seq<Int32>, j: nat)
    requires Rising(s) && j < |s|
    ensures s[j] !in s[..j]
  {
  }

  // ---------------------------------------------------------------- signing

  /** Every input is found, and has a previous output to sign for. */
  predicate CanSign(prevs: Context, vin: seq<TxIn>) {
    PrevKnown(prevs, vin) && forall i :: 0 <= i < |vin| ==> PrevOut(prevs, vin[i]).Ok?
  }

  /** The signature of input `n`. */
  function SignatureOf(sha: Sha256, w: KeyPair, tx: Transaction, prevs: Context, n: nat): Bytes
    requires n < |tx.vin| && PrevOut(prevs, tx.vin[n]).Ok?
  {
    w.sign(Digest(sha, tx, n, PrevOut(prevs, tx.vin[n]).value.pubKeyHash))
  }

  ghost predicate SignedUpTo(sha: Sha256, w: KeyPair, tx: Transaction, prevs: Context, signed: Transaction, n: nat)
    requires CanSign(prevs, tx.vin) && n <= |tx.vin|
  {
    && signed.id == tx.id && signed.vout == tx.vout && |signed.vin| == |tx.vin|
    && (forall i :: 0 <= i < n ==> signed.vin[i] == tx.vin[i].(signature := SignatureOf(sha, w, tx, prevs, i)))
    && (forall i :: n <= i < |tx.vin| ==> signed.vin[i] == tx.vin[i])
  }

  /** Signatures are written into the transaction itself, one input after the other. */
  method Sign(sha: Sha256, w: KeyPair, tx: Transaction, prevTXs: Context) returns (r: Result<Transaction>)
    requires !tx.IsCoinbase()
    ensures r.Ok? <==> CanSign(prevTXs, tx.vin)
    ensures r.Ok? ==> SignedUpTo(sha, w, tx, prevTXs, r.value, |tx.vin|)
  {
    hide Digest;
    if !PrevKnown(prevTXs, tx.vin) { return Throws; }
    var signed := tx;
    for inID := 0 to |tx.vin|
      invariant |signed.vin| == |tx.vin| && signed.id == tx.id && signed.vout == tx.vout
      invariant forall i :: 0 <= i < inID ==> PrevOut(prevTXs, tx.vin[i]).Ok?
      invariant forall i :: 0 <= i < inID ==>
                  signed.vin[i] == tx.vin[i].(signature := SignatureOf(sha, w, tx, prevTXs, i))
      invariant forall i :: inID <= i < |tx.vin| ==> signed.vin[i] == tx.vin[i]
    {
      var out := PrevOut(prevTXs, tx.vin[inID]);
      if out.Throws? { return Throws; }
      var signature := w.sign(Digest(sha, tx, inID, out.value.pubKeyHash));
      signed := signed.(vin := signed.vin[inID := signed.vin[inID].(signature := signature)]);
    }
    return Ok(signed);
  }

  lemma {:induction false} TrimmedAlike(a: seq<TxIn>, b: seq<TxIn>)
    requires |a| == |b| && forall i :: 0 <= i < |a| ==> TrimmedIn(a[i]) == TrimmedIn(b[i])
    ensures TrimmedIns(a) == TrimmedIns(b) && Points(a) == Points(b)
  {
    if a != [] {
      TrimmedAlike(a[..|a| - 1], b[..|b| - 1]);
      assert TrimmedIn(a[|a| - 1]) == TrimmedIn(b[|b| - 1]);
      assert Spent(a[|a| - 1]) == Spent(b[|b| - 1]);
    }
  }

  /** What was signed is what the check is given, although the signatures are in place by then. */
  lemma {:induction false} SignedVerifies(k: Crypto, w: KeyPair, tx: Transaction, prevs: Context,
                                          signed: Transaction, checked: Context, n: nat)
    requires SignsFor(k, w) && CanSign(prevs, tx.vin) && n <= |tx.vin| == |signed.vin| && signed.vout == tx.vout
    requires forall i :: 0 <= i < |tx.vin| ==>
               signed.vin[i] == tx.vin[i].(signature := SignatureOf(k.sha, w, tx, prevs, i))
    requires forall i :: 0 <= i < |tx.vin| ==> tx.vin[i].pubKey == w.public
    requires forall i :: 0 <= i < |tx.vin| ==> PrevOut(checked, tx.vin[i]) == PrevOut(prevs, tx.vin[i])
    ensures VerifyFrom(k, signed, checked, n) == Ok(true)
    decreases |tx.vin| - n
  {
    hide T.Encode, TrimmedIns;
    if n < |tx.vin| {
      SignedVerifies(k, w, tx, prevs, signed, checked, n + 1);
      assert PrevOut(checked, signed.vin[n]) == PrevOut(prevs, tx.vin[n]);
      DigestIgnores(k.sha, tx, signed, n, PrevOut(prevs, tx.vin[n]).value.pubKeyHash);
    }
  }

  /** The digest depends neither on the id nor on the signatures. */
  lemma {:induction false} DigestIgnores(sha: Sha256, a: Transaction, b: Transaction, n: nat, pubKeyHash: Bytes)
    requires |a.vin| == |b.vin| && a.vout == b.vout && n < |a.vin|
    requires forall i :: 0 <= i < |a.vin| ==> TrimmedIn(a.vin[i]) == TrimmedIn(b.vin[i])
    ensures Digest(sha, a, n, pubKeyHash) == Digest(sha, b, n, pubKeyHash)
  {
    TrimmedAlike(a.vin, b.vin);
    var trimmed := TrimmedIns(a.vin);
    T.IdIgnored(Transaction(a.id, trimmed[n := trimmed[n].(pubKey := pubKeyHash)], a.vout));
    T.IdIgnored(Transaction(b.id, trimmed[n := trimmed[n].(pubKey := pubKeyHash)], b.vout));
  }

  method CollectTransactions(bc: Blockchain, vin: seq<TxIn>) returns (r: Result<Context>)
    requires bc.Valid()
    ensures r.Ok? <==> forall i :: 0 <= i < |vin| ==> FindTx(bc.chain, vin[i].txid).Some?
    ensures r.Ok? ==> forall i :: 0 <= i < |vin| ==> FromChain(bc.chain, r.value, vin[i].txid)
  {
    hide FindTx, Linked, StoreOf;
    var prevTXs: Context := map[];
    for i := 0 to |vin|
      invariant forall id :: id in prevTXs ==> FromChain(bc.chain, prevTXs, id)
      invariant forall j :: 0 <= j < i ==> vin[j].txid in prevTXs
    {
      var found := bc.FindTransactionWithHeight(vin[i].txid);
      if found.None? { return Throws; }
      FindTxIs(bc.chain, vin[i].txid);
      var prevTX := found.value.0;
      if prevTX.id !in prevTXs {
        prevTXs := prevTXs[prevTX.id := prevTX];
      }
    }
    return Ok(prevTXs);
  }

  // ---------------------------------------------------------------- the payment

  /** The index agrees with the chain, ids are not empty, and sums of outputs stay in range. */
  ghost predicate InStep(db: Index, c: seq<Block>) {
    c != [] && Matches(db, c) && [] !in db && Total(db) < TWO_63
  }

  ghost function Balance(db: Index, c: seq<Block>, pubKeyHash: Bytes): nat {
    Worth(db, Spendable(db, |c| - 1, pubKeyHash, db.Keys))
  }

  /** Distinct spendable outputs of the payer, paid in full to the payee and, for the rest, back to the payer. */
  ghost predicate Pays(db: Index, c: seq<Block>, h: Wallet.Hashes, w: KeyPair, to: Bytes, amount: int,
                       tx: Transaction) {
    var own, worth := Wallet.HashPubKey(h, w.public), Worth(db, Elements(Points(tx.vin)));
    && NoRepeat(Points(tx.vin)) && Elements(Points(tx.vin)) <= Spendable(db, |c| - 1, own, db.Keys)
    && (forall i :: 0 <= i < |tx.vin| ==> tx.vin[i].pubKey == w.public)
    && 0 <= amount <= worth < TWO_63 && Wallet.Locked(to).Ok?
    && tx.vout == [TxOut(amount, Wallet.Locked(to).value)] + if worth > amount then [TxOut(worth - amount, own)] else []
  }

  lemma {:induction false} WorthLess(db: Index, points: set<Outpoint>, more: set<Outpoint>)
    requires points <= more
    ensures Worth(db, points) <= Worth(db, more) <= Total(db)
  {
    hide Flat, Sum;
    SumLess(Chosen(db, points), Chosen(db, more));
    SumLess(Chosen(db, more), Flat(db));
  }

  lemma {:induction false} GatherAll(c: seq<Block>, h: int, vin: seq<TxIn>)
    requires forall i :: 0 <= i < |vin| ==> Lookup(c, map[], h, vin[i].txid).Found?
    ensures Gather(c, map[], h, vin).Prevs?
  {
    if vin != [] {
      GatherAll(c, h, vin[..|vin| - 1]);
    }
  }

  /** An input of a payment: its previous transaction is on the chain, deep enough, with that output. */
  lemma {:induction false} InputFound(db: Index, c: seq<Block>, pubKeyHash: Bytes, o: Outpoint)
    requires InStep(db, c) && o in Spendable(db, |c| - 1, pubKeyHash, db.Keys)
    ensures o in Flat(db) && o.txid != [] && FindTx(c, o.txid).Some?
    ensures var tx := FindTx(c, o.txid).value.0;
            && tx.id == o.txid && 0 <= o.vout < |tx.vout| && Lookup(c, map[], |c| - 1, o.txid) == Found(tx)
  {
    hide FindTx;
    FlatAt(db, o);
    assert MatchesAt(db[o.txid], c, o.txid);
    FindTxIs(c, o.txid);
  }

  /** An output on the chain, locked to this key hash and, if a coinbase's, with the tip 100 blocks above it. */
  ghost predicate OnChainFor(c: seq<Block>, o: Outpoint, pubKeyHash: Bytes) {
    exists h: nat, t: nat ::
      && Spending.Stands(c, h, t, o.txid) && LockedTo(c[h].txs[t], o.vout, pubKeyHash)
      && (c[h].txs[t].IsCoinbase() ==> |c| - 1 - h >= 100)
  }

  /** What the wallet may spend: the outputs of the index that are that. Verification lets it take just these. */
  lemma {:induction false} SpendableExactly(db: Index, c: seq<Block>, pubKeyHash: Bytes, o: Outpoint)
    requires InStep(db, c)
    ensures o in Spendable(db, |c| - 1, pubKeyHash, db.Keys) <==> o in Flat(db) && OnChainFor(c, o, pubKeyHash)
  {
    hide FindTx, Matches, Spending.Stands, Flat;
    FlatAt(db, o);
    if o in Flat(db) {
      MatchesFind(db, c, o.txid);
      MatchesFlag(db, c, o.txid);
      var h, t := Spending.FindTxStands(c, o.txid);
      Spending.StandsAt(c, h, t, o.txid);
      OnlyThere(c, h, t, o, pubKeyHash);
    }
  }

  lemma {:induction false} OnlyThere(c: seq<Block>, h: nat, t: nat, o: Outpoint, pubKeyHash: Bytes)
    requires Spending.Stands(c, h, t, o.txid)
    ensures OnChainFor(c, o, pubKeyHash) <==>
      LockedTo(c[h].txs[t], o.vout, pubKeyHash) && (c[h].txs[t].IsCoinbase() ==> |c| - 1 - h >= 100)
  {
    if OnChainFor(c, o, pubKeyHash) {
      var h': nat, t': nat :|
        && Spending.Stands(c, h', t', o.txid) && LockedTo(c[h'].txs[t'], o.vout, pubKeyHash)
        && (c[h'].txs[t'].IsCoinbase() ==> |c| - 1 - h' >= 100);
      Spending.StandsOnce(c, h, t, h', t', o.txid);
    }
  }

  predicate LockedTo(tx: Transaction, i: int, pubKeyHash: Bytes) {
    0 <= i < |tx.vout| && tx.vout[i].pubKeyHash == pubKeyHash
  }

  lemma {:induction false} MatchesFlag(db: Index, c: seq<Block>, id: Bytes)
    requires Matches(db, c) && id in db
    ensures FindTx(c, id).Some? && db[id].isCoinbase == FindTx(c, id).value.0.IsCoinbase()
    ensures db[id].blockHeight == FindTx(c, id).value.1
  {
    hide FindTx;
    assert MatchesAt(db[id], c, id);
  }

  /** A payment costs nothing: what it draws is what it pays out. */
  lemma {:induction false} PaymentFee(db: Index, c: seq<Block>, h: Wallet.Hashes, w: KeyPair, to: Bytes, amount: int,
                                      tx: Transaction, prevs: Context)
    requires InStep(db, c) && Pays(db, c, h, w, to, amount, tx)
    requires forall i :: 0 <= i < |tx.vin| ==> FromChain(c, prevs, tx.vin[i].txid)
    ensures CalculateFee(tx, prevs) == Ok(0)
  {
    hide Matches, FindTx, Spendable, Flat, Worth, Elements, NoRepeat, Agrees, OutputSum, InputSum;
    PaymentDraws(db, c, h, w, to, amount, tx, prevs);
    PaidIs(tx.vout);
    NotCoinbase(db, c, h, w, to, amount, tx);
  }

  lemma {:induction false} NotCoinbase(db: Index, c: seq<Block>, h: Wallet.Hashes, w: KeyPair, to: Bytes, amount: int,
                                       tx: Transaction)
    requires InStep(db, c) && Pays(db, c, h, w, to, amount, tx)
    ensures !tx.IsCoinbase()
  {
    hide InStep, Pays;
    PaymentInputs(db, c, h, w, to, amount, tx);
  }

  /** The inputs draw what the outputs they name are worth. */
  lemma {:induction false} PaymentDraws(db: Index, c: seq<Block>, h: Wallet.Hashes, w: KeyPair, to: Bytes, amount: int,
                                        tx: Transaction, prevs: Context)
    requires InStep(db, c) && Pays(db, c, h, w, to, amount, tx)
    requires forall i :: 0 <= i < |tx.vin| ==> FromChain(c, prevs, tx.vin[i].txid)
    ensures InputSum(tx.vin, prevs) == Ok(Worth(db, Elements(Points(tx.vin))))
  {
    hide Matches, FindTx, Spendable, Flat, Worth, Elements, NoRepeat, Agrees, InputSum, Wallet.Locked;
    PointsAre(tx.vin);
    forall i | 0 <= i < |tx.vin| ensures Spent(tx.vin[i]) in Flat(db) {
      ElementsMember(Points(tx.vin), Points(tx.vin)[i]);
      InputFound(db, c, Wallet.HashPubKey(h, w.public), Spent(tx.vin[i]));
    }
    forall i | 0 <= i < |tx.vin| && tx.vin[i].txid in db ensures Agrees(db[tx.vin[i].txid], prevs[tx.vin[i].txid]) {
      MatchesFind(db, c, tx.vin[i].txid);
    }
    InputSumIs(db, prevs, tx.vin);
    DrawnIsWorth(db, tx.vin);
  }

  lemma {:induction false} PaidIs(vout: seq<TxOut>)
    ensures |vout| == 1 ==> OutputSum(vout) == vout[0].value
    ensures |vout| == 2 ==> OutputSum(vout) == vout[0].value + vout[1].value
  {
    if |vout| == 2 {
      assert OutputSum(vout[..1]) == vout[0].value;
    }
  }

  /** What of these outputs is locked to a key hash. */
  function PaidTo(vout: seq<TxOut>, pubKeyHash: Bytes): nat {
    if vout == [] then 0
    else var last := vout[|vout| - 1];
      PaidTo(vout[..|vout| - 1], pubKeyHash) + if last.pubKeyHash == pubKeyHash then last.value else 0
  }

  /** The payee gets the amount, the payer the rest of what the inputs are worth, and nobody else anything. */
  lemma {:induction false} PaymentDelivers(db: Index, c: seq<Block>, h: Wallet.Hashes, w: KeyPair, to: Bytes,
                                           amount: int, tx: Transaction, other: Bytes)
    requires Pays(db, c, h, w, to, amount, tx)
    ensures var payee, payer := Wallet.Locked(to).value, Wallet.HashPubKey(h, w.public);
            var rest := Worth(db, Elements(Points(tx.vin))) - amount;
            PaidTo(tx.vout, other) ==
              (if other == payee then amount else 0) + (if other == payer then rest else 0)
  {
    hide Wallet.Locked, Wallet.HashPubKey, Worth, Spendable, NoRepeat, Elements;
    var payee := TxOut(amount, Wallet.Locked(to).value);
    assert PaidTo([], other) == 0 && [payee][..0] == [];
    if |tx.vout| == 2 {
      assert tx.vout == [payee, tx.vout[1]] && tx.vout[..1] == [payee];
    } else {
      assert tx.vout == [payee];
    }
  }

  /** Inputs signed with the previous transactions the chain gave. */
  ghost predicate SignedInputs(sha: Sha256, w: KeyPair, c: seq<Block>, draft: Transaction, prevs: Context,
                               tx: Transaction) {
    && CanSign(prevs, draft.vin) && (forall i :: 0 <= i < |draft.vin| ==> FromChain(c, prevs, draft.vin[i].txid))
    && tx.vout == draft.vout && |tx.vin| == |draft.vin|
    && forall i :: 0 <= i < |draft.vin| ==>
         tx.vin[i] == draft.vin[i].(signature := SignatureOf(sha, w, draft, prevs, i))
  }

  lemma {:induction false} PaymentInputs(db: Index, c: seq<Block>, h: Wallet.Hashes, w: KeyPair, to: Bytes,
                                         amount: int, tx: Transaction)
    requires InStep(db, c) && Pays(db, c, h, w, to, amount, tx)
    ensures forall i :: 0 <= i < |tx.vin| ==>
              Spent(tx.vin[i]) in Spendable(db, |c| - 1, Wallet.HashPubKey(h, w.public), db.Keys)
    ensures forall i :: 0 <= i < |tx.vin| ==> FindTx(c, tx.vin[i].txid).Some? && tx.vin[i].txid != []
    ensures forall i :: 0 <= i < |tx.vin| ==>
              Lookup(c, map[], |c| - 1, tx.vin[i].txid) == Found(FindTx(c, tx.vin[i].txid).value.0)
    ensures !tx.IsCoinbase() && (amount > 0 ==> tx.vin != [])
  {
    hide Matches, FindTx, Spendable, Flat, Worth, Elements, NoRepeat, Lookup;
    var own := Wallet.HashPubKey(h, w.public);
    PointsAre(tx.vin);
    forall i | 0 <= i < |tx.vin|
      ensures Spent(tx.vin[i]) in Spendable(db, |c| - 1, own, db.Keys) && FindTx(c, tx.vin[i].txid).Some?
      ensures tx.vin[i].txid != []
      ensures Lookup(c, map[], |c| - 1, tx.vin[i].txid) == Found(FindTx(c, tx.vin[i].txid).value.0)
    {
      ElementsMember(Points(tx.vin), Points(tx.vin)[i]);
      InputFound(db, c, own, Spent(tx.vin[i]));
    }
    NoElements();
    WorthNothing(db);
  }

  /** An input whose previous transaction is on the chain, deep enough, under a proper id. */
  ghost predicate Reaches(c: seq<Block>, i: TxIn) {
    i.txid != [] && FindTx(c, i.txid).Some? && Lookup(c, map[], |c| - 1, i.txid) == Found(FindTx(c, i.txid).value.0)
  }

  lemma {:induction false} InputSumAlike(vin: seq<TxIn>, a: Context, b: Context)
    requires forall i :: 0 <= i < |vin| ==> PrevOut(a, vin[i]) == PrevOut(b, vin[i])
    ensures InputSum(vin, a) == InputSum(vin, b)
  {
    hide PrevOut;
    if vin != [] {
      InputSumAlike(vin[..|vin| - 1], a, b);
    }
  }

  lemma {:induction false} InputSumOk(vin: seq<TxIn>, prevs: Context)
    requires forall i :: 0 <= i < |vin| ==> PrevOut(prevs, vin[i]).Ok?
    ensures InputSum(vin, prevs).Ok?
  {
    hide PrevOut;
    if vin != [] {
      InputSumOk(vin[..|vin| - 1], prevs);
    }
  }

  /**
   * What verification asks of signed inputs: that they reach outputs of the chain, and that each signature goes with
   * the key beside it. It does not ask that the key be the one the output is locked to.
   */
  lemma {:induction false} SignedInputsPass(k: Crypto, c: seq<Block>, w: KeyPair, draft: Transaction, prevs: Context,
                                            tx: Transaction)
    requires c != [] && SignsFor(k, w) && SignedInputs(k.sha, w, c, draft, prevs, tx)
    requires tx.vin != [] && tx.vout != [] && !tx.IsCoinbase()
    requires forall i :: 0 <= i < |tx.vin| ==> tx.vin[i].pubKey == w.public && Reaches(c, tx.vin[i])
    ensures CalculateFee(tx, prevs).Ok?
    ensures CheckOnChain(k, c, tx) ==
      if CalculateFee(tx, prevs).value >= 0 then Fee(CalculateFee(tx, prevs).value) else Refused
  {
    hide FindTx, Lookup, SignsFor, Digest;
    GatherAll(c, |c| - 1, tx.vin);
    var gathered := Gather(c, map[], |c| - 1, tx.vin).prevs;
    forall i | 0 <= i < |tx.vin|
      ensures FromChain(c, gathered, tx.vin[i].txid) && tx.vin[i].txid == gathered[tx.vin[i].txid].id
      ensures PrevOut(gathered, tx.vin[i]) == PrevOut(prevs, tx.vin[i]) == PrevOut(prevs, draft.vin[i])
    {
      GatherLookup(c, map[], |c| - 1, tx.vin, i);
      FindTxIs(c, tx.vin[i].txid);
      assert tx.vin[i].txid == draft.vin[i].txid && FromChain(c, prevs, draft.vin[i].txid);
    }
    InputSumAlike(tx.vin, gathered, prevs);
    InputSumOk(tx.vin, prevs);
    forall i | 0 <= i < |draft.vin| ensures PrevOut(gathered, draft.vin[i]) == PrevOut(prevs, draft.vin[i]) {
      assert PrevOut(gathered, tx.vin[i]) == PrevOut(gathered, draft.vin[i]);
    }
    SignedVerifies(k, w, draft, prevs, tx, gathered, 0);
  }

  /** Every input carries the key that the output it spends is locked to. */
  ghost predicate Owned(h: Wallet.Hashes, prevs: Context, vin: seq<TxIn>) {
    forall i :: 0 <= i < |vin| ==>
      PrevOut(prevs, vin[i]).Ok? && Wallet.HashPubKey(h, vin[i].pubKey) == PrevOut(prevs, vin[i]).value.pubKeyHash
  }

  /** The wallet itself only ever spends what is its own. */
  lemma {:induction false} PaymentOwned(db: Index, c: seq<Block>, h: Wallet.Hashes, w: KeyPair, to: Bytes, amount: int,
                                        tx: Transaction, prevs: Context)
    requires InStep(db, c) && Pays(db, c, h, w, to, amount, tx)
    requires forall i :: 0 <= i < |tx.vin| ==> FromChain(c, prevs, tx.vin[i].txid)
    ensures Owned(h, prevs, tx.vin)
  {
    hide Matches, FindTx, Flat, Worth, Elements, NoRepeat, Pays, Wallet.HashPubKey;
    PaymentInputs(db, c, h, w, to, amount, tx);
    PaysWith(db, c, h, w, to, amount, tx);
    forall i | 0 <= i < |tx.vin|
      ensures PrevOut(prevs, tx.vin[i]).Ok?
      ensures Wallet.HashPubKey(h, tx.vin[i].pubKey) == PrevOut(prevs, tx.vin[i]).value.pubKeyHash
    {
      InputFound(db, c, Wallet.HashPubKey(h, w.public), Spent(tx.vin[i]));
      MatchesFind(db, c, tx.vin[i].txid);
    }
  }

  lemma {:induction false} PaysWith(db: Index, c: seq<Block>, h: Wallet.Hashes, w: KeyPair, to: Bytes, amount: int,
                                    tx: Transaction)
    requires Pays(db, c, h, w, to, amount, tx)
    ensures forall i :: 0 <= i < |tx.vin| ==> tx.vin[i].pubKey == w.public
  {
  }

  /** The transaction built passes the check that guards the mempool and the miner, with a fee of zero. */
  lemma {:induction false} PaymentAccepted(k: Crypto, db: Index, c: seq<Block>, h: Wallet.Hashes, w: KeyPair,
                                           to: Bytes, amount: int,
                                           draft: Transaction, prevs: Context, tx: Transaction)
    requires InStep(db, c) && Pays(db, c, h, w, to, amount, tx) && amount > 0
    requires SignsFor(k, w) && SignedInputs(k.sha, w, c, draft, prevs, tx)
    ensures CheckOnChain(k, c, tx) == Fee(0)
  {
    hide Matches, Spendable, Worth, Elements, NoRepeat, FindTx, Lookup, SignsFor, Digest, Check;
    PaymentInputs(db, c, h, w, to, amount, tx);
    forall i | 0 <= i < |tx.vin| ensures FromChain(c, prevs, tx.vin[i].txid) {
      assert tx.vin[i].txid == draft.vin[i].txid && FromChain(c, prevs, draft.vin[i].txid);
    }
    PaymentFee(db, c, h, w, to, amount, tx, prevs);
    SignedInputsPass(k, c, w, draft, prevs, tx);
  }

  /** Selects the inputs and lays out the outputs. */
  method Draft(sha: Sha256, h: Wallet.Hashes, w: KeyPair, to: Bytes, amount: int, utxoSet: UTXOSet)
    returns (r: Result<Transaction>)
    requires utxoSet.blockchain.Valid() && InStep(utxoSet.db, utxoSet.blockchain.chain)
    ensures var own := Wallet.HashPubKey(h, w.public);
            r.Ok? <==> Wallet.Locked(to).Ok? && 0 <= amount <= Balance(utxoSet.db, utxoSet.blockchain.chain, own)
    ensures r.Ok? ==> Pays(utxoSet.db, utxoSet.blockchain.chain, h, w, to, amount, r.value)
  {
    hide Linked, StoreOf, InStep, Spendable, Selected, NamesExactly, Balance, Pays, Wallet.Locked;
    ghost var db, c := utxoSet.db, utxoSet.blockchain.chain;
    var own := Wallet.HashPubKey(h, w.public);
    var from := Wallet.GetAddress(h, w.public);
    var acc, validOutputs := utxoSet.FindSpendableOutputs(own, amount);
    SelectionEnough(db, c, own, amount, acc, validOutputs);
    if acc < amount { return Throws; }
    var inputs := BuildInputs(validOutputs, w.public);
    var payment := Wallet.NewTXOutput(amount, to);
    if payment.Throws? { return Throws; }
    var outputs := [payment.value];
    if acc > amount {
      Wallet.AddressRoundTrip(h, w.public, acc - amount);
      outputs := outputs + [Wallet.NewTXOutput(acc - amount, from).value];
    }
    DraftPays(db, c, h, w, to, amount, acc, validOutputs, T.WithId(sha, inputs, outputs));
    return Ok(T.WithId(sha, inputs, outputs));
  }

  lemma {:induction false} SelectionEnough(db: Index, c: seq<Block>, own: Bytes, amount: int, acc: int,
                                           picks: IndexLists)
    requires InStep(db, c) && Selected(db, Spendable(db, |c| - 1, own, db.Keys), amount, acc, picks)
    ensures Distinct(picks)
    ensures 0 <= acc < TWO_63 && (acc >= amount <==> amount <= Balance(db, c, own))
  {
    hide Matches, Spendable, Worth, Listed;
    WorthLess(db, Listed(picks), Spendable(db, |c| - 1, own, db.Keys));
  }

  lemma {:induction false} DraftPays(db: Index, c: seq<Block>, h: Wallet.Hashes, w: KeyPair, to: Bytes, amount: int,
                  acc: int, picks: IndexLists, tx: Transaction)
    requires Selected(db, Spendable(db, |c| - 1, Wallet.HashPubKey(h, w.public), db.Keys), amount, acc, picks)
    requires 0 <= amount <= acc < TWO_63 && Wallet.Locked(to).Ok? && NamesExactly(tx.vin, picks, w.public)
    requires tx.vout == [TxOut(amount, Wallet.Locked(to).value)] +
      if acc > amount then [TxOut(acc - amount, Wallet.HashPubKey(h, w.public))] else []
    ensures Pays(db, c, h, w, to, amount, tx)
  {
    hide Spendable, Worth, Listed, NoRepeat, Elements, Wallet.Locked;
  }

  /** Signs with the previous transactions of the chain, and gives the transaction its final id. */
  method SignTransaction(sha: Sha256, w: KeyPair, draft: Transaction, bc: Blockchain)
    returns (tx: Transaction, ghost prevs: Context)
    requires bc.Valid() && !draft.IsCoinbase()
    requires forall i :: 0 <= i < |draft.vin| ==> FindTx(bc.chain, draft.vin[i].txid).Some?
    requires forall p :: (forall i :: 0 <= i < |draft.vin| ==> FromChain(bc.chain, p, draft.vin[i].txid)) ==>
               CanSign(p, draft.vin)
    ensures SignedInputs(sha, w, bc.chain, draft, prevs, tx) && T.Sealed(sha, tx)
  {
    hide Linked, StoreOf, FindTx, Digest, T.Encode, CanSign;
    var prevTXs := CollectTransactions(bc, draft.vin);
    prevs := prevTXs.value;
    var signed := Sign(sha, w, draft, prevTXs.value);
    tx := T.WithId(sha, signed.value.vin, signed.value.vout);
    T.IdIgnored(tx);
  }

  /** Succeeds exactly when the amount is covered and the payee's address can be paid to. */
  method NewUTXOTransaction(k: Crypto, h: Wallet.Hashes, w: KeyPair, to: Bytes, amount: int, utxoSet: UTXOSet)
    returns (r: Result<Transaction>)
    requires utxoSet.blockchain.Valid() && InStep(utxoSet.db, utxoSet.blockchain.chain)
    ensures var own := Wallet.HashPubKey(h, w.public);
            r.Ok? <==> Wallet.Locked(to).Ok? && 0 <= amount <= Balance(utxoSet.db, utxoSet.blockchain.chain, own)
    ensures r.Ok? ==> T.Sealed(k.sha, r.value) && Pays(utxoSet.db, utxoSet.blockchain.chain, h, w, to, amount, r.value)
    ensures r.Ok? && amount > 0 && SignsFor(k, w) ==> CheckOnChain(k, utxoSet.blockchain.chain, r.value) == Fee(0)
  {
    hide Linked, StoreOf, InStep, Balance, Pays, FindTx, SignsFor, Wallet.Locked, Digest, T.Sealed, Check, SignedInputs;
    ghost var db, c := utxoSet.db, utxoSet.blockchain.chain;
    var draft := Draft(k.sha, h, w, to, amount, utxoSet);
    if draft.Throws? { return Throws; }
    PaymentInputs(db, c, h, w, to, amount, draft.value);
    forall p: Context | forall i :: 0 <= i < |draft.value.vin| ==> FromChain(c, p, draft.value.vin[i].txid)
      ensures CanSign(p, draft.value.vin) {
      CanSignDraft(db, c, h, w, to, amount, draft.value, p);
    }
    ghost var prevs;
    var tx;
    tx, prevs := SignTransaction(k.sha, w, draft.value, utxoSet.blockchain);
    StillPays(db, c, h, w, to, amount, k.sha, draft.value, prevs, tx);
    if amount > 0 {
      if SignsFor(k, w) {
        PaymentAccepted(k, db, c, h, w, to, amount, draft.value, prevs, tx);
      }
    }
    return Ok(tx);
  }

  lemma {:induction false} StillPays(db: Index, c: seq<Block>, h: Wallet.Hashes, w: KeyPair, to: Bytes, amount: int,
                  sha: Sha256, draft: Transaction, prevs: Context, tx: Transaction)
    requires Pays(db, c, h, w, to, amount, draft) && SignedInputs(sha, w, c, draft, prevs, tx)
    ensures Pays(db, c, h, w, to, amount, tx)
  {
    hide Wallet.Locked, Digest, FromChain, CanSign, Spendable, Worth, NoRepeat, Elements, Points;
    TrimmedAlike(draft.vin, tx.vin);
  }

  lemma {:induction false} CanSignDraft(db: Index, c: seq<Block>, h: Wallet.Hashes, w: KeyPair, to: Bytes,
                                        amount: int, tx: Transaction, prevs: Context)
    requires InStep(db, c) && Pays(db, c, h, w, to, amount, tx)
    requires forall i :: 0 <= i < |tx.vin| ==> FromChain(c, prevs, tx.vin[i].txid)
    ensures CanSign(prevs, tx.vin)
  {
    hide Matches, FindTx, Spendable, Flat, Worth, Elements, NoRepeat, Pays;
    PaymentInputs(db, c, h, w, to, amount, tx);
    forall i | 0 <= i < |tx.vin| ensures PrevOut(prevs, tx.vin[i]).Ok? && prevs[tx.vin[i].txid].id != [] {
      InputFound(db, c, Wallet.HashPubKey(h, w.public), Spent(tx.vin[i]));
    }
  }
}

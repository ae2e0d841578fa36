/**
 * What makes a transaction or a block acceptable on top of a chain: `src/transaction.cpp`, both overloads of
 * `Blockchain::VerifyTransaction`, and the checks of `Node::HandleBlock`.
 */
module Validation {
  import opened Base
  import opened Ledger
  import opened ChainModel
  import BlockCodec
  import ProofOfWork
  import T = TransactionCodec

  /** Checking a signature can also fail on the public key itself, which throws. */
  datatype SigCheck = Good | Bad | BadKey

  /** The opaque cryptography: the hash, and the check of (public key, digest, signature). */
  datatype Crypto = Crypto(sha: Sha256, check: (Bytes, Bytes, Bytes) -> SigCheck)

  /** Previous transactions by id. */
  type Context = map<Bytes, Transaction>

  // ---------------------------------------------------------------- fees

  function PrevOut(prevs: Context, i: TxIn): Result<TxOut> {
    if i.txid !in prevs then Throws
    else if 0 <= i.vout < |prevs[i.txid].vout| then Ok(prevs[i.txid].vout[i.vout])
    else Throws
  }

  function InputSum(vin: seq<TxIn>, prevs: Context): (r: Result<int>)
    ensures r.Ok? ==> r.value >= 0
  {
    if vin == [] then Ok(0)
    else match InputSum(vin[..|vin| - 1], prevs)
      case Throws => Throws
      case Ok(sum) =>
        match PrevOut(prevs, vin[|vin| - 1])
        case Throws => Throws
        case Ok(out) => Ok(sum + out.value)
  }

  function OutputSum(vout: seq<TxOut>): nat {
    if vout == [] then 0 else OutputSum(vout[..|vout| - 1]) + vout[|vout| - 1].value
  }

  function CalculateFee(tx: Transaction, prevs: Context): Result<int> {
    if tx.IsCoinbase() then Ok(0)
    else match InputSum(tx.vin, prevs)
      case Throws => Throws
      case Ok(sum) => Ok(sum - OutputSum(tx.vout))
  }

  // ---------------------------------------------------------------- signatures

  function TrimmedIn(i: TxIn): TxIn {
    TxIn(i.txid, i.vout, [], [])
  }

  function TrimmedIns(vin: seq<TxIn>): (r: seq<TxIn>)
    ensures |r| == |vin|
  {
    if vin == [] then [] else TrimmedIns(vin[..|vin| - 1]) + [TrimmedIn(vin[|vin| - 1])]
  }

  lemma {:induction false} TrimmedAt(vin: seq<TxIn>, n: nat)
    requires n < |vin|
    ensures TrimmedIns(vin)[n] == TrimmedIn(vin[n])
  {
    if n < |vin| - 1 {
      TrimmedAt(vin[..|vin| - 1], n);
    }
  }

  /** What input `n` signs: the trimmed copy, with the owner's key hash in that input only. */
  function Digest(sha: Sha256, tx: Transaction, n: nat, pubKeyHash: Bytes): Bytes
    requires n < |tx.vin|
  {
    var trimmed := TrimmedIns(tx.vin);
    sha.Of(T.Encode(Transaction(tx.id, trimmed[n := trimmed[n].(pubKey := pubKeyHash)], tx.vout)))
  }

  predicate PrevKnown(prevs: Context, vin: seq<TxIn>) {
    forall i :: i in vin ==> i.txid in prevs && prevs[i.txid].id != []
  }

  /** The inputs from `n` on, in order: the first that is not good decides. */
  function VerifyFrom(k: Crypto, tx: Transaction, prevs: Context, n: nat): Result<bool>
    requires n <= |tx.vin|
    decreases |tx.vin| - n
  {
    if n == |tx.vin| then Ok(true)
    else match PrevOut(prevs, tx.vin[n])
      case Throws => Throws
      case Ok(out) =>
        match k.check(tx.vin[n].pubKey, Digest(k.sha, tx, n, out.pubKeyHash), tx.vin[n].signature)
        case BadKey => Throws
        case Bad => Ok(false)
        case Good => VerifyFrom(k, tx, prevs, n + 1)
  }

  function VerifySignatures(k: Crypto, tx: Transaction, prevs: Context): Result<bool> {
    if tx.IsCoinbase() then Ok(true)
    else if !PrevKnown(prevs, tx.vin) then Throws
    else VerifyFrom(k, tx, prevs, 0)
  }

  // ---------------------------------------------------------------- one transaction

  datatype Found = Found(tx: Transaction) | TooYoung | NotFound

  /** Transactions of the block under way are looked at first; a coinbase must be buried deep enough. */
  function Lookup(c: seq<Block>, ctx: Context, spendHeight: int, id: Bytes): Found {
    if id in ctx then
      if ctx[id].IsCoinbase() then TooYoung else Found(ctx[id])
    else match FindTx(c, id)
      case None => NotFound
      case Some((tx, height)) =>
        if tx.IsCoinbase() && spendHeight - height < COINBASE_MATURITY then TooYoung else Found(tx)
  }

  datatype Gathered = Prevs(prevs: Context) | Immature | Missing

  function Gather(c: seq<Block>, ctx: Context, spendHeight: int, vin: seq<TxIn>): Gathered {
    if vin == [] then Prevs(map[])
    else match Gather(c, ctx, spendHeight, vin[..|vin| - 1])
      case Immature => Immature
      case Missing => Missing
      case Prevs(prevs) => Insert(prevs, vin[|vin| - 1].txid, Lookup(c, ctx, spendHeight, vin[|vin| - 1].txid))
  }

  /** `std::map::insert` keeps an entry that is already there. */
  function Insert(prevs: Context, id: Bytes, found: Found): Gathered {
    match found
    case NotFound => Missing
    case TooYoung => Immature
    case Found(tx) => Prevs(if id in prevs then prevs else prevs[id := tx])
  }

  /** The fee of an acceptable transaction; a refusal (`nullopt`); or an exception. */
  datatype Checked = Fee(fee: int) | Refused | Aborted

  function Check(k: Crypto, c: seq<Block>, ctx: Context, spendHeight: int, tx: Transaction): Checked {
    if tx.IsCoinbase() then Fee(0)
    else if tx.vin == [] || tx.vout == [] then Refused
    else match Gather(c, ctx, spendHeight, tx.vin)
      case Missing => Aborted
      case Immature => Refused
      case Prevs(prevs) => CheckAgainst(k, tx, prevs)
  }

  function CheckAgainst(k: Crypto, tx: Transaction, prevs: Context): Checked {
    match CalculateFee(tx, prevs)
    case Throws => Aborted
    case Ok(fee) =>
      if fee < 0 then Refused
      else match VerifySignatures(k, tx, prevs)
        case Throws => Aborted
        case Ok(good) => if good then Fee(fee) else Refused
  }

  /** For the mempool and the miner: against the chain alone, at the height of its tip. */
  function CheckOnChain(k: Crypto, c: seq<Block>, tx: Transaction): Checked {
    Check(k, c, map[], |c| - 1, tx)
  }

  /** For a block: with the transactions before it, at the height of the block. */
  function CheckInBlock(k: Crypto, c: seq<Block>, ctx: Context, tx: Transaction): Checked {
    Check(k, c, ctx, |c|, tx)
  }

  // ---------------------------------------------------------------- one block

  /** `CheckedAdd`: the sum, unless it leaves the 64-bit range. */
  function CheckedAdd(a: int, b: int): Option<int> {
    if -TWO_63 <= a + b < TWO_63 then Some(a + b) else None
  }

  function ShiftRight(x: nat, n: nat): nat {
    if n == 0 then x else ShiftRight(x / 2, n - 1)
  }

  /** `GetBlockSubsidy`. */
  function Subsidy(height: nat): nat {
    var halvings := height / HALVING_INTERVAL;
    if halvings >= 64 then 0 else ShiftRight(SUBSIDY, halvings)
  }

  /** Stored; its hash known, so that the index is updated and nothing stored; punished; or dropped by an exception. */
  datatype Verdict = Accept | Known | Penalise | Drop

  datatype Progress = Going(ctx: Context, spent: set<Outpoint>, fees: int) | Stopped(punished: bool)

  /** Inserting outpoints one by one, until one is already there. */
  function SpendAll(spent: set<Outpoint>, vin: seq<TxIn>): Option<set<Outpoint>> {
    if vin == [] then Some(spent)
    else match SpendAll(spent, vin[..|vin| - 1])
      case None => None
      case Some(s) => var o := Spent(vin[|vin| - 1]); if o in s then None else Some(s + {o})
  }

  function StepTx(k: Crypto, c: seq<Block>, p: Progress, tx: Transaction): Progress {
    match p
    case Stopped(_) => p
    case Going(ctx, spent, fees) =>
      if tx.IsCoinbase() then Going(ctx[tx.id := tx], spent, fees)
      else match SpendAll(spent, tx.vin)
        case None => Stopped(true)
        case Some(spent') => AddFee(ctx, spent', fees, tx, CheckInBlock(k, c, ctx, tx))
  }

  function AddFee(ctx: Context, spent: set<Outpoint>, fees: int, tx: Transaction, checked: Checked): Progress {
    match checked
    case Refused => Stopped(true)
    case Aborted => Stopped(false)
    case Fee(fee) =>
      match CheckedAdd(fees, fee)
      case None => Stopped(true)
      case Some(sum) => Going(ctx[tx.id := tx], spent, sum)
  }

  function RunTxs(k: Crypto, c: seq<Block>, txs: seq<Transaction>): Progress {
    if txs == [] then Going(map[], {}, 0)
    else StepTx(k, c, RunTxs(k, c, txs[..|txs| - 1]), txs[|txs| - 1])
  }

  function CheckedSum(vout: seq<TxOut>): Option<int> {
    if vout == [] then Some(0)
    else match CheckedSum(vout[..|vout| - 1])
      case None => None
      case Some(sum) => CheckedAdd(sum, vout[|vout| - 1].value)
  }

  function CoinbaseOk(fees: int, height: nat, vout: seq<TxOut>): bool {
    match CheckedAdd(Subsidy(height), fees)
    case None => false
    case Some(most) =>
      match CheckedSum(vout)
      case None => false
      case Some(value) => value <= most
  }

  predicate TipInRange(c: seq<Block>) {
    c != [] && MIN_BITS <= Tip(c).bits <= MAX_BITS
  }

  /** What can be said of a block before its place on the chain is looked at. */
  function Precheck(k: Crypto, c: seq<Block>, b: Block, size: nat): (v: Verdict)
    ensures v != Known
  {
    if b.txs == [] then Drop
    else if !ProofOfWork.Valid(k.sha, b) || !BlockCodec.CheckBlockSize(b, size) then Penalise
    else match RunTxs(k, c, b.txs)
      case Stopped(punished) => if punished then Penalise else Drop
      case Going(_, _, fees) => if CoinbaseOk(fees, |c|, b.txs[0].vout) then Accept else Penalise
  }

  function Judge(k: Crypto, c: seq<Block>, b: Block, size: nat, now: int): Verdict
    requires TipInRange(c)
  {
    match Precheck(k, c, b, size)
    case Accept =>
      (match AddOutcome(c, b, now)
       case Rejected => Drop
       case AlreadyKnown => Known
       case Added => Accept)
    case other => other
  }

  /** A block with nothing but a coinbase within the subsidy passes, on any chain. */
  lemma {:induction false} CoinbaseAlonePasses(k: Crypto, c: seq<Block>, b: Block, size: nat)
    requires |b.txs| == 1 && b.txs[0].IsCoinbase() && ProofOfWork.Valid(k.sha, b) && 0 < size <= MAX_BLOCK_SIZE
    requires CheckedSum(b.txs[0].vout).Some? && CheckedSum(b.txs[0].vout).value <= Subsidy(|c|) < TWO_63
    ensures Precheck(k, c, b, size) == Accept
  {
    hide ProofOfWork.Valid, Subsidy, CheckedSum, BlockCodec.CheckBlockSize, RunTxs;
    CoinbaseAloneRuns(k, c, b.txs);
    CoinbaseAloneFits(b, size);
  }

  lemma {:induction false} CoinbaseAloneRuns(k: Crypto, c: seq<Block>, txs: seq<Transaction>)
    requires |txs| == 1 && txs[0].IsCoinbase()
    ensures RunTxs(k, c, txs) == Going(map[txs[0].id := txs[0]], {}, 0)
  {
    hide CheckInBlock, SpendAll;
    assert txs[..0] == [];
    assert RunTxs(k, c, txs[..0]) == Going(map[], {}, 0);
  }

  lemma {:induction false} CoinbaseAloneFits(b: Block, size: nat)
    requires |b.txs| == 1 && b.txs[0].IsCoinbase() && 0 < size <= MAX_BLOCK_SIZE
    ensures BlockCodec.CheckBlockSize(b, size)
  {
    hide BlockCodec.Encode;
  }

  /** The checks before the chain is asked never look at the stored hash. */
  lemma {:induction false} PrecheckIgnoresHash(k: Crypto, c: seq<Block>, b: Block, hash: Bytes, size: nat)
    requires size > 0
    ensures Precheck(k, c, b.(hash := hash), size) == Precheck(k, c, b, size)
  {
    hide RunTxs, CoinbaseOk, BlockCodec.CheckBlockSize, ProofOfWork.Meets;
    if b.txs != [] {
      ProofOfWork.MeetsDependsOn(k.sha, b, b.(hash := hash), b.nonce);
      SizeIgnoresHash(b, hash, size);
    }
  }

  lemma {:induction false} SizeIgnoresHash(b: Block, hash: Bytes, size: nat)
    requires size > 0
    ensures BlockCodec.CheckBlockSize(b.(hash := hash), size) == BlockCodec.CheckBlockSize(b, size)
  {
    hide BlockCodec.Encode;
  }

  // ---------------------------------------------------------------- what an accepted transaction satisfies

  lemma {:induction false} GatherLookup(c: seq<Block>, ctx: Context, spendHeight: int, vin: seq<TxIn>, i: nat)
    requires Gather(c, ctx, spendHeight, vin).Prevs? && i < |vin|
    ensures var prevs := Gather(c, ctx, spendHeight, vin).prevs; var id := vin[i].txid;
            id in prevs && Lookup(c, ctx, spendHeight, id) == Found(prevs[id])
  {
    GatherSound(c, ctx, spendHeight, vin);
    var last := |vin| - 1;
    if i < last {
      GatherLookup(c, ctx, spendHeight, vin[..last], i);
    }
  }

  lemma {:induction false} GatherSound(c: seq<Block>, ctx: Context, spendHeight: int, vin: seq<TxIn>)
    requires Gather(c, ctx, spendHeight, vin).Prevs?
    ensures forall id :: id in Gather(c, ctx, spendHeight, vin).prevs ==>
      Lookup(c, ctx, spendHeight, id) == Found(Gather(c, ctx, spendHeight, vin).prevs[id])
  {
    if vin != [] {
      GatherSound(c, ctx, spendHeight, vin[..|vin| - 1]);
    }
  }

  lemma {:induction false} FindInBlockIs(txs: seq<Transaction>, id: Bytes)
    ensures FindInBlock(txs, id).Some? <==> exists t :: 0 <= t < |txs| && txs[t].id == id
    ensures FindInBlock(txs, id).Some? ==> FindInBlock(txs, id).value.id == id && FindInBlock(txs, id).value in txs
  {
    if txs != [] && txs[0].id != id {
      FindInBlockIs(txs[1..], id);
      if t :| 0 <= t < |txs| && txs[t].id == id {
        assert txs[1..][t - 1].id == id;
      }
      if t :| 0 <= t < |txs[1..]| && txs[1..][t].id == id {
        assert txs[t + 1].id == id;
      }
    } else if txs != [] {
      assert txs[0].id == id;
    }
  }

  /** What is found has the id that was asked for, and stands in the block at the height given. */
  lemma {:induction false} FindTxIs(c: seq<Block>, id: Bytes)
    requires FindTx(c, id).Some?
    ensures var (tx, h) := FindTx(c, id).value; tx.id == id && 0 <= h < |c| && tx in c[h].txs
  {
    FindInBlockIs(Tip(c).txs, id);
    if FindInBlock(Tip(c).txs, id).None? {
      FindTxIs(c[..|c| - 1], id);
    }
  }

  // ---------------------------------------------------------------- double spends inside a block

  function Points(vin: seq<TxIn>): (r: seq<Outpoint>)
    ensures |r| == |vin|
  {
    if vin == [] then [] else Points(vin[..|vin| - 1]) + [Spent(vin[|vin| - 1])]
  }

  function Elements(s: seq<Outpoint>): set<Outpoint> {
    set o | o in s
  }

  predicate NoRepeat(s: seq<Outpoint>) {
    s == [] || (NoRepeat(s[..|s| - 1]) && s[|s| - 1] !in s[..|s| - 1])
  }

  lemma {:induction false} ElementsSnoc(s: seq<Outpoint>, o: Outpoint)
    ensures Elements(s + [o]) == Elements(s) + {o}
    ensures NoRepeat(s + [o]) <==> NoRepeat(s) && o !in s
  {
    assert (s + [o])[..|s|] == s;
  }

  /** Inserting outpoints succeeds exactly when none of them repeats. */
  lemma {:induction false} SpendAllIs(before: seq<Outpoint>, vin: seq<TxIn>)
    requires NoRepeat(before)
    ensures SpendAll(Elements(before), vin).Some? <==> NoRepeat(before + Points(vin))
    ensures SpendAll(Elements(before), vin).Some? ==>
              SpendAll(Elements(before), vin).value == Elements(before + Points(vin))
  {
    if vin == [] {
      assert before + [] == before;
    } else {
      var init, o := vin[..|vin| - 1], Spent(vin[|vin| - 1]);
      hide NoRepeat, Elements;
      SpendAllIs(before, init);
      assert before + Points(vin) == (before + Points(init)) + [o];
      ElementsSnoc(before + Points(init), o);
      ElementsMember(before + Points(init), o);
    }
  }

  lemma {:induction false} ElementsMember(s: seq<Outpoint>, o: Outpoint)
    ensures o in Elements(s) <==> o in s
  {
  }

  lemma {:induction false} NoRepeatMeans(s: seq<Outpoint>)
    ensures NoRepeat(s) <==> forall i, j :: 0 <= i < j < |s| ==> s[i] != s[j]
  {
    if s != [] {
      NoRepeatMeans(s[..|s| - 1]);
    }
  }

  /** The outpoints a block names, in the order they are handled; a coinbase names none. */
  function BlockPoints(txs: seq<Transaction>): seq<Outpoint> {
    if txs == [] then []
    else var last := txs[|txs| - 1]; BlockPoints(txs[..|txs| - 1]) + if last.IsCoinbase() then [] else Points(last.vin)
  }
}

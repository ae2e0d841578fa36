/** What a node makes of a transaction it is sent: `Node::HandleTx` in `src/node.cpp`. */
module Relay {
  import opened Base
  import opened Ledger
  import opened ChainModel
  import opened Validation
  import Payment
  import Spending
  import T = TransactionCodec
  import UtxoIndex
  import Wallet

  /** Raffys per serialized byte. */
  const MIN_RELAY_FEE_RATE: real := 0.001

  function FeeRate(fee: int, txSize: nat): real {
    if txSize > 0 then fee as real / txSize as real else 0.0
  }

  /** Offered to the pool at a rate, passed over, or punished. */
  datatype TxVerdict = Offer(feeRate: real) | Ignore | Punish

  function JudgeTx(k: Crypto, c: seq<Block>, tx: Transaction): TxVerdict {
    if tx.IsCoinbase() || tx.vin == [] || tx.vout == [] then Ignore
    else RateOf(CheckOnChain(k, c, tx), |T.Encode(tx)|)
  }

  function RateOf(checked: Checked, txSize: nat): TxVerdict {
    match checked
    case Aborted => Ignore
    case Refused => Punish
    case Fee(fee) => if FeeRate(fee, txSize) < MIN_RELAY_FEE_RATE then Ignore else Offer(FeeRate(fee, txSize))
  }

  /** What is offered to the pool is no coinbase, passes on the chain, and pays at least one raffy per 1000 bytes. */
  lemma {:induction false} OfferedMeans(k: Crypto, c: seq<Block>, tx: Transaction)
    ensures JudgeTx(k, c, tx).Offer? <==>
      && !tx.IsCoinbase() && tx.vin != [] && tx.vout != []
      && CheckOnChain(k, c, tx).Fee? && 1000 * CheckOnChain(k, c, tx).fee >= |T.Encode(tx)|
  {
    hide Gather, CheckAgainst, T.Encode;
    if CheckOnChain(k, c, tx).Fee? {
      RateBound(CheckOnChain(k, c, tx).fee, |T.Encode(tx)|);
    }
  }

  /** What is held against the sender is refused on the chain; an exception on the way is not. */
  lemma {:induction false} PunishedMeans(k: Crypto, c: seq<Block>, tx: Transaction)
    ensures JudgeTx(k, c, tx) == Punish <==>
      !tx.IsCoinbase() && tx.vin != [] && tx.vout != [] && CheckOnChain(k, c, tx) == Refused
  {
    hide Gather, CheckAgainst, T.Encode, FeeRate;
  }

  /** A transaction short of nothing but a good signature: punished for one that is false, passed over for a bad key. */
  lemma {:induction false} FalseSignatureIsPunished(k: Crypto, c: seq<Block>, tx: Transaction, prevs: Context, n: nat)
    requires Spending.Funded(c, map[], |c| - 1, tx, prevs)
    requires n < |tx.vin| && Spending.GoodUpTo(k, tx, prevs, n)
    ensures var found := Spending.SignatureOf(k, tx, n, Spending.Output(prevs, tx.vin[n]).pubKeyHash);
            && (found == Bad ==> JudgeTx(k, c, tx) == Punish)
            && (found == BadKey ==> JudgeTx(k, c, tx) == Ignore)
  {
    hide Check, T.Encode, Digest, Spending.MayTake, InputSum, OutputSum;
    var m := Spending.FundedOutcome(k, c, map[], |c| - 1, tx, prevs);
  }

  /** One whose first input that may take nothing names a transaction nobody has is passed over. */
  lemma {:induction false} UnknownParentIsIgnored(k: Crypto, c: seq<Block>, tx: Transaction, prevs: Context, i: nat)
    requires i < |tx.vin| && Spending.AllMayTake(c, map[], |c| - 1, tx.vin[..i], prevs)
    requires Spending.Absent(c, tx.vin[i].txid)
    ensures JudgeTx(k, c, tx) == Ignore
  {
    hide CheckAgainst, T.Encode, Spending.MayTake, Gather;
    Spending.FirstCannotTake(c, map[], |c| - 1, tx.vin, prevs, i);
  }

  lemma {:induction false} RateBound(fee: int, txSize: nat)
    requires txSize > 0
    ensures FeeRate(fee, txSize) >= MIN_RELAY_FEE_RATE <==> 1000 * fee >= txSize
  {
    QuotientOrder(fee as real, txSize as real, MIN_RELAY_FEE_RATE);
  }

  lemma {:induction false} QuotientOrder(a: real, b: real, c: real)
    requires b > 0.0
    ensures a / b >= c <==> a >= c * b
  {
    var q := a / b;
    assert q * b == a;
    if q >= c {
      ProductOrder(q - c, b);
    } else {
      ProductOrder(c - q, b);
    }
    assert (q - c) * b == a - c * b;
  }

  lemma {:induction false} ProductOrder(x: real, y: real)
    requires x >= 0.0 && y > 0.0
    ensures x * y >= 0.0 && (x > 0.0 ==> x * y > 0.0)
  {
  }

  /** A payment as the wallet builds it is valid but free, so no other node takes it into its pool. */
  lemma {:induction false} PaymentNotRelayed(k: Crypto, db: UtxoIndex.Index, c: seq<Block>, h: Wallet.Hashes,
                                             w: Payment.KeyPair,
                                             to: Bytes, amount: int, draft: Transaction,
                                             prevs: Context, tx: Transaction)
    requires Payment.InStep(db, c) && Payment.Pays(db, c, h, w, to, amount, tx) && amount > 0
    requires Payment.SignsFor(k, w) && Payment.SignedInputs(k.sha, w, c, draft, prevs, tx)
    ensures JudgeTx(k, c, tx) == Ignore
  {
    hide Payment.InStep, Payment.Pays, Payment.SignsFor, Payment.SignedInputs, Check, T.Encode;
    Payment.PaymentAccepted(k, db, c, h, w, to, amount, draft, prevs, tx);
    RateBound(0, |T.Encode(tx)|);
  }
}

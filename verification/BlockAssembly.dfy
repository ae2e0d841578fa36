/** Filling a block from a pool, and what other nodes make of it: `Node::MineBlock` against `Node::HandleBlock`. */
module BlockAssembly {
  import opened Base
  import opened Ledger
  import opened ChainModel
  import opened ChainStore
  import opened Miner
  import opened Validation
  import opened UtxoIndex
  import BlockCodec
  import ProofOfWork
  import T = TransactionCodec
  import Wallet

  lemma {:induction false} SelectStays(k: Crypto, c: seq<Block>, sorted: seq<Transaction>, base: nat, n: nat)
    requires n <= |sorted|
    requires var s := Select(k, c, sorted[..n], base); s.Failed? || s.stopped
    ensures Select(k, c, sorted, base) == Select(k, c, sorted[..n], base)
    decreases |sorted| - n
  {
    hide Check, T.Encode;
    if n < |sorted| {
      assert sorted[..n + 1][..n] == sorted[..n];
      SelectStays(k, c, sorted, base, n + 1);
    } else {
      assert sorted[..n] == sorted;
    }
  }

  /** Takes transactions until the size or the count limit is met; one whose check throws ends it all. */
  method SelectTransactions(k: Crypto, bc: Blockchain, sorted: seq<Transaction>, base: nat) returns (s: Selection)
    requires bc.Valid()
    ensures s == Select(k, bc.chain, sorted, base)
  {
    hide Linked, StoreOf, NewestTimes, Check, T.Encode;
    s := Selection([], 0, base, false);
    for i := 0 to |sorted|
      invariant s.Selection? && !s.stopped && s == Select(k, bc.chain, sorted[..i], base)
    {
      assert sorted[..i + 1][..i] == sorted[..i];
      var txBytes := 4 + |T.Encode(sorted[i])|;
      if s.size + txBytes > MAX_BLOCK_SIZE || |s.txs| + 1 >= MAX_BLOCK_TXS {
        s := s.(stopped := true);
        SelectStays(k, bc.chain, sorted, base, i + 1);
        return;
      }
      var fee := bc.VerifyTransaction(k, sorted[i]);
      match fee {
        case Fee(value) => s := Selection(s.txs + [sorted[i]], s.fees + value, s.size + txBytes, false);
        case Refused =>
        case Aborted =>
          s := Failed;
          SelectStays(k, bc.chain, sorted, base, i + 1);
          return;
      }
    }
    assert sorted[..|sorted|] == sorted;
  }

  // ---------------------------------------------------------------- the whole block

  function BaseSize(cb: Transaction): nat {
    BlockCodec.FRAME_SIZE + 4 + |T.Encode(cb)|
  }

  /** The coinbase pays the subsidy and the fees to an address; the rest is what the selection takes. */
  ghost predicate Content(k: Crypto, c: seq<Block>, address: Bytes, data: Bytes, sorted: seq<Transaction>,
                          txs: seq<Transaction>) {
    && txs != [] && Wallet.Locked(address).Ok?
    && var s := Select(k, c, sorted, BaseSize(txs[0]));
       && s.Selection? && 0 <= Subsidy(|c|) + s.fees < TWO_63
       && txs == [Coinbase(k.sha, Wallet.Locked(address).value, data, Subsidy(|c|) + s.fees)] + s.txs
  }

  /** The address can be paid, selection does not fail, and subsidy and fees make an amount. */
  ghost predicate Fillable(k: Crypto, c: seq<Block>, address: Bytes, data: Bytes, sorted: seq<Transaction>) {
    && Wallet.Locked(address).Ok?
    && var s := Select(k, c, sorted, BlockCodec.FRAME_SIZE + 4 + 36 + |data| + |Wallet.Locked(address).value|);
       s.Selection? && 0 <= Subsidy(|c|) + s.fees < TWO_63
  }

  lemma {:induction false} SubsidyInRange(height: nat)
    ensures 0 <= Subsidy(height) <= SUBSIDY
  {
    ShiftShrinks(SUBSIDY, height / HALVING_INTERVAL);
  }

  lemma {:induction false} ShiftShrinks(x: nat, n: nat)
    ensures ShiftRight(x, n) <= x
  {
    if n > 0 {
      ShiftShrinks(x / 2, n - 1);
    }
  }

  ghost predicate Filled(k: Crypto, c: seq<Block>, address: Bytes, data: Bytes, sorted: seq<Transaction>, b: Block)
    requires TipInRange(c)
  {
    Content(k, c, address, data, sorted, b.txs) && b.prev == Tip(c).hash && b.bits == NextBits(c, |c|)
  }

  lemma {:induction false} ContentFits(k: Crypto, c: seq<Block>, address: Bytes, data: Bytes,
                                       sorted: seq<Transaction>, txs: seq<Transaction>)
    requires Content(k, c, address, data, sorted, txs)
    ensures txs != [] && Fits(txs)
  {
    hide Select, T.Encode, Check, Subsidy, Wallet.Locked;
    SelectIs(k, c, sorted, BaseSize(txs[0]));
    var chosen := Select(k, c, sorted, BaseSize(txs[0])).txs;
    forall t | 0 <= t < |txs| ensures |txs[t].vout| <= TWO_31 {
      if t > 0 {
        assert txs[t] == chosen[t - 1];
        BodyCovers(chosen, t - 1);
        T.EncodeCovers(txs[t]);
      }
    }
  }

  lemma {:induction false} BodyCovers(txs: seq<Transaction>, t: nat)
    requires t < |txs|
    ensures |T.Encode(txs[t])| <= BlockCodec.BodySize(txs) && BlockCodec.BodySize(txs) > 0
  {
    hide T.Encode;
    if t < |txs| - 1 {
      BodyCovers(txs[..|txs| - 1], t);
    }
  }

  /** Measures a placeholder, selects, and puts the real coinbase in front. */
  method FillBlock(k: Crypto, bc: Blockchain, address: Bytes, placeholder: Bytes, data: Bytes, sorted: seq<Transaction>)
    returns (r: Result<seq<Transaction>>)
    requires bc.Valid() && |placeholder| == |data|
    ensures r.Ok? <==> Fillable(k, bc.chain, address, data, sorted)
    ensures r.Ok? ==> Content(k, bc.chain, address, data, sorted, r.value)
  {
    hide Linked, StoreOf, NewestTimes, Select, T.Encode, Subsidy, Wallet.Locked, T.WithId;
    SubsidyInRange(bc.tipHeight + 1);
    var subsidy := Subsidy(bc.tipHeight + 1);
    var out := Wallet.NewTXOutput(subsidy, address);
    if out.Throws? { return Throws; }
    var pubKeyHash := out.value.pubKeyHash;
    var base := BaseSize(Coinbase(k.sha, pubKeyHash, placeholder, subsidy));
    CoinbaseSize(k.sha, pubKeyHash, placeholder, subsidy);
    var s := SelectTransactions(k, bc, sorted, base);
    if s.Failed? { return Throws; }
    var reward := Wallet.NewTXOutput(subsidy + s.fees, address);
    if reward.Throws? { return Throws; }
    CoinbaseSize(k.sha, pubKeyHash, data, subsidy + s.fees);
    var cb := Coinbase(k.sha, pubKeyHash, data, subsidy + s.fees);
    assert ([cb] + s.txs)[0] == cb;
    return Ok([cb] + s.txs);
  }

  /**
   * What another node with the same tip makes of a block filled from a pool without coinbases: it reads the very
   * same block from the bytes, as many as the miner counted, and stores it if and only if no outpoint repeats.
   */
  lemma {:induction false} MinerAndValidatorAgree(k: Crypto, c: seq<Block>, address: Bytes, data: Bytes,
                                                  sorted: seq<Transaction>,
                                                  b: Block, now: int)
    requires Linked(c) && TipInRange(c) && Filled(k, c, address, data, sorted, b) && ProofOfWork.Mined(k.sha, b)
    requires forall t :: 0 <= t < |sorted| ==> !sorted[t].IsCoinbase() && BlockCodec.EncodableTx(k.sha, sorted[t])
    requires BaseSize(b.txs[0]) <= MAX_BLOCK_SIZE
    requires NewToChain(c, b) && TimeAllowed(c, b, now)
    ensures var bytes, s := BlockCodec.Encode(b), Select(k, c, sorted, BaseSize(b.txs[0]));
            && |bytes| == s.size && BlockCodec.Decode(k.sha, bytes) == Ok(b)
            && |b.txs[0].vout| == 1 && b.txs[0].vout[0].value == Subsidy(|c|) + s.fees
            && b.txs[0].vout[0].pubKeyHash == Wallet.Locked(address).value
            && b.txs[0].vin == [TxIn([], -1, [], data)]
            && Judge(k, c, b, |bytes|, now) == if NoRepeat(BlockPoints(b.txs)) then Accept else Penalise
  {
    hide Linked, Select, T.Encode, Check, Subsidy, Wallet.Locked, NextBits, Judge, NoRepeat, BlockPoints,
      ProofOfWork.Mined,
      BlockCodec.Encode, BlockCodec.Decode, NewToChain, TimeAllowed, T.Encodable, T.Sealed;
    var cb, base := b.txs[0], BaseSize(b.txs[0]);
    var s := Select(k, c, sorted, base);
    SelectIs(k, c, sorted, base);
    CoinbaseEncodable(k.sha, Wallet.Locked(address).value, data, Subsidy(|c|) + s.fees);
    forall t | 0 <= t < |b.txs| ensures BlockCodec.EncodableTx(k.sha, b.txs[t]) {
      if t > 0 {
        assert b.txs[t] == s.txs[t - 1];
      }
    }
    MinedBlockTravels(k, c, sorted, base, cb, s, b);
    MinedBlockAccepted(k, c, sorted, base, cb, s, b, now);
  }

  lemma {:induction false} CoinbaseEncodable(sha: Sha256, pubKeyHash: Bytes, data: Bytes, reward: Amount)
    requires BaseSize(Coinbase(sha, pubKeyHash, data, reward)) <= MAX_BLOCK_SIZE
    ensures BlockCodec.EncodableTx(sha, Coinbase(sha, pubKeyHash, data, reward))
    ensures Coinbase(sha, pubKeyHash, data, reward).IsCoinbase()
  {
    CoinbaseSize(sha, pubKeyHash, data, reward);
    hide T.Encode, T.Sealed;
  }
}

/**
 * The supply of coins: the value of the unspent-output index along runs of accepted blocks
 * (`include/config.h`, `src/node.cpp`, `src/transaction.cpp`, `src/utxoSet.cpp`).
 */
module Supply {
  import opened Base
  import opened Ledger
  import opened ChainModel
  import opened Sums
  import opened UtxoIndex
  import opened UtxoUpdate
  import opened Validation

  // ---------------------------------------------------------------- the value of an index

  /** Every unspent output with its value. */
  type Coins = map<Outpoint, nat>

  function Flat(utxo: Index): Coins {
    map id, i | id in utxo && i in utxo[id].outputs :: Outpoint(id, i) := utxo[id].outputs[i].value
  }

  ghost function Total(utxo: Index): nat {
    Sum(Flat(utxo))
  }

  // ---------------------------------------------------------------- what a block adds and removes

  /** The first `n` outputs of a transaction, as coins. */
  function Outs(tx: Transaction, n: nat): Coins
    requires n <= |tx.vout|
  {
    if n == 0 then map[] else Outs(tx, n - 1)[Outpoint(tx.id, n - 1) := tx.vout[n - 1].value]
  }

  lemma {:induction false} OutsLookup(tx: Transaction, n: nat, o: Outpoint)
    requires n <= |tx.vout|
    ensures o in Outs(tx, n) <==> o.txid == tx.id && 0 <= o.vout < n
    ensures o in Outs(tx, n) ==> Outs(tx, n)[o] == tx.vout[o.vout].value
  {
    if n > 0 {
      OutsLookup(tx, n - 1, o);
    }
  }

  lemma {:induction false} SumOuts(coins: Coins, tx: Transaction, n: nat)
    requires n <= |tx.vout| && forall o :: o in coins ==> o.txid != tx.id
    ensures Sum(coins + Outs(tx, n)) == Sum(coins) + OutputSum(tx.vout[..n])
  {
    if n == 0 {
      assert coins + map[] == coins;
    } else {
      var o := Outpoint(tx.id, n - 1);
      SumOuts(coins, tx, n - 1);
      OutsLookup(tx, n - 1, o);
      SumAdd(coins + Outs(tx, n - 1), o, tx.vout[n - 1].value);
      assert coins + Outs(tx, n) == (coins + Outs(tx, n - 1))[o := tx.vout[n - 1].value];
      assert tx.vout[..n][..n - 1] == tx.vout[..n - 1];
    }
  }

  lemma {:induction false} FlatAdd(utxo: Index, tx: Transaction, height: int)
    requires tx.id !in utxo && |tx.vout| <= TWO_31
    ensures Flat(utxo[tx.id := Full(tx, height)]) == Flat(utxo) + Outs(tx, |tx.vout|)
  {
    hide Outs, Full, Flat;
    var grown, all := utxo[tx.id := Full(tx, height)], Flat(utxo) + Outs(tx, |tx.vout|);
    forall o: Outpoint
      ensures o in Flat(grown) <==> o in all
      ensures o in all ==> Flat(grown)[o] == all[o]
    {
      OutsLookup(tx, |tx.vout|, o);
      FlatAt(grown, o);
      FlatAt(utxo, o);
      FullAt(tx, height, o.vout);
    }
  }

  lemma {:induction false} FlatAt(utxo: Index, o: Outpoint)
    ensures o in Flat(utxo) <==> o.txid in utxo && o.vout in utxo[o.txid].outputs
    ensures o in Flat(utxo) ==> Flat(utxo)[o] == utxo[o.txid].outputs[o.vout].value
  {
    assert o == Outpoint(o.txid, o.vout);
  }

  lemma {:induction false} FullAt(tx: Transaction, height: int, i: int)
    requires |tx.vout| <= TWO_31
    ensures i in Full(tx, height).outputs <==> 0 <= i < |tx.vout|
    ensures i in Full(tx, height).outputs ==> Full(tx, height).outputs[i] == tx.vout[i]
  {
  }

  function AllOutputs(txs: seq<Transaction>): nat {
    if txs == [] then 0 else AllOutputs(txs[..|txs| - 1]) + OutputSum(txs[|txs| - 1].vout)
  }

  /** Storing the transactions of a block adds exactly the sum of their outputs. */
  lemma {:induction false} StoredTotal(utxo: Index, txs: seq<Transaction>, height: int)
    requires Shaped(txs) && Fits(txs) && utxo.Keys !! TxIds(txs)
    ensures Total(utxo + Stored(Events(txs), height)) == Total(utxo) + AllOutputs(txs)
    decreases |txs|, 1
  {
    if txs == [] {
      assert utxo + map[] == utxo;
    } else {
      StoredTotalStep(utxo, txs, height);
    }
  }

  lemma {:induction false} StoredTotalStep(utxo: Index, txs: seq<Transaction>, height: int)
    requires txs != [] && Shaped(txs) && Fits(txs) && utxo.Keys !! TxIds(txs)
    ensures Total(utxo + Stored(Events(txs), height)) == Total(utxo) + AllOutputs(txs)
    decreases |txs|, 0
  {
    hide Stored, Events, Creates, Shaped, Full, Flat;
    var init, last := txs[..|txs| - 1], txs[|txs| - 1];
    ShapedInit(txs);
    TxIdsSnoc(txs);
    EventsSnoc(txs, height);
    EventsCreate(init, height);
    StoredTotal(utxo, init, height);
    var before := utxo + Stored(Events(init), height);
    assert utxo + Stored(Events(txs), height) == before[last.id := Full(last, height)];
    FlatAdd(before, last, height);
    FlatIds(before);
    SumOuts(Flat(before), last, |last.vout|);
    assert last.vout[..|last.vout|] == last.vout;
  }

  lemma {:induction false} FlatIds(utxo: Index)
    ensures forall o :: o in Flat(utxo) ==> o.txid in utxo
  {
  }

  // ---------------------------------------------------------------- what inputs are worth

  /** The sum the inputs of a transaction draw from these coins; an input that names none of them draws nothing. */
  function Drawn(coins: Coins, vin: seq<TxIn>): nat {
    if vin == [] then 0
    else var o := Spent(vin[|vin| - 1]); Drawn(coins, vin[..|vin| - 1]) + if o in coins then coins[o] else 0
  }

  /** What an input that names none of these coins is credited with all the same. */
  function DeadAt(coins: Coins, prevs: Context, i: TxIn): nat {
    if Spent(i) in coins then 0
    else match PrevOut(prevs, i)
      case Throws => 0
      case Ok(out) => out.value
  }

  function DrawnDead(coins: Coins, prevs: Context, vin: seq<TxIn>): nat {
    if vin == [] then 0 else DrawnDead(coins, prevs, vin[..|vin| - 1]) + DeadAt(coins, prevs, vin[|vin| - 1])
  }

  /** Spending distinct outputs removes exactly what they draw. */
  lemma {:induction false} SpendRemoves(coins: Coins, spent: set<Outpoint>, vin: seq<TxIn>)
    requires SpendAll(spent, vin).Some?
    ensures Sum(coins - SpendAll(spent, vin).value) + Drawn(coins, vin) == Sum(coins - spent)
  {
    hide Sum;
    if vin != [] {
      var init, o := vin[..|vin| - 1], Spent(vin[|vin| - 1]);
      SpendRemoves(coins, spent, init);
      RemoveOne(coins, SpendAll(spent, init).value, o);
    }
  }

  lemma {:induction false} RemoveOne(coins: Coins, s: set<Outpoint>, o: Outpoint)
    requires o !in s
    ensures Sum(coins - (s + {o})) + (if o in coins then coins[o] else 0) == Sum(coins - s)
  {
    hide Sum;
    assert coins - (s + {o}) == coins - s - {o};
    if o in coins {
      SumRemove(coins - s, o);
    } else {
      assert coins - s - {o} == coins - s;
    }
  }

  /** The index says of every output what the chain says. */
  ghost predicate Matches(utxo: Index, c: seq<Block>) {
    forall id :: id in utxo ==> MatchesAt(utxo[id], c, id)
  }

  ghost predicate MatchesAt(outs: TXOutputs, c: seq<Block>, id: Bytes) {
    && FindTx(c, id).Some?
    && var (tx, height) := FindTx(c, id).value;
       outs.isCoinbase == tx.IsCoinbase() && outs.blockHeight == height && Agrees(outs, tx)
  }

  /** The outputs an entry keeps are those of the transaction. */
  ghost predicate Agrees(outs: TXOutputs, tx: Transaction) {
    forall i :: i in outs.outputs ==> 0 <= i < |tx.vout| && outs.outputs[i] == tx.vout[i]
  }

  /** Wherever validation finds a transaction the index has an entry for, it finds the outputs of that entry. */
  ghost predicate Speaks(utxo: Index, c: seq<Block>, txs: seq<Transaction>) {
    && (forall id :: id in utxo && FindTx(c, id).Some? ==> Agrees(utxo[id], FindTx(c, id).value.0))
    && (forall t :: 0 <= t < |txs| && txs[t].id in utxo ==> Agrees(utxo[txs[t].id], txs[t]))
  }

  ghost predicate SpeaksIn(utxo: Index, ctx: Context) {
    forall id :: id in utxo && id in ctx ==> Agrees(utxo[id], ctx[id])
  }

  lemma {:induction false} MatchesFind(utxo: Index, c: seq<Block>, id: Bytes)
    requires Matches(utxo, c) && id in utxo
    ensures FindTx(c, id).Some? && Agrees(utxo[id], FindTx(c, id).value.0)
  {
    assert MatchesAt(utxo[id], c, id);
  }

  lemma {:induction false} MatchesSpeaks(utxo: Index, c: seq<Block>, txs: seq<Transaction>)
    requires Matches(utxo, c) && utxo.Keys !! TxIds(txs)
    ensures Speaks(utxo, c, txs)
  {
    hide FindTx, Agrees, Matches;
    forall id | id in utxo && FindTx(c, id).Some? ensures Agrees(utxo[id], FindTx(c, id).value.0) {
      MatchesFind(utxo, c, id);
    }
    forall t | 0 <= t < |txs| ensures txs[t].id in TxIds(txs) {
    }
  }

  predicate FromChain(c: seq<Block>, prevs: Context, id: Bytes) {
    id in prevs && FindTx(c, id).Some? && prevs[id] == FindTx(c, id).value.0
  }

  /** Sums over previous transactions are sums over the index, for live inputs. */
  lemma {:induction false} InputSumIs(utxo: Index, prevs: Context, vin: seq<TxIn>)
    requires forall i :: 0 <= i < |vin| ==> Spent(vin[i]) in Flat(utxo)
    requires forall i :: 0 <= i < |vin| ==> vin[i].txid in prevs
    requires forall i :: 0 <= i < |vin| && vin[i].txid in utxo ==> Agrees(utxo[vin[i].txid], prevs[vin[i].txid])
    ensures InputSum(vin, prevs) == Ok(Drawn(Flat(utxo), vin))
  {
    hide Flat;
    if vin != [] {
      var init, last := vin[..|vin| - 1], vin[|vin| - 1];
      InputSumIs(utxo, prevs, init);
      FlatAt(utxo, Spent(last));
    }
  }

  /** In general, sums over previous transactions are what is drawn from the index and what is not. */
  lemma {:induction false} InputSumSplit(utxo: Index, prevs: Context, vin: seq<TxIn>)
    requires InputSum(vin, prevs).Ok? && SpeaksIn(utxo, prevs)
    ensures InputSum(vin, prevs).value == Drawn(Flat(utxo), vin) + DrawnDead(Flat(utxo), prevs, vin)
  {
    hide Flat;
    if vin != [] {
      var init, last := vin[..|vin| - 1], vin[|vin| - 1];
      InputSumSplit(utxo, prevs, init);
      FlatAt(utxo, Spent(last));
    }
  }

  lemma {:induction false} LiveDrawsNothingDead(coins: Coins, prevs: Context, vin: seq<TxIn>)
    requires forall i :: 0 <= i < |vin| ==> Spent(vin[i]) in coins
    ensures DrawnDead(coins, prevs, vin) == 0
  {
    if vin != [] {
      LiveDrawsNothingDead(coins, prevs, vin[..|vin| - 1]);
    }
  }

  // ---------------------------------------------------------------- one block

  /** What the transactions of a block other than its coinbases pay out. */
  function PaidOut(txs: seq<Transaction>): nat {
    if txs == [] then 0
    else var last := txs[|txs| - 1]; PaidOut(txs[..|txs| - 1]) + if last.IsCoinbase() then 0 else OutputSum(last.vout)
  }

  ghost predicate PointsLive(coins: Coins, txs: seq<Transaction>) {
    forall o :: o in BlockPoints(txs) ==> o in coins
  }

  /** The previous transactions that checking a transaction in a block has to hand. */
  function PrevsOf(c: seq<Block>, ctx: Context, vin: seq<TxIn>): Context {
    match Gather(c, ctx, |c|, vin)
    case Prevs(prevs) => prevs
    case _ => map[]
  }

  /** The fee of a transaction that passes: what it draws from the index and beside it, less what it pays out. */
  lemma {:induction false} FeeOfAny(k: Crypto, c: seq<Block>, utxo: Index, ctx: Context, tx: Transaction)
    requires Speaks(utxo, c, []) && SpeaksIn(utxo, ctx) && !tx.IsCoinbase() && CheckInBlock(k, c, ctx, tx).Fee?
    ensures InputSum(tx.vin, PrevsOf(c, ctx, tx.vin)) ==
      Ok(Drawn(Flat(utxo), tx.vin) + DrawnDead(Flat(utxo), PrevsOf(c, ctx, tx.vin), tx.vin))
    ensures CheckInBlock(k, c, ctx, tx).fee ==
      Drawn(Flat(utxo), tx.vin) + DrawnDead(Flat(utxo), PrevsOf(c, ctx, tx.vin), tx.vin) - OutputSum(tx.vout) >= 0
  {
    hide VerifySignatures, Agrees, Flat, FindTx;
    GatherSound(c, ctx, |c|, tx.vin);
    InputSumSplit(utxo, PrevsOf(c, ctx, tx.vin), tx.vin);
  }

  /** What one transaction of a block draws beside the index, after those before it. */
  function DeadOf(k: Crypto, c: seq<Block>, coins: Coins, before: Progress, tx: Transaction): nat {
    if tx.IsCoinbase() || before.Stopped? then 0 else DrawnDead(coins, PrevsOf(c, before.ctx, tx.vin), tx.vin)
  }

  /** What the transactions of a block draw beside the index: from outputs spent before, or created in the block. */
  function DeadDrawn(k: Crypto, c: seq<Block>, coins: Coins, txs: seq<Transaction>): nat {
    if txs == [] then 0
    else
      var init := txs[..|txs| - 1];
      DeadDrawn(k, c, coins, init) + DeadOf(k, c, coins, RunTxs(k, c, init), txs[|txs| - 1])
  }

  lemma {:induction false} PointsAre(vin: seq<TxIn>)
    ensures forall i :: 0 <= i < |vin| ==> Points(vin)[i] == Spent(vin[i])
  {
    if vin != [] {
      PointsAre(vin[..|vin| - 1]);
    }
  }

  /** What the loop over a block's transactions has accumulated, if `dead` is drawn beside the index. */
  ghost predicate Accounts(utxo: Index, p: Progress, txs: seq<Transaction>, dead: nat) {
    && p.Going? && SpeaksIn(utxo, p.ctx)
    && NoRepeat(BlockPoints(txs)) && p.spent == Elements(BlockPoints(txs))
    && Sum(Flat(utxo) - p.spent) + p.fees + PaidOut(txs) == Sum(Flat(utxo)) + dead
  }

  lemma {:induction false} FeesOfBlock(k: Crypto, c: seq<Block>, utxo: Index, txs: seq<Transaction>)
    requires Speaks(utxo, c, txs) && RunTxs(k, c, txs).Going?
    ensures Accounts(utxo, RunTxs(k, c, txs), txs, DeadDrawn(k, c, Flat(utxo), txs))
    decreases |txs|, 1
  {
    hide Flat, Speaks, NoRepeat, Elements, Sum;
    if txs == [] {
      NothingSpent(Flat(utxo));
    } else {
      FeesOfBlockStep(k, c, utxo, txs);
    }
  }

  lemma {:induction false} NothingSpent(coins: Coins)
    ensures NoRepeat([]) && Elements([]) == {} && coins - {} == coins
  {
  }

  lemma {:induction false} FeesOfBlockStep(k: Crypto, c: seq<Block>, utxo: Index, txs: seq<Transaction>)
    requires txs != [] && Speaks(utxo, c, txs) && RunTxs(k, c, txs).Going?
    ensures Accounts(utxo, RunTxs(k, c, txs), txs, DeadDrawn(k, c, Flat(utxo), txs))
    decreases |txs|, 0
  {
    hide NoRepeat, Elements, CheckInBlock, Flat, Agrees, FindTx, Sum, Accounts, StepTx, Speaks, DrawnDead, PrevsOf;
    SpeaksPart(utxo, c, txs);
    var init, last := txs[..|txs| - 1], txs[|txs| - 1];
    var before, dead := RunTxs(k, c, init), DeadDrawn(k, c, Flat(utxo), init);
    StoppedIsStopped(k, c, before, last);
    FeesOfBlock(k, c, utxo, init);
    if last.IsCoinbase() {
      AccountsCoinbase(k, c, utxo, before, init, last, dead);
    } else {
      AccountsMore(k, c, utxo, before, init, last, dead);
    }
    assert init + [last] == txs;
  }

  lemma {:induction false} SpeaksPart(utxo: Index, c: seq<Block>, txs: seq<Transaction>)
    requires txs != [] && Speaks(utxo, c, txs)
    ensures Speaks(utxo, c, txs[..|txs| - 1]) && Speaks(utxo, c, [])
    ensures var last := txs[|txs| - 1]; last.id in utxo ==> Agrees(utxo[last.id], last)
  {
    hide FindTx, Agrees;
  }

  lemma {:induction false} LivePart(coins: Coins, txs: seq<Transaction>)
    requires txs != [] && PointsLive(coins, txs)
    ensures PointsLive(coins, txs[..|txs| - 1])
    ensures var last := txs[|txs| - 1];
            !last.IsCoinbase() ==> forall i :: 0 <= i < |last.vin| ==> Spent(last.vin[i]) in coins
  {
    var last := txs[|txs| - 1];
    PointsAre(last.vin);
    if !last.IsCoinbase() {
      forall i | 0 <= i < |last.vin| ensures Spent(last.vin[i]) in coins {
        assert Points(last.vin)[i] in BlockPoints(txs);
      }
    }
  }

  lemma {:induction false} LivePointsDrawNothingDead(k: Crypto, c: seq<Block>, coins: Coins, txs: seq<Transaction>)
    requires PointsLive(coins, txs)
    ensures DeadDrawn(k, c, coins, txs) == 0
  {
    hide PointsLive, PrevsOf, RunTxs;
    if txs != [] {
      LivePart(coins, txs);
      var init, last := txs[..|txs| - 1], txs[|txs| - 1];
      LivePointsDrawNothingDead(k, c, coins, init);
      if !last.IsCoinbase() && RunTxs(k, c, init).Going? {
        LiveDrawsNothingDead(coins, PrevsOf(c, RunTxs(k, c, init).ctx, last.vin), last.vin);
      }
    }
  }

  /** Live inputs draw nothing beside the index. */
  lemma {:induction false} NothingDead(k: Crypto, c: seq<Block>, utxo: Index, txs: seq<Transaction>)
    requires AllLive(utxo, Spends(txs))
    ensures DeadDrawn(k, c, Flat(utxo), txs) == 0
  {
    hide Flat, Spends, BlockPoints, DeadDrawn;
    SpendsArePoints(txs);
    forall o | o in BlockPoints(txs) ensures o in Flat(utxo) {
      ElementsMember(BlockPoints(txs), o);
      FlatAt(utxo, o);
    }
    LivePointsDrawNothingDead(k, c, Flat(utxo), txs);
  }

  lemma {:induction false} StoppedIsStopped(k: Crypto, c: seq<Block>, p: Progress, tx: Transaction)
    requires StepTx(k, c, p, tx).Going?
    ensures p.Going?
  {
  }

  lemma {:induction false} AccountsCoinbase(k: Crypto, c: seq<Block>, utxo: Index, p: Progress,
                                            init: seq<Transaction>, tx: Transaction, dead: nat)
    requires Accounts(utxo, p, init, dead) && tx.IsCoinbase() && (tx.id in utxo ==> Agrees(utxo[tx.id], tx))
    ensures Accounts(utxo, StepTx(k, c, p, tx), init + [tx], dead)
  {
    hide NoRepeat, Elements, Flat, Agrees, Sum, StepTx, BlockPoints, PaidOut;
    CoinbaseStep(k, c, p, tx);
    CoinbaseAddsNothing(init, tx);
  }

  lemma {:induction false} CoinbaseStep(k: Crypto, c: seq<Block>, p: Progress, tx: Transaction)
    requires p.Going? && tx.IsCoinbase()
    ensures StepTx(k, c, p, tx) == Going(p.ctx[tx.id := tx], p.spent, p.fees)
  {
  }

  lemma {:induction false} CoinbaseAddsNothing(init: seq<Transaction>, tx: Transaction)
    requires tx.IsCoinbase()
    ensures BlockPoints(init + [tx]) == BlockPoints(init) && PaidOut(init + [tx]) == PaidOut(init)
  {
    assert (init + [tx])[..|init|] == init;
    assert BlockPoints(init) + [] == BlockPoints(init);
  }

  lemma {:induction false} AccountsMore(k: Crypto, c: seq<Block>, utxo: Index, p: Progress, init: seq<Transaction>,
                                        tx: Transaction, dead: nat)
    requires Accounts(utxo, p, init, dead) && !tx.IsCoinbase() && (tx.id in utxo ==> Agrees(utxo[tx.id], tx))
    requires Speaks(utxo, c, []) && StepTx(k, c, p, tx).Going?
    ensures Accounts(utxo, StepTx(k, c, p, tx), init + [tx], dead + DeadOf(k, c, Flat(utxo), p, tx))
  {
    hide NoRepeat, Elements, CheckInBlock, Flat, Agrees, Sum, Speaks, SpendAll, Drawn, DrawnDead, PrevsOf;
    assert (init + [tx])[..|init|] == init;
    SpendAllIs(BlockPoints(init), tx.vin);
    FeeOfAny(k, c, utxo, p.ctx, tx);
    SpendRemoves(Flat(utxo), p.spent, tx.vin);
  }

  lemma {:induction false} SpendsArePoints(txs: seq<Transaction>)
    ensures Spends(txs) == Elements(BlockPoints(txs))
  {
    if txs != [] {
      var init, last := txs[..|txs| - 1], txs[|txs| - 1];
      SpendsArePoints(init);
      PointsAre(last.vin);
      forall o: Outpoint ensures o in SpendsOf(last) <==> o in (if last.IsCoinbase() then [] else Points(last.vin)) {
        if !last.IsCoinbase() && o in SpendsOf(last) {
          var i :| 0 <= i < |last.vin| && Spent(last.vin[i]) == o;
          assert Points(last.vin)[i] == o;
        }
      }
    }
  }

  /** The coins a block spends and the update leaves: another input names the same transaction after them. */
  ghost function Lost(utxo: Index, txs: seq<Transaction>): Coins {
    map o | o in Flat(utxo) && o in Spends(txs) && LastNamed(Events(txs), o.txid) != Some(o.vout) :: Flat(utxo)[o]
  }

  /** The coins the update leaves are the ones not spent, and the ones whose spend is lost. */
  lemma {:induction false} FlatSurvivors(utxo: Index, txs: seq<Transaction>)
    ensures Flat(Survivors(utxo, Events(txs))) == (Flat(utxo) - Spends(txs)) + Lost(utxo, txs)
  {
    hide Flat, Spends, Survivors, Events, LastNamed;
    var es := Events(txs);
    forall o: Outpoint
      ensures o in Flat(Survivors(utxo, es)) <==> o in Flat(utxo) && (o !in Spends(txs) || o in Lost(utxo, txs))
      ensures o in Flat(Survivors(utxo, es)) ==> Flat(Survivors(utxo, es))[o] == Flat(utxo)[o]
    {
      FlatAt(utxo, o);
      FlatAt(Survivors(utxo, es), o);
      SurvivesExactly(utxo, txs, o);
    }
  }

  /** An output survives unless it is the one named last for its transaction, and that one is spent. */
  lemma {:induction false} SurvivesExactly(utxo: Index, txs: seq<Transaction>, o: Outpoint)
    ensures var after, last := Survivors(utxo, Events(txs)), LastNamed(Events(txs), o.txid);
            && ((o.txid in after && o.vout in after[o.txid].outputs) <==>
                (o.txid in utxo && o.vout in utxo[o.txid].outputs && last != Some(o.vout)))
            && (o.txid in after && o.vout in after[o.txid].outputs ==>
                after[o.txid].outputs[o.vout] == utxo[o.txid].outputs[o.vout])
            && (last == Some(o.vout) ==> o in Spends(txs))
  {
    var es, last := Events(txs), LastNamed(Events(txs), o.txid);
    LastNamedIs(es, o.txid);
    EventsSpend(txs, o);
    if last.Some? && o.txid in utxo && o.vout in utxo[o.txid].outputs && o.vout != last.value {
      assert o.vout in Erase(utxo[o.txid], last.value).outputs;
    }
  }

  ghost predicate OnlyFirstCoinbase(txs: seq<Transaction>) {
    txs != [] && txs[0].IsCoinbase() && forall i :: 1 <= i < |txs| ==> !txs[i].IsCoinbase()
  }

  lemma {:induction false} PaidOutAndCoinbase(txs: seq<Transaction>)
    requires OnlyFirstCoinbase(txs)
    ensures AllOutputs(txs) == PaidOut(txs) + OutputSum(txs[0].vout)
  {
    if |txs| > 1 {
      PaidOutAndCoinbase(txs[..|txs| - 1]);
    } else {
      assert txs[..0] == [];
    }
  }

  lemma {:induction false} CheckedSumIs(vout: seq<TxOut>)
    requires CheckedSum(vout).Some?
    ensures CheckedSum(vout).value == OutputSum(vout)
  {
    if vout != [] {
      CheckedSumIs(vout[..|vout| - 1]);
    }
  }

  /** The part of the checks of `HandleBlock` that concerns values. */
  predicate ValuesPass(k: Crypto, c: seq<Block>, txs: seq<Transaction>) {
    && RunTxs(k, c, txs).Going?
    && txs != [] && CoinbaseOk(RunTxs(k, c, txs).fees, |c|, txs[0].vout)
  }

  lemma {:induction false} AcceptedPass(k: Crypto, c: seq<Block>, b: Block, size: nat, now: int)
    requires TipInRange(c) && Judge(k, c, b, size, now) == Accept
    ensures ValuesPass(k, c, b.txs) && OnlyFirstCoinbase(b.txs)
  {
    hide RunTxs, CoinbaseOk, AddOutcome;
  }

  ghost predicate GoodInputs(utxo: Index, txs: seq<Transaction>) {
    AllLive(utxo, Spends(txs)) && OneOutputPerTransaction(Spends(txs))
  }

  /** What any update does to the value of the index: the outputs come in, the coins whose spend is not lost go out. */
  lemma {:induction false} TotalAfter(utxo: Index, txs: seq<Transaction>, height: int)
    requires Shaped(txs) && Fits(txs) && utxo.Keys !! TxIds(txs)
    ensures Total(Update(utxo, txs, height)) == Sum(Flat(utxo) - Spends(txs)) + Sum(Lost(utxo, txs)) + AllOutputs(txs)
  {
    hide Shaped, Fits, TxIds, Survivors, Stored, Events, Flat, Sum, Spends;
    var es := Events(txs);
    FlatSurvivors(utxo, txs);
    SumUnion(Flat(utxo) - Spends(txs), Lost(utxo, txs));
    EventsCreate(txs, height);
    AfterBatch(utxo, es, height);
    SurvivorKeys(utxo, es);
    StoredTotal(Survivors(utxo, es), txs, height);
  }

  /**
   * Conservation: a block that passes adds to the index its coinbase less its fees, every coin whose spend is lost, and
   * whatever its inputs draw beside the index. Nothing is asked of its inputs.
   */
  lemma {:induction false} Conservation(k: Crypto, c: seq<Block>, utxo: Index, txs: seq<Transaction>)
    requires Matches(utxo, c) && Shaped(txs) && Fits(txs) && utxo.Keys !! TxIds(txs)
    requires RunTxs(k, c, txs).Going? && OnlyFirstCoinbase(txs)
    ensures Total(Update(utxo, txs, |c|)) == Total(utxo) + OutputSum(txs[0].vout) - RunTxs(k, c, txs).fees
      + Sum(Lost(utxo, txs)) + DeadDrawn(k, c, Flat(utxo), txs)
  {
    hide Matches, Shaped, Fits, TxIds, RunTxs, Flat, Sum, Spends, BlockPoints, NoRepeat, Update, Lost, DeadDrawn;
    SpendsArePoints(txs);
    MatchesSpeaks(utxo, c, txs);
    FeesOfBlock(k, c, utxo, txs);
    TotalAfter(utxo, txs, |c|);
    PaidOutAndCoinbase(txs);
  }

  /** So a block whose coinbase takes all it may adds no more than the subsidy exactly when nothing is lost or dead. */
  lemma {:induction false} GrowsBySubsidy(k: Crypto, c: seq<Block>, utxo: Index, txs: seq<Transaction>)
    requires Matches(utxo, c) && Shaped(txs) && Fits(txs) && utxo.Keys !! TxIds(txs)
    requires RunTxs(k, c, txs).Going? && OnlyFirstCoinbase(txs)
    requires OutputSum(txs[0].vout) == Subsidy(|c|) + RunTxs(k, c, txs).fees
    ensures Total(Update(utxo, txs, |c|)) <= Total(utxo) + Subsidy(|c|) <==>
      DeadDrawn(k, c, Flat(utxo), txs) + Sum(Lost(utxo, txs)) == 0
  {
    hide Matches, Shaped, Fits, TxIds, RunTxs, Flat, Sum, Update, Lost, DeadDrawn, Subsidy, OutputSum,
      OnlyFirstCoinbase;
    Conservation(k, c, utxo, txs);
  }

  /** If no earlier transaction is named in two ways, nothing is lost. */
  lemma {:induction false} NothingLost(utxo: Index, txs: seq<Transaction>)
    requires GoodInputs(utxo, txs)
    ensures Lost(utxo, txs) == map[] && Sum(Lost(utxo, txs)) == 0
  {
    hide Events, LastNamed, Spends, OneOutputPerTransaction, AllLive;
    LiveInputs(utxo, txs);
    forall o | o in Lost(utxo, txs) ensures false {
      FlatAt(utxo, o);
    }
    assert Lost(utxo, txs) == map[];
  }

  lemma {:induction false} SurvivorKeys(utxo: Index, es: seq<Event>)
    ensures Survivors(utxo, es).Keys <= utxo.Keys
  {
  }

  // ---------------------------------------------------------------- the index keeps matching the chain

  lemma {:induction false} StoredLookup(txs: seq<Transaction>, height: int, t: nat)
    requires Shaped(txs) && t < |txs|
    ensures var stored := Stored(Events(txs), height); txs[t].id in stored && stored[txs[t].id] == Full(txs[t], height)
  {
    hide Full;
    EventsSnoc(txs, height);
    ShapedInit(txs);
    if t < |txs| - 1 {
      StoredLookup(txs[..|txs| - 1], height, t);
    }
  }

  lemma {:induction false} FindInBlockAt(txs: seq<Transaction>, t: nat)
    requires Shaped(txs) && t < |txs|
    ensures FindInBlock(txs, txs[t].id) == Some(txs[t])
  {
    if t > 0 {
      FindInBlockAt(txs[1..], t - 1);
    }
  }

  lemma {:induction false} FindTxOlder(c: seq<Block>, b: Block, id: Bytes)
    requires id !in TxIds(b.txs)
    ensures FindTx(c + [b], id) == FindTx(c, id)
  {
    assert (c + [b])[..|c|] == c;
    FindInBlockIs(b.txs, id);
  }

  lemma {:induction false} FindTxNew(c: seq<Block>, b: Block, t: nat)
    requires Shaped(b.txs) && t < |b.txs|
    ensures FindTx(c + [b], b.txs[t].id) == Some((b.txs[t], |c|))
  {
    FindInBlockAt(b.txs, t);
  }

  lemma {:induction false} MatchedIds(utxo: Index, c: seq<Block>)
    requires Matches(utxo, c)
    ensures utxo.Keys <= Ids(c)
  {
    forall id | id in utxo ensures id in Ids(c) {
      assert MatchesAt(utxo[id], c, id);
      FindTxIs(c, id);
      var (tx, h) := FindTx(c, id).value;
      var t :| 0 <= t < |c[h].txs| && c[h].txs[t] == tx;
      IdAt(c, h, t);
    }
  }

  lemma {:induction false} MatchesStored(c: seq<Block>, b: Block, id: Bytes)
    requires Shaped(b.txs) && id in TxIds(b.txs)
    ensures var stored := Stored(Events(b.txs), |c|); id in stored && MatchesAt(stored[id], c + [b], id)
  {
    hide Stored, Events, Shaped, FindTx;
    var t :| 0 <= t < |b.txs| && b.txs[t].id == id;
    StoredLookup(b.txs, |c|, t);
    FindTxNew(c, b, t);
  }

  lemma {:induction false} MatchesOlder(outs: TXOutputs, left: TXOutputs, c: seq<Block>, b: Block, id: Bytes)
    requires MatchesAt(outs, c, id) && id !in TxIds(b.txs)
    requires left.outputs.Keys <= outs.outputs.Keys &&
             forall i :: i in left.outputs ==> left.outputs[i] == outs.outputs[i]
    requires left.isCoinbase == outs.isCoinbase && left.blockHeight == outs.blockHeight
    ensures MatchesAt(left, c + [b], id)
  {
    hide FindTx;
    FindTxOlder(c, b, id);
  }

  /** Updating the index for one more block keeps it in agreement with the chain. */
  lemma {:induction false} MatchesUpdate(utxo: Index, c: seq<Block>, b: Block)
    requires Matches(utxo, c) && Shaped(b.txs) && TxIds(b.txs) !! Ids(c)
    ensures Matches(Update(utxo, b.txs, |c|), c + [b])
  {
    hide Shaped, TxIds, Ids, Stored, Events, FindTx, LastNamed, MatchesAt, Batch, Write, Creates;
    var es, after := Events(b.txs), Update(utxo, b.txs, |c|);
    MatchedIds(utxo, c);
    EventsCreate(b.txs, |c|);
    AfterBatch(utxo, es, |c|);
    forall id | id in after ensures MatchesAt(after[id], c + [b], id) {
      if id in TxIds(b.txs) {
        MatchesStored(c, b, id);
      } else {
        MatchesOlder(utxo[id], after[id], c, b, id);
      }
    }
  }

  /** An index kept up to date along a well-shaped chain says of every output what the chain says. */
  lemma {:induction false} IncrementalMatches(c: seq<Block>)
    requires WellShaped(c)
    ensures Matches(Incremental(c), c)
  {
    hide Matches, Update, Shaped, TxIds, Ids;
    if c == [] {
      NothingMatches();
    } else {
      var init, last := c[..|c| - 1], Tip(c);
      IncrementalMatches(init);
      MatchesUpdate(Incremental(init), init, last);
      assert c == init + [last];
    }
  }

  lemma {:induction false} NothingMatches()
    ensures Matches(map[], [])
  {
  }
}

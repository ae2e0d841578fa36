/** Where each field stands in what is written, for the formats that other nodes read and the hashes they take. */
module Layouts {
  import opened Base
  import opened Ledger
  import opened Wire
  import BlockCodec
  import InvCodec
  import Merkle
  import OutputsCodec
  import T = TransactionCodec

  /** Numbers stand with the least significant byte first. */
  lemma {:induction false} LittleEnd(a: Byte, b: Byte, c: Byte, d: Byte)
    ensures Value([a, b, c, d]) == a + 0x100 * b + 0x1_0000 * c + 0x100_0000 * d
    ensures ReadU32([a, b, c, d], 0) == Ok(a + 0x100 * b + 0x1_0000 * c + 0x100_0000 * d)
  {
    assert [a, b, c, d][1..] == [b, c, d] && [b, c, d][1..] == [c, d] && [c, d][1..] == [d] && [d][1..] == [];
    assert Value([d]) == d + 256 * Value([]);
    assert Value([c, d]) == c + 0x100 * d;
    assert Value([b, c, d]) == b + 0x100 * c + 0x1_0000 * d;
    assert [a, b, c, d][0..4] == [a, b, c, d];
  }

  // ---------------------------------------------------------------- transactions

  /** Length and id, output index, length and signature, length and key. */
  lemma {:induction false} InputLayout(i: TxIn)
    requires T.EncodableIn(i)
    ensures var b, n, s := T.EncodeIn(i), |i.txid|, |i.signature|;
            && |b| == 16 + n + s + |i.pubKey|
            && ReadU32(b, 0) == Ok(n) && At(b, 4, i.txid) && ReadU32(b, 4 + n) == Ok(i.vout % TWO_32)
            && ReadU32(b, 8 + n) == Ok(s) && At(b, 12 + n, i.signature)
            && ReadU32(b, 12 + n + s) == Ok(|i.pubKey|) && At(b, 16 + n + s, i.pubKey)
  {
    hide U32, ReadU32, At;
    var b, n, s := T.EncodeIn(i), |i.txid|, |i.signature|;
    WholeAt(b);
    AtConcat(b, 0, T.Sized(i.txid), U32(i.vout) + (T.Sized(i.signature) + T.Sized(i.pubKey)));
    AtConcat(b, 4 + n, U32(i.vout), T.Sized(i.signature) + T.Sized(i.pubKey));
    AtConcat(b, 8 + n, T.Sized(i.signature), T.Sized(i.pubKey));
    AtConcat(b, 0, U32(n), i.txid);
    AtConcat(b, 8 + n, U32(s), i.signature);
    AtConcat(b, 12 + n + s, U32(|i.pubKey|), i.pubKey);
    ReadU32Of(b, 0, n);
    ReadU32Of(b, 4 + n, i.vout);
    ReadU32Of(b, 8 + n, s);
    ReadU32Of(b, 12 + n + s, |i.pubKey|);
  }

  /** The value, then the length and the lock. */
  lemma {:induction false} OutputLayout(o: TxOut)
    requires T.EncodableOut(o)
    ensures var b := T.EncodeOut(o);
            && |b| == 12 + |o.pubKeyHash| && ReadU64(b, 0) == Ok(o.value)
            && ReadU32(b, 8) == Ok(|o.pubKeyHash|) && At(b, 12, o.pubKeyHash)
  {
    hide U32, U64, ReadU32, ReadU64, At;
    var b := T.EncodeOut(o);
    WholeAt(b);
    AtConcat(b, 0, U64(o.value), T.Sized(o.pubKeyHash));
    AtConcat(b, 8, U32(|o.pubKeyHash|), o.pubKeyHash);
    ReadU64Of(b, 0, o.value);
    ReadU32Of(b, 8, |o.pubKeyHash|);
  }

  /** How many inputs, the inputs, how many outputs, the outputs. */
  lemma {:induction false} TransactionLayout(tx: Transaction)
    requires T.Encodable(tx)
    ensures var b, ins := T.Encode(tx), EncodeAll(T.EncodeIn, tx.vin);
            && ReadU32(b, 0) == Ok(|tx.vin|) && At(b, 4, ins)
            && ReadU32(b, 4 + |ins|) == Ok(|tx.vout|) && At(b, 8 + |ins|, EncodeAll(T.EncodeOut, tx.vout))
  {
    hide U32, ReadU32, EncodeAll, At;
    var b, ins, outs := T.Encode(tx), EncodeAll(T.EncodeIn, tx.vin), EncodeAll(T.EncodeOut, tx.vout);
    WholeAt(b);
    AtConcat(b, 0, U32(|tx.vin|), ins + (U32(|tx.vout|) + outs));
    AtConcat(b, 4, ins, U32(|tx.vout|) + outs);
    AtConcat(b, 4 + |ins|, U32(|tx.vout|), outs);
    ReadU32Of(b, 0, |tx.vin|);
    ReadU32Of(b, 4 + |ins|, |tx.vout|);
  }

  /** Items stand one after the other, in order. */
  lemma {:induction false} ItemLayout<A>(enc: A -> Bytes, xs: seq<A>, i: nat)
    requires i < |xs|
    ensures At(EncodeAll(enc, xs), |EncodeAll(enc, xs[..i])|, enc(xs[i]))
  {
    var last := |xs| - 1;
    if i < last {
      ItemLayout(enc, xs[..last], i);
      assert xs[..last][..i] == xs[..i];
    }
  }

  // ---------------------------------------------------------------- blocks

  /** Time, count, each transaction behind its length; then predecessor, hash, nonce and difficulty. */
  lemma {:induction false} BlockLayout(b: Block)
    requires |b.txs| <= MAX_BLOCK_TXS && |b.prev| == |b.hash| == 32
    ensures var data, n := BlockCodec.Encode(b), BlockCodec.BodySize(b.txs);
            && |data| == 84 + n && ReadU64(data, 0) == Ok(b.timestamp % TWO_64) && ReadU32(data, 8) == Ok(|b.txs|)
            && At(data, 12, EncodeAll(BlockCodec.EncodeSizedTx, b.txs))
            && At(data, 12 + n, b.prev) && At(data, 44 + n, b.hash)
            && ReadU32(data, 76 + n) == Ok(b.nonce % TWO_32) && ReadU32(data, 80 + n) == Ok(b.bits % TWO_32)
  {
    hide U32, U64, ReadU32, ReadU64, EncodeAll, At, T.Encode, BlockCodec.BodySize;
    var data, n, body := BlockCodec.Encode(b), BlockCodec.BodySize(b.txs), EncodeAll(BlockCodec.EncodeSizedTx, b.txs);
    var tail := b.prev + (b.hash + (U32(b.nonce) + U32(b.bits)));
    BlockCodec.BodySizeIs(b.txs);
    BlockCodec.EncodedSize(b);
    WholeAt(data);
    AtConcat(data, 0, U64(b.timestamp), U32(|b.txs|) + (body + tail));
    AtConcat(data, 8, U32(|b.txs|), body + tail);
    AtConcat(data, 12, body, tail);
    AtConcat(data, 12 + n, b.prev, b.hash + (U32(b.nonce) + U32(b.bits)));
    AtConcat(data, 44 + n, b.hash, U32(b.nonce) + U32(b.bits));
    AtConcat(data, 76 + n, U32(b.nonce), U32(b.bits));
    ReadU64Of(data, 0, b.timestamp);
    ReadU32Of(data, 8, |b.txs|);
    ReadU32Of(data, 76 + n, b.nonce);
    ReadU32Of(data, 80 + n, b.bits);
  }

  lemma {:induction false} SizedTransactionLayout(tx: Transaction)
    requires |T.Encode(tx)| < TWO_32
    ensures var b := BlockCodec.EncodeSizedTx(tx);
            |b| == 4 + |T.Encode(tx)| && ReadU32(b, 0) == Ok(|T.Encode(tx)|) && At(b, 4, T.Encode(tx))
  {
    hide U32, ReadU32, T.Encode, At;
    var b := BlockCodec.EncodeSizedTx(tx);
    WholeAt(b);
    AtConcat(b, 0, U32(|T.Encode(tx)|), T.Encode(tx));
    ReadU32Of(b, 0, |T.Encode(tx)|);
  }

  // ---------------------------------------------------------------- the index and inventories

  /** A coinbase flag, the height, how many outputs; each output stands behind its index. */
  lemma {:induction false} EntryLayout(outs: TXOutputs)
    requires OutputsCodec.Encodable(outs)
    ensures var b := OutputsCodec.Encode(outs);
            && |b| >= 9 && b[0] == (if outs.isCoinbase then 1 else 0)
            && ReadU32(b, 1) == Ok(outs.blockHeight % TWO_32) && ReadU32(b, 5) == Ok(|outs.outputs|)
            && At(b, 9, EncodeAll(OutputsCodec.EncodeItem, OutputsCodec.Items(outs)))
  {
    hide U32, ReadU32, EncodeAll, At, OutputsCodec.Items, OutputsCodec.Encodable, OutputsCodec.EncodeItem;
    OutputsCodec.HeightInRange(outs);
    var b, flag := OutputsCodec.Encode(outs), [if outs.isCoinbase then 1 else 0];
    var items := EncodeAll(OutputsCodec.EncodeItem, OutputsCodec.Items(outs));
    WholeAt(b);
    AtConcat(b, 0, flag, U32(outs.blockHeight) + (U32(|outs.outputs|) + items));
    AtConcat(b, 1, U32(outs.blockHeight), U32(|outs.outputs|) + items);
    AtConcat(b, 5, U32(|outs.outputs|), items);
    ReadU32Of(b, 1, outs.blockHeight);
    ReadU32Of(b, 5, |outs.outputs|);
  }

  /** Read back, only a flag of 1 marks a coinbase. */
  lemma {:induction false} EntryRead(data: Bytes)
    requires OutputsCodec.Decode(data).Ok?
    ensures |data| >= 9 && (OutputsCodec.Decode(data).value.isCoinbase <==> data[0] == 1)
    ensures ReadU32(data, 1) == Ok(OutputsCodec.Decode(data).value.blockHeight % TWO_32)
  {
    hide DecodeAll, Value;
    ReadU32Bytes(data, 1);
  }

  lemma {:induction false} IndexedOutputLayout(p: OutputsCodec.Item)
    ensures var b := OutputsCodec.EncodeItem(p); ReadU32(b, 0) == Ok(p.0 % TWO_32) && At(b, 4, T.EncodeOut(p.1))
  {
    hide U32, ReadU32, At, T.EncodeOut;
    var b := OutputsCodec.EncodeItem(p);
    WholeAt(b);
    AtConcat(b, 0, U32(p.0), T.EncodeOut(p.1));
    ReadU32Of(b, 0, p.0);
  }

  /** One byte for the count, then the items. */
  lemma {:induction false} InventoryLayout(items: seq<InvCodec.InvVector>)
    requires |items| <= 255
    ensures var b := InvCodec.Encode(items);
            |b| >= 1 && b[0] == |items| && At(b, 1, EncodeAll(InvCodec.EncodeItem, items))
  {
    hide EncodeAll, At, InvCodec.EncodeItem;
    var b := InvCodec.Encode(items);
    WholeAt(b);
    AtConcat(b, 0, [|items|], EncodeAll(InvCodec.EncodeItem, items));
  }

  /** An item is a code, 1 for a transaction and 2 for a block, and a hash behind its length. */
  lemma {:induction false} InventoryItemLayout(v: InvCodec.InvVector)
    requires |v.hash| < TWO_32
    ensures var b := InvCodec.EncodeItem(v);
            && ReadU32(b, 0) == Ok(if v.kind == InvCodec.Tx then 1 else if v.kind == InvCodec.Block then 2 else 0)
            && ReadU32(b, 4) == Ok(|v.hash|) && At(b, 8, v.hash)
  {
    hide U32, ReadU32, At;
    var b := InvCodec.EncodeItem(v);
    WholeAt(b);
    AtConcat(b, 0, U32(InvCodec.Code(v.kind)), T.Sized(v.hash));
    AtConcat(b, 4, U32(|v.hash|), v.hash);
    ReadU32Of(b, 0, InvCodec.Code(v.kind));
    ReadU32Of(b, 4, |v.hash|);
  }

  // ---------------------------------------------------------------- Merkle roots

  /** The root over one transaction hashes its id twice; over two, both in order; over three, the third stands twice. */
  lemma {:induction false} SmallRoots(sha: Sha256, a: Transaction, b: Transaction, c: Transaction)
    ensures var x, y, z := sha.Of(T.Encode(a)), sha.Of(T.Encode(b)), sha.Of(T.Encode(c));
            && Merkle.Root(sha, [a]).bytes == sha.Of(x + x) && Merkle.Root(sha, [a, b]).bytes == sha.Of(x + y)
            && Merkle.Root(sha, [a, b, c]).bytes == sha.Of(sha.Of(x + y) + sha.Of(z + z))
  {
    hide T.Encode, Merkle.Leaves, Merkle.Node;
    var x, y, z :=
      Merkle.Digest(sha.Of(T.Encode(a))), Merkle.Digest(sha.Of(T.Encode(b))), Merkle.Digest(sha.Of(T.Encode(c)));
    Merkle.LeafAt(sha, [a], 0);
    Merkle.LeafAt(sha, [a, b], 0);
    Merkle.LeafAt(sha, [a, b], 1);
    Merkle.LeafAt(sha, [a, b, c], 0);
    Merkle.LeafAt(sha, [a, b, c], 1);
    Merkle.LeafAt(sha, [a, b, c], 2);
    assert Merkle.Leaves(sha, [a]) == [x] && Merkle.Leaves(sha, [a, b]) == [x, y];
    assert Merkle.Leaves(sha, [a, b, c]) == [x, y, z] && Merkle.Pad([x, y, z]) == [x, y, z, z];
    RootOfTwo(sha, x, x);
    RootOfTwo(sha, x, y);
    RootOfFour(sha, x, y, z, z);
  }

  lemma {:induction false} RootOfTwo(sha: Sha256, x: Merkle.Digest, y: Merkle.Digest)
    ensures Merkle.RootFrom(sha, [x, y]).bytes == sha.Of(x.bytes + y.bytes)
  {
    Merkle.AboveUnfold(sha, [x, y]);
    assert Merkle.AfterPair([x, y]) == [];
    assert Merkle.Above(sha, [x, y]) == [Merkle.Node(sha, x, y)];
  }

  lemma {:induction false} RootOfFour(sha: Sha256, w: Merkle.Digest, x: Merkle.Digest, y: Merkle.Digest,
                                      z: Merkle.Digest)
    ensures Merkle.RootFrom(sha, [w, x, y, z]).bytes ==
      sha.Of(sha.Of(w.bytes + x.bytes) + sha.Of(y.bytes + z.bytes))
  {
    Merkle.AboveUnfold(sha, [w, x, y, z]);
    Merkle.AboveUnfold(sha, [y, z]);
    assert Merkle.AfterPair([w, x, y, z]) == [y, z] && Merkle.AfterPair([y, z]) == [];
    assert Merkle.Above(sha, [w, x, y, z]) == [Merkle.Node(sha, w, x), Merkle.Node(sha, y, z)];
    RootOfTwo(sha, Merkle.Node(sha, w, x), Merkle.Node(sha, y, z));
  }
}

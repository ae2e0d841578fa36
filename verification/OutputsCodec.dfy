/** Entries of the unspent-output index as bytes: `TXOutputs` in `src/transactionOutput.cpp`. */
module OutputsCodec {
  import opened Base
  import opened Wire
  import opened Ledger
  import T = TransactionCodec

  type Item = (Int32, TxOut)

  function EncodeItem(p: Item): Bytes {
    U32(p.0) + T.EncodeOut(p.1)
  }

  function DecodeItem(data: Bytes, offset: nat): Parse<Item> {
    match ReadU32(data, offset)
    case Throws => Malformed
    case Ok(origIdx) =>
      ReadU32Bytes(data, offset);
      match T.DecodeOut(data, offset + 4)
      case Malformed => Malformed
      case Parsed(out, n) => Parsed((ToInt32(origIdx), out), 4 + n)
  }

  predicate Encodable(outs: TXOutputs) {
    && -TWO_31 <= outs.blockHeight < TWO_31
    && |outs.outputs| < TWO_32
    && forall i :: i in outs.outputs ==> T.EncodableOut(outs.outputs[i])
  }

  /** The entries of a map, in the order of the given keys. */
  function Along(keys: seq<Int32>, outputs: map<Int32, TxOut>): (items: seq<Item>)
    requires forall i :: i in keys ==> i in outputs
    ensures |items| == |keys|
  {
    if keys == [] then []
    else var last := keys[|keys| - 1]; Along(keys[..|keys| - 1], outputs) + [(last, outputs[last])]
  }

  /** The entries of the map in the order it is walked. */
  function Items(outs: TXOutputs): (items: seq<Item>)
    requires Encodable(outs)
    ensures |items| == |outs.outputs|
  {
    Along(Ascending(outs.outputs.Keys), outs.outputs)
  }

  /** Filling a map item by item; a repeated index keeps its last output. */
  function Collect(items: seq<Item>): map<Int32, TxOut> {
    if items == [] then map[]
    else var last := items[|items| - 1]; Collect(items[..|items| - 1])[last.0 := last.1]
  }

  function Encode(outs: TXOutputs): Bytes
    requires Encodable(outs)
  {
    [if outs.isCoinbase then 1 else 0] +
      (U32(outs.blockHeight) + (U32(|outs.outputs|) + EncodeAll(EncodeItem, Items(outs))))
  }

  function Decode(data: Bytes): Result<TXOutputs> {
    if |data| < 9 then Throws
    else
      ReadU32Bytes(data, 1);
      var height, count := ReadU32(data, 1).value, ReadU32(data, 5).value;
      match DecodeAll(DecodeItem, data, 9, count)
      case Malformed => Throws
      case Parsed(items, _) => Ok(TXOutputs(Collect(items), data[0] == 1, ToInt32(height)))
  }

  lemma {:induction false} CollectAlong(keys: seq<Int32>, outputs: map<Int32, TxOut>)
    requires forall i :: i in keys ==> i in outputs
    ensures Collect(Along(keys, outputs)) == map i | i in keys :: outputs[i]
  {
    if keys != [] {
      var init, last := keys[..|keys| - 1], keys[|keys| - 1];
      CollectAlong(init, outputs);
      assert Along(keys, outputs)[..|keys| - 1] == Along(init, outputs);
      OneKeyMore(init, last, outputs);
      assert keys == init + [last];
    }
  }

  lemma {:induction false} OneKeyMore(keys: seq<Int32>, last: Int32, outputs: map<Int32, TxOut>)
    requires last in outputs && forall i :: i in keys ==> i in outputs
    ensures (map i | i in keys :: outputs[i])[last := outputs[last]] == map i | i in keys + [last] :: outputs[i]
  {
  }

  lemma {:induction false} ItemsCollect(outs: TXOutputs)
    requires Encodable(outs)
    ensures Collect(Items(outs)) == outs.outputs
    ensures forall k :: 0 <= k < |Items(outs)| ==> T.EncodableOut(Items(outs)[k].1)
  {
    var keys := Ascending(outs.outputs.Keys);
    CollectAlong(keys, outs.outputs);
    AlongEncodable(keys, outs.outputs);
  }

  lemma {:induction false} AlongEncodable(keys: seq<Int32>, outputs: map<Int32, TxOut>)
    requires forall i :: i in keys ==> i in outputs && T.EncodableOut(outputs[i])
    ensures forall k :: 0 <= k < |keys| ==> T.EncodableOut(Along(keys, outputs)[k].1)
  {
    if keys != [] {
      AlongEncodable(keys[..|keys| - 1], outputs);
    }
  }

  lemma {:induction false} ItemAt(data: Bytes, offset: nat, p: Item)
    requires T.EncodableOut(p.1) && At(data, offset, EncodeItem(p))
    ensures DecodeItem(data, offset) == Parsed(p, |EncodeItem(p)|)
  {
    hide U32, ReadU32, T.EncodeOut, T.DecodeOut;
    AtConcat(data, offset, U32(p.0), T.EncodeOut(p.1));
    ReadU32Of(data, offset, p.0);
    SignedCast32(p.0, 0);
    T.OutAt(data, offset + 4, p.1);
  }

  lemma {:induction false} ItemReadsBack(p: Item)
    requires T.EncodableOut(p.1)
    ensures ReadsBack(EncodeItem, DecodeItem, p)
  {
    hide EncodeItem, DecodeItem, At;
    forall data, offset: nat | At(data, offset, EncodeItem(p)) {
      ItemAt(data, offset, p);
    }
  }

  /** Round trip: the map, the coinbase flag and the height all come back. */
  lemma {:induction false} DecodeEncode(outs: TXOutputs)
    requires Encodable(outs)
    ensures Decode(Encode(outs)) == Ok(outs)
  {
    hide At, U32, ReadU32, EncodeAll, DecodeAll, EncodeItem, DecodeItem, Collect, Items, Encodable, T.EncodableOut;
    HeightInRange(outs);
    ItemsCollect(outs);
    var data, items := Encode(outs), Items(outs);
    var flag := [if outs.isCoinbase then 1 else 0];
    var rest := U32(|outs.outputs|) + EncodeAll(EncodeItem, items);
    assert At(data, 0, flag + (U32(outs.blockHeight) + rest)) by { WholeAt(data); }
    AtConcat(data, 0, flag, U32(outs.blockHeight) + rest);
    AtConcat(data, 1, U32(outs.blockHeight), rest);
    AtConcat(data, 5, U32(|outs.outputs|), EncodeAll(EncodeItem, items));
    ReadU32Of(data, 1, outs.blockHeight);
    SignedCast32(outs.blockHeight, 0);
    ReadU32Of(data, 5, |outs.outputs|);
    forall k | 0 <= k < |items| ensures ReadsBack(EncodeItem, DecodeItem, items[k]) {
      ItemReadsBack(items[k]);
    }
    ListReadsBack(EncodeItem, DecodeItem, items, data, 9);
  }

  lemma {:induction false} HeightInRange(outs: TXOutputs)
    requires Encodable(outs)
    ensures -TWO_31 <= outs.blockHeight < TWO_31 && |outs.outputs| < TWO_32
  {
  }

  method Serialize(outs: TXOutputs) returns (result: Bytes)
    requires Encodable(outs)
    ensures result == Encode(outs)
  {
    hide EncodeItem, EncodeAll, Items, Encodable, U32;
    result := [if outs.isCoinbase then 1 else 0];
    result := result + U32(outs.blockHeight);
    result := result + U32(|outs.outputs|);
    result := AppendAll(EncodeItem, Items(outs), result);
  }

  method Deserialize(data: Bytes) returns (r: Result<TXOutputs>)
    ensures r == Decode(data)
  {
    hide DecodeItem;
    if |data| < 9 { return Throws; }
    var height, count := ReadU32(data, 1), ReadU32(data, 5);
    if height.Throws? || count.Throws? { return Throws; }
    ReadU32Bytes(data, 1);
    var items := ParseAll(DecodeItem, data, 9, count.value);
    if items.Malformed? { return Throws; }
    var outputs: map<Int32, TxOut> := map[];
    for k := 0 to |items.value|
      invariant outputs == Collect(items.value[..k])
    {
      assert items.value[..k + 1][..k] == items.value[..k];
      outputs := outputs[items.value[k].0 := items.value[k].1];
    }
    assert items.value[..|items.value|] == items.value;
    return Ok(TXOutputs(outputs, data[0] == 1, ToInt32(height.value)));
  }
}

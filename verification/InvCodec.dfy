/** Inventory messages as bytes: `src/messageInv.cpp`. */
module InvCodec {
  import opened Base
  import opened Wire
  import T = TransactionCodec

  datatype InvType = Error | Tx | Block

  datatype InvVector = InvVector(kind: InvType, hash: Bytes)

  const MAX_INV := 255

  function Code(kind: InvType): nat {
    match kind case Error => 0 case Tx => 1 case Block => 2
  }

  function EncodeItem(v: InvVector): Bytes {
    U32(Code(v.kind)) + T.Sized(v.hash)
  }

  function DecodeItem(data: Bytes, offset: nat): Parse<InvVector> {
    match ReadU32(data, offset)
    case Throws => Malformed
    case Ok(raw) =>
      if raw > 2 then Malformed
      else match T.DecodeSized(data, offset + 4)
        case Malformed => Malformed
        case Parsed(hash, n) =>
          Parsed(InvVector(if raw == 0 then Error else if raw == 1 then Tx else Block, hash), 4 + n)
  }

  /** The constructor of a message: the count must fit one byte. */
  function New(inventory: seq<InvVector>): Result<seq<InvVector>> {
    if |inventory| > MAX_INV then Throws else Ok(inventory)
  }

  function Encode(inventory: seq<InvVector>): Bytes
    requires |inventory| <= MAX_INV
  {
    [|inventory|] + EncodeAll(EncodeItem, inventory)
  }

  function Decode(data: Bytes): Result<seq<InvVector>> {
    if data == [] then Throws
    else match DecodeAll(DecodeItem, data, 1, data[0])
      case Malformed => Throws
      case Parsed(inventory, _) => New(inventory)
  }

  lemma {:induction false} ItemAt(data: Bytes, offset: nat, v: InvVector)
    requires |v.hash| < TWO_32 && At(data, offset, EncodeItem(v))
    ensures DecodeItem(data, offset) == Parsed(v, |EncodeItem(v)|)
  {
    hide U32, ReadU32;
    AtConcat(data, offset, U32(Code(v.kind)), T.Sized(v.hash));
    ReadU32Of(data, offset, Code(v.kind));
    T.SizedReadsBack(data, offset + 4, v.hash);
  }

  lemma {:induction false} ItemCanonicalAt(data: Bytes, offset: nat)
    requires DecodeItem(data, offset).Parsed?
    ensures var r := DecodeItem(data, offset); At(data, offset, EncodeItem(r.value)) && r.size == |EncodeItem(r.value)|
  {
    hide U32, ReadU32;
    var v := DecodeItem(data, offset).value;
    ReadU32Bytes(data, offset);
    T.SizedCanonical(data, offset + 4);
    AtConcat(data, offset, U32(Code(v.kind)), T.Sized(v.hash));
  }

  /** Round trip, with any bytes after the message. */
  lemma {:induction false} DecodeEncode(inventory: seq<InvVector>, rest: Bytes)
    requires |inventory| <= MAX_INV
    requires forall i :: 0 <= i < |inventory| ==> |inventory[i].hash| < TWO_32
    ensures Decode(Encode(inventory) + rest) == Ok(inventory)
  {
    hide EncodeItem, DecodeItem, EncodeAll, DecodeAll;
    var data := Encode(inventory) + rest;
    assert At(data, 0, [|inventory|] + EncodeAll(EncodeItem, inventory));
    AtConcat(data, 0, [|inventory|], EncodeAll(EncodeItem, inventory));
    forall i | 0 <= i < |inventory| ensures ReadsBack(EncodeItem, DecodeItem, inventory[i]) {
      forall d, o: nat | At(d, o, EncodeItem(inventory[i])) {
        ItemAt(d, o, inventory[i]);
      }
    }
    ListReadsBack(EncodeItem, DecodeItem, inventory, data, 1);
  }

  /** Accepted bytes begin with the serialised form of the inventory read from them. */
  lemma {:induction false} EncodeDecode(data: Bytes)
    requires Decode(data).Ok?
    ensures |Decode(data).value| <= MAX_INV
    ensures Encode(Decode(data).value) <= data
  {
    hide EncodeItem, DecodeItem, EncodeAll, DecodeAll;
    var inventory := Decode(data).value;
    assert Canonical(EncodeItem, DecodeItem) by {
      forall d, o: nat | DecodeItem(d, o).Parsed? {
        ItemCanonicalAt(d, o);
      }
    }
    ListCanonical(EncodeItem, DecodeItem, data, 1, data[0]);
    AtConcat(data, 0, [data[0]], EncodeAll(EncodeItem, inventory));
    assert data[0..|Encode(inventory)|] == Encode(inventory);
  }

  method Serialize(inventory: seq<InvVector>) returns (result: Bytes)
    requires |inventory| <= MAX_INV
    ensures result == Encode(inventory)
  {
    result := AppendAll(EncodeItem, inventory, [|inventory|]);
  }

  method Deserialize(data: Bytes) returns (r: Result<seq<InvVector>>)
    ensures r == Decode(data)
  {
    if data == [] { return Throws; }
    var inventory := ParseAll(DecodeItem, data, 1, data[0]);
    if inventory.Malformed? { return Throws; }
    return New(inventory.value);
  }
}

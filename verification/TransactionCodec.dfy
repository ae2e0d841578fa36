/** Transactions as bytes: `src/transactionInput.cpp`, `src/transactionOutput.cpp`, `src/transaction.cpp`. */
module TransactionCodec {
  import opened Base
  import opened Wire
  import opened Ledger

  // ---------------------------------------------------------------- printers

  /** A length in 4 bytes, then the bytes themselves. */
  function Sized(b: Bytes): Bytes {
    U32(|b|) + b
  }

  function EncodeIn(i: TxIn): Bytes {
    Sized(i.txid) + (U32(i.vout) + (Sized(i.signature) + Sized(i.pubKey)))
  }

  function EncodeOut(o: TxOut): Bytes {
    U64(o.value) + Sized(o.pubKeyHash)
  }

  function Encode(tx: Transaction): (b: Bytes)
    ensures |b| >= 8
  {
    U32(|tx.vin|) + (EncodeAll(EncodeIn, tx.vin) + (U32(|tx.vout|) + EncodeAll(EncodeOut, tx.vout)))
  }

  // ---------------------------------------------------------------- parsers

  function DecodeSized(data: Bytes, offset: nat): Parse<Bytes> {
    match ReadU32(data, offset)
    case Throws => Malformed
    case Ok(n) =>
      if offset + 4 + n > |data| then Malformed else Parsed(data[offset + 4..offset + 4 + n], 4 + n)
  }

  function DecodeIn(data: Bytes, offset: nat): Parse<TxIn> {
    match DecodeSized(data, offset)
    case Malformed => Malformed
    case Parsed(txid, n1) =>
      match ReadU32(data, offset + n1)
      case Throws => Malformed
      case Ok(vout) =>
        ReadU32Bytes(data, offset + n1);
        match DecodeSized(data, offset + n1 + 4)
        case Malformed => Malformed
        case Parsed(signature, n2) =>
          match DecodeSized(data, offset + n1 + 4 + n2)
          case Malformed => Malformed
          case Parsed(pubKey, n3) => Parsed(TxIn(txid, ToInt32(vout), signature, pubKey), n1 + 4 + n2 + n3)
  }

  function DecodeOut(data: Bytes, offset: nat): Parse<TxOut> {
    match ReadU64(data, offset)
    case Throws => Malformed
    case Ok(value) =>
      if value >= TWO_63 then Malformed
      else match DecodeSized(data, offset + 8)
        case Malformed => Malformed
        case Parsed(pubKeyHash, n) => Parsed(TxOut(value, pubKeyHash), 8 + n)
  }

  /** Bytes after the last output are ignored, and the id is recomputed. */
  function Decode(sha: Sha256, data: Bytes): Result<Transaction> {
    if |data| < 8 then Throws
    else match ReadU32(data, 0)
      case Throws => Throws
      case Ok(vinSize) =>
        match DecodeAll(DecodeIn, data, 4, vinSize)
        case Malformed => Throws
        case Parsed(vin, n1) =>
          match ReadU32(data, 4 + n1)
          case Throws => Throws
          case Ok(voutSize) =>
            match DecodeAll(DecodeOut, data, 4 + n1 + 4, voutSize)
            case Malformed => Throws
            case Parsed(vout, n2) => Ok(WithId(sha, vin, vout))
  }

  function WithId(sha: Sha256, vin: seq<TxIn>, vout: seq<TxOut>): Transaction {
    Transaction(sha.Of(Encode(Transaction([], vin, vout))), vin, vout)
  }

  // ---------------------------------------------------------------- what fits the format

  predicate EncodableIn(i: TxIn) {
    |i.txid| < TWO_32 && |i.signature| < TWO_32 && |i.pubKey| < TWO_32
  }

  predicate EncodableOut(o: TxOut) {
    |o.pubKeyHash| < TWO_32
  }

  /** Every length fits the 4 bytes it is written in. */
  predicate Encodable(tx: Transaction) {
    && |tx.vin| < TWO_32 && (forall i :: 0 <= i < |tx.vin| ==> EncodableIn(tx.vin[i]))
    && |tx.vout| < TWO_32 && (forall i :: 0 <= i < |tx.vout| ==> EncodableOut(tx.vout[i]))
  }

  /** The id is the hash of the serialised form, as it is after `Deserialize`. */
  predicate Sealed(sha: Sha256, tx: Transaction) {
    tx.id == sha.Of(Encode(tx))
  }

  // ---------------------------------------------------------------- printing, then parsing

  lemma {:induction false} SizedReadsBack(data: Bytes, offset: nat, b: Bytes)
    requires At(data, offset, Sized(b)) && |b| < TWO_32
    ensures DecodeSized(data, offset) == Parsed(b, |Sized(b)|)
  {
    hide U32, U64, ReadU32, ReadU64;
    AtConcat(data, offset, U32(|b|), b);
    ReadU32Of(data, offset, |b|);
  }

  lemma {:induction false} InAt(data: Bytes, offset: nat, i: TxIn)
    requires At(data, offset, EncodeIn(i)) && EncodableIn(i)
    ensures DecodeIn(data, offset) == Parsed(i, |EncodeIn(i)|)
  {
    hide U32, U64, ReadU32, ReadU64;
    var n1, n2 := |Sized(i.txid)|, |Sized(i.signature)|;
    AtConcat(data, offset, Sized(i.txid), U32(i.vout) + (Sized(i.signature) + Sized(i.pubKey)));
    AtConcat(data, offset + n1, U32(i.vout), Sized(i.signature) + Sized(i.pubKey));
    AtConcat(data, offset + n1 + 4, Sized(i.signature), Sized(i.pubKey));
    SizedReadsBack(data, offset, i.txid);
    ReadU32Of(data, offset + n1, i.vout);
    SignedCast32(i.vout, 0);
    SizedReadsBack(data, offset + n1 + 4, i.signature);
    SizedReadsBack(data, offset + n1 + 4 + n2, i.pubKey);
  }

  lemma {:induction false} OutAt(data: Bytes, offset: nat, o: TxOut)
    requires At(data, offset, EncodeOut(o)) && EncodableOut(o)
    ensures DecodeOut(data, offset) == Parsed(o, |EncodeOut(o)|)
  {
    hide U32, U64, ReadU32, ReadU64;
    AtConcat(data, offset, U64(o.value), Sized(o.pubKeyHash));
    ReadU64Of(data, offset, o.value);
    SizedReadsBack(data, offset + 8, o.pubKeyHash);
  }

  lemma {:induction false} InReadsBack(i: TxIn)
    requires EncodableIn(i)
    ensures ReadsBack(EncodeIn, DecodeIn, i)
  {
    forall data, offset: nat | At(data, offset, EncodeIn(i)) {
      InAt(data, offset, i);
    }
  }

  lemma {:induction false} OutReadsBack(o: TxOut)
    requires EncodableOut(o)
    ensures ReadsBack(EncodeOut, DecodeOut, o)
  {
    forall data, offset: nat | At(data, offset, EncodeOut(o)) {
      OutAt(data, offset, o);
    }
  }

  lemma {:induction false} TransactionAt(tx: Transaction, data: Bytes)
    requires Encodable(tx) && At(data, 0, Encode(tx))
    ensures var n1, n2 := |EncodeAll(EncodeIn, tx.vin)|, |EncodeAll(EncodeOut, tx.vout)|;
            && ReadU32(data, 0) == Ok(|tx.vin|)
            && DecodeAll(DecodeIn, data, 4, |tx.vin|) == Parsed(tx.vin, n1)
            && ReadU32(data, 4 + n1) == Ok(|tx.vout|)
            && DecodeAll(DecodeOut, data, 4 + n1 + 4, |tx.vout|) == Parsed(tx.vout, n2)
  {
    hide At, ReadsBack, U32, ReadU32, EncodeAll, DecodeAll, EncodeIn, DecodeIn, EncodeOut, DecodeOut;
    var ins, outs := EncodeAll(EncodeIn, tx.vin), EncodeAll(EncodeOut, tx.vout);
    AtConcat(data, 0, U32(|tx.vin|), ins + (U32(|tx.vout|) + outs));
    AtConcat(data, 4, ins, U32(|tx.vout|) + outs);
    AtConcat(data, 4 + |ins|, U32(|tx.vout|), outs);
    ReadU32Of(data, 0, |tx.vin|);
    ReadU32Of(data, 4 + |ins|, |tx.vout|);
    forall i | 0 <= i < |tx.vin| ensures ReadsBack(EncodeIn, DecodeIn, tx.vin[i]) { InReadsBack(tx.vin[i]); }
    forall i | 0 <= i < |tx.vout| ensures ReadsBack(EncodeOut, DecodeOut, tx.vout[i]) { OutReadsBack(tx.vout[i]); }
    ListReadsBack(EncodeIn, DecodeIn, tx.vin, data, 4);
    ListReadsBack(EncodeOut, DecodeOut, tx.vout, data, 4 + |ins| + 4);
  }

  /** Round trip, with any bytes after the transaction. */
  lemma {:induction false} DecodeEncode(sha: Sha256, tx: Transaction, rest: Bytes)
    requires Encodable(tx) && Sealed(sha, tx)
    ensures Decode(sha, Encode(tx) + rest) == Ok(tx)
  {
    hide U32, ReadU32, EncodeAll, DecodeAll;
    assert At(Encode(tx) + rest, 0, Encode(tx));
    TransactionAt(tx, Encode(tx) + rest);
    IdIgnored(tx);
  }

  lemma {:induction false} IdIgnored(tx: Transaction)
    ensures Encode(Transaction([], tx.vin, tx.vout)) == Encode(tx)
  {
  }

  // ---------------------------------------------------------------- parsing, then printing

  lemma {:induction false} SizedCanonical(data: Bytes, offset: nat)
    requires DecodeSized(data, offset).Parsed?
    ensures var r := DecodeSized(data, offset);
            At(data, offset, Sized(r.value)) && r.size == |Sized(r.value)| && |r.value| < TWO_32
  {
    hide U32, U64, ReadU32, ReadU64;
    ReadU32Bytes(data, offset);
    var b := DecodeSized(data, offset).value;
    AtConcat(data, offset, U32(|b|), b);
  }

  lemma {:induction false} InCanonicalAt(data: Bytes, offset: nat)
    requires DecodeIn(data, offset).Parsed?
    ensures var r := DecodeIn(data, offset); At(data, offset, EncodeIn(r.value)) && r.size == |EncodeIn(r.value)|
  {
    hide U32, U64, ReadU32, ReadU64;
    var i := DecodeIn(data, offset).value;
    var n1, n2 := DecodeSized(data, offset).size, |Sized(i.signature)|;
    SizedCanonical(data, offset);
    ReadU32Bytes(data, offset + n1);
    SignedCast32(0, ReadU32(data, offset + n1).value);
    SizedCanonical(data, offset + n1 + 4);
    SizedCanonical(data, offset + n1 + 4 + n2);
    AtConcat(data, offset + n1 + 4, Sized(i.signature), Sized(i.pubKey));
    AtConcat(data, offset + n1, U32(i.vout), Sized(i.signature) + Sized(i.pubKey));
    AtConcat(data, offset, Sized(i.txid), U32(i.vout) + (Sized(i.signature) + Sized(i.pubKey)));
  }

  lemma {:induction false} OutCanonicalAt(data: Bytes, offset: nat)
    requires DecodeOut(data, offset).Parsed?
    ensures var r := DecodeOut(data, offset); At(data, offset, EncodeOut(r.value)) && r.size == |EncodeOut(r.value)|
  {
    hide U32, U64, ReadU32, ReadU64;
    var o := DecodeOut(data, offset).value;
    ReadU64Bytes(data, offset);
    SizedCanonical(data, offset + 8);
    AtConcat(data, offset, U64(o.value), Sized(o.pubKeyHash));
  }

  lemma {:induction false} InCanonical()
    ensures Canonical(EncodeIn, DecodeIn)
  {
    forall data, offset: nat | DecodeIn(data, offset).Parsed? {
      InCanonicalAt(data, offset);
    }
  }

  lemma {:induction false} OutCanonical()
    ensures Canonical(EncodeOut, DecodeOut)
  {
    forall data, offset: nat | DecodeOut(data, offset).Parsed? {
      OutCanonicalAt(data, offset);
    }
  }

  /** Accepted bytes begin with the serialised form of what was read from them. */
  lemma {:induction false} EncodeDecode(sha: Sha256, data: Bytes)
    requires Decode(sha, data).Ok?
    ensures Encode(Decode(sha, data).value) <= data
    ensures Sealed(sha, Decode(sha, data).value)
  {
    var tx := Decode(sha, data).value;
    var ins, outs := EncodeAll(EncodeIn, tx.vin), EncodeAll(EncodeOut, tx.vout);
    ReadU32Bytes(data, 0);
    InCanonical();
    ListCanonical(EncodeIn, DecodeIn, data, 4, |tx.vin|);
    ReadU32Bytes(data, 4 + |ins|);
    OutCanonical();
    ListCanonical(EncodeOut, DecodeOut, data, 4 + |ins| + 4, |tx.vout|);
    AtConcat(data, 4 + |ins|, U32(|tx.vout|), outs);
    AtConcat(data, 4, ins, U32(|tx.vout|) + outs);
    AtConcat(data, 0, U32(|tx.vin|), ins + (U32(|tx.vout|) + outs));
    assert data[0..|Encode(tx)|] == Encode(tx);
    IdIgnored(tx);
  }

  lemma {:induction false} OutputsTakeBytes(outs: seq<TxOut>)
    ensures |EncodeAll(EncodeOut, outs)| >= 12 * |outs|
  {
    hide U32, U64;
    if outs != [] {
      OutputsTakeBytes(outs[..|outs| - 1]);
    }
  }

  lemma {:induction false} EncodeCovers(tx: Transaction)
    ensures 12 * |tx.vout| <= |Encode(tx)|
  {
    hide U32;
    OutputsTakeBytes(tx.vout);
  }

  lemma {:induction false} DecodedIns(data: Bytes, offset: nat, n: nat)
    requires DecodeAll(DecodeIn, data, offset, n).Parsed?
    ensures var vin := DecodeAll(DecodeIn, data, offset, n).value; forall i :: 0 <= i < |vin| ==> EncodableIn(vin[i])
  {
    hide DecodeIn, EncodableIn;
    if n > 0 {
      DecodedIns(data, offset, n - 1);
      DecodedIn(data, offset + DecodeAll(DecodeIn, data, offset, n - 1).size);
    }
  }

  lemma {:induction false} DecodedSized(data: Bytes, offset: nat)
    requires DecodeSized(data, offset).Parsed?
    ensures |DecodeSized(data, offset).value| < TWO_32
  {
    ReadU32Bytes(data, offset);
  }

  lemma {:induction false} DecodedIn(data: Bytes, offset: nat)
    requires DecodeIn(data, offset).Parsed?
    ensures EncodableIn(DecodeIn(data, offset).value)
  {
    hide ReadU32, DecodeSized;
    var n1 := DecodeSized(data, offset).size;
    var n2 := DecodeSized(data, offset + n1 + 4).size;
    DecodedSized(data, offset);
    DecodedSized(data, offset + n1 + 4);
    DecodedSized(data, offset + n1 + 4 + n2);
  }

  lemma {:induction false} DecodedOuts(data: Bytes, offset: nat, n: nat)
    requires DecodeAll(DecodeOut, data, offset, n).Parsed?
    ensures var vout := DecodeAll(DecodeOut, data, offset, n).value;
            forall i :: 0 <= i < |vout| ==> EncodableOut(vout[i])
  {
    hide ReadU64, DecodeSized;
    if n > 0 {
      DecodedOuts(data, offset, n - 1);
      DecodedSized(data, offset + DecodeAll(DecodeOut, data, offset, n - 1).size + 8);
    }
  }

  /** Whatever is read as a transaction can be written again. */
  lemma {:induction false} DecodedEncodable(sha: Sha256, data: Bytes)
    requires Decode(sha, data).Ok?
    ensures Encodable(Decode(sha, data).value)
  {
    hide ReadU32, DecodeIn, DecodeOut, EncodableIn, EncodableOut, Encode;
    ReadU32Bytes(data, 0);
    DecodedIns(data, 4, ReadU32(data, 0).value);
    var n := DecodeAll(DecodeIn, data, 4, ReadU32(data, 0).value).size;
    ReadU32Bytes(data, 4 + n);
    DecodedOuts(data, 8 + n, ReadU32(data, 4 + n).value);
  }

  /** A transaction has no more outputs than it was read from bytes. */
  lemma {:induction false} FewOutputs(sha: Sha256, data: Bytes)
    requires Decode(sha, data).Ok?
    ensures 12 * |Decode(sha, data).value.vout| <= |data|
  {
    hide Decode, Encode;
    EncodeDecode(sha, data);
    EncodeCovers(Decode(sha, data).value);
  }

  /** Two transactions with the same bytes have the same inputs and outputs. */
  lemma {:induction false} EncodeInjective(a: Transaction, b: Transaction)
    requires Encodable(a) && Encodable(b)
    ensures Encode(a) == Encode(b) <==> a.vin == b.vin && a.vout == b.vout
  {
    hide U32, ReadU32, EncodeAll, DecodeAll;
    if Encode(a) == Encode(b) {
      TransactionAt(a, Encode(a));
      TransactionAt(b, Encode(a));
    }
  }

  /** Distinct sealed transactions share an id only through a collision of the hash function. */
  lemma {:induction false} IdsIdentify(sha: Sha256, a: Transaction, b: Transaction)
    requires Encodable(a) && Encodable(b) && Sealed(sha, a) && Sealed(sha, b)
    requires a.id == b.id && a != b
    ensures IsCollision(sha, Collision(Encode(a), Encode(b)))
  {
    EncodeInjective(a, b);
  }

  // ---------------------------------------------------------------- the loops of the source

  method Serialize(tx: Transaction) returns (result: Bytes)
    ensures result == Encode(tx)
  {
    result := U32(|tx.vin|);
    result := AppendAll(EncodeIn, tx.vin, result);
    result := result + U32(|tx.vout|);
    result := AppendAll(EncodeOut, tx.vout, result);
  }

  method DeserializeInput(data: Bytes, start: nat) returns (r: Parse<TxIn>)
    ensures r == DecodeIn(data, start)
  {
    var offset := start;
    var txidSize := ReadU32(data, offset);
    if txidSize.Throws? { return Malformed; }
    offset := offset + 4;
    if offset + txidSize.value > |data| { return Malformed; }
    var txid := data[offset..offset + txidSize.value];
    offset := offset + txidSize.value;
    var vout := ReadU32(data, offset);
    if vout.Throws? { return Malformed; }
    ReadU32Bytes(data, offset);
    offset := offset + 4;
    var signatureSize := ReadU32(data, offset);
    if signatureSize.Throws? { return Malformed; }
    offset := offset + 4;
    if offset + signatureSize.value > |data| { return Malformed; }
    var signature := data[offset..offset + signatureSize.value];
    offset := offset + signatureSize.value;
    var pubKeySize := ReadU32(data, offset);
    if pubKeySize.Throws? { return Malformed; }
    offset := offset + 4;
    if offset + pubKeySize.value > |data| { return Malformed; }
    var pubKey := data[offset..offset + pubKeySize.value];
    offset := offset + pubKeySize.value;
    return Parsed(TxIn(txid, ToInt32(vout.value), signature, pubKey), offset - start);
  }

  method Deserialize(sha: Sha256, data: Bytes) returns (r: Result<Transaction>)
    ensures r == Decode(sha, data)
  {
    hide DecodeIn, DecodeOut, DecodeAll, WithId;
    if |data| < 8 { return Throws; }
    var offset := 0;
    var vinSize := ReadU32(data, offset);
    if vinSize.Throws? { return Throws; }
    offset := offset + 4;
    var vin := ParseAll(DecodeIn, data, offset, vinSize.value);
    if vin.Malformed? { return Throws; }
    offset := offset + vin.size;
    var voutSize := ReadU32(data, offset);
    if voutSize.Throws? { return Throws; }
    offset := offset + 4;
    var vout := ParseAll(DecodeOut, data, offset, voutSize.value);
    if vout.Malformed? { return Throws; }
    return Ok(WithId(sha, vin.value, vout.value));
  }
}

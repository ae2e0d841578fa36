/** Blocks as bytes: `src/block.cpp`. */
module BlockCodec {
  import opened Base
  import opened Wire
  import opened Ledger
  import T = TransactionCodec

  /** The fields around the transactions: 8 + 4 + 32 + 32 + 4 + 4 bytes. */
  const FRAME_SIZE := 84

  function EncodeSizedTx(tx: Transaction): Bytes {
    T.Sized(T.Encode(tx))
  }

  function PrevBytes(prev: Bytes): Bytes {
    if prev == [] then ZERO_HASH else prev
  }

  function EncodeTail(b: Block): Bytes {
    PrevBytes(b.prev) + (b.hash + (U32(b.nonce) + U32(b.bits)))
  }

  function Encode(b: Block): Bytes {
    U64(b.timestamp) + (U32(|b.txs|) + (EncodeAll(EncodeSizedTx, b.txs) + EncodeTail(b)))
  }

  function SizedTxParser(sha: Sha256): (Bytes, nat) -> Parse<Transaction> {
    (data: Bytes, offset: nat) => DecodeSizedTx(sha, data, offset)
  }

  function DecodeSizedTx(sha: Sha256, data: Bytes, offset: nat): Parse<Transaction> {
    match T.DecodeSized(data, offset)
    case Malformed => Malformed
    case Parsed(body, n) =>
      match T.Decode(sha, body)
      case Throws => Malformed
      case Ok(tx) => Parsed(tx, n)
  }

  function DecodeTail(timestamp: Int64, txs: seq<Transaction>, data: Bytes, offset: nat): Result<Block> {
    if offset + 32 + 32 + 4 + 4 > |data| then Throws
    else
      ReadU32Bytes(data, offset + 64);
      ReadU32Bytes(data, offset + 68);
      var nonce, bits := ReadU32(data, offset + 64).value, ReadU32(data, offset + 68).value;
      Ok(Block(timestamp, txs, data[offset..offset + 32], data[offset + 32..offset + 64],
               ToInt32(nonce), ToInt32(bits)))
  }

  function Decode(sha: Sha256, data: Bytes): Result<Block> {
    if |data| < FRAME_SIZE then Throws
    else
      ReadU64Bytes(data, 0);
      var timestamp, txCount := ReadU64(data, 0).value, ReadU32(data, 8).value;
      if txCount > MAX_BLOCK_TXS then Throws
      else match DecodeAll(SizedTxParser(sha), data, 12, txCount)
        case Malformed => Throws
        case Parsed(txs, n) => DecodeTail(ToInt64(timestamp), txs, data, 12 + n)
  }

  /** What `Serialize` can write so that `Deserialize` finds every field again. */
  predicate Encodable(sha: Sha256, b: Block) {
    && |b.txs| <= MAX_BLOCK_TXS
    && (forall i :: 0 <= i < |b.txs| ==> EncodableTx(sha, b.txs[i]))
    && (b.prev == [] || |b.prev| == 32)
    && |b.hash| == 32
  }

  predicate EncodableTx(sha: Sha256, tx: Transaction) {
    T.Encodable(tx) && T.Sealed(sha, tx) && |T.Encode(tx)| < TWO_32
  }

  lemma {:induction false} SizedTxAt(sha: Sha256, data: Bytes, offset: nat, tx: Transaction)
    requires EncodableTx(sha, tx) && At(data, offset, EncodeSizedTx(tx))
    ensures DecodeSizedTx(sha, data, offset) == Parsed(tx, |EncodeSizedTx(tx)|)
  {
    hide U32, ReadU32, T.Encode, T.Decode, T.Encodable;
    T.SizedReadsBack(data, offset, T.Encode(tx));
    T.DecodeEncode(sha, tx, []);
    assert T.Encode(tx) + [] == T.Encode(tx);
  }

  lemma {:induction false} SizedTxReadsBack(sha: Sha256, tx: Transaction)
    requires EncodableTx(sha, tx)
    ensures ReadsBack(EncodeSizedTx, SizedTxParser(sha), tx)
  {
    hide U32, ReadU32, T.Encode, T.Decode, T.Encodable, DecodeSizedTx, At;
    forall data, offset: nat | At(data, offset, EncodeSizedTx(tx)) {
      SizedTxAt(sha, data, offset, tx);
    }
  }

  lemma {:induction false} TailAt(b: Block, data: Bytes, offset: nat)
    requires (b.prev == [] || |b.prev| == 32) && |b.hash| == 32
    requires At(data, offset, EncodeTail(b))
    ensures DecodeTail(b.timestamp, b.txs, data, offset) == Ok(b.(prev := PrevBytes(b.prev)))
  {
    hide U32, ReadU32;
    AtConcat(data, offset, PrevBytes(b.prev), b.hash + (U32(b.nonce) + U32(b.bits)));
    AtConcat(data, offset + 32, b.hash, U32(b.nonce) + U32(b.bits));
    AtConcat(data, offset + 64, U32(b.nonce), U32(b.bits));
    ReadU32Of(data, offset + 64, b.nonce);
    ReadU32Of(data, offset + 68, b.bits);
    SignedCast32(b.nonce, 0);
    SignedCast32(b.bits, 0);
  }

  lemma {:induction false} StartsWith(data: Bytes, start: Bytes)
    ensures start <= data <==> At(data, 0, start)
  {
  }

  /** Bytes that begin with a block written out are read as that block, an absent previous hash as 32 zero bytes. */
  lemma {:induction false} DecodeBeginning(sha: Sha256, b: Block, data: Bytes)
    requires Encodable(sha, b) && Encode(b) <= data
    ensures Decode(sha, data) == Ok(b.(prev := PrevBytes(b.prev)))
  {
    hide At, U64, U32, ReadU64, ReadU32, EncodeAll, DecodeAll, EncodeSizedTx, EncodeTail, DecodeTail, EncodableTx;
    var body := EncodeAll(EncodeSizedTx, b.txs);
    StartsWith(data, Encode(b));
    AtConcat(data, 0, U64(b.timestamp), U32(|b.txs|) + (body + EncodeTail(b)));
    AtConcat(data, 8, U32(|b.txs|), body + EncodeTail(b));
    AtConcat(data, 12, body, EncodeTail(b));
    ReadU64Of(data, 0, b.timestamp);
    SignedCast64(b.timestamp, 0);
    ReadU32Of(data, 8, |b.txs|);
    forall i | 0 <= i < |b.txs| ensures ReadsBack(EncodeSizedTx, SizedTxParser(sha), b.txs[i]) {
      SizedTxReadsBack(sha, b.txs[i]);
    }
    ListReadsBack(EncodeSizedTx, SizedTxParser(sha), b.txs, data, 12);
    TailAt(b, data, 12 + |body|);
    TailSize(b);
  }

  /** Round trip, with any bytes after the block. */
  lemma {:induction false} DecodeEncode(sha: Sha256, b: Block, rest: Bytes)
    requires Encodable(sha, b)
    ensures Decode(sha, Encode(b) + rest) == Ok(b.(prev := PrevBytes(b.prev)))
  {
    hide Decode, Encode, Encodable;
    DecodeBeginning(sha, b, Encode(b) + rest);
  }

  lemma {:induction false} TailSize(b: Block)
    requires (b.prev == [] || |b.prev| == 32) && |b.hash| == 32
    ensures |EncodeTail(b)| == 72
  {
  }

  /** The bytes a block takes: its frame, and 4 more than its own size for each transaction. */
  function BodySize(txs: seq<Transaction>): nat {
    if txs == [] then 0 else BodySize(txs[..|txs| - 1]) + 4 + |T.Encode(txs[|txs| - 1])|
  }

  lemma {:induction false} BodySizeIs(txs: seq<Transaction>)
    ensures |EncodeAll(EncodeSizedTx, txs)| == BodySize(txs)
  {
    hide T.Encode, U32;
    if txs != [] {
      BodySizeIs(txs[..|txs| - 1]);
    }
  }

  lemma {:induction false} EncodedSize(b: Block)
    requires (b.prev == [] || |b.prev| == 32) && |b.hash| == 32
    ensures |Encode(b)| == FRAME_SIZE + BodySize(b.txs)
  {
    hide U32, U64, EncodeAll, EncodeTail, T.Encode;
    BodySizeIs(b.txs);
    TailSize(b);
  }

  lemma {:induction false} FewOutputsEach(sha: Sha256, data: Bytes, offset: nat, n: nat)
    requires DecodeAll(SizedTxParser(sha), data, offset, n).Parsed?
    ensures forall t :: 0 <= t < n ==> 12 * |DecodeAll(SizedTxParser(sha), data, offset, n).value[t].vout| <= |data|
  {
    hide T.Decode;
    if n > 0 {
      FewOutputsEach(sha, data, offset, n - 1);
      var at := offset + DecodeAll(SizedTxParser(sha), data, offset, n - 1).size;
      var body := T.DecodeSized(data, at).value;
      T.FewOutputs(sha, body);
    }
  }

  /** The transactions of a block read from bytes have no more outputs than that. */
  lemma {:induction false} FewOutputsInBlock(sha: Sha256, data: Bytes)
    requires Decode(sha, data).Ok?
    ensures forall t :: 0 <= t < |Decode(sha, data).value.txs| ==> 12 * |Decode(sha, data).value.txs[t].vout| <= |data|
  {
    hide DecodeAll;
    FewOutputsEach(sha, data, 12, ReadU32(data, 8).value);
  }

  lemma {:induction false} DecodedTxsEach(sha: Sha256, data: Bytes, offset: nat, n: nat)
    requires DecodeAll(SizedTxParser(sha), data, offset, n).Parsed?
    ensures var txs := DecodeAll(SizedTxParser(sha), data, offset, n).value;
            forall t :: 0 <= t < |txs| ==> EncodableTx(sha, txs[t])
  {
    hide T.Decode, T.Encode, T.Sealed, T.Encodable;
    if n > 0 {
      DecodedTxsEach(sha, data, offset, n - 1);
      var at := offset + DecodeAll(SizedTxParser(sha), data, offset, n - 1).size;
      var body := T.DecodeSized(data, at).value;
      T.DecodedSized(data, at);
      T.DecodedEncodable(sha, body);
      T.EncodeDecode(sha, body);
    }
  }

  /** The transactions of a block read from bytes have their hashes for ids, and can be written again. */
  lemma {:induction false} DecodedTxs(sha: Sha256, data: Bytes)
    requires Decode(sha, data).Ok?
    ensures var txs := Decode(sha, data).value.txs; forall t :: 0 <= t < |txs| ==> EncodableTx(sha, txs[t])
  {
    hide DecodeAll, EncodableTx;
    DecodedTxsEach(sha, data, 12, ReadU32(data, 8).value);
  }

  // ---------------------------------------------------------------- parsing, then printing

  lemma {:induction false} SizedTxStarts(sha: Sha256, data: Bytes, offset: nat)
    requires DecodeSizedTx(sha, data, offset).Parsed?
    ensures var r := DecodeSizedTx(sha, data, offset);
            && |EncodeSizedTx(r.value)| == 4 + |T.Encode(r.value)| <= r.size
            && (r.size == |EncodeSizedTx(r.value)| ==> At(data, offset, EncodeSizedTx(r.value)))
  {
    hide U32, ReadU32, T.Encode, T.Decode, T.DecodeSized;
    var body := T.DecodeSized(data, offset).value;
    T.SizedCanonical(data, offset);
    T.EncodeDecode(sha, body);
  }

  lemma {:induction false} BodySnoc(txs: seq<Transaction>, tx: Transaction)
    ensures BodySize(txs + [tx]) == BodySize(txs) + 4 + |T.Encode(tx)|
    ensures EncodeAll(EncodeSizedTx, txs + [tx]) == EncodeAll(EncodeSizedTx, txs) + EncodeSizedTx(tx)
  {
    hide T.Encode, EncodeSizedTx;
    assert (txs + [tx])[..|txs|] == txs;
  }

  lemma {:induction false} BodyOfNone(data: Bytes, offset: nat)
    requires offset <= |data|
    ensures BodySize([]) == 0 && At(data, offset, EncodeAll(EncodeSizedTx, []))
  {
  }

  /** A list of transactions takes at least as many bytes as writing it does; if just as many, they are the same. */
  lemma {:induction false} BodyStarts(sha: Sha256, data: Bytes, offset: nat, n: nat)
    requires offset <= |data| && DecodeAll(SizedTxParser(sha), data, offset, n).Parsed?
    ensures var r := DecodeAll(SizedTxParser(sha), data, offset, n);
            && BodySize(r.value) <= r.size
            && (BodySize(r.value) == r.size ==> At(data, offset, EncodeAll(EncodeSizedTx, r.value)))
  {
    hide T.Encode, EncodeSizedTx, DecodeSizedTx, EncodeAll, BodySize, At;
    BodyOfNone(data, offset);
    if n > 0 {
      BodyStarts(sha, data, offset, n - 1);
      var r := DecodeAll(SizedTxParser(sha), data, offset, n);
      var before := DecodeAll(SizedTxParser(sha), data, offset, n - 1);
      var at := offset + before.size;
      SizedTxStarts(sha, data, at);
      var tx := DecodeSizedTx(sha, data, at).value;
      BodySnoc(before.value, tx);
      BodySizeIs(before.value);
      AtConcat(data, offset, EncodeAll(EncodeSizedTx, before.value), EncodeSizedTx(tx));
    }
  }

  /** The bytes the transactions of a payload take. */
  function BodyRead(sha: Sha256, data: Bytes): nat
    requires Decode(sha, data).Ok?
  {
    DecodeAll(SizedTxParser(sha), data, 12, |Decode(sha, data).value.txs|).size
  }

  lemma {:induction false} TailRead(timestamp: Int64, txs: seq<Transaction>, data: Bytes, offset: nat)
    requires DecodeTail(timestamp, txs, data, offset).Ok?
    ensures var b := DecodeTail(timestamp, txs, data, offset).value;
            At(data, offset, EncodeTail(b)) && |b.prev| == |b.hash| == 32 && b.txs == txs && b.timestamp == timestamp
  {
    hide U32, Value;
    var b := DecodeTail(timestamp, txs, data, offset).value;
    ReadU32Bytes(data, offset + 64);
    ReadU32Bytes(data, offset + 68);
    SignedCast32(0, ReadU32(data, offset + 64).value);
    SignedCast32(0, ReadU32(data, offset + 68).value);
    AtConcat(data, offset + 64, U32(b.nonce), U32(b.bits));
    AtConcat(data, offset + 32, b.hash, U32(b.nonce) + U32(b.bits));
    AtConcat(data, offset, b.prev, b.hash + (U32(b.nonce) + U32(b.bits)));
  }

  lemma {:induction false} FrameRead(sha: Sha256, data: Bytes)
    requires Decode(sha, data).Ok?
    ensures var b := Decode(sha, data).value;
            && |data| >= FRAME_SIZE && At(data, 0, U64(b.timestamp)) && At(data, 8, U32(|b.txs|)) && Encodable(sha, b)
            && DecodeAll(SizedTxParser(sha), data, 12, |b.txs|) == Parsed(b.txs, BodyRead(sha, data))
            && At(data, 12 + BodyRead(sha, data), EncodeTail(b))
  {
    hide U32, U64, Value, DecodeAll, DecodeTail, EncodeTail, EncodableTx;
    ReadU64Bytes(data, 0);
    ReadU32Bytes(data, 8);
    SignedCast64(0, ReadU64(data, 0).value);
    var timestamp, n := ToInt64(ReadU64(data, 0).value), ReadU32(data, 8).value;
    var body := DecodeAll(SizedTxParser(sha), data, 12, n);
    TailRead(timestamp, body.value, data, 12 + body.size);
    DecodedTxs(sha, data);
  }

  /**
   * Bytes accepted as a block begin with the block read from them, written again, if and only if its transactions take
   * no more bytes than that; they may, for what follows a transaction inside its length is ignored.
   */
  lemma {:induction false} EncodeDecode(sha: Sha256, data: Bytes)
    requires Decode(sha, data).Ok?
    ensures var b := Decode(sha, data).value;
            BodySize(b.txs) <= BodyRead(sha, data) &&
            (Encode(b) <= data <==> BodySize(b.txs) == BodyRead(sha, data))
  {
    hide U32, U64, Decode, DecodeAll, EncodeAll, EncodeSizedTx, EncodeTail, EncodableTx, At, BodyRead;
    var b := Decode(sha, data).value;
    var body := EncodeAll(EncodeSizedTx, b.txs);
    FrameRead(sha, data);
    BodyStarts(sha, data, 12, |b.txs|);
    BodySizeIs(b.txs);
    AtConcat(data, 0, U64(b.timestamp), U32(|b.txs|) + (body + EncodeTail(b)));
    AtConcat(data, 8, U32(|b.txs|), body + EncodeTail(b));
    AtConcat(data, 12, body, EncodeTail(b));
    StartsWith(data, Encode(b));
    if At(data, 12, body) {
      forall i | 0 <= i < |b.txs| ensures ReadsBack(EncodeSizedTx, SizedTxParser(sha), b.txs[i]) {
        SizedTxReadsBack(sha, b.txs[i]);
      }
      ListReadsBack(EncodeSizedTx, SizedTxParser(sha), b.txs, data, 12);
    }
  }

  /** The bytes of a block of one transaction, with some more of them inside the length of that transaction. */
  function Loose(b: Block, extra: Bytes): Bytes
    requires |b.txs| == 1
  {
    U64(b.timestamp) + (U32(1) + (T.Sized(T.Encode(b.txs[0]) + extra) + EncodeTail(b)))
  }

  lemma {:induction false} LooseBody(sha: Sha256, b: Block, extra: Bytes, data: Bytes)
    requires Encodable(sha, b) && |b.txs| == 1 && |T.Encode(b.txs[0])| + |extra| < TWO_32
    requires At(data, 12, T.Sized(T.Encode(b.txs[0]) + extra))
    ensures DecodeAll(SizedTxParser(sha), data, 12, 1) == Parsed(b.txs, 4 + |T.Encode(b.txs[0])| + |extra|)
  {
    hide U32, ReadU32, T.Encode, T.Decode, T.Encodable;
    var tx := b.txs[0];
    T.SizedReadsBack(data, 12, T.Encode(tx) + extra);
    T.DecodeEncode(sha, tx, extra);
    assert DecodeAll(SizedTxParser(sha), data, 12, 0) == Parsed([], 0);
    assert [] + [tx] == b.txs;
  }

  /** Such bytes are read as the same block, but do not begin with that block, written again, unless none were added. */
  lemma {:induction false} LooseReadsAlike(sha: Sha256, b: Block, extra: Bytes)
    requires Encodable(sha, b) && |b.txs| == 1 && |T.Encode(b.txs[0])| + |extra| < TWO_32
    ensures Decode(sha, Loose(b, extra)) == Decode(sha, Encode(b)) == Ok(b.(prev := PrevBytes(b.prev)))
    ensures Encode(b.(prev := PrevBytes(b.prev))) <= Loose(b, extra) <==> extra == []
  {
    hide At, U64, U32, Value, EncodeAll, DecodeAll, EncodeTail, DecodeTail, EncodableTx, T.Encode, T.Sized, Encode;
    var data, sized := Loose(b, extra), T.Sized(T.Encode(b.txs[0]) + extra);
    DecodeBeginning(sha, b, Encode(b));
    WholeAt(data);
    AtConcat(data, 0, U64(b.timestamp), U32(1) + (sized + EncodeTail(b)));
    AtConcat(data, 8, U32(1), sized + EncodeTail(b));
    AtConcat(data, 12, sized, EncodeTail(b));
    ReadU64Of(data, 0, b.timestamp);
    SignedCast64(b.timestamp, 0);
    ReadU32Of(data, 8, 1);
    LooseBody(sha, b, extra, data);
    SizedIs(T.Encode(b.txs[0]) + extra);
    TailAt(b, data, 12 + |sized|);
    TailSize(b);
    EncodeDecode(sha, data);
    OneBody(b.txs);
  }

  lemma {:induction false} SizedIs(b: Bytes)
    ensures |T.Sized(b)| == 4 + |b|
  {
  }

  lemma {:induction false} OneBody(txs: seq<Transaction>)
    requires |txs| == 1
    ensures BodySize(txs) == 4 + |T.Encode(txs[0])|
  {
    assert txs[..0] == [];
  }

  /** `CheckBlockSize` without a known size serialises the block to measure it. */
  predicate CheckBlockSize(b: Block, knownSize: nat) {
    && b.txs != [] && b.txs[0].IsCoinbase()
    && (forall i :: 1 <= i < |b.txs| ==> !b.txs[i].IsCoinbase())
    && |b.txs| <= MAX_BLOCK_TXS
    && (if knownSize > 0 then knownSize else |Encode(b)|) <= MAX_BLOCK_SIZE
  }

  method Serialize(b: Block) returns (serialized: Bytes)
    ensures serialized == Encode(b)
  {
    hide U32, U64, EncodeAll, EncodeSizedTx, PrevBytes;
    serialized := WriteUint64([], b.timestamp);
    serialized := serialized + U32(|b.txs|);
    serialized := AppendAll(EncodeSizedTx, b.txs, serialized);
    ghost var head := serialized;
    serialized := serialized + PrevBytes(b.prev) + b.hash;
    serialized := serialized + U32(b.nonce) + U32(b.bits);
    assert serialized == head + EncodeTail(b);
  }

  method Deserialize(sha: Sha256, data: Bytes) returns (r: Result<Block>)
    ensures r == Decode(sha, data)
  {
    hide T.Decode, T.DecodeSized;
    if |data| < FRAME_SIZE { return Throws; }
    var timestamp := ReadUint64(data, 0);
    var txCount := ReadU32(data, 8);
    if timestamp.Throws? || txCount.Throws? || txCount.value > MAX_BLOCK_TXS { return Throws; }
    var offset := 12;
    var txs := ParseAll(SizedTxParser(sha), data, offset, txCount.value);
    if txs.Malformed? { return Throws; }
    offset := offset + txs.size;
    ReadU64Bytes(data, 0);
    return DecodeTail(ToInt64(timestamp.value), txs.value, data, offset);
  }

  method CheckSize(b: Block, knownSize: nat) returns (ok: bool)
    ensures ok <==> CheckBlockSize(b, knownSize)
  {
    if b.txs == [] || !b.txs[0].IsCoinbase() { return false; }
    for i := 1 to |b.txs|
      invariant forall j :: 1 <= j < i ==> !b.txs[j].IsCoinbase()
    {
      if b.txs[i].IsCoinbase() { return false; }
    }
    if |b.txs| > MAX_BLOCK_TXS { return false; }
    var blockSize := knownSize;
    if knownSize == 0 {
      var serialized := Serialize(b);
      blockSize := |serialized|;
    }
    return blockSize <= MAX_BLOCK_SIZE;
  }
}

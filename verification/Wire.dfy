/** Little-endian integers, hexadecimal keys and counted lists, as `src/serialization.cpp` writes them. */
module Wire {
  import opened Arithmetic
  import opened Base

  // ---------------------------------------------------------------- integers

  function Pow256(n: nat): (p: nat)
    ensures p > 0
  {
    if n == 0 then 1 else 256 * Pow256(n - 1)
  }

  /** The `n` low-order bytes of `v`, least significant first; a negative `v` gives its two's complement. */
  function LittleEndian(v: int, n: nat): (b: Bytes)
    ensures |b| == n
    decreases n
  {
    if n == 0 then [] else [v % 256] + LittleEndian(v / 256, n - 1)
  }

  function Value(b: Bytes): nat {
    if b == [] then 0 else b[0] + 256 * Value(b[1..])
  }

  lemma {:induction false} ValueOfLittleEndian(v: int, n: nat)
    ensures Value(LittleEndian(v, n)) == v % Pow256(n)
    decreases n
  {
    if n == 0 {
    } else {
      ValueOfLittleEndian(v / 256, n - 1);
      var p := Pow256(n - 1);
      var q, r := (v / 256) / p, (v / 256) % p;
      assert LittleEndian(v, n)[1..] == LittleEndian(v / 256, n - 1);
      assert v == q * (256 * p) + (256 * r + v % 256) by {
        assert v / 256 == q * p + r;
      }
      DivModUnique(v, 256 * p, q, 256 * r + v % 256);
    }
  }

  lemma {:induction false} LittleEndianOfValue(b: Bytes)
    ensures Value(b) < Pow256(|b|)
    ensures LittleEndian(Value(b), |b|) == b
  {
    if b != [] {
      LittleEndianOfValue(b[1..]);
      assert b == [b[0]] + b[1..];
    }
  }

  function U32(v: int): (b: Bytes)
    ensures |b| == 4
  {
    LittleEndian(v, 4)
  }

  function U64(v: int): (b: Bytes)
    ensures |b| == 8
  {
    LittleEndian(v, 8)
  }

  function ReadU32(data: Bytes, offset: nat): Result<nat> {
    if offset + 4 > |data| then Throws else Ok(Value(data[offset..offset + 4]))
  }

  function ReadU64(data: Bytes, offset: nat): Result<nat> {
    if offset + 8 > |data| then Throws else Ok(Value(data[offset..offset + 8]))
  }

  /** `static_cast<int32_t>` of an unsigned 32-bit value. */
  function ToInt32(u: nat): Int32
    requires u < TWO_32
  {
    if u >= TWO_31 then u - TWO_32 else u
  }

  function ToInt64(u: nat): Int64
    requires u < TWO_64
  {
    if u >= TWO_63 then u - TWO_64 else u
  }

  lemma {:induction false} Pow256Values()
    ensures Pow256(4) == TWO_32
    ensures Pow256(8) == TWO_64
  {
    assert Pow256(2) == 65536;
    assert Pow256(4) == 256 * 256 * Pow256(2);
    assert Pow256(6) == 256 * 256 * Pow256(4);
    assert Pow256(8) == 256 * 256 * Pow256(6);
  }

  lemma {:induction false} ReadU32Of(data: Bytes, offset: nat, v: int)
    requires At(data, offset, U32(v))
    ensures ReadU32(data, offset) == Ok(v % TWO_32)
  {
    ValueOfLittleEndian(v, 4);
    Pow256Values();
  }

  lemma {:induction false} ReadU64Of(data: Bytes, offset: nat, v: int)
    requires At(data, offset, U64(v))
    ensures ReadU64(data, offset) == Ok(v % TWO_64)
  {
    ValueOfLittleEndian(v, 8);
    Pow256Values();
  }

  lemma {:induction false} ReadU32Bytes(data: Bytes, offset: nat)
    requires ReadU32(data, offset).Ok?
    ensures ReadU32(data, offset).value < TWO_32
    ensures At(data, offset, U32(ReadU32(data, offset).value))
  {
    LittleEndianOfValue(data[offset..offset + 4]);
    Pow256Values();
  }

  lemma {:induction false} ReadU64Bytes(data: Bytes, offset: nat)
    requires ReadU64(data, offset).Ok?
    ensures ReadU64(data, offset).value < TWO_64
    ensures At(data, offset, U64(ReadU64(data, offset).value))
  {
    LittleEndianOfValue(data[offset..offset + 8]);
    Pow256Values();
  }

  /** The bytes depend only on the value modulo 256^n. */
  lemma {:induction false} SameResidueSameBytes(u: int, v: int, n: nat)
    requires u % Pow256(n) == v % Pow256(n)
    ensures LittleEndian(u, n) == LittleEndian(v, n)
  {
    ValueOfLittleEndian(u, n);
    ValueOfLittleEndian(v, n);
    LittleEndianOfValue(LittleEndian(u, n));
    LittleEndianOfValue(LittleEndian(v, n));
  }

  /** Casting to a signed type and back to an unsigned one loses nothing, either way round. */
  lemma {:induction false} SignedCast32(x: Int32, u: nat)
    requires u < TWO_32
    ensures ToInt32(x % TWO_32) == x
    ensures U32(ToInt32(u)) == U32(u)
  {
    Pow256Values();
    SameResidueSameBytes(u, ToInt32(u), 4);
  }

  lemma {:induction false} SignedCast64(x: Int64, u: nat)
    requires u < TWO_64
    ensures ToInt64(x % TWO_64) == x
    ensures U64(ToInt64(u)) == U64(u)
  {
    hide LittleEndian, Pow256;
    Pow256Values();
    SignedResidue(u);
    SameResidueSameBytes(u, ToInt64(u), 8);
  }

  lemma {:induction false} SignedResidue(u: nat)
    requires u < TWO_64
    ensures ToInt64(u) % TWO_64 == u % TWO_64
  {
  }

  method AppendLittleEndian(buf: Bytes, value: int, n: nat) returns (out: Bytes)
    ensures out == buf + LittleEndian(value, n)
  {
    out := buf;
    var rest := value;
    for i := 0 to n
      invariant out + LittleEndian(rest, n - i) == buf + LittleEndian(value, n)
    {
      assert out + ([rest % 256] + LittleEndian(rest / 256, n - i - 1)) ==
        (out + [rest % 256]) + LittleEndian(rest / 256, n - i - 1);
      out, rest := out + [rest % 256], rest / 256;
    }
    assert LittleEndian(rest, 0) == [] && out + [] == out;
  }

  method WriteUint64(buf: Bytes, value: int) returns (out: Bytes)
    ensures out == buf + U64(value)
  {
    out := AppendLittleEndian(buf, value, 8);
  }

  method ReadUint64(data: Bytes, offset: nat) returns (r: Result<nat>)
    ensures r == ReadU64(data, offset)
  {
    if offset + 8 > |data| {
      return Throws;
    }
    var value := 0;
    var scale := 1;
    ghost var field := data[offset..offset + 8];
    for i := 0 to 8
      invariant scale == Pow256(i)
      invariant value + scale * Value(field[i..]) == Value(field)
    {
      assert field[i..][1..] == field[i + 1..];
      Horner(scale, field[i], Value(field[i + 1..]));
      value := value + scale * data[offset + i];
      scale := scale * 256;
    }
    return Ok(value);
  }

  lemma {:induction false} Horner(scale: nat, digit: nat, rest: nat)
    ensures scale * (digit + 256 * rest) == scale * digit + (scale * 256) * rest
  {
  }

  /** `ReverseBytes`. */
  function Reversed(s: Bytes): (r: Bytes)
    ensures |r| == |s|
  {
    if s == [] then [] else [s[|s| - 1]] + Reversed(s[..|s| - 1])
  }

  /** `IntToHexByteArray`: 8 bytes, most significant first. */
  function BigEndian8(v: int): (b: Bytes)
    ensures |b| == 8
  {
    Reversed(U64(v))
  }

  // ---------------------------------------------------------------- hexadecimal keys

  function HexDigit(n: nat): char
    requires n < 16
  {
    if n < 10 then '0' + n as char else 'a' + (n - 10) as char
  }

  /** Lower case. */
  lemma {:induction false} HexDigits(n: nat)
    requires n < 16
    ensures HexDigit(n) == "0123456789abcdef"[n]
  {
  }

  function Digit(c: char): nat {
    if '0' <= c <= '9' then (c - '0') as int
    else if 'a' <= c <= 'f' then (c - 'a') as int + 10
    else 0
  }

  function Hex(b: Bytes): (s: string)
    ensures |s| == 2 * |b|
  {
    if b == [] then []
    else var last := b[|b| - 1]; Hex(b[..|b| - 1]) + [HexDigit(last / 16), HexDigit(last % 16)]
  }

  function Unhex(s: string): Bytes
    requires |s| % 2 == 0
  {
    if s == [] then []
    else Unhex(s[..|s| - 2]) + [UnhexByte(s[|s| - 2], s[|s| - 1])]
  }

  function UnhexByte(high: char, low: char): Byte {
    DigitBounds(high);
    DigitBounds(low);
    Digit(high) * 16 + Digit(low)
  }

  lemma {:induction false} DigitBounds(c: char)
    ensures Digit(c) < 16
  {
  }

  lemma {:induction false} UnhexByteOf(x: Byte)
    ensures UnhexByte(HexDigit(x / 16), HexDigit(x % 16)) == x
  {
  }

  lemma {:induction false} UnhexHex(b: Bytes)
    ensures Unhex(Hex(b)) == b
  {
    hide UnhexByte, HexDigit, Unhex;
    if b == [] {
      UnhexNothing();
    } else {
      var init, last := b[..|b| - 1], b[|b| - 1];
      UnhexHex(init);
      UnhexByteOf(last);
      UnhexSnoc(Hex(init), HexDigit(last / 16), HexDigit(last % 16));
      assert b == init + [last];
    }
  }

  lemma {:induction false} UnhexNothing()
    ensures Unhex([]) == []
  {
  }

  lemma {:induction false} UnhexSnoc(s: string, high: char, low: char)
    requires |s| % 2 == 0
    ensures Unhex(s + [high, low]) == Unhex(s) + [UnhexByte(high, low)]
  {
    hide UnhexByte;
    assert (s + [high, low])[..|s|] == s;
  }

  /** Maps keyed by hexadecimal strings in the source may therefore be keyed by the bytes themselves. */
  lemma {:induction false} HexInjective(a: Bytes, b: Bytes)
    ensures Hex(a) == Hex(b) <==> a == b
  {
    UnhexHex(a);
    UnhexHex(b);
  }

  method ByteArrayToHexString(bytes: Bytes) returns (s: string)
    ensures s == Hex(bytes)
  {
    s := "";
    for i := 0 to |bytes|
      invariant s == Hex(bytes[..i])
    {
      assert bytes[..i + 1][..i] == bytes[..i];
      s := s + [HexDigit(bytes[i] / 16), HexDigit(bytes[i] % 16)];
    }
    assert bytes[..|bytes|] == bytes;
  }

  // ---------------------------------------------------------------- counted lists

  /** What an offset-driven parser returns: the value and the number of bytes it read. */
  datatype Parse<+T> = Parsed(value: T, size: nat) | Malformed

  function EncodeAll<T>(enc: T -> Bytes, xs: seq<T>): Bytes {
    if xs == [] then [] else EncodeAll(enc, xs[..|xs| - 1]) + enc(xs[|xs| - 1])
  }

  /** `n` items one after the other, each starting where the previous one ended. */
  function DecodeAll<T>(dec: (Bytes, nat) -> Parse<T>, data: Bytes, offset: nat, n: nat): (r: Parse<seq<T>>)
    ensures r.Parsed? ==> |r.value| == n
  {
    if n == 0 then Parsed([], 0)
    else match DecodeAll(dec, data, offset, n - 1)
      case Malformed => Malformed
      case Parsed(xs, size) =>
        match dec(data, offset + size)
        case Malformed => Malformed
        case Parsed(x, more) => Parsed(xs + [x], size + more)
  }

  /** The printer and the parser agree on the value `x`, wherever it stands. */
  ghost predicate ReadsBack<T(!new)>(enc: T -> Bytes, dec: (Bytes, nat) -> Parse<T>, x: T) {
    forall data, offset: nat :: At(data, offset, enc(x)) ==> dec(data, offset) == Parsed(x, |enc(x)|)
  }

  /** Whatever the parser accepts is, byte for byte, what the printer writes. */
  ghost predicate Canonical<T(!new)>(enc: T -> Bytes, dec: (Bytes, nat) -> Parse<T>) {
    forall data, offset: nat :: dec(data, offset).Parsed? ==>
      At(data, offset, enc(dec(data, offset).value)) && dec(data, offset).size == |enc(dec(data, offset).value)|
  }

  lemma {:induction false} ListReadsBack<T(!new)>(enc: T -> Bytes, dec: (Bytes, nat) -> Parse<T>,
                                                  xs: seq<T>, data: Bytes, offset: nat)
    requires forall i :: 0 <= i < |xs| ==> ReadsBack(enc, dec, xs[i])
    requires At(data, offset, EncodeAll(enc, xs))
    ensures DecodeAll(dec, data, offset, |xs|) == Parsed(xs, |EncodeAll(enc, xs)|)
  {
    hide At, ReadsBack;
    if xs != [] {
      var init, last := xs[..|xs| - 1], xs[|xs| - 1];
      var done := EncodeAll(enc, init);
      AtConcat(data, offset, done, enc(last));
      ListReadsBack(enc, dec, init, data, offset);
      ReadBack(enc, dec, last, data, offset + |done|);
      assert xs == init + [last];
    }
  }

  lemma {:induction false} ReadBack<T(!new)>(enc: T -> Bytes, dec: (Bytes, nat) -> Parse<T>, x: T, data: Bytes,
                                      offset: nat)
    requires ReadsBack(enc, dec, x) && At(data, offset, enc(x))
    ensures dec(data, offset) == Parsed(x, |enc(x)|)
  {
  }

  lemma {:induction false} ListCanonical<T(!new)>(enc: T -> Bytes, dec: (Bytes, nat) -> Parse<T>,
                                                  data: Bytes, offset: nat, n: nat)
    requires offset <= |data| && Canonical(enc, dec)
    requires DecodeAll(dec, data, offset, n).Parsed?
    ensures var r := DecodeAll(dec, data, offset, n);
            At(data, offset, EncodeAll(enc, r.value)) && r.size == |EncodeAll(enc, r.value)|
  {
    if n == 0 {
    } else {
      ListCanonical(enc, dec, data, offset, n - 1);
      var r := DecodeAll(dec, data, offset, n);
      var before := DecodeAll(dec, data, offset, n - 1);
      var item := dec(data, offset + before.size);
      assert r.value[..|r.value| - 1] == before.value;
      AtConcat(data, offset, EncodeAll(enc, before.value), enc(item.value));
    }
  }

  lemma {:induction false} MalformedStays<T>(dec: (Bytes, nat) -> Parse<T>, data: Bytes, offset: nat, m: nat, n: nat)
    requires m <= n && DecodeAll(dec, data, offset, m).Malformed?
    ensures DecodeAll(dec, data, offset, n).Malformed?
  {
    if m < n {
      MalformedStays(dec, data, offset, m, n - 1);
    }
  }

  /** The loop every `Serialize` runs over a vector. */
  method AppendAll<T>(enc: T -> Bytes, xs: seq<T>, buf: Bytes) returns (out: Bytes)
    ensures out == buf + EncodeAll(enc, xs)
  {
    out := buf;
    for i := 0 to |xs|
      invariant out == buf + EncodeAll(enc, xs[..i])
    {
      assert xs[..i + 1][..i] == xs[..i];
      out := out + enc(xs[i]);
    }
    assert xs[..|xs|] == xs;
  }

  /** The loop every `Deserialize` runs, advancing its offset item by item. */
  method ParseAll<T>(dec: (Bytes, nat) -> Parse<T>, data: Bytes, start: nat, n: nat) returns (r: Parse<seq<T>>)
    ensures r == DecodeAll(dec, data, start, n)
  {
    var items, offset := [], start;
    for i := 0 to n
      invariant offset >= start
      invariant DecodeAll(dec, data, start, i) == Parsed(items, offset - start)
    {
      var item := dec(data, offset);
      if item.Malformed? {
        MalformedStays(dec, data, start, i + 1, n);
        return Malformed;
      }
      items, offset := items + [item.value], offset + item.size;
    }
    return Parsed(items, offset - start);
  }
}

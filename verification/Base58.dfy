/** Base58 text for bytes: `src/base58.cpp`. Big numbers are natural numbers. */
module Base58 {
  import opened Arithmetic
  import opened Base
  import opened Numerals
  import opened Wire

  // ---------------------------------------------------------------- the alphabet

  const ONE: Byte := 49

  /** Digits, then letters without 0, O, I and l. */
  function Symbol(d: nat): (c: Byte)
    requires d < 58
  {
    if d < 9 then '1' as int + d
    else if d < 17 then 'A' as int + (d - 9)
    else if d < 22 then 'J' as int + (d - 17)
    else if d < 33 then 'P' as int + (d - 22)
    else if d < 44 then 'a' as int + (d - 33)
    else 'm' as int + (d - 44)
  }

  /** `strchr` over the alphabet: it also finds the terminating NUL, at index 58. */
  function IndexOf(c: Byte): (r: Option<nat>)
    ensures r.Some? ==> r.value <= 58
  {
    if c == 0 then Some(58)
    else if '1' as int <= c <= '9' as int then Some(c - '1' as int)
    else if 'A' as int <= c <= 'H' as int then Some(c - 'A' as int + 9)
    else if 'J' as int <= c <= 'N' as int then Some(c - 'J' as int + 17)
    else if 'P' as int <= c <= 'Z' as int then Some(c - 'P' as int + 22)
    else if 'a' as int <= c <= 'k' as int then Some(c - 'a' as int + 33)
    else if 'm' as int <= c <= 'z' as int then Some(c - 'm' as int + 44)
    else None
  }

  lemma {:induction false} IndexOfSymbol(d: nat)
    requires d < 58
    ensures IndexOf(Symbol(d)) == Some(d) && Symbol(d) != 0 && (Symbol(d) == ONE <==> d == 0)
  {
  }

  lemma {:induction false} SymbolOfIndex(c: Byte)
    requires IndexOf(c).Some? && c != 0
    ensures IndexOf(c).value < 58 && Symbol(IndexOf(c).value) == c
  {
  }

  /** The symbols stand in the order of their character codes. */
  lemma {:induction false} SymbolsAscend(d: nat, e: nat)
    requires d < e < 58
    ensures Symbol(d) < Symbol(e)
  {
  }

  /** They are the digits and the letters, without 0, O, I and l. */
  lemma {:induction false} SymbolsAre(c: char)
    ensures (exists d :: 0 <= d < 58 && Symbol(d) == c as int) <==>
      ('0' <= c <= '9' || 'A' <= c <= 'Z' || 'a' <= c <= 'z') && c !in "0OIl"
  {
    if c as int < 256 && IndexOf(c as int).Some? && c as int != 0 {
      SymbolOfIndex(c as int);
    } else if d :| 0 <= d < 58 && Symbol(d) == c as int {
      IndexOfSymbol(d);
    }
  }

  // ---------------------------------------------------------------- encoding and decoding

  /** How many times `c` is repeated at the start. */
  function Leading(c: Byte, s: Bytes): (n: nat)
    ensures n <= |s|
  {
    if s == [] || s[0] != c then 0 else 1 + Leading(c, s[1..])
  }

  function Repeat(c: Byte, n: nat): (s: Bytes)
    ensures |s| == n && forall i :: 0 <= i < n ==> s[i] == c
  {
    if n == 0 then [] else [c] + Repeat(c, n - 1)
  }

  function Symbols(ds: Digits): (s: Bytes)
    requires forall i :: 0 <= i < |ds| ==> ds[i] < 58
    ensures |s| == |ds|
  {
    if ds == [] then [] else Symbols(ds[..|ds| - 1]) + [Symbol(ds[|ds| - 1])]
  }

  /** The digits of a text, or a throw at a character outside the alphabet. */
  function DigitsOf(s: Bytes): (r: Result<Digits>)
    ensures r.Ok? ==> |r.value| == |s|
  {
    if s == [] then Ok([])
    else match DigitsOf(s[..|s| - 1])
      case Throws => Throws
      case Ok(ds) => Append(ds, IndexOf(s[|s| - 1]))
  }

  function Append(ds: Digits, d: Option<nat>): Result<Digits> {
    match d
    case None => Throws
    case Some(v) => Ok(ds + [v])
  }

  /** The bytes of a number without leading zeros. */
  function NumberBytes(x: nat): Bytes {
    var ds := Numeral(256, x);
    seq(|ds|, i requires 0 <= i < |ds| => ds[i])
  }

  function Encode(input: Bytes): Bytes {
    Repeat(ONE, Leading(0, input)) + Symbols(Numeral(58, Number(256, input)))
  }

  function Decode(input: Bytes): Result<Bytes> {
    var ones := Leading(ONE, input);
    match DigitsOf(input[ones..])
    case Throws => Throws
    case Ok(ds) => Ok(Repeat(0, ones) + NumberBytes(Number(58, ds)))
  }

  lemma {:induction false} LeadingAt(c: Byte, s: Bytes)
    ensures forall i :: 0 <= i < Leading(c, s) ==> s[i] == c
    ensures Leading(c, s) < |s| ==> s[Leading(c, s)] != c
  {
    if s != [] && s[0] == c {
      LeadingAt(c, s[1..]);
      assert forall i :: 1 <= i < |s| ==> s[i] == s[1..][i - 1];
    }
  }

  lemma {:induction false} LeadingSplit(c: Byte, s: Bytes)
    ensures var n := Leading(c, s); s == Repeat(c, n) + s[n..] && (n < |s| ==> s[n] != c)
  {
    LeadingAt(c, s);
    var n := Leading(c, s);
    assert Repeat(c, n) == s[..n];
  }

  lemma {:induction false} LeadingOf(c: Byte, n: nat, rest: Bytes)
    requires rest != [] ==> rest[0] != c
    ensures Leading(c, Repeat(c, n) + rest) == n && (Repeat(c, n) + rest)[n..] == rest
  {
    if n > 0 {
      LeadingOf(c, n - 1, rest);
      assert (Repeat(c, n) + rest)[1..] == Repeat(c, n - 1) + rest;
    }
  }

  lemma {:induction false} DigitsOfSymbols(ds: Digits)
    requires forall i :: 0 <= i < |ds| ==> ds[i] < 58
    ensures DigitsOf(Symbols(ds)) == Ok(ds)
    ensures ds != [] ==> Symbols(ds)[0] == Symbol(ds[0])
  {
    if ds != [] {
      var init := ds[..|ds| - 1];
      DigitsOfSymbols(init);
      IndexOfSymbol(ds[|ds| - 1]);
      assert Symbols(ds)[..|ds| - 1] == Symbols(init);
      assert ds == init + [ds[|ds| - 1]];
    }
  }

  lemma {:induction false} SymbolsOfDigits(s: Bytes)
    requires DigitsOf(s).Ok? && forall i :: 0 <= i < |s| ==> s[i] != 0
    ensures var ds := DigitsOf(s).value;
            (forall i :: 0 <= i < |ds| ==> ds[i] < 58) && Symbols(ds) == s && (s != [] ==> IndexOf(s[0]) == Some(ds[0]))
  {
    if s != [] {
      var init, last := s[..|s| - 1], s[|s| - 1];
      SymbolsOfDigits(init);
      SymbolOfIndex(last);
      var ds := DigitsOf(s).value;
      assert ds[..|ds| - 1] == DigitsOf(init).value;
      assert s == init + [last];
    }
  }

  lemma {:induction false} NumberBytesIs(x: nat, b: Bytes)
    requires b != [] ==> b[0] != 0
    requires x == Number(256, b)
    ensures NumberBytes(x) == b
  {
    NumeralOfNumber(256, b);
  }

  /** Every byte string survives, its leading zeros included. */
  lemma {:induction false} DecodeEncode(b: Bytes)
    ensures Decode(Encode(b)) == Ok(b)
  {
    var z := Leading(0, b);
    var x := Number(256, b);
    var ds := Numeral(58, x);
    LeadingSplit(0, b);
    LeadingZeros(256, Repeat(0, z), b[z..]);
    NumberOfNumeral(58, x);
    DigitsOfSymbols(ds);
    if ds != [] {
      IndexOfSymbol(ds[0]);
    }
    LeadingOf(ONE, z, Symbols(ds));
    NumberBytesIs(x, b[z..]);
  }

  lemma {:induction false} SymbolsHaveNoNul(ds: Digits, i: nat)
    requires (forall j :: 0 <= j < |ds| ==> ds[j] < 58) && i < |ds|
    ensures Symbols(ds)[i] != 0
  {
    IndexOfSymbol(ds[i]);
    if i < |ds| - 1 {
      SymbolsHaveNoNul(ds[..|ds| - 1], i);
    }
  }

  predicate HasNul(s: Bytes) {
    exists i :: 0 <= i < |s| && s[i] == 0
  }

  lemma {:induction false} EncodeHasNoNul(b: Bytes)
    ensures !HasNul(Encode(b))
  {
    var ds := Numeral(58, Number(256, b));
    forall i | 0 <= i < |ds| ensures Symbols(ds)[i] != 0 {
      SymbolsHaveNoNul(ds, i);
    }
  }

  /**
   * An accepted text comes back unchanged exactly when it has no NUL: the decoder takes a NUL for a 59th
   * digit, which the encoder never writes.
   */
  lemma {:induction false} EncodeDecode(s: Bytes)
    requires Decode(s).Ok?
    ensures Encode(Decode(s).value) == s <==> !HasNul(s)
  {
    EncodeHasNoNul(Decode(s).value);
    if !HasNul(s) {
      EncodeDecodeText(s);
    }
  }

  lemma {:induction false} EncodeDecodeText(s: Bytes)
    requires Decode(s).Ok? && !HasNul(s)
    ensures Encode(Decode(s).value) == s
  {
    hide IndexOf, Symbol, Number, Numeral, Symbols;
    var ones := Leading(ONE, s);
    var ds := DigitsOf(s[ones..]).value;
    LeadingSplit(ONE, s);
    TextDigits(s[ones..]);
    NumberBytesRead(Number(58, ds), ones);
    NumeralOfNumber(58, ds);
  }

  /** A text that does not start with '1' reads as digits without a leading zero. */
  lemma {:induction false} TextDigits(rest: Bytes)
    requires DigitsOf(rest).Ok? && (forall i :: 0 <= i < |rest| ==> rest[i] != 0) && (rest != [] ==> rest[0] != ONE)
    ensures var ds := DigitsOf(rest).value; Proper(58, ds) && Symbols(ds) == rest
  {
    hide IndexOf, Symbol;
    SymbolsOfDigits(rest);
    var ds := DigitsOf(rest).value;
    if rest != [] {
      SymbolOfIndex(rest[0]);
      IndexOfSymbol(ds[0]);
    }
  }

  lemma {:induction false} NumberBytesRead(x: nat, zeros: nat)
    ensures var b := Repeat(0, zeros) + NumberBytes(x); Leading(0, b) == zeros && Number(256, b) == x
  {
    hide Number, Numeral, Leading;
    var bytes := NumberBytes(x);
    NumberOfNumeral(256, x);
    assert bytes == Numeral(256, x);
    LeadingOf(0, zeros, bytes);
    LeadingZeros(256, Repeat(0, zeros), bytes);
  }

  /** A text over the alphabet is always accepted. */
  lemma {:induction false} AlphabetAccepted(s: Bytes)
    requires forall i :: 0 <= i < |s| ==> IndexOf(s[i]).Some?
    ensures DigitsOf(s).Ok?
  {
    if s != [] {
      AlphabetAccepted(s[..|s| - 1]);
    }
  }

  /** One NUL is accepted, as the number 58, and does not come back. */
  lemma {:induction false} NulIsAccepted()
    ensures Decode([0]) == Ok([58]) && Encode([58]) != [0]
  {
    var nul: Bytes := [0];
    NulDecodes();
    assert HasNul(nul) by { assert nul[0] == 0; }
    EncodeDecode(nul);
  }

  lemma {:induction false} NulDecodes()
    ensures Decode([0]) == Ok([58])
  {
    var nul, bytes: Bytes := [0], [58];
    hide Numeral, IndexOf;
    assert IndexOf(0) == Some(58) by { NulIndex(); }
    assert nul[..0] == [] && nul[0..] == nul && Leading(ONE, nul) == 0;
    assert DigitsOf(nul[..0]) == Ok([]) && DigitsOf(nul) == Append([], IndexOf(nul[0]));
    NumberSnoc(256, [], 58);
    NumberSnoc(58, [], 58);
    assert [] + bytes == bytes && [] + [58] == [58];
    NumberBytesIs(58, bytes);
  }

  lemma {:induction false} NulIndex()
    ensures IndexOf(0) == Some(58)
  {
  }

  // ---------------------------------------------------------------- the loops of the source

  method ToSymbols(number: nat) returns (result: Bytes)
    ensures result == Symbols(Numeral(58, number))
  {
    var x := number;
    var backwards: Bytes := [];
    assert Symbols([]) == [] && Reversed([]) == [] && Numeral(58, 0) == [];
    hide Numeral, Symbols, Symbol;
    while x != 0
      invariant x >= 0
      invariant Symbols(Numeral(58, x)) + Reversed(backwards) == Symbols(Numeral(58, number))
      decreases x
    {
      DivSmaller(x, 58);
      SymbolsNumeral(x);
      assert (backwards + [Symbol(x % 58)])[..|backwards|] == backwards;
      backwards := backwards + [Symbol(x % 58)];
      x := x / 58;
    }
    result := Reversed(backwards);
    assert [] + result == result;
  }

  method Base58Encode(input: Bytes) returns (result: Bytes)
    ensures result == Encode(input)
  {
    hide Number, Leading, Numeral, Symbols;
    var x := BigEndian(input);
    result := ToSymbols(x);
    ghost var digits := result;
    var zeros := CountLeading(0, input);
    assert Repeat(ONE, 0) + digits == digits;
    for i := 0 to zeros
      invariant result == Repeat(ONE, i) + digits
    {
      result := [ONE] + result;
    }
  }

  lemma {:induction false} SymbolsNumeral(x: nat)
    requires x != 0
    ensures Symbols(Numeral(58, x)) == Symbols(Numeral(58, x / 58)) + [Symbol(x % 58)]
  {
    var ds := Numeral(58, x);
    assert ds[..|ds| - 1] == Numeral(58, x / 58);
  }

  method CountLeading(c: Byte, s: Bytes) returns (n: nat)
    ensures n == Leading(c, s)
  {
    n := 0;
    while n < |s| && s[n] == c
      invariant n <= |s| && n + Leading(c, s[n..]) == Leading(c, s)
    {
      assert s[n..][1..] == s[n + 1..];
      n := n + 1;
    }
  }

  lemma {:induction false} DigitsThrow(s: Bytes, n: nat)
    requires n <= |s| && DigitsOf(s[..n]).Throws?
    ensures DigitsOf(s).Throws?
  {
    if n < |s| {
      assert s[..|s| - 1][..n] == s[..n];
      DigitsThrow(s[..|s| - 1], n);
    } else {
      assert s[..n] == s;
    }
  }

  method Base58Decode(input: Bytes) returns (r: Result<Bytes>)
    ensures r == Decode(input)
  {
    hide Leading, IndexOf, NumberBytes;
    var zeroBytes := CountLeading(ONE, input);
    var rest := input[zeroBytes..];
    var value: nat := 0;
    for i := 0 to |rest|
      invariant DigitsOf(rest[..i]).Ok? && value == Number(58, DigitsOf(rest[..i]).value)
    {
      assert rest[..i + 1][..i] == rest[..i];
      var index := IndexOf(rest[i]);
      if index.None? {
        DigitsThrow(rest, i + 1);
        return Throws;
      }
      ghost var ds := DigitsOf(rest[..i]).value;
      assert (ds + [index.value])[..|ds|] == ds;
      value := value * 58 + index.value;
    }
    assert rest[..|rest|] == rest;
    return Ok(Repeat(0, zeroBytes) + NumberBytes(value));
  }
}

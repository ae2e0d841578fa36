/** Addresses: `src/wallet.cpp` and the locking of outputs in `src/transactionOutput.cpp`. */
module Wallet {
  import opened Base
  import opened Ledger
  import Base58

  const VERSION: Byte := 0
  const ADDRESS_CHECKSUM_LEN := 4

  /** The two hash functions of an address, both opaque. */
  datatype Hashes = Hashes(sha: Sha256, ripemd: Bytes -> Bytes)

  function HashPubKey(h: Hashes, pubKey: Bytes): Bytes {
    h.ripemd(h.sha.Of(pubKey))
  }

  function Checksum(h: Hashes, payload: Bytes): (sum: Bytes)
    ensures |sum| == ADDRESS_CHECKSUM_LEN
  {
    h.sha.Of(h.sha.Of(payload))[..ADDRESS_CHECKSUM_LEN]
  }

  function Address(h: Hashes, pubKey: Bytes): Bytes {
    var payload := [VERSION] + HashPubKey(h, pubKey);
    Base58.Encode(payload + Checksum(h, payload))
  }

  predicate ChecksumMatches(h: Hashes, decoded: Bytes) {
    var n := |decoded| - ADDRESS_CHECKSUM_LEN;
    n >= 1 && decoded[n..] == Checksum(h, decoded[..n])
  }

  predicate Valid(h: Hashes, address: Bytes) {
    match Base58.Decode(address)
    case Throws => false
    case Ok(decoded) => ChecksumMatches(h, decoded)
  }

  /** The key hash between the version byte and the checksum; the checksum itself is not looked at. */
  function Locked(address: Bytes): Result<Bytes> {
    match Base58.Decode(address)
    case Throws => Throws
    case Ok(decoded) =>
      if |decoded| < 1 + ADDRESS_CHECKSUM_LEN then Throws
      else Ok(decoded[1..|decoded| - ADDRESS_CHECKSUM_LEN])
  }

  function NewTXOutput(value: int, address: Bytes): Result<TxOut> {
    if !(0 <= value < TWO_63) then Throws
    else match Locked(address)
      case Throws => Throws
      case Ok(pubKeyHash) => Ok(TxOut(value, pubKeyHash))
  }

  /** Every address a wallet hands out is valid, and an output sent to it is locked to that wallet's key. */
  lemma {:induction false} AddressRoundTrip(h: Hashes, pubKey: Bytes, value: Amount)
    ensures Valid(h, Address(h, pubKey))
    ensures NewTXOutput(value, Address(h, pubKey)) == Ok(TxOut(value, HashPubKey(h, pubKey)))
  {
    hide Base58.Encode, Base58.Decode, Checksum;
    var payload := [VERSION] + HashPubKey(h, pubKey);
    var bytes := payload + Checksum(h, payload);
    Base58.DecodeEncode(bytes);
    assert bytes[..|payload|] == payload && bytes[|payload|..] == Checksum(h, payload);
    assert bytes[1..|payload|] == HashPubKey(h, pubKey);
  }

  /** Two wallets share an address only if their keys have the same hash. */
  lemma {:induction false} AddressIdentifies(h: Hashes, a: Bytes, b: Bytes)
    ensures Address(h, a) == Address(h, b) <==> HashPubKey(h, a) == HashPubKey(h, b)
  {
    AddressRoundTrip(h, a, 0);
    AddressRoundTrip(h, b, 0);
  }

  /** A valid address can always be paid to. */
  lemma {:induction false} ValidCanBePaid(h: Hashes, address: Bytes, value: Amount)
    requires Valid(h, address)
    ensures NewTXOutput(value, address).Ok?
  {
  }

  /** What an address spells: a version byte of 0, the hash of the key, and four bytes of the double hash of both. */
  lemma {:induction false} AddressSpells(h: Hashes, pubKey: Bytes)
    ensures var payload := [0] + h.ripemd(h.sha.Of(pubKey));
            Base58.Decode(Address(h, pubKey)) == Ok(payload + h.sha.Of(h.sha.Of(payload))[..4])
  {
    hide Base58.Encode, Base58.Decode;
    var payload := [VERSION] + HashPubKey(h, pubKey);
    Base58.DecodeEncode(payload + Checksum(h, payload));
  }

  ghost predicate Spells(h: Hashes, address: Bytes, payload: Bytes) {
    payload != [] && Base58.Decode(address) == Ok(payload + h.sha.Of(h.sha.Of(payload))[..4])
  }

  /** The texts that are valid spell some bytes, at least one, and behind them four bytes of their double hash. */
  lemma {:induction false} ValidMeans(h: Hashes, address: Bytes)
    ensures Valid(h, address) <==> exists payload :: Spells(h, address, payload)
  {
    hide Base58.Decode;
    if Valid(h, address) {
      var decoded := Base58.Decode(address).value;
      var n := |decoded| - 4;
      assert decoded == decoded[..n] + decoded[n..];
      assert Spells(h, address, decoded[..n]);
    }
  }

  method GetAddress(h: Hashes, publicKey: Bytes) returns (address: Bytes)
    ensures address == Address(h, publicKey)
  {
    hide Base58.Encode;
    var payload: Bytes := [VERSION];
    payload := payload + HashPubKey(h, publicKey);
    var checksum := Checksum(h, payload);
    address := Base58.Base58Encode(payload + checksum);
  }

  method ValidateAddress(h: Hashes, address: Bytes) returns (ok: bool)
    ensures ok <==> Valid(h, address)
  {
    hide Base58.Decode;
    var r := Base58.Base58Decode(address);
    if r.Throws? { return false; }
    var decoded := r.value;
    if |decoded| < ADDRESS_CHECKSUM_LEN + 1 { return false; }
    var n := |decoded| - ADDRESS_CHECKSUM_LEN;
    var actual, version, pubKeyHash := decoded[n..], decoded[0], decoded[1..n];
    var payload := [version] + pubKeyHash;
    assert payload == decoded[..n];
    return actual == Checksum(h, payload);
  }
}

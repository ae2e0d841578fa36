/** Bytes, machine integers, and the results of operations that can throw. */
module Base {

  type Byte = b: int | 0 <= b < 256
  type Bytes = seq<Byte>

  const TWO_31 := 0x8000_0000
  const TWO_32 := 0x1_0000_0000
  const TWO_63 := 0x8000_0000_0000_0000
  const TWO_64 := 0x1_0000_0000_0000_0000

  type Int32 = x: int | -TWO_31 <= x < TWO_31
  type Int64 = x: int | -TWO_63 <= x < TWO_63

  /** An output value: the constructor and the parser both throw on a negative one. */
  type Amount = x: int | 0 <= x < TWO_63

  datatype Option<+T> = None | Some(value: T)

  /** The outcome of an operation of the source that may throw. */
  datatype Result<+T> = Ok(value: T) | Throws

  const ZERO_HASH: Bytes :=
    [0, 0, 0, 0, 0, 0, 0, 0, 0, 0, 0, 0, 0, 0, 0, 0, 0, 0, 0, 0, 0, 0, 0, 0, 0, 0, 0, 0, 0, 0, 0, 0]

  /** SHA-256 is opaque: any function from bytes to 32 bytes. */
  datatype Sha256 = Sha256(digest: Bytes -> Bytes) {
    function Of(b: Bytes): (d: Bytes)
      ensures |d| == 32
    {
      if |digest(b)| == 32 then digest(b) else ZERO_HASH
    }
  }

  /** Two different inputs that the hash function maps to the same digest. */
  datatype Collision = Collision(left: Bytes, right: Bytes)

  predicate IsCollision(sha: Sha256, c: Collision) {
    c.left != c.right && sha.Of(c.left) == sha.Of(c.right)
  }

  /** `b` occupies the bytes of `data` that start at `offset`. */
  predicate At(data: Bytes, offset: nat, b: Bytes) {
    offset + |b| <= |data| && data[offset..offset + |b|] == b
  }

  lemma {:induction false} AtConcat(data: Bytes, offset: nat, a: Bytes, b: Bytes)
    ensures At(data, offset, a + b) <==> At(data, offset, a) && At(data, offset + |a|, b)
  {
    if offset + |a| + |b| <= |data| {
      var whole := data[offset..offset + |a| + |b|];
      assert whole[..|a|] == data[offset..offset + |a|];
      assert whole[|a|..] == data[offset + |a|..offset + |a| + |b|];
      assert whole == whole[..|a|] + whole[|a|..];
      assert (a + b)[..|a|] == a && (a + b)[|a|..] == b;
    }
  }

  lemma {:induction false} WholeAt(data: Bytes)
    ensures At(data, 0, data)
  {
  }

  lemma {:induction false} Pick<T>(s: set<T>) returns (x: T)
    requires s != {}
    ensures x in s
  {
    x :| x in s;
  }
}

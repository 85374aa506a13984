/** Byte strings, the machine integers of the log, and their big-endian encoding. */
module Bytes {

  datatype Option<+T> = None | Some(value: T)

  type byte = x: int | 0 <= x < 256
  type bytes = seq<byte>

  const TWO_TO_THE_63: int := 0x8000_0000_0000_0000
  const TWO_TO_THE_64: int := 0x1_0000_0000_0000_0000

  type uint64 = x: int | 0 <= x < TWO_TO_THE_64
  type int64 = x: int | -TWO_TO_THE_63 <= x < TWO_TO_THE_63

  /** A byte slice or string of the program: its length is a machine `int`. */
  type Blob = b: bytes | |b| < TWO_TO_THE_63

  /** The result of the hash primitive: 32 bytes. */
  type Digest = b: bytes | |b| == 32 witness seq(32, i => 0)

  /** The characters of an ASCII literal. */
  function Ascii(s: string): (b: bytes)
    ensures |b| == |s|
  {
    seq(|s|, i requires 0 <= i < |s| => (s[i] as int) % 256)
  }

  ghost function Pow256(k: nat): (p: nat)
    ensures p > 0
  {
    if k == 0 then 1 else 256 * Pow256(k - 1)
  }

  /** The `k` low-order bytes of `n`, most significant first. */
  function BigEndian(n: nat, k: nat): (b: bytes)
    ensures |b| == k
  {
    if k == 0 then [] else BigEndian(n / 256, k - 1) + [n % 256]
  }

  lemma {:induction false} BigEndianInjective(m: nat, n: nat, k: nat)
    requires m < Pow256(k) && n < Pow256(k)
    requires BigEndian(m, k) == BigEndian(n, k)
    ensures m == n
  {
    if k > 0 {
      var a, b := BigEndian(m, k), BigEndian(n, k);
      assert a[..k - 1] == BigEndian(m / 256, k - 1) && b[..k - 1] == BigEndian(n / 256, k - 1);
      assert a[k - 1] == m % 256 && b[k - 1] == n % 256;
      BigEndianInjective(m / 256, n / 256, k - 1);
    }
  }

  /** The number that bytes stand for, the first one weighing most. */
  ghost function FromBigEndian(b: bytes): nat {
    if b == [] then 0 else b[0] * Pow256(|b| - 1) + FromBigEndian(b[1..])
  }

  lemma {:induction false} FromBigEndianAppend(b: bytes, x: byte)
    ensures FromBigEndian(b + [x]) == 256 * FromBigEndian(b) + x
  {
    if b == [] {
      assert b + [x] == [x] && [x][1..] == [];
    } else {
      assert (b + [x])[1..] == b[1..] + [x];
      FromBigEndianAppend(b[1..], x);
      assert b[0] * Pow256(|b|) == 256 * (b[0] * Pow256(|b| - 1));
    }
  }

  /** The bytes stand for the number. */
  lemma {:induction false} BigEndianValue(n: nat, k: nat)
    requires n < Pow256(k)
    ensures FromBigEndian(BigEndian(n, k)) == n
  {
    if k > 0 {
      BigEndianValue(n / 256, k - 1);
      FromBigEndianAppend(BigEndian(n / 256, k - 1), n % 256);
    }
  }

  lemma Pow256Of8()
    ensures Pow256(8) == TWO_TO_THE_64
  {
    assert Pow256(4) == 0x1_0000_0000;
  }

  /** `binary.BigEndian.PutUint64`. */
  function BE64(n: uint64): (b: Blob)
    ensures |b| == 8
  {
    BigEndian(n, 8)
  }

  lemma BE64Injective(m: uint64, n: uint64)
    requires BE64(m) == BE64(n)
    ensures m == n
  {
    Pow256Of8();
    BigEndianInjective(m, n, 8);
  }

  /** Eight bytes, most significant first. */
  lemma BE64Value(n: uint64)
    ensures |BE64(n)| == 8 && FromBigEndian(BE64(n)) == n
  {
    Pow256Of8();
    BigEndianValue(n, 8);
  }
}

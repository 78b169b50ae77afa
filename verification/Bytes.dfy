/** Bytes and the 32-bit big-endian integers both wire formats use. */
module Bytes {
  type Byte = x: int | 0 <= x < 0x100

  const TWO_32 := 0x1_0000_0000
  const TWO_64 := 0x1_0000_0000_0000_0000

  function Min(a: nat, b: nat): nat {
    if a <= b then a else b
  }

  function Take<T>(s: seq<T>, n: nat): seq<T> {
    s[..Min(|s|, n)]
  }

  function Zeros(n: nat): (z: seq<Byte>)
    ensures |z| == n
  {
    seq(n, _ => 0)
  }

  // ----- 32-bit big-endian integers -----

  function PutBig32(n: nat): (b: seq<Byte>)
    requires n < TWO_32
    ensures |b| == 4
  {
    [n / 0x100_0000, n / 0x1_0000 % 0x100, n / 0x100 % 0x100, n % 0x100]
  }

  function GetBig32(b: seq<Byte>): (n: nat)
    requires |b| >= 4
    ensures n < TWO_32
  {
    0x100_0000 * b[0] as int + 0x1_0000 * b[1] as int + 0x100 * b[2] as int + b[3]
  }

  lemma GetPutBig32(n: nat, rest: seq<Byte>)
    requires n < TWO_32
    ensures GetBig32(PutBig32(n) + rest) == n
  {
    var n1 := n / 0x100;
    var n2 := n1 / 0x100;
    assert n / 0x1_0000 == n2;
    assert n / 0x100_0000 == n2 / 0x100;
  }

  lemma PutGetBig32(b: seq<Byte>)
    requires |b| == 4
    ensures PutBig32(GetBig32(b)) == b
  {
    var n := GetBig32(b);
    assert n / 0x100 == 0x1_0000 * b[0] as int + 0x100 * b[1] as int + b[2];
    assert n / 0x1_0000 == 0x100 * b[0] as int + b[1];
    assert n / 0x100_0000 == b[0];
  }
}

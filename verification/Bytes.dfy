/** Machine integers and byte sums shared by every layer of the driver. */
module Bytes {
  type byte = x: int | 0 <= x < 256
  type uint16 = x: int | 0 <= x < 0x1_0000
  type uint32 = x: int | 0 <= x < 0x1_0000_0000

  datatype Option<+T> = None | Some(value: T)

  function Min(a: nat, b: nat): nat {
    if a <= b then a else b
  }

  /** Conversion to an unsigned 32-bit integer: reduction modulo 2^32. */
  function Wrap(n: int): uint32 {
    n % 0x1_0000_0000
  }

  lemma WrapSmall(n: uint32)
    ensures Wrap(n) == n
  {
  }

  lemma WrapAdd(n: int, k: int)
    ensures Wrap(Wrap(n) + k) == Wrap(n + k)
  {
  }

  lemma MulMonotone(a: nat, b: nat, c: nat)
    requires a <= b
    ensures a * c <= b * c
  {
  }

  /** The exact sum of a byte string; the wire carries its low byte only. */
  function Sum(s: seq<byte>): nat {
    if s == [] then 0 else Sum(s[..|s| - 1]) + s[|s| - 1]
  }

  lemma SumSnoc(s: seq<byte>, b: byte)
    ensures Sum(s + [b]) == Sum(s) + b
  {
  }

  /** Byte strings end to end. */
  function Flat(chunks: seq<seq<byte>>): seq<byte> {
    if chunks == [] then [] else Flat(chunks[..|chunks| - 1]) + chunks[|chunks| - 1]
  }

  /** `n` zero bytes: a freshly cleared fixed-size buffer. */
  function Zeros(n: nat): (z: seq<byte>)
    ensures |z| == n && forall i :: 0 <= i < n ==> z[i] == 0
  {
    seq(n, i => 0)
  }

  lemma {:induction false} SumZeros(s: seq<byte>, n: nat)
    ensures Sum(s + Zeros(n)) == Sum(s)
  {
    if n == 0 {
      assert s + Zeros(n) == s;
    } else {
      SumZeros(s, n - 1);
      assert (s + Zeros(n))[..|s| + n - 1] == s + Zeros(n - 1);
    }
  }
}

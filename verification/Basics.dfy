/** Values shared by every part of the broker model. */
module Basics {

  datatype Option<+T> = None | Some(value: T)

  /** An operation's answer: a value, or the error the broker reports. */
  datatype Result<+T> = Ok(value: T) | Err(error: string)

  /** The largest value of the broker's 64-bit unsigned integers. */
  const MaxU64: nat := 0xFFFF_FFFF_FFFF_FFFF

  const MaxU32: nat := 0xFFFF_FFFF

  type U64 = x: int | 0 <= x <= 0xFFFF_FFFF_FFFF_FFFF
  type U32 = x: int | 0 <= x <= 0xFFFF_FFFF
  type U16 = x: int | 0 <= x <= 0xFFFF
  type Byte = x: int | 0 <= x <= 0xFF

  datatype TopicPartition = TopicPartition(topic: string, partition: nat)

  function Max(a: int, b: int): (m: int)
    ensures m >= a && m >= b && (m == a || m == b)
  {
    if a < b then b else a
  }

  function Min(a: int, b: int): (m: int)
    ensures m <= a && m <= b && (m == a || m == b)
  {
    if a < b then a else b
  }

  /** f of every element, in order. */
  function All<T, U>(xs: seq<T>, f: T -> U): (ys: seq<U>)
    ensures |ys| == |xs| && forall i :: 0 <= i < |xs| ==> ys[i] == f(xs[i])
  {
    seq(|xs|, i requires 0 <= i < |xs| => f(xs[i]))
  }

  lemma {:induction false} MulStep(m: nat, a: nat, b: nat)
    requires a < b
    ensures m * a + m <= m * b
    decreases b
  {
    assert m * b == m * (b - 1) + m;
    if a < b - 1 { MulStep(m, a, b - 1); }
  }

  lemma {:induction false} DivModUnique(x: nat, m: nat, q: nat, r: nat)
    requires m > 0 && r < m && x == m * q + r
    ensures x / m == q && x % m == r
  {
    if q < x / m {
      MulStep(m, q, x / m);
    } else if x / m < q {
      MulStep(m, x / m, q);
    }
  }
}

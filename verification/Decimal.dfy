/** Unsigned decimal numbers in header values. */
module Decimal {
  import opened Basics
  import opened Messages

  function Digit(d: nat): Byte
    requires d < 10
  {
    48 + d
  }

  function Format(n: nat): (b: Bytes)
    ensures b != []
  {
    if n < 10 then [Digit(n)] else Format(n / 10) + [Digit(n % 10)]
  }

  /** The value of a string of digits; nothing for an empty string or any other character. */
  function Value(b: Bytes): Option<nat> {
    if b == [] || !(48 <= b[|b| - 1] <= 57) then None
    else if |b| == 1 then Some(b[0] - 48)
    else
      match Value(b[..|b| - 1]) case None => None case Some(v) => Some(10 * v + b[|b| - 1] - 48)
  }

  function Parse(b: Bytes, max: nat): Option<nat> {
    match Value(b) case None => None case Some(v) => if v > max then None else Some(v)
  }

  lemma {:induction false} ParseFormat(n: nat, max: nat)
    requires n <= max
    ensures Parse(Format(n), max) == Some(n)
  {
    ValueFormat(n);
  }

  lemma {:induction false} ValueFormat(n: nat)
    ensures Value(Format(n)) == Some(n)
  {
    if n >= 10 {
      ValueFormat(n / 10);
      var b := Format(n);
      assert b[..|b| - 1] == Format(n / 10);
    }
  }
}

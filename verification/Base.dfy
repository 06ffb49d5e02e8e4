/** Types shared by every part of the model. */
module Base {

  type Byte = b: int | 0 <= b < 256

  /** A Go byte slice or string, seen as a value. */
  type Bytes = seq<Byte>

  datatype Option<+T> = None | Some(value: T)

  /** The name of a connection. */
  type ClientId = string

  predicate Distinct<T(==)>(xs: seq<T>) {
    forall i, j :: 0 <= i < j < |xs| ==> xs[i] != xs[j]
  }

  const TWO63: int := 0x8000_0000_0000_0000
  const TWO64: int := 0x1_0000_0000_0000_0000

  /** A Go int: 64 bits, signed, wrapping around. */
  function Wrap(n: int): (r: int)
    ensures -TWO63 <= r < TWO63
    ensures -TWO63 <= n < TWO63 ==> r == n
  {
    var low := n % TWO64;
    if low < TWO63 then low else low - TWO64
  }
}

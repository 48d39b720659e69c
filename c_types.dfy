/** C integer types and operators used across the model.
    Dafny integers are unbounded; the C widths and C's truncating division are
    written out here so that every module narrows and divides the way the C code does. */
module CTypes {

  /** `uint8_t` */
  type uint8 = x: int | 0 <= x < 256
  /** `uint16_t` */
  type uint16 = x: int | 0 <= x < 65536
  /** `int8_t` */
  type int8 = x: int | -128 <= x < 128
  /** `short` */
  type int16 = x: int | -32768 <= x < 32768

  datatype Option<T> = None | Some(value: T)

  /** Conversion of an int to `int16_t` (`short`), two's-complement wrap-around. */
  function ToInt16(v: int): (r: int16)
    ensures (v - r) % 65536 == 0
    ensures -32768 <= v < 32768 ==> r == v
  {
    (v + 32768) % 65536 - 32768
  }

  /** Conversion of an int to `int8_t`, two's-complement wrap-around. */
  function ToInt8(v: int): (r: int8)
    ensures (v - r) % 256 == 0
    ensures -128 <= v < 128 ==> r == v
  {
    (v + 128) % 256 - 128
  }

  /** Increment of a `uint8_t` counter (`x++` wraps from 255 to 0). */
  function IncUint8(x: uint8): (r: uint8)
    ensures x < 255 ==> r == x + 1
    ensures x == 255 ==> r == 0
  {
    (x + 1) % 256
  }

  /** C's `/` on int: the quotient is truncated toward zero (Dafny's `/` is Euclidean). */
  function TruncDiv(a: int, b: int): (q: int)
    requires b > 0
    ensures a >= 0 ==> 0 <= q && q * b <= a < q * b + b
    ensures a < 0 ==> q <= 0 && q * b - b < a <= q * b
  {
    if a >= 0 then
      DivBounds(a, b);
      a / b
    else
      DivBounds(-a, b);
      -((-a) / b)
  }

  lemma DivBounds(n: nat, b: int)
    requires b > 0
    ensures 0 <= n / b && (n / b) * b <= n < (n / b) * b + b
    ensures (-(n / b)) * b == -((n / b) * b)
  {
    var q, r := n / b, n % b;
    assert n == b * q + r && 0 <= r < b;
    assert q * b == b * q;
  }
}

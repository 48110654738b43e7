/** Shared vocabulary of the benchmark model: Go's fixed-width unsigned
    integers, bytes, and the value-or-error shape of every call into the
    storage node. */
module Common {

  const TWO_64: int := 0x1_0000_0000_0000_0000

  /** Go's `uint64`. */
  type U64 = x: int | 0 <= x < TWO_64

  /** Go's `byte`. */
  type Byte = x: int | 0 <= x < 256

  datatype Option<+T> = None | Some(value: T)

  /** What a call into the node (or the local file system) gives back:
      a value, or the text of the Go `error`. */
  datatype Result<+T> = Ok(value: T) | Err(error: string)

  /** `a + b` on `uint64`: wraps around at 2^64. */
  function AddU64(a: U64, b: U64): (r: U64)
    ensures a + b < TWO_64 ==> r == a + b
    ensures a + b >= TWO_64 ==> r == a + b - TWO_64 && r < a && r < b
  {
    (a + b) % TWO_64
  }

  /** `a * b` on `uint64`: keeps the low 64 bits. */
  function MulU64(a: U64, b: U64): (r: U64)
    ensures a * b < TWO_64 ==> r == a * b
  {
    var p := a * b;
    ProductNonneg(a, b);
    if p < TWO_64 then p else p % TWO_64
  }

  lemma ProductNonneg(a: nat, b: nat)
    ensures a * b >= 0
  {
  }

  lemma ModSmall(x: int)
    requires 0 <= x < TWO_64
    ensures x % TWO_64 == x
  {
  }

  /** Adding a second term after reducing the first gives the same low 64
      bits as adding first: this is why a running `uint64` total equals the
      true total modulo 2^64. */
  lemma AddMod(a: int, b: int)
    ensures (a % TWO_64 + b) % TWO_64 == (a + b) % TWO_64
  {
    var q := a / TWO_64;
    assert a == q * TWO_64 + a % TWO_64;
    assert a + b == (a % TWO_64 + b) + q * TWO_64;
    ModShift(a % TWO_64 + b, q);
  }

  lemma ModShift(x: int, q: int)
    ensures (x + q * TWO_64) % TWO_64 == x % TWO_64
  {
    var r := x % TWO_64;
    var k := x / TWO_64;
    assert x == k * TWO_64 + r;
    assert x + q * TWO_64 == (k + q) * TWO_64 + r;
  }
}

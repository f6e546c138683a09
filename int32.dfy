/** Java's `int`: 32-bit two's complement arithmetic that wraps around. */
module Int32 {
  const MIN: int := -0x8000_0000
  const MAX: int := 0x7FFF_FFFF
  const MODULUS: int := 0x1_0000_0000

  newtype int32 = x: int | -0x8000_0000 <= x < 0x8000_0000

  /** The `int` that Java's arithmetic yields for the mathematical value `x`. */
  function Wrap(x: int): int32
  {
    var m := x % MODULUS;
    if m > MAX then (m - MODULUS) as int32 else m as int32
  }

  /** `Wrap` changes its argument by a whole number of turns of 2^32. */
  lemma WrapCongruent(x: int)
    ensures (Wrap(x) as int - x) % MODULUS == 0
  {
  }

  /** A value that fits is left as it is, and that is the only value in range it can be. */
  lemma WrapInRange(x: int)
    requires MIN <= x <= MAX
    ensures Wrap(x) as int == x
  {
    var r := Wrap(x) as int;
    WrapCongruent(x);
    assert -MODULUS < r - x < MODULUS;
  }

  /** `x * y` on Java `int`s. */
  function Mul(x: int32, y: int32): int32
  {
    Wrap(x as int * y as int)
  }

  /** `x + y` on Java `int`s. */
  function Add(x: int32, y: int32): int32
  {
    Wrap(x as int + y as int)
  }

  /** `x++`: one more, except that `MAX` wraps around to `MIN`. */
  lemma IncrementWraps(x: int32)
    ensures Add(x, 1) as int == if x as int == MAX then MIN else x as int + 1
  {
    if x as int < MAX {
      WrapInRange(x as int + 1);
    } else {
      WrapInRange(MIN);
      assert (MIN - (x as int + 1)) % MODULUS == 0;
    }
  }

  /** A product of two `int`s that are not negative is exact while it fits. */
  lemma MulInRange(x: int32, y: int32)
    requires 0 <= x && 0 <= y && x as int * y as int <= MAX
    ensures Mul(x, y) as int == x as int * y as int
  {
    var p := x as int * y as int;
    assert 0 <= p by {
      ProductOfNaturals(x as int, y as int);
    }
    WrapInRange(p);
  }

  lemma ProductOfNaturals(a: nat, b: nat)
    ensures a * b >= 0
  {
  }

  /** A sum of two `int`s that are not negative is exact while it fits. */
  lemma AddInRange(x: int32, y: int32)
    requires 0 <= x && 0 <= y && x as int + y as int <= MAX
    ensures Add(x, y) as int == x as int + y as int
  {
    WrapInRange(x as int + y as int);
  }

  /** Values that differ by whole turns of 2^32 wrap to the same `int`. */
  lemma WrapOfCongruent(a: int, b: int)
    requires (a - b) % MODULUS == 0
    ensures Wrap(a) == Wrap(b)
  {
    var k := (a - b) / MODULUS;
    assert a == b + k * 0x1_0000_0000;
    assert a % MODULUS == b % MODULUS;
  }

  /** `x++` on a wrapped value wraps the successor. */
  lemma AddOneToWrap(x: int)
    ensures Add(Wrap(x), 1) == Wrap(x + 1)
  {
    WrapCongruent(x);
    WrapOfCongruent(Wrap(x) as int + 1, x + 1);
  }
}

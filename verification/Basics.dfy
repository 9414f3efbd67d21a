/** What the memory side and the scheduling side of the model share. */
module Basics {

  const NR_TASKS := 10

  const TWO32 := 0x1_0000_0000

  /** An `unsigned long`. */
  type U32 = x: int | 0 <= x < TWO32

  const TWO31 := 0x8000_0000

  /** An `int`. */
  type I32 = x: int | -TWO31 <= x < TWO31

  /** The `int` that a result becomes: two's complement. */
  function Int32(x: int): (r: I32)
    ensures -TWO31 <= x < TWO31 ==> r == x
    ensures (x - r) % TWO32 == 0
  {
    (x + TWO31) % TWO32 - TWO31
  }

  /** The `int` depends on the value modulo 2^32 only. */
  lemma Int32Step(x: int, y: int)
    ensures Int32(Int32(x) + y) == Int32(x + y)
  {
    var k := (x - Int32(x)) / TWO32;
    assert x == Int32(x) + TWO32 * k;
    ShiftMod(Int32(x) + y + TWO31, k);
  }

  lemma ShiftMod(x: int, k: int)
    ensures (x + TWO32 * k) % TWO32 == x % TWO32
  {
    var y := x + TWO32 * k;
    assert TWO32 * (y / TWO32 - x / TWO32 - k) == x % TWO32 - y % TWO32;
  }

  datatype Option<+T> = None | Some(value: T)

  predicate Distinct<T(==)>(q: seq<T>) {
    forall i, j :: 0 <= i < j < |q| ==> q[i] != q[j]
  }
}

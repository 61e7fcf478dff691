/** Small shared vocabulary: an optional value (the model of a C# null
    reference) and the bounds of the 32-bit `int` of the runtime. */
module Common {

  datatype Option<+T> = None | Some(value: T)

  const MinInt32: int := -0x8000_0000
  const MaxInt32: int := 0x7FFF_FFFF

  predicate InInt32(x: int) {
    MinInt32 <= x <= MaxInt32
  }

  /** Two's-complement wrap-around of an unchecked 32-bit addition result. */
  function Wrap32(x: int): (r: int)
    ensures InInt32(r)
    ensures InInt32(x) ==> r == x
    ensures (r - x) % 0x1_0000_0000 == 0
  {
    (x - MinInt32) % 0x1_0000_0000 + MinInt32
  }

  /** `Mathf.Clamp(value, min, max)` on integers. */
  function Clamp(x: int, lo: int, hi: int): (r: int)
    requires lo <= hi
    ensures lo <= r <= hi
    ensures lo <= x <= hi ==> r == x
    ensures x < lo ==> r == lo
    ensures x > hi ==> r == hi
  {
    if x < lo then lo else if x > hi then hi else x
  }
}

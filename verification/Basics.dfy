/** Types and machine-integer helpers shared by every module. */
module Basics {

  datatype Option<+T> = None | Some(value: T)

  datatype Result<+T, +E> = Ok(value: T) | Err(error: E)

  type byte = b: int | 0 <= b < 256

  const INT64_MIN: int := -0x8000_0000_0000_0000
  const INT64_MAX: int := 0x7FFF_FFFF_FFFF_FFFF
  const TWO_64: int := 0x1_0000_0000_0000_0000

  predicate IsInt64(n: int) {
    INT64_MIN <= n <= INT64_MAX
  }

  /** Two's-complement wrap-around of a 64-bit signed operation. */
  function Wrap64(n: int): (r: int)
    ensures IsInt64(r)
    ensures IsInt64(n) ==> r == n
  {
    if IsInt64(n) then n else (n - INT64_MIN) % TWO_64 + INT64_MIN
  }

  /** The saturated value a range error leaves behind when its error is ignored. */
  function Clamp64(n: int): (r: int)
    ensures IsInt64(r)
    ensures IsInt64(n) ==> r == n
  {
    if n < INT64_MIN then INT64_MIN else if n > INT64_MAX then INT64_MAX else n
  }

  lemma {:induction false} SubsetSize<T>(a: set<T>, b: set<T>)
    requires a <= b
    ensures |a| <= |b|
    decreases a
  {
    if a != {} {
      var x :| x in a;
      SubsetSize(a - {x}, b - {x});
    }
  }

  /** The first of the marked positions. */
  lemma {:induction false} FirstMarked(marks: seq<bool>) returns (i: nat)
    requires true in marks
    ensures i < |marks| && marks[i] && forall j | 0 <= j < i :: !marks[j]
  {
    i := 0;
    if !marks[0] {
      var k := FirstMarked(marks[1..]);
      assert forall j | 0 < j < |marks| :: marks[j] == marks[1..][j - 1];
      i := k + 1;
    }
  }
}

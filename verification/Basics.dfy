/** Small definitions shared by the models. */
module Basics {
  datatype Option<+T> = None | Some(value: T)

  const SIZE_MAX: nat := 0xFFFF_FFFF_FFFF_FFFF

  /** The values of a 64-bit size_t. */
  type Size = x: int | 0 <= x <= 0xFFFF_FFFF_FFFF_FFFF

  /** Unsigned addition of the machine: wraps around. */
  function AddWrap(a: Size, b: Size): Size {
    if a + b <= SIZE_MAX then a + b else a + b - SIZE_MAX - 1
  }

  function SubWrap(a: Size, b: Size): Size {
    if a >= b then a - b else a - b + SIZE_MAX + 1
  }

  /** aws_add_size_saturating */
  function AddSaturating(a: Size, b: Size): Size {
    if a + b <= SIZE_MAX then a + b else SIZE_MAX
  }

  function Min(a: int, b: int): int {
    if a < b then a else b
  }

  /** The state after the first `n` elements of a list have been processed in turn. */
  function FoldLeft<S, A>(f: (S, A) -> S, s: S, list: seq<A>, n: nat): S
    requires n <= |list|
  {
    if n == 0 then s else f(FoldLeft(f, s, list, n - 1), list[n - 1])
  }

  /** What holds at the start and is carried over each element holds at the end. */
  lemma {:induction false} FoldInvariant<S(!new), A>(
    f: (S, A) -> S, inv: (S, nat) -> bool, s: S, list: seq<A>, n: nat)
    requires n <= |list| && inv(s, 0)
    requires forall t, i :: 0 <= i < n && inv(t, i) ==> inv(f(t, list[i]), i + 1)
    ensures inv(FoldLeft(f, s, list, n), n)
  {
    if n > 0 {
      FoldInvariant(f, inv, s, list, n - 1);
      var t := FoldLeft(f, s, list, n - 1);
      assert inv(t, n - 1);
    }
  }

  /** All the sequences one after the other. */
  function Flatten<T>(parts: seq<seq<T>>): seq<T> {
    if parts == [] then [] else parts[0] + Flatten(parts[1..])
  }
}

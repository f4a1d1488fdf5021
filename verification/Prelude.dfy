/** Machine integers, failure values and the few sequence helpers that every other module uses. */
module Prelude {

  const U16_MAX: int := 0xFFFF
  const U32_MAX: int := 0xFFFF_FFFF
  const U64_MAX: int := 0xFFFF_FFFF_FFFF_FFFF

  type u8 = x: int | 0 <= x <= 0xFF
  type u16 = x: int | 0 <= x <= 0xFFFF
  type u32 = x: int | 0 <= x <= 0xFFFF_FFFF
  type u64 = x: int | 0 <= x <= 0xFFFF_FFFF_FFFF_FFFF

  datatype Option<+T> = None | Some(value: T) {
    predicate IsFailure() { None? }

    function PropagateFailure<U>(): Option<U>
      requires None?
    {
      None
    }

    function Extract(): T
      requires Some?
    {
      value
    }
  }

  datatype Result<+T, +E> = Ok(value: T) | Err(error: E) {
    predicate IsFailure() { Err? }

    function PropagateFailure<U>(): Result<U, E>
      requires Err?
    {
      Err(error)
    }

    function Extract(): T
      requires Ok?
    {
      value
    }
  }

  /** A check that has no value: the `require!` of the bridge program. */
  datatype Outcome<+E> = Pass | Fail(error: E) {
    predicate IsFailure() { Fail? }

    function PropagateFailure<U>(): Result<U, E>
      requires Fail?
    {
      Err(error)
    }
  }

  function Need<E>(condition: bool, error: E): Outcome<E> {
    if condition then Pass else Fail(error)
  }

  /** `checked_add(..).ok_or(error)` on a u64. */
  function CheckedAdd<E>(a: u64, b: u64, error: E): Result<u64, E> {
    if a + b <= U64_MAX then Ok(a + b) else Err(error)
  }

  /** `checked_sub(..).ok_or(error)` on a u64. */
  function CheckedSub<E>(a: u64, b: u64, error: E): Result<u64, E> {
    if b <= a then Ok(a - b) else Err(error)
  }

  /** `checked_mul(..).ok_or(error)` on a u64. */
  function CheckedMul<E>(a: u64, b: u64, error: E): Result<u64, E> {
    if 0 <= a * b <= U64_MAX then Ok(a * b) else Err(error)
  }

  function SaturatingAdd(a: u64, b: u64): u64 {
    if a + b <= U64_MAX then a + b else U64_MAX
  }

  function SaturatingSub(a: u64, b: u64): u64 {
    if b <= a then a - b else 0
  }

  function Min(a: int, b: int): int {
    if a <= b then a else b
  }

  function Max(a: int, b: int): int {
    if a <= b then b else a
  }

  ghost function Sum(s: seq<int>): int {
    if s == [] then 0 else s[0] + Sum(s[1..])
  }

  lemma {:induction false} SumAppend(a: seq<int>, b: seq<int>)
    ensures Sum(a + b) == Sum(a) + Sum(b)
  {
    if a == [] {
      assert a + b == b;
    } else {
      assert (a + b)[1..] == a[1..] + b;
      SumAppend(a[1..], b);
    }
  }

  /** A permutation holds the last element of the other list at some place, and
      without it the rest is a permutation again. */
  lemma {:induction false} WithoutLast<T>(a: seq<T>, b: seq<T>) returns (j: nat)
    requires a != [] && multiset(a) == multiset(b)
    ensures j < |b| && b[j] == a[|a| - 1]
    ensures multiset(a[..|a| - 1]) == multiset(b[..j] + b[j + 1..])
    ensures b == b[..j] + [b[j]] + b[j + 1..]
  {
    var n := |a| - 1;
    assert a == a[..n] + [a[n]];
    assert a[n] in multiset(a);
    assert a[n] in multiset(b);
    j :| 0 <= j < |b| && b[j] == a[n];
    assert b == b[..j] + [b[j]] + b[j + 1..];
    assert multiset(b) == multiset(b[..j]) + multiset{b[j]} + multiset(b[j + 1..]);
    assert multiset(a) == multiset(a[..n]) + multiset{a[n]};
    assert multiset(b[..j] + b[j + 1..]) == multiset(b[..j]) + multiset(b[j + 1..]);
    assert multiset(a[..n]) == multiset(a) - multiset{a[n]};
    assert multiset(b[..j]) + multiset(b[j + 1..]) == multiset(b) - multiset{b[j]};
  }
}

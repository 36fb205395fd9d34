/**
 The JavaScript array operations the wheel applies to its lists: reading an
 element by index (`undefined` outside the array), `indexOf`, `splice(i, 1)`
 and `filter` with `!==`. Arrays are modelled as sequences; each operation
 returns the new contents.
 */
module JsArray {

  /** A value or JavaScript's `undefined`. */
  datatype Option<T> = None | Some(value: T)

  /** `a[i]` for an integer `i`. */
  function At<T>(a: seq<T>, i: int): Option<T> {
    if 0 <= i < |a| then Some(a[i]) else None
  }

  /** `a.indexOf(x)`: the position of the first occurrence of `x`, or -1. */
  function IndexOf<T(==)>(a: seq<T>, x: T): (r: int)
    ensures -1 <= r < |a|
    ensures r == -1 <==> x !in a
    ensures r >= 0 ==> a[r] == x && x !in a[..r]
  {
    if a == [] then -1
    else if a[0] == x then 0
    else
      var k := IndexOf(a[1..], x);
      assert k >= 0 ==> a[..k + 1] == [a[0]] + a[1..][..k];
      if k == -1 then -1 else k + 1
  }

  /** `a` without its element at position `i`. */
  function RemoveAt<T>(a: seq<T>, i: int): seq<T>
    requires 0 <= i < |a|
  {
    a[..i] + a[i + 1..]
  }

  /** `a.splice(start, 1)` (the new contents of `a`). A negative `start`
      counts from the end and is clamped at 0; a `start` at or past the end
      removes nothing. */
  function SpliceOne<T>(a: seq<T>, start: int): (r: seq<T>)
    ensures |r| == if a != [] && start < |a| then |a| - 1 else |a|
    ensures 0 <= start < |a| ==> r == RemoveAt(a, start)
    ensures start >= |a| ==> r == a
    ensures -|a| <= start < 0 ==> r == RemoveAt(a, |a| + start)
    ensures start < -|a| && a != [] ==> r == a[1..]
  {
    var len := |a|;
    var actual := if start < 0 then (if len + start < 0 then 0 else len + start)
                  else (if start > len then len else start);
    if actual < len then a[..actual] + a[actual + 1..] else a
  }

  /** `a.filter(y => y !== x)` */
  function FilterOut(a: seq<int>, x: int): (r: seq<int>)
    ensures x !in r
    ensures forall y :: y != x ==> multiset(r)[y] == multiset(a)[y]
    ensures x !in a ==> r == a
  {
    if a == [] then []
    else
      var rest := FilterOut(a[1..], x);
      assert a == [a[0]] + a[1..];
      if a[0] != x then [a[0]] + rest else rest
  }

  /** A sequence in which no value occurs twice. */
  predicate NoDuplicates<T(==)>(a: seq<T>) {
    forall i, j :: 0 <= i < j < |a| ==> a[i] != a[j]
  }

  /** `FilterOut` keeps the relative order of the surviving elements: they
      appear in the result exactly as in `a`, so an element at position `j`
      of `a` before which `x` occurs `c` times ends up at position `j - c`. */
  lemma {:induction false} FilterOutKeepsOrder(a: seq<int>, x: int, j: int)
    requires 0 <= j < |a| && a[j] != x
    ensures var c := multiset(a[..j])[x];
      j - c < |FilterOut(a, x)| && FilterOut(a, x)[j - c] == a[j]
  {
    assert a == [a[0]] + a[1..];
    if j > 0 {
      FilterOutKeepsOrder(a[1..], x, j - 1);
      assert a[..j] == [a[0]] + a[1..][..j - 1];
      assert multiset(a[..j]) == multiset{a[0]} + multiset(a[1..][..j - 1]);
      var rest := FilterOut(a[1..], x);
      assert |FilterOut(a, x)| == |rest| + (if a[0] != x then 1 else 0);
    } else {
      assert a[..j] == [];
    }
  }

  /** On a list without duplicates, filtering a value out removes exactly
      the one position that held it. */
  lemma {:induction false} FilterOutUnique(a: seq<int>, j: int)
    requires NoDuplicates(a) && 0 <= j < |a|
    ensures FilterOut(a, a[j]) == RemoveAt(a, j)
  {
    assert a == [a[0]] + a[1..];
    if j == 0 {
      assert a[0] !in a[1..];
    } else {
      assert NoDuplicates(a[1..]);
      FilterOutUnique(a[1..], j - 1);
      assert a[1..][j - 1] == a[j];
      assert RemoveAt(a, j) == [a[0]] + RemoveAt(a[1..], j - 1);
    }
  }

  /** Filtering keeps a list free of duplicates. */
  lemma {:induction false} FilterOutNoDuplicates(a: seq<int>, x: int)
    requires NoDuplicates(a)
    ensures NoDuplicates(FilterOut(a, x))
  {
    if a != [] {
      assert a == [a[0]] + a[1..];
      assert NoDuplicates(a[1..]);
      FilterOutNoDuplicates(a[1..], x);
      var rest := FilterOut(a[1..], x);
      assert a[0] !in a[1..];
      assert multiset(rest)[a[0]] == 0 || a[0] == x;
    }
  }
}

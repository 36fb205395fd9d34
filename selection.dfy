/**
 The selection list of the wheel: the indices of the names whose checkbox is
 ticked, kept in the order they were ticked. Ticking adds an index once;
 unticking removes its first occurrence. Indices are plain integers: nothing
 checks them against the number of names.
 */
module Selection {
  import opened JsArray

  /** The list after ticking `idx`: appended unless already present. */
  function Select(selected: seq<int>, idx: int): (r: seq<int>)
    ensures idx in r
    ensures idx in selected ==> r == selected
    ensures forall y :: y in r <==> y in selected || y == idx
    ensures selected <= r && |r| <= |selected| + 1
    ensures NoDuplicates(selected) ==> NoDuplicates(r)
  {
    if idx in selected then selected else selected + [idx]
  }

  /** The list after unticking `idx`: its first occurrence is spliced out. */
  function Deselect(selected: seq<int>, idx: int): (r: seq<int>)
    ensures idx !in selected ==> r == selected
    ensures idx in selected ==> |r| == |selected| - 1
    ensures forall y :: y != idx ==> (y in r <==> y in selected)
    ensures NoDuplicates(selected) ==> idx !in r && NoDuplicates(r)
  {
    var index := IndexOf(selected, idx);
    if index > -1 then
      assert NoDuplicates(selected) ==> idx !in selected[index + 1..];
      SpliceOne(selected, index)
    else selected
  }

  /** Ticking twice is ticking once. */
  lemma SelectIdempotent(selected: seq<int>, idx: int)
    ensures Select(Select(selected, idx), idx) == Select(selected, idx)
  {
  }

  /** Unticking removes exactly the position of the first occurrence and
      keeps the other indices in order. */
  lemma DeselectRemovesFirst(selected: seq<int>, idx: int, j: int)
    requires 0 <= j < |selected| && selected[j] == idx && idx !in selected[..j]
    ensures Deselect(selected, idx) == selected[..j] + selected[j + 1..]
  {
    assert IndexOf(selected, idx) == j;
  }

  /** Unticking undoes ticking an index that was not ticked. */
  lemma {:induction false} DeselectUndoesSelect(selected: seq<int>, idx: int)
    requires idx !in selected
    ensures Deselect(Select(selected, idx), idx) == selected
  {
    var s := selected + [idx];
    DeselectRemovesFirst(s, idx, |selected|);
    assert s[..|selected|] == selected;
  }

  /** Ticking undoes unticking an index of a duplicate-free list, up to
      order: the index moves to the end. */
  lemma SelectAfterDeselect(selected: seq<int>, idx: int)
    requires NoDuplicates(selected) && idx in selected
    ensures var r := Select(Deselect(selected, idx), idx);
      |r| == |selected| && forall y :: y in r <==> y in selected
  {
  }

  /** On a duplicate-free list, unticking an index and filtering it out (what
      a spin does with its winner) are the same operation. */
  lemma DeselectIsFilterOut(selected: seq<int>, idx: int)
    requires NoDuplicates(selected)
    ensures Deselect(selected, idx) == FilterOut(selected, idx)
  {
    var k := IndexOf(selected, idx);
    if k >= 0 {
      FilterOutUnique(selected, k);
    }
  }
}

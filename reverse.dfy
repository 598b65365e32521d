/**
 * `reverse(source, dest)`: clear `dest`, then append the values of
 * `source` to it from the last to the first.
 *
 * As written, the counter is a `size_t` and the loop guard `i >= 0` can
 * never be false; after index 0 the counter wraps to SIZE_MAX, which
 * `list_get`'s `int` parameter receives as -1, the index check fails and
 * the function returns -1. So the copy completes but the result is -1,
 * and `return 0` is never reached. `ReverseAsWritten` models exactly that;
 * `ReverseChecked` is the loop with a signed counter, which returns 0.
 */
module Reverse {
  import opened CTypes
  import opened Decimal
  import opened BoundedList

  /** The values of `s` in the opposite order. */
  function Reversed(s: seq<int>): seq<int> {
    if s == [] then [] else Reversed(s[1..]) + [s[0]]
  }

  lemma {:induction false} ReversedAt(s: seq<int>, k: int)
    requires 0 <= k < |s|
    ensures |Reversed(s)| == |s|
    ensures Reversed(s)[k] == s[|s| - 1 - k]
  {
    ReversedLength(s);
    if k < |s| - 1 {
      ReversedAt(s[1..], k);
    }
  }

  lemma {:induction false} ReversedLength(s: seq<int>)
    ensures |Reversed(s)| == |s|
  {
    if s != [] {
      ReversedLength(s[1..]);
    }
  }

  lemma {:induction false} ReversedAppend(s: seq<int>, t: seq<int>)
    ensures Reversed(s + t) == Reversed(t) + Reversed(s)
  {
    if s == [] {
      assert s + t == t;
    } else {
      assert (s + t)[1..] == s[1..] + t;
      ReversedAppend(s[1..], t);
    }
  }

  /** Reversing twice gives back the original order. */
  lemma {:induction false} ReversedInvolutive(s: seq<int>)
    ensures Reversed(Reversed(s)) == s
  {
    if s != [] {
      ReversedAppend(Reversed(s[1..]), [s[0]]);
      ReversedInvolutive(s[1..]);
      assert [s[0]] + s[1..] == s;
    }
  }

  /** Dropping the first value of the remaining suffix adds it at the end of the reversal. */
  lemma ReversedStep(s: seq<int>, k: int)
    requires 0 <= k < |s|
    ensures Reversed(s[k..]) == Reversed(s[k + 1..]) + [s[k]]
  {
  }

  /**
   * `reverse` as written. `dest` ends up holding `source`'s values in
   * reverse order and the result is -1 in every case. Lists own their
   * buffers, so two different lists never share one; when `source` and
   * `dest` are the same list, clearing it first leaves nothing to copy.
   * `getCalls` counts the calls to `list_get`: one per value, plus the failing
   * one at the wrapped index. `addStatuses` are the results of `list_add`
   * that the source ignores.
   */
  method ReverseAsWritten(source: List, dest: List)
    returns (status: int, ghost getCalls: nat, ghost addStatuses: seq<int>)
    requires source.Valid() && dest.Valid()
    requires source != dest ==> source.items != dest.items
    modifies dest, dest.items
    ensures dest.Valid() && dest.items == old(dest.items)
    ensures source != dest ==> dest.Contents() == Reversed(old(source.Contents()))
    ensures source == dest ==> dest.Contents() == []
    ensures source != dest ==> source.Contents() == old(source.Contents())
    ensures dest.items[dest.size..] == old(dest.items[..])[dest.size..]
    ensures source != dest ==> getCalls == |old(source.Contents())| + 1
    ensures source == dest ==> getCalls == 1
    ensures |addStatuses| == |dest.Contents()|
    ensures forall j :: 0 <= j < |addStatuses| ==> addStatuses[j] == 0
    ensures status == -1
  {
    dest.Clear();
    ghost var src := source.Contents();
    assert source != dest ==> src == old(source.Contents());
    var i: SizeT := Decrement(source.Size());
    ghost var k: int := |src| - 1;
    getCalls, addStatuses := 0, [];
    while i >= 0
      invariant source.Valid() && dest.Valid() && dest.items == old(dest.items)
      invariant source != dest ==> source.Contents() == src
      invariant source == dest ==> src == []
      invariant -1 <= k < |src|
      invariant i == if k >= 0 then k else SizeMax
      invariant dest.size == |src| - 1 - k
      invariant dest.Contents() == Reversed(src[k + 1..])
      invariant dest.items[dest.size..] == old(dest.items[..])[dest.size..]
      invariant getCalls == |src| - 1 - k
      invariant |addStatuses| == dest.size
      invariant forall j :: 0 <= j < |addStatuses| ==> addStatuses[j] == 0
      decreases k + 1
    {
      var item := 0;  // `int item;`: indeterminate, and never read before list_get sets it
      var found;
      if k < 0 {
        SizeMaxIsMinusOne();
      }
      found, item := source.GetAsWritten(IntOfSize(i), item);
      getCalls := getCalls + 1;
      if found != 0 {
        status := -1;
        return;
      }
      ReversedStep(src, k);
      ReversedLength(src[k..]);
      ghost var tail := dest.items[dest.size + 1..];
      assert tail == old(dest.items[..])[dest.size + 1..];
      var added := dest.Add(item);
      assert added == 0;  // the result line 154 ignores: dest always has room
      addStatuses := addStatuses + [added];
      i := Decrement(i);
      k := k - 1;
    }
  }

  /**
   * `reverse` with a signed counter, as evidently intended: one `list_get`
   * per value, so an empty `source` reads nothing, and the result is 0.
   */
  method ReverseChecked(source: List, dest: List)
    returns (status: int, ghost getCalls: nat, ghost addStatuses: seq<int>)
    requires source.Valid() && dest.Valid()
    requires source != dest ==> source.items != dest.items
    modifies dest, dest.items
    ensures dest.Valid() && dest.items == old(dest.items)
    ensures source != dest ==> dest.Contents() == Reversed(old(source.Contents()))
    ensures source == dest ==> dest.Contents() == []
    ensures source != dest ==> source.Contents() == old(source.Contents())
    ensures dest.items[dest.size..] == old(dest.items[..])[dest.size..]
    ensures source != dest ==> getCalls == |old(source.Contents())|
    ensures source == dest ==> getCalls == 0
    ensures |addStatuses| == |dest.Contents()|
    ensures forall j :: 0 <= j < |addStatuses| ==> addStatuses[j] == 0
    ensures status == 0
  {
    dest.Clear();
    ghost var src := source.Contents();
    assert source != dest ==> src == old(source.Contents());
    var i: int := source.Size() - 1;
    getCalls, addStatuses := 0, [];
    while i >= 0
      invariant source.Valid() && dest.Valid() && dest.items == old(dest.items)
      invariant source != dest ==> source.Contents() == src
      invariant source == dest ==> src == []
      invariant -1 <= i < |src|
      invariant dest.size == |src| - 1 - i
      invariant dest.Contents() == Reversed(src[i + 1..])
      invariant dest.items[dest.size..] == old(dest.items[..])[dest.size..]
      invariant getCalls == |src| - 1 - i
      invariant |addStatuses| == dest.size
      invariant forall j :: 0 <= j < |addStatuses| ==> addStatuses[j] == 0
    {
      var found, item := source.Get(i, 0);
      getCalls := getCalls + 1;
      assert found == 0;
      ReversedStep(src, i);
      ReversedLength(src[i..]);
      ghost var tail := dest.items[dest.size + 1..];
      assert tail == old(dest.items[..])[dest.size + 1..];
      var added := dest.Add(item);
      assert added == 0;
      addStatuses := addStatuses + [added];
      i := i - 1;
    }
    status := 0;
  }

  /**
   * The list part of `main`: [4 6 1 5] is reversed into a list that held 9,
   * and both lists are printed.
   */
  method ListDemo() returns (printed1: string, printed2: string, status: int)
    ensures printed1 == "[4 6 1 5 ]\n"
    ensures printed2 == "[5 1 6 4 ]\n"
    ensures status == -1
  {
    var list1 := new List.Init();
    var list2 := new List.Init();
    var ignored := list1.Add(4);
    ignored := list1.Add(6);
    ignored := list1.Add(1);
    ignored := list1.Add(5);
    ignored := list2.Add(9);
    assert list1.Contents() == [4, 6, 1, 5];
    ghost var getCalls, addStatuses;
    status, getCalls, addStatuses := ReverseAsWritten(list1, list2);
    DemoValues();
    printed1 := list1.Render();
    printed2 := list2.Render();
  }

  /** The values and texts of the demo in `main`. */
  lemma DemoValues()
    ensures Reversed([4, 6, 1, 5]) == [5, 1, 6, 4]
    ensures Rendering([4, 6, 1, 5]) == "[4 6 1 5 ]\n"
    ensures Rendering([5, 1, 6, 4]) == "[5 1 6 4 ]\n"
  {
  }
}

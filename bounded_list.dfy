/**
 * `list_t`: a count and a heap buffer of MAX_SIZE ints. The buffer is the
 * array `items`; the values the list holds are its first `size` cells.
 * Cells past `size` keep whatever was last written there (the buffer is
 * never re-zeroed), which is what the as-written index check can expose.
 */
module BoundedList {
  import opened Decimal

  /** MAX_SIZE: the number of ints in every list's buffer. */
  const MaxSize: nat := 10

  class List {
    var size: nat
    var items: array<int>

    /** The object invariant: the buffer has MAX_SIZE cells and the count fits in it. */
    ghost predicate Valid()
      reads this
    {
      items.Length == MaxSize && size <= MaxSize
    }

    /** The values the list holds, in insertion order. */
    ghost function Contents(): seq<int>
      reads this, items
      requires Valid()
    {
      items[..size]
    }

    /** `list_malloc` followed by `list_init`: an empty list with its own buffer. */
    constructor Init()
      ensures Valid() && fresh(items)
      ensures Contents() == []
    {
      size := 0;
      items := new int[MaxSize];
    }

    /** `__list_is_full`. */
    function IsFull(): (full: bool)
      reads this, items
      requires Valid()
      ensures full <==> |Contents()| == MaxSize
    {
      size == MaxSize
    }

    /**
     * `__check_index` as written: it accepts `index == size`, one past the
     * last value the list holds.
     */
    function CheckIndexAsWritten(index: int): (ok: bool)
      reads this, items
      requires Valid()
      ensures ok <==> 0 <= index <= |Contents()|
    {
      index >= 0 && index <= size
    }

    /** `__check_index` as intended: exactly the indices of held values. */
    function CheckIndex(index: int): (ok: bool)
      reads this, items
      requires Valid()
      ensures ok <==> 0 <= index < |Contents()|
      ensures ok ==> index < items.Length
    {
      index >= 0 && index < size
    }

    /** `list_size`. */
    function Size(): (n: nat)
      reads this, items
      requires Valid()
      ensures n == |Contents()| && n <= MaxSize
    {
      size
    }

    /**
     * `list_add`: 0 and the item appended when there is room, -1 and
     * nothing changed when the list is full.
     */
    method Add(item: int) returns (status: int)
      requires Valid()
      modifies this, items
      ensures Valid() && items == old(items)
      ensures status == 0 <==> old(size) < MaxSize
      ensures status == 0 || status == -1
      ensures status == 0 ==> Contents() == old(Contents()) + [item]
      ensures status == 0 ==> items[..] == old(items[..])[old(size) := item]
      ensures status == -1 ==> size == old(size) && items[..] == old(items[..])
    {
      if IsFull() {
        return -1;
      }
      items[size] := item;
      size := size + 1;
      return 0;
    }

    /**
     * `list_get` as written, guarded by `CheckIndexAsWritten`. On failure it
     * returns -1 and leaves the caller's `*result` (`prior`) as it was. The
     * one index the guard lets through that lies outside the buffer (index
     * MAX_SIZE on a full list) is a read with no meaning in C; callers must
     * not ask for it.
     */
    method GetAsWritten(index: int, prior: int) returns (status: int, result: int)
      requires Valid()
      requires !(index == size == MaxSize)
      ensures status == 0 || status == -1
      ensures status == 0 <==> 0 <= index <= |Contents()|
      ensures status == 0 && index < |Contents()| ==> result == Contents()[index]
      ensures status == 0 && index == |Contents()| ==> result == items[index]
      ensures status == -1 ==> result == prior
    {
      if CheckIndexAsWritten(index) {
        return 0, items[index];
      }
      return -1, prior;
    }

    /**
     * `list_get` with the intended check: 0 and the held value at `index`,
     * or -1 with the caller's `*result` (`prior`) untouched.
     */
    method Get(index: int, prior: int) returns (status: int, result: int)
      requires Valid()
      ensures status == 0 || status == -1
      ensures status == 0 <==> 0 <= index < |Contents()|
      ensures status == 0 ==> result == Contents()[index]
      ensures status == -1 ==> result == prior
    {
      if CheckIndex(index) {
        return 0, items[index];
      }
      return -1, prior;
    }

    /** `list_clear`: the count drops to 0; the buffer is not touched. */
    method Clear()
      requires Valid()
      modifies this
      ensures Valid() && items == old(items)
      ensures Contents() == []
      ensures items[..] == old(items[..])
    {
      size := 0;
    }

    /** `list_print`, returning the text it writes to standard output. */
    method Render() returns (out: string)
      requires Valid()
      ensures out == Rendering(Contents())
    {
      out := "[";
      var i := 0;
      while i < size
        invariant 0 <= i <= size
        invariant out == "[" + Items(items[..i])
      {
        assert items[..i + 1] == items[..i] + [items[i]];
        ItemsAppend(items[..i], [items[i]]);
        out := out + DecimalString(items[i]) + " ";
        i := i + 1;
      }
      assert items[..size] == Contents();
      out := out + "]\n";
    }
  }

  /**
   * The as-written check admits exactly one index more than the intended
   * one: `size` itself, which names no held value, and which lies past the
   * end of the buffer when the list is full.
   */
  lemma AsWrittenCheckAdmitsSize(l: List, index: int)
    requires l.Valid()
    ensures l.CheckIndexAsWritten(index) && !l.CheckIndex(index) <==> index == |l.Contents()|
    ensures l.IsFull() && index == MaxSize ==> l.CheckIndexAsWritten(index) && index == l.items.Length
  {
  }

  /** Adding MAX_SIZE values fills a fresh list; the next add fails and changes nothing. */
  method FillToCapacity(values: seq<int>) returns (l: List, statuses: seq<int>, last: int)
    requires |values| == MaxSize
    ensures l.Valid() && l.Contents() == values
    ensures statuses == seq(MaxSize, _ => 0)
    ensures last == -1
  {
    l := new List.Init();
    statuses := [];
    var i := 0;
    while i < MaxSize
      invariant 0 <= i <= MaxSize
      invariant l.Valid() && fresh(l.items)
      invariant l.Contents() == values[..i]
      invariant statuses == seq(i, _ => 0)
    {
      var st := l.Add(values[i]);
      assert values[..i + 1] == values[..i] + [values[i]];
      statuses := statuses + [st];
      i := i + 1;
    }
    assert values[..MaxSize] == values;
    last := l.Add(0);
  }
}

/** Callers of the grid: draining its iterators the way a `for` loop does, a
    write followed by a read, and the crate's own test scenarios restated as
    verified client code. */
module GridScenarios {
  import opened GridIndex
  import opened MdGrid

  /** The offsets the crate's tests expect on a 10 by 10 grid. */
  lemma TestOffsets2()
    ensures Offset([5, 9], [10, 10]) == 59
    ensures Offset([0, 5], [10, 10]) == 5
    ensures Offset([5, 0], [10, 10]) == 50
    ensures Offset([9, 9], [10, 10]) == 99
    ensures Offset([0, 0], [10, 10]) == 0
  {
    OffsetIsRowMajor([5, 9], [10, 10]);
    OffsetIsRowMajor([0, 5], [10, 10]);
    OffsetIsRowMajor([5, 0], [10, 10]);
    OffsetIsRowMajor([9, 9], [10, 10]);
    OffsetIsRowMajor([0, 0], [10, 10]);
    assert [10, 10][..1] == [10];
  }

  /** The offsets the crate's tests expect on a 10 by 10 by 10 grid. */
  lemma TestOffsets3()
    ensures Offset([3, 7, 6], [10, 10, 10]) == 376
    ensures Offset([0, 4, 3], [10, 10, 10]) == 43
    ensures Offset([5, 0, 7], [10, 10, 10]) == 507
    ensures Offset([4, 6, 0], [10, 10, 10]) == 460
    ensures Offset([9, 9, 9], [10, 10, 10]) == 999
    ensures Offset([0, 0, 0], [10, 10, 10]) == 0
  {
    assert [10, 10, 10][..2] == [10, 10];
    assert [10, 10][..1] == [10];
    RowMajor3([3, 7, 6]);
    RowMajor3([0, 4, 3]);
    RowMajor3([5, 0, 7]);
    RowMajor3([4, 6, 0]);
    RowMajor3([9, 9, 9]);
    RowMajor3([0, 0, 0]);
  }

  /** On three 10-wide axes, a multi-index reads as a three-digit decimal. */
  lemma RowMajor3(t: seq<nat>)
    requires |t| == 3
    ensures Offset(t, [10, 10, 10]) == 100 * t[0] + 10 * t[1] + t[2]
  {
    OffsetIsRowMajor(t, [10, 10, 10]);
    assert [10, 10, 10][..2] == [10, 10];
    assert [10, 10][..1] == [10];
    assert t[..2][..1] == [t[0]] && t[..2][1] == t[1];
    assert [t[0]][..0] == [] && [10][..0] == [];
    assert RowMajor([t[0]], [10]) == t[0];
    assert RowMajor(t[..2], [10, 10]) == 10 * t[0] + t[1];
  }

  /** On four 10-wide axes, a multi-index reads as a four-digit decimal. */
  lemma RowMajor4(t: seq<nat>)
    requires |t| == 4
    ensures Offset(t, [10, 10, 10, 10]) == 1000 * t[0] + 100 * t[1] + 10 * t[2] + t[3]
  {
    OffsetIsRowMajor(t, [10, 10, 10, 10]);
    OffsetIsRowMajor(t[..3], [10, 10, 10]);
    RowMajor3(t[..3]);
    assert [10, 10, 10, 10][..3] == [10, 10, 10];
  }

  /** The offsets the crate's tests expect on a 10 by 10 by 10 by 10 grid. */
  lemma TestOffsets4()
    ensures Offset([5, 3, 7, 9], [10, 10, 10, 10]) == 5379
    ensures Offset([9, 9, 9, 9], [10, 10, 10, 10]) == 9999
    ensures Offset([0, 0, 0, 0], [10, 10, 10, 10]) == 0
  {
    RowMajor4([5, 3, 7, 9]);
    RowMajor4([9, 9, 9, 9]);
    RowMajor4([0, 0, 0, 0]);
  }

  /** The bound check is on the whole offset: on a 10 by 10 grid, `[0, 15]`
      has a coordinate past its axis and is still accepted, as cell 15. */
  lemma AggregateBoundOnly()
    ensures !InRange([0, 15], [10, 10])
    ensures Locate([0, 15], 2, [10, 10], Product([10, 10])) == Ok(15)
  {
    OffsetIsRowMajor([0, 15], [10, 10]);
    assert [10, 10][..1] == [10];
  }

  /** Consumes a read-only iterator: every remaining cell once, in buffer order. */
  method Collect<T>(it: GridIter<T>) returns (items: seq<T>)
    requires it.Valid()
    modifies it
    ensures it.Valid() && it.cursor == it.buffer.Length
    ensures items == it.buffer[old(it.cursor)..]
  {
    items := [];
    while true
      invariant it.Valid() && old(it.cursor) <= it.cursor
      invariant items == it.buffer[old(it.cursor)..it.cursor]
      decreases it.buffer.Length - it.cursor
    {
      var r := it.Next();
      if r.None? {
        break;
      }
      items := items + [r.value];
    }
  }

  /** Consumes a mutable iterator: a reference to every remaining cell once,
      in increasing offset order. */
  method CollectSlots<T>(it: GridIterMut<T>) returns (slots: seq<Slot<T>>)
    requires it.Valid()
    modifies it
    ensures it.Valid() && it.cursor == it.buffer.Length
    ensures |slots| == it.buffer.Length - old(it.cursor)
    ensures forall i :: 0 <= i < |slots| ==> slots[i] == Slot(it.buffer, old(it.cursor) + i)
  {
    slots := [];
    while true
      invariant it.Valid() && old(it.cursor) <= it.cursor
      invariant |slots| == it.cursor - old(it.cursor)
      invariant forall i :: 0 <= i < |slots| ==> slots[i] == Slot(it.buffer, old(it.cursor) + i)
      decreases it.buffer.Length - it.cursor
    {
      var r := it.Next();
      if r.None? {
        break;
      }
      slots := slots + [r.value];
    }
  }

  /** Adds one to every remaining cell through the references a mutable
      iterator yields. */
  method IncrementAll(it: GridIterMut<int>)
    requires it.Valid()
    modifies it, it.buffer
    ensures it.Valid() && it.cursor == it.buffer.Length
    ensures forall j :: 0 <= j < old(it.cursor) ==> it.buffer[j] == old(it.buffer[j])
    ensures forall j :: old(it.cursor) <= j < it.buffer.Length ==> it.buffer[j] == old(it.buffer[j]) + 1
  {
    ghost var start := it.cursor;
    while true
      invariant it.Valid() && start <= it.cursor
      invariant forall j :: 0 <= j < start ==> it.buffer[j] == old(it.buffer[j])
      invariant forall j :: start <= j < it.cursor ==> it.buffer[j] == old(it.buffer[j]) + 1
      invariant forall j :: it.cursor <= j < it.buffer.Length ==> it.buffer[j] == old(it.buffer[j])
      decreases it.buffer.Length - it.cursor
    {
      var r := it.Next();
      if r.None? {
        break;
      }
      var slot := r.value;
      slot.buffer[slot.offset] := slot.buffer[slot.offset] + 1;
    }
  }

  /** A read after a write to the same multi-index sees the written value; a
      refused write leaves the buffer alone and the read is refused the same way. */
  method SetThenGet<T>(g: Grid<T>, target: seq<nat>, val: T) returns (written: Result<()>, read: Result<T>)
    requires g.Valid()
    modifies g.grid
    ensures written.Ok? ==> read == Ok(val)
    ensures written.Err? ==> read == Err(written.error) && g.grid[..] == old(g.grid[..])
  {
    written := g.Set(target, val);
    read := g.Get(target);
  }

  /** A write to one in-range multi-index succeeds and leaves what every other
      in-range multi-index reads unchanged. */
  method SetLeavesOthers<T>(g: Grid<T>, target: seq<nat>, other: seq<nat>, val: T)
    returns (before: Result<T>, written: Result<()>, after: Result<T>)
    requires g.Valid() && InRange(target, g.dimensions) && InRange(other, g.dimensions)
    requires target != other
    modifies g.grid
    ensures before.Ok? && written.Ok? && after == before
  {
    LocateInRange(target, g.dimensions);
    LocateInRange(other, g.dimensions);
    OffsetIsRowMajor(target, g.dimensions);
    OffsetIsRowMajor(other, g.dimensions);
    OffsetInjective(target, other, g.dimensions);
    before := g.Get(other);
    written := g.Set(target, val);
    after := g.Get(other);
  }

  /** A 5 by 5 grid has 25 cells, and iterating it yields the default 25 times. */
  method NewGridScenario() returns (size: nat, items: seq<string>)
    ensures size == 25 && |items| == 25
    ensures forall i :: 0 <= i < |items| ==> items[i] == "default_value"
  {
    var g := new Grid("default_value", [5, 5]);
    size := g.grid.Length;
    var it := g.Iter();
    items := Collect(it);
  }

  /** Five writes on a 10 by 10 grid all succeed; the cells read back at
      offsets 59, 5, 50, 99 and 0 hold the five values written. */
  method TranslateIndexScenario2() returns (cells: seq<int>)
    ensures cells == [5, 32, 25, 56, 7]
  {
    TestOffsets2();
    var g := new Grid(0, [10, 10]);
    assert g.grid.Length == 100;
    var r := g.Set([5, 9], 5);
    assert r.Ok?;
    r := g.Set([0, 5], 32);
    assert r.Ok?;
    r := g.Set([5, 0], 25);
    assert r.Ok?;
    r := g.Set([9, 9], 56);
    assert r.Ok?;
    r := g.Set([0, 0], 7);
    assert r.Ok?;
    cells := [g.grid[59], g.grid[5], g.grid[50], g.grid[99], g.grid[0]];
  }

  /** Six writes on a 10 by 10 by 10 grid all succeed; the cells read back at
      offsets 376, 43, 507, 460, 999 and 0 hold the six values written. */
  method TranslateIndexScenario3() returns (cells: seq<int>)
    ensures cells == [12, 23, 32, 63, 87, 34]
  {
    TestOffsets3();
    var h := new Grid(0, [10, 10, 10]);
    assert h.grid.Length == 1000;
    var r := h.Set([3, 7, 6], 12);
    assert r.Ok?;
    r := h.Set([0, 4, 3], 23);
    assert r.Ok?;
    r := h.Set([5, 0, 7], 32);
    assert r.Ok?;
    r := h.Set([4, 6, 0], 63);
    assert r.Ok?;
    r := h.Set([9, 9, 9], 87);
    assert r.Ok?;
    r := h.Set([0, 0, 0], 34);
    assert r.Ok?;
    cells := [h.grid[376], h.grid[43], h.grid[507], h.grid[460], h.grid[999], h.grid[0]];
  }

  /** Three writes on a 10 by 10 by 10 by 10 grid all succeed; offsets 5379,
      9999 and 0 hold the values written, and the untouched cells 8654 and 23
      still hold the default 0. */
  method TranslateIndexScenario4() returns (cells: seq<int>)
    ensures cells == [20, 24, 10, 0, 0]
  {
    TestOffsets4();
    var k := new Grid(0, [10, 10, 10, 10]);
    assert k.grid.Length == 10000;
    var r := k.Set([5, 3, 7, 9], 20);
    assert r.Ok?;
    r := k.Set([9, 9, 9, 9], 24);
    assert r.Ok?;
    r := k.Set([0, 0, 0, 0], 10);
    assert r.Ok?;
    cells := [k.grid[5379], k.grid[9999], k.grid[0], k.grid[8654], k.grid[23]];
  }

  /** No axes give a single cell, addressed by the empty multi-index; a zero
      extent gives an empty buffer that refuses a multi-index of the right
      length as out of bounds and one of the wrong length as a mismatch. */
  method EdgeCaseScenario() returns (pointSize: nat, pointRead: Result<int>,
                                     emptySize: nat, emptyRead: Result<int>, shortRead: Result<int>)
    ensures pointSize == 1 && pointRead == Ok(7)
    ensures emptySize == 0 && emptyRead == Err(OutOfBounds(0, 0))
    ensures shortRead == Err(DimensionMismatch(2, 3))
  {
    var point := new Grid(7, []);
    pointSize := point.grid.Length;
    pointRead := point.Get([]);

    var empty := new Grid(7, [3, 0, 2]);
    ProductZero([3, 0, 2]);
    assert [3, 0, 2][1] == 0;
    emptySize := empty.grid.Length;
    OffsetIsRowMajor([0, 0, 0], [3, 0, 2]);
    assert [0, 0, 0][..2] == [0, 0] && [3, 0, 2][..2] == [3, 0];
    assert [0, 0][..1] == [0] && [3, 0][..1] == [3];
    emptyRead := empty.Get([0, 0, 0]);
    shortRead := empty.Get([0, 0]);
  }

  /** Incrementing every cell of a fresh zero grid through `IterMut` leaves
      every one of its 100 cells at 1. */
  method IntoIteratorScenario() returns (cells: seq<int>)
    ensures |cells| == 100
    ensures forall j :: 0 <= j < |cells| ==> cells[j] == 1
  {
    var g := new Grid(0, [10, 10]);
    var it := g.IterMut();
    IncrementAll(it);
    cells := g.grid[..];
  }
}

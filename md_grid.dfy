/** The grid container: an N-dimensional array kept in one flat row-major
    buffer, its accessors, and the two forward iterators over the buffer. */
module MdGrid {
  import opened GridIndex

  datatype Option<V> = None | Some(value: V)

  /** A mutable reference to one cell: the buffer it points into and the
      cell's offset. Writing through it is `slot.buffer[slot.offset] := v`. */
  datatype Slot<T> = Slot(buffer: array<T>, offset: nat)

  class Grid<T> {
    /** The flat buffer; its length never changes, its cells do. */
    const grid: array<T>
    const axes: nat
    const dimensions: seq<nat>

    /** The grid's invariant: one extent per axis, one cell per multi-index. */
    ghost predicate Valid()
    {
      axes == |dimensions| && grid.Length == Product(dimensions)
    }

    /** Builds a grid with `Product(dimensions)` cells, each `defaultValue`,
        by pushing the cells one at a time. */
    constructor (defaultValue: T, dimensions: seq<nat>)
      ensures Valid() && fresh(grid)
      ensures this.dimensions == dimensions && axes == |dimensions|
      ensures grid.Length == Product(dimensions)
      ensures forall i :: 0 <= i < grid.Length ==> grid[i] == defaultValue
    {
      var size := Product(dimensions);
      var cells: seq<T> := [];
      for k := 0 to size
        invariant |cells| == k
        invariant forall j :: 0 <= j < k ==> cells[j] == defaultValue
      {
        cells := cells + [defaultValue];
      }
      this.axes := |dimensions|;
      this.dimensions := dimensions;
      this.grid := new T[size](j requires 0 <= j < |cells| => cells[j]);
    }

    /** Translates a multi-index into a buffer offset: first the number of
        coordinates must equal the number of axes, then the weighted sum of the
        coordinates must fall inside the buffer. No axis is checked on its own. */
    method TranslateIndex(target: seq<nat>) returns (r: Result<nat>)
      requires Valid()
      ensures r == Locate(target, axes, dimensions, grid.Length)
      ensures r == Err(DimensionMismatch(|target|, axes)) <==> |target| != axes
      ensures |target| == axes ==> (r.Ok? <==> Offset(target, dimensions) < grid.Length)
      ensures |target| == axes && r.Err? ==> r.error == OutOfBounds(Offset(target, dimensions), grid.Length)
      ensures r.Ok? ==> r.value == Offset(target, dimensions) && r.value < grid.Length
    {
      if |target| != axes {
        return Err(DimensionMismatch(|target|, axes));
      }
      var index := 0;
      for i := 0 to |target|
        invariant index == PartialOffset(target, dimensions, i)
      {
        var step := target[i] * Product(dimensions[i + 1..]);
        index := index + step;
      }
      if index >= grid.Length {
        return Err(OutOfBounds(index, grid.Length));
      }
      return Ok(index);
    }

    /** Reads the cell at `target`, or reports why `target` was refused. */
    method Get(target: seq<nat>) returns (r: Result<T>)
      requires Valid()
      ensures match Locate(target, axes, dimensions, grid.Length)
              case Ok(offset) => r == Ok(grid[offset])
              case Err(e) => r == Err(e)
    {
      var offset :- TranslateIndex(target);
      return Ok(grid[offset]);
    }

    /** Hands out a mutable reference to the cell at `target`. */
    method GetMut(target: seq<nat>) returns (r: Result<Slot<T>>)
      requires Valid()
      ensures match Locate(target, axes, dimensions, grid.Length)
              case Ok(offset) => r == Ok(Slot(grid, offset))
              case Err(e) => r == Err(e)
    {
      var offset :- TranslateIndex(target);
      return Ok(Slot(grid, offset));
    }

    /** Overwrites the cell at `target`; on an error nothing is written. */
    method Set(target: seq<nat>, val: T) returns (r: Result<()>)
      requires Valid()
      modifies grid
      ensures match Locate(target, axes, dimensions, grid.Length)
              case Ok(offset) => r == Ok(()) && grid[..] == old(grid[..])[offset := val]
              case Err(e) => r == Err(e) && grid[..] == old(grid[..])
    {
      var offset :- TranslateIndex(target);
      grid[offset] := val;
      return Ok(());
    }

    /** A fresh read-only iterator positioned at the first cell. */
    method Iter() returns (it: GridIter<T>)
      requires Valid()
      ensures fresh(it) && it.Valid()
      ensures it.buffer == grid && it.dimensions == dimensions && it.cursor == 0
    {
      it := new GridIter(this);
    }

    /** A fresh mutable iterator positioned at the first cell. */
    method IterMut() returns (it: GridIterMut<T>)
      requires Valid()
      ensures fresh(it) && it.Valid()
      ensures it.buffer == grid && it.dimensions == dimensions && it.cursor == 0
    {
      it := new GridIterMut(this);
    }
  }

  /** A cursor walking a grid's buffer in order, yielding each cell's value. */
  class GridIter<T> {
    const buffer: array<T>
    const dimensions: seq<nat>
    var cursor: nat

    ghost predicate Valid()
      reads this
    {
      cursor <= buffer.Length
    }

    /** The cells already yielded, in the order they were yielded, as long as
        nobody writes to the buffer while it is iterated. In the crate the
        iterator's shared borrow of the grid guarantees that; this model does
        not enforce it. */
    ghost function Yielded(): seq<T>
      reads this, buffer
      requires Valid()
    {
      buffer[..cursor]
    }

    constructor (g: Grid<T>)
      ensures Valid() && buffer == g.grid && dimensions == g.dimensions && cursor == 0
      ensures Yielded() == []
    {
      buffer := g.grid;
      dimensions := g.dimensions;
      cursor := 0;
    }

    /** Yields the next cell, or None once every cell has been yielded. */
    method Next() returns (r: Option<T>)
      requires Valid()
      modifies this
      ensures Valid()
      ensures old(cursor) < buffer.Length ==> r == Some(buffer[old(cursor)]) && cursor == old(cursor) + 1
      ensures old(cursor) == buffer.Length ==> r == None && cursor == old(cursor)
      ensures r.Some? ==> Yielded() == old(Yielded()) + [r.value]
      ensures r.None? ==> Yielded() == buffer[..]
    {
      if cursor < buffer.Length {
        r := Some(buffer[cursor]);
        cursor := cursor + 1;
      } else {
        r := None;
      }
    }
  }

  /** A cursor walking a grid's buffer in order, yielding a mutable reference
      to each cell. */
  class GridIterMut<T> {
    const buffer: array<T>
    const dimensions: seq<nat>
    var cursor: nat

    ghost predicate Valid()
      reads this
    {
      cursor <= buffer.Length
    }

    /** The offsets of the cells already handed out, in the order they were
        handed out. */
    ghost function Yielded(): seq<nat>
      reads this
      requires Valid()
    {
      seq(cursor, i => i)
    }

    constructor (g: Grid<T>)
      ensures Valid() && buffer == g.grid && dimensions == g.dimensions && cursor == 0
      ensures Yielded() == []
    {
      buffer := g.grid;
      dimensions := g.dimensions;
      cursor := 0;
    }

    /** Yields a reference to the next cell, or None once every cell has been
        yielded; each offset is yielded once, in increasing order. */
    method Next() returns (r: Option<Slot<T>>)
      requires Valid()
      modifies this
      ensures Valid()
      ensures old(cursor) < buffer.Length ==> r == Some(Slot(buffer, old(cursor))) && cursor == old(cursor) + 1
      ensures old(cursor) == buffer.Length ==> r == None && cursor == old(cursor)
      ensures r.Some? ==> Yielded() == old(Yielded()) + [r.value.offset]
      ensures r.None? ==> |Yielded()| == buffer.Length
    {
      if cursor < buffer.Length {
        r := Some(Slot(buffer, cursor));
        cursor := cursor + 1;
      } else {
        r := None;
      }
    }
  }
}

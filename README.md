# md-grid in Dafny

A verified model of the `md-grid` crate: `Grid<T>`, an N-dimensional array whose
cells live in one flat, row-major buffer. The grid holds three things:

- the buffer (`grid`);
- the number of axes (`axes`);
- the extent of each axis (`dimensions`).

It offers four kinds of operation:

- construction from a default value and a list of extents;
- translation of a multi-index into a buffer offset;
- `get`, `get_mut` and `set` through that translation;
- two forward iterators over the buffer.

Files:

- `grid_index.dfy` (module `GridIndex`) holds the arithmetic as pure functions:
  - `Product`, `Weight` and `Offset`, the weighted sum `translate_index` accumulates;
  - `RowMajor`, an independent C-order reference definition;
  - `Locate`, the result `translate_index` returns;
  - lemmas relating them.
- `md_grid.dfy` (module `MdGrid`) holds the container:
  - class `Grid` has an `array` buffer whose cells `Set` overwrites in place. `TranslateIndex` is a loop proved against `Locate`.
  - classes `GridIter` and `GridIterMut` are cursors over the buffer.
  - a mutable reference `&mut T` is modelled as a `Slot`: the buffer plus the offset of one cell. `GetMut` and `GridIterMut.Next` hand out slots, and a caller writes through one with `slot.buffer[slot.offset] := v`.
- `scenarios.dfy` (module `GridScenarios`) holds client code:
  - draining an iterator as a `for` loop does;
  - a write followed by a read;
  - the crate's three tests in full, every write and every checked cell (`NewGridScenario`, `TranslateIndexScenario2` to `TranslateIndexScenario4`, `IntoIteratorScenario`), and the construction edge cases (`EdgeCaseScenario`). Each is a method that returns what the test reads, and its contract states the values the test expects.

Points of behaviour the model keeps on purpose:

- No extents give one cell, because the empty product is 1. Any zero extent gives an empty buffer. Construction never fails.
- The length of the multi-index is checked before any arithmetic.
- The bounds check is on the whole offset, not axis by axis: `[0, 15]` on a 10 by 10 grid is accepted as cell 15 (`AggregateBoundOnly`).
- The code accepts any extent list, including zeros and the empty list, and the model does the same.
- Element cloning is modelled as copying the value.

## Model

| member | source | states |
|---|---|---|
| `GridIndex.Product` | src/lib.rs:15 | the number of cells: the product of the extents, 1 for no extents (`iter().product()`, also used for each weight at line 67) |
| `GridIndex.PartialOffset` | src/lib.rs:65-69 | the accumulator `index` after the first k rounds of the translation loop |
| `GridIndex.Offset` | src/lib.rs:65-69 | the accumulator once every coordinate has been added: `Σ target[i] * product(dimensions[i+1..])` |
| `GridIndex.Weight` | src/lib.rs:67 | the last axis has weight 1 |
| `GridIndex.Locate` | src/lib.rs:55-81 | a successful translation is always a valid index into a buffer of the given size |
| `GridIndex.ProductZero` | src/lib.rs:15 | the cell count is 0 exactly when some extent is 0 (and 1 for no extents, by definition) |
| `GridIndex.ProductAppend` | src/lib.rs:15 | appending an extent multiplies the cell count by it |
| `GridIndex.WeightSplit` | src/lib.rs:67 | dropping the last axis divides every other axis' weight by the last extent |
| `GridIndex.PartialScale` | src/lib.rs:65-69 | each partial weighted sum over the first k axes is the same sum on the grid without its last axis, times the last extent |
| `GridIndex.OffsetIsRowMajor` | src/lib.rs:65-69 | the weighted sum `Σ target[i] * product(dimensions[i+1..])` equals the C-order offset, in which the last coordinate varies fastest |
| `GridIndex.RowMajorBound` | src/lib.rs:65-80 | a multi-index with every coordinate below its extent has a C-order offset below the cell count |
| `GridIndex.OffsetBound` | src/lib.rs:65-80 | a multi-index with every coordinate below its extent has a weighted sum below the cell count |
| `GridIndex.LastAxisStep` | src/lib.rs:65-69 | adding one to the last coordinate moves the offset by exactly one cell |
| `GridIndex.LocateInRange` | src/lib.rs:55-81 | on a grid of `Product(dims)` cells, a multi-index with every coordinate in range is accepted at its C-order offset |
| `GridIndex.InRangePrefix` | src/lib.rs:65-69 | dropping the last axis of an in-range multi-index and of the extents leaves an in-range multi-index |
| `GridIndex.RowMajorMono` | src/lib.rs:65-69 | the C-order layout is monotone: of two in-range multi-indices, the one that comes first in lexicographic order has the smaller offset |
| `GridIndex.FirstDifference` | src/lib.rs:65-69 | two different multi-indices of the same length agree up to some axis and differ on it |
| `GridIndex.OffsetInjective` | src/lib.rs:65-69 | distinct in-range multi-indices are translated to distinct offsets, so no two of them share a cell |
| `MdGrid.Grid.constructor` | src/lib.rs:12-27 | the buffer has `Product(dimensions)` cells, all equal to the default value; `axes` is the number of extents; the extents are kept |
| `MdGrid.Grid.TranslateIndex` | src/lib.rs:55-81 | a dimension mismatch (with the given and expected counts) exactly when the length is wrong; otherwise success exactly when the weighted sum is below the buffer length, with that sum as the offset; otherwise out of bounds with the sum and the buffer length |
| `MdGrid.Grid.Get` | src/lib.rs:29-33 | returns the cell at the translated offset, or the translation's error; changes nothing |
| `MdGrid.Grid.GetMut` | src/lib.rs:35-39 | returns a reference to this grid's buffer at the translated offset, or the translation's error |
| `MdGrid.Grid.Set` | src/lib.rs:41-45 | on success only the cell at the translated offset changes, to the new value; on an error the buffer is unchanged and the error is returned |
| `MdGrid.Grid.Iter` | src/lib.rs:47-49 | a fresh read-only cursor over this grid's buffer, at its first cell |
| `MdGrid.Grid.IterMut` | src/lib.rs:51-53 | a fresh mutable cursor over this grid's buffer, at its first cell |
| `MdGrid.GridIter.constructor` | src/lib.rs:112-117 | the cursor walks the grid's own buffer, starting at cell 0, having yielded nothing |
| `MdGrid.GridIter.Next` | src/lib.rs:142-148 | yields the cell under the cursor and advances by one, or yields None at the end without moving; the yielded sequence grows by exactly that cell and is the whole buffer once None appears |
| `MdGrid.GridIterMut.constructor` | src/lib.rs:156-162 | the cursor walks the grid's own buffer, starting at cell 0 |
| `MdGrid.GridIterMut.Next` | src/lib.rs:164-170 | yields a reference to the cell under the cursor and advances by one, or yields None at the end without moving; the offsets handed out grow by exactly that offset and, once None appears, are every offset of the buffer in increasing order |
| `GridScenarios.Collect` | src/lib.rs:182-184 | draining a read-only iterator yields every remaining cell once, in buffer order |
| `GridScenarios.CollectSlots` | src/lib.rs:241 | draining a mutable iterator yields a reference to every remaining cell once, in increasing offset order |
| `GridScenarios.IncrementAll` | src/lib.rs:241-244 | writing through every reference a mutable iterator yields touches each remaining cell exactly once |
| `GridScenarios.SetThenGet` | src/lib.rs:29-45 | a read after a successful write to the same multi-index returns the written value; after a refused write the buffer is unchanged and the read fails with the same error |
| `GridScenarios.SetLeavesOthers` | src/lib.rs:29-45 | a write to an in-range multi-index succeeds and leaves the value read at any other in-range multi-index unchanged |
| `GridScenarios.TestOffsets2` | src/lib.rs:190-202 | the 2-D offsets the tests expect: `[5,9]` is 59, `[0,5]` is 5, `[5,0]` is 50, `[9,9]` is 99, `[0,0]` is 0 |
| `GridScenarios.RowMajor3` | src/lib.rs:205-219 | on three 10-wide axes the offset is the multi-index read as a three-digit decimal |
| `GridScenarios.TestOffsets3` | src/lib.rs:205-219 | the 3-D offsets the tests expect: `[3,7,6]` is 376, `[0,4,3]` is 43, `[5,0,7]` is 507, `[4,6,0]` is 460, `[9,9,9]` is 999, `[0,0,0]` is 0 |
| `GridScenarios.RowMajor4` | src/lib.rs:222-230 | on four 10-wide axes the offset is the multi-index read as a four-digit decimal |
| `GridScenarios.TestOffsets4` | src/lib.rs:222-230 | the 4-D offsets the tests expect: `[5,3,7,9]` is 5379, `[9,9,9,9]` is 9999, `[0,0,0,0]` is 0 |
| `GridScenarios.AggregateBoundOnly` | src/lib.rs:71-80 | `[0, 15]` on a 10 by 10 grid is out of range on its last axis yet accepted as offset 15 |
| `GridScenarios.NewGridScenario` | src/lib.rs:176-185 | a 5 by 5 grid has 25 cells, and iterating it yields 25 items, each the default value |
| `GridScenarios.TranslateIndexScenario2` | src/lib.rs:189-202 | on a 10 by 10 grid the five writes all succeed, and offsets 59, 5, 50, 99 and 0 then hold 5, 32, 25, 56 and 7 |
| `GridScenarios.TranslateIndexScenario3` | src/lib.rs:204-219 | on a 10 by 10 by 10 grid the six writes all succeed, and offsets 376, 43, 507, 460, 999 and 0 then hold 12, 23, 32, 63, 87 and 34 |
| `GridScenarios.TranslateIndexScenario4` | src/lib.rs:221-234 | on a 10 by 10 by 10 by 10 grid the three writes all succeed; offsets 5379, 9999 and 0 then hold 20, 24 and 10, and the untouched cells 8654 and 23 still hold 0 |
| `GridScenarios.EdgeCaseScenario` | src/lib.rs:12-81 | no extents give one cell, read by `[]`; extents `[3, 0, 2]` give no cells, so `[0, 0, 0]` is out of bounds at offset 0 of size 0 and `[0, 0]` is a mismatch of 2 against 3 |
| `GridScenarios.IntoIteratorScenario` | src/lib.rs:237-244 | adding one through every reference `iter_mut` yields leaves all 100 cells of a zero 10 by 10 grid at 1 |

## Left out

- `false_index` (src/lib.rs:84-87): its body is `todo!()`, so there is no offset-to-multi-index behaviour to model. No round-trip law is stated.
- `GridIter::position` and `GridIter::enumerate` (src/lib.rs:119-139): each panics as soon as it reaches `false_index`. For `position` that happens on a match (with no match it returns `None`); for `enumerate` it happens on any cell (on an empty grid it returns an empty iterator). Without `false_index` neither has a result to model.
- Error message text and `Box<dyn Error>` boxing: errors are the two variants of `IndexError`, carrying only their numbers.
- Borrow lifetimes and the exclusivity between `get_mut`/`iter_mut` references and other references. Rust's type system enforces these. The model does not stop a caller from holding a `Slot` while reading the grid.
- The `Clone` and `Debug` derives.
- Integer width: extents, coordinates and offsets are unbounded `nat`. Rust's `usize` product and `v * …` would overflow (a panic in debug builds, wrap-around in release) on huge extents.
- `Grid::new`: `Vec::with_capacity` followed by pushes is modelled as a sequence built by the same loop and then frozen into an array of exactly that length.
- The `IntoIterator` impls (src/lib.rs:89-105) are folded into `Grid.Iter` and `Grid.IterMut`, which is all they do.
- The `dimensions` fields of the iterators are kept, but only `position` and `enumerate` read them.
- The `println!` in the iterator test (src/lib.rs:242) is I/O.

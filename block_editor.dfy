/** The editing logic of `BlockEditorWindow`: a rectangle chosen by a mouse
    drag in the scene view, placed or cleared on a grid of cell groups. The
    scene's "Grid" object is an optional map from integer cells to the stack
    of blocks in that cell's group; prefabs are identified by number. */
module BlockEditor {
  import opened Wrappers

  /** A `Vector2Int` grid coordinate. */
  datatype Cell = Cell(x: int, y: int)

  /** A prefab asset. */
  type Prefab = nat

  /** One instantiated block: its prefab and its local z (`Block_z{z}`). */
  datatype Block = Block(prefab: Prefab, z: int)

  /** The children of the "Grid" object: the group named "(x,y)" per cell. */
  type Grid = map<Cell, seq<Block>>

  /** The default of the settings asset's `depth`: layers placed along z. */
  const DefaultDepth: int := 2

  // ---------------------------------------------------------------------
  // Rectangles

  function MinInt(a: int, b: int): int { if a <= b then a else b }
  function MaxInt(a: int, b: int): int { if a <= b then b else a }

  predicate InRect(c: Cell, lo: Cell, hi: Cell) {
    lo.x <= c.x <= hi.x && lo.y <= c.y <= hi.y
  }

  /** `Vector2Int.Min` and `Vector2Int.Max` of the drag's two corners: the
      smallest rectangle holding both, whichever way the drag went. */
  function SelectionRect(start: Cell, end: Cell): (r: (Cell, Cell))
    ensures r.0.x <= r.1.x && r.0.y <= r.1.y
    ensures InRect(start, r.0, r.1) && InRect(end, r.0, r.1)
    ensures forall c :: InRect(c, r.0, r.1) <==>
      (MinInt(start.x, end.x) <= c.x <= MaxInt(start.x, end.x) &&
       MinInt(start.y, end.y) <= c.y <= MaxInt(start.y, end.y))
  {
    (Cell(MinInt(start.x, end.x), MinInt(start.y, end.y)),
     Cell(MaxInt(start.x, end.x), MaxInt(start.y, end.y)))
  }

  /** The rectangle does not depend on the direction of the drag. */
  lemma SelectionRectSymmetric(start: Cell, end: Cell)
    ensures SelectionRect(start, end) == SelectionRect(end, start)
  {
    assert MinInt(start.x, end.x) == MinInt(end.x, start.x);
    assert MaxInt(start.y, end.y) == MaxInt(end.y, start.y);
  }

  /** `DrawVisualFeedback`: the rectangle that is outlined and whether it is
      drawn in the delete colour. */
  function FeedbackRect(isDragging: bool, dragStart: Cell, dragEnd: Cell, isRightClick: bool,
                        currentPos: Cell): (r: (Cell, Cell, bool))
    ensures !isDragging ==> r == (currentPos, currentPos, false)
    ensures isDragging ==> (r.0, r.1) == SelectionRect(dragStart, dragEnd) && r.2 == isRightClick
  {
    if !isDragging then (currentPos, currentPos, false)
    else
      var rect := SelectionRect(dragStart, dragEnd);
      (rect.0, rect.1, isRightClick)
  }

  // ---------------------------------------------------------------------
  // Placing and deleting, as values

  /** The number of blocks in a column of the given depth. */
  function ColumnHeight(depth: int): nat {
    if depth >= 1 then 2 * depth - 1 else 0
  }

  /** The blocks `PlaceBlocks` puts in a new group: one per z from
      `-(depth - 1)` to `depth - 1`, in that order (none for depth below 1). */
  function Column(prefab: Prefab, depth: int): (col: seq<Block>)
    ensures depth >= 1 ==> |col| == 2 * depth - 1 && col[0].z == -(depth - 1) && col[|col| - 1].z == depth - 1
    ensures depth < 1 ==> col == []
    ensures forall k :: 0 <= k < |col| ==> col[k].prefab == prefab && -(depth - 1) <= col[k].z <= depth - 1
    ensures forall k :: 0 <= k < |col| - 1 ==> col[k + 1].z == col[k].z + 1
  {
    seq(ColumnHeight(depth), k => Block(prefab, k - (depth - 1)))
  }

  function RectCells(lo: Cell, hi: Cell): (cells: set<Cell>)
    ensures forall c :: c in cells <==> InRect(c, lo, hi)
  {
    set x, y | lo.x <= x <= hi.x && lo.y <= y <= hi.y :: Cell(x, y)
  }

  /** The grid after placing `col` into every empty cell of the rectangle. */
  function Placed(g: Grid, lo: Cell, hi: Cell, col: seq<Block>): (r: Grid)
    ensures forall c :: c in r <==> c in g || InRect(c, lo, hi)
    ensures forall c :: c in g ==> r[c] == g[c]
    ensures forall c :: c in r && c !in g ==> r[c] == col
  {
    map c | c in g.Keys + RectCells(lo, hi) :: if c in g then g[c] else col
  }

  /** The grid after removing every group in the rectangle. */
  function Deleted(g: Grid, lo: Cell, hi: Cell): (r: Grid)
    ensures forall c :: c in r <==> c in g && !InRect(c, lo, hi)
    ensures forall c :: c in r ==> r[c] == g[c]
  {
    map c | c in g && !InRect(c, lo, hi) :: g[c]
  }

  /** `GetOrCreateGrid`, as a value. */
  function GridOrEmpty(grid: Option<Grid>): (g: Grid)
    ensures grid.Some? ==> g == grid.value
    ensures grid.None? ==> g == map[]
  {
    if grid.Some? then grid.value else map[]
  }

  /** The selection names a non-null prefab of the palette. */
  predicate CanPlace(palette: seq<Option<Prefab>>, selected: int) {
    0 <= selected < |palette| && palette[selected].Some?
  }

  /** `PlaceBlocks(lo, hi)`: nothing without a valid selection; otherwise the
      grid is created if missing and filled. */
  function PlaceResult(grid: Option<Grid>, lo: Cell, hi: Cell, palette: seq<Option<Prefab>>,
                       selected: int, depth: int): (r: Option<Grid>)
    ensures !CanPlace(palette, selected) ==> r == grid
    ensures CanPlace(palette, selected) ==>
      r == Some(Placed(GridOrEmpty(grid), lo, hi, Column(palette[selected].value, depth)))
  {
    if !CanPlace(palette, selected) then grid
    else Some(Placed(GridOrEmpty(grid), lo, hi, Column(palette[selected].value, depth)))
  }

  /** `DeleteBlocks(lo, hi)`: nothing without a grid. */
  function DeleteResult(grid: Option<Grid>, lo: Cell, hi: Cell): (r: Option<Grid>)
    ensures grid.None? ==> r == None
    ensures grid.Some? ==> r == Some(Deleted(grid.value, lo, hi))
  {
    if grid.None? then None else Some(Deleted(grid.value, lo, hi))
  }

  /** `ExecuteAction` on a drag from `start` to `end`: a right drag clears the
      selected rectangle of an existing grid, a left drag with a valid
      selection fills it (creating the grid), and a left drag without one
      changes nothing. */
  function ActionResult(grid: Option<Grid>, start: Cell, end: Cell, isRightClick: bool,
                        palette: seq<Option<Prefab>>, selected: int, depth: int): (r: Option<Grid>)
    ensures var rect := SelectionRect(start, end);
      isRightClick ==>
        && (r.Some? <==> grid.Some?)
        && (r.Some? ==> forall c :: c in r.value <==> c in grid.value && !InRect(c, rect.0, rect.1))
    ensures !isRightClick && !CanPlace(palette, selected) ==> r == grid
    ensures var rect := SelectionRect(start, end);
      !isRightClick && CanPlace(palette, selected) ==>
        r.Some? && forall c :: InRect(c, rect.0, rect.1) ==> c in r.value
  {
    var rect := SelectionRect(start, end);
    if isRightClick then DeleteResult(grid, rect.0, rect.1)
    else PlaceResult(grid, rect.0, rect.1, palette, selected, depth)
  }

  // ---------------------------------------------------------------------
  // Properties of the grid operations

  /** Placing twice over the same rectangle is placing once: the second pass
      finds every cell occupied. */
  lemma PlaceIdempotent(g: Grid, lo: Cell, hi: Cell, col: seq<Block>)
    ensures Placed(Placed(g, lo, hi, col), lo, hi, col) == Placed(g, lo, hi, col)
  {
    var once := Placed(g, lo, hi, col);
    var twice := Placed(once, lo, hi, col);
    assert twice.Keys == once.Keys;
    forall c | c in twice
      ensures twice[c] == once[c]
    {
    }
  }

  /** Deleting what was just placed leaves the rectangle empty and every other
      cell as it was before the placement. */
  lemma DeleteUndoesPlace(g: Grid, lo: Cell, hi: Cell, col: seq<Block>)
    ensures Deleted(Placed(g, lo, hi, col), lo, hi) == Deleted(g, lo, hi)
    ensures forall c :: InRect(c, lo, hi) ==> c !in Deleted(Placed(g, lo, hi, col), lo, hi)
  {
    var r1 := Deleted(Placed(g, lo, hi, col), lo, hi);
    var r2 := Deleted(g, lo, hi);
    assert r1.Keys == r2.Keys;
    forall c | c in r1
      ensures r1[c] == r2[c]
    {
    }
  }

  /** Both operations leave the cells outside the rectangle alone. */
  lemma OutsideUnchanged(g: Grid, lo: Cell, hi: Cell, col: seq<Block>, c: Cell)
    requires !InRect(c, lo, hi)
    ensures c in Placed(g, lo, hi, col) <==> c in g
    ensures c in Deleted(g, lo, hi) <==> c in g
    ensures c in g ==> Placed(g, lo, hi, col)[c] == g[c] && Deleted(g, lo, hi)[c] == g[c]
  {
  }

  /** `ExecuteAction` gives the same grid whichever corner the drag began at. */
  lemma ActionDirectionIndependent(grid: Option<Grid>, start: Cell, end: Cell, isRightClick: bool,
                                   palette: seq<Option<Prefab>>, selected: int, depth: int)
    ensures ActionResult(grid, start, end, isRightClick, palette, selected, depth)
         == ActionResult(grid, end, start, isRightClick, palette, selected, depth)
  {
    SelectionRectSymmetric(start, end);
  }

  /** After a left drag with a valid selection and depth at least 1, every
      cell of the rectangle holds a group, each new group holds exactly
      `2 * depth - 1` blocks of the selected prefab, and occupied cells are
      kept as they were. */
  lemma LeftDragFillsRect(grid: Option<Grid>, start: Cell, end: Cell,
                          palette: seq<Option<Prefab>>, selected: int, depth: int)
    requires CanPlace(palette, selected) && depth >= 1
    ensures var r := ActionResult(grid, start, end, false, palette, selected, depth);
      var rect := SelectionRect(start, end);
      && r.Some?
      && (forall c :: InRect(c, rect.0, rect.1) ==> c in r.value)
      && (forall c :: c in r.value && c !in GridOrEmpty(grid) ==>
            |r.value[c]| == 2 * depth - 1 && r.value[c] == Column(palette[selected].value, depth))
      && (forall c :: c in GridOrEmpty(grid) ==> r.value[c] == GridOrEmpty(grid)[c])
  {
  }

  /** After a right drag the rectangle is empty and the rest of the grid is
      as before; without a grid nothing happens. */
  lemma RightDragClearsRect(grid: Option<Grid>, start: Cell, end: Cell,
                            palette: seq<Option<Prefab>>, selected: int, depth: int)
    ensures var r := ActionResult(grid, start, end, true, palette, selected, depth);
      var rect := SelectionRect(start, end);
      && (grid.None? ==> r == None)
      && (grid.Some? ==> r.Some? && (forall c :: c in r.value <==> c in grid.value && !InRect(c, rect.0, rect.1)))
  {
  }

  // ---------------------------------------------------------------------
  // The palette

  /** The selection fix-up after an entry is deleted and the list has
      `size` entries left: a selection past the end moves to the last entry,
      or to -1 when none is left; nothing else changes it. */
  function ClampSelection(selected: int, size: nat): (r: int)
    ensures r < size
    ensures selected < size ==> r == selected
    ensures selected >= size ==> r == size - 1
    ensures size == 0 && selected >= 0 ==> r == -1
  {
    if selected >= size then size - 1 else selected
  }

  /** A selection that is -1 or a valid index stays so when an entry is deleted. */
  lemma ClampKeepsSelectionInRange(selected: int, size: nat)
    requires -1 <= selected <= size
    ensures -1 <= ClampSelection(selected, size) < size
  {
  }

  // ---------------------------------------------------------------------
  // The window

  /** The scene-view events the window reacts to, with the mouse button. */
  datatype MouseEvent = MouseDown(button: int) | MouseDrag | MouseUp(button: int) | OtherEvent

  class BlockEditorWindow {
    /** `_selectedBlockIndex`, -1 for no selection. */
    var selectedBlockIndex: int
    /** The drag state. */
    var isDragging: bool
    var dragStart: Cell
    var dragEnd: Cell
    var isRightClick: bool
    /** `blockPrefabs` of the settings asset; `None` is an empty slot. */
    var palette: seq<Option<Prefab>>
    /** `depth` of the settings asset. */
    var depth: int
    /** The scene's "Grid" object, if there is one. */
    var grid: Option<Grid>

    /** The selection is -1 or an index into the palette. */
    predicate SelectionInRange()
      reads this
    {
      -1 <= selectedBlockIndex < |palette|
    }

    constructor (palette: seq<Option<Prefab>>, depth: int, grid: Option<Grid>)
      ensures this.palette == palette && this.depth == depth && this.grid == grid
      ensures selectedBlockIndex == -1 && !isDragging && !isRightClick
      ensures SelectionInRange()
    {
      this.palette := palette;
      this.depth := depth;
      this.grid := grid;
      selectedBlockIndex := -1;
      isDragging := false;
      dragStart := Cell(0, 0);
      dragEnd := Cell(0, 0);
      isRightClick := false;
    }

    /** The select toggle of entry `i` turned on. */
    method SelectPaletteEntry(i: nat)
      requires i < |palette|
      modifies this`selectedBlockIndex
      ensures selectedBlockIndex == i && SelectionInRange()
    {
      var isSelected := selectedBlockIndex == i;
      if !isSelected {
        selectedBlockIndex := i;
      }
    }

    /** The "-" button of entry `i`. */
    method DeletePaletteEntry(i: nat)
      requires i < |palette|
      modifies this`palette, this`selectedBlockIndex
      ensures palette == old(palette)[..i] + old(palette)[i + 1..]
      ensures selectedBlockIndex == ClampSelection(old(selectedBlockIndex), |palette|)
      ensures old(SelectionInRange()) ==> SelectionInRange()
    {
      palette := palette[..i] + palette[i + 1..];
      if selectedBlockIndex >= |palette| {
        selectedBlockIndex := |palette| - 1;
      }
    }

    /** `HandleMouseEvents(e, gridPos)`. */
    method HandleMouseEvents(e: MouseEvent, gridPos: Cell)
      modifies this
      ensures palette == old(palette) && depth == old(depth) && selectedBlockIndex == old(selectedBlockIndex)
      ensures e.MouseDown? && (e.button == 0 || e.button == 1) ==>
        isDragging && dragStart == gridPos && dragEnd == gridPos && isRightClick == (e.button == 1)
        && grid == old(grid)
      ensures e.MouseDrag? && old(isDragging) ==>
        isDragging && dragEnd == gridPos && dragStart == old(dragStart) && isRightClick == old(isRightClick)
        && grid == old(grid)
      ensures e.MouseUp? && old(isDragging) && (e.button == 0 || e.button == 1) ==>
        !isDragging && dragEnd == gridPos && dragStart == old(dragStart)
        && isRightClick == old(isRightClick)
        && grid == ActionResult(old(grid), old(dragStart), gridPos, old(isRightClick),
                                palette, selectedBlockIndex, depth)
      ensures || (e.MouseDown? && e.button != 0 && e.button != 1)
              || (e.MouseDrag? && !old(isDragging))
              || (e.MouseUp? && !(old(isDragging) && (e.button == 0 || e.button == 1)))
              || e.OtherEvent?
              ==> unchanged(this)
    {
      match e {
        case MouseDown(button) =>
          if button == 0 || button == 1 {
            isDragging := true;
            dragStart := gridPos;
            dragEnd := gridPos;
            isRightClick := button == 1;
          }
        case MouseDrag =>
          if isDragging {
            dragEnd := gridPos;
          }
        case MouseUp(button) =>
          if isDragging && (button == 0 || button == 1) {
            dragEnd := gridPos;
            ExecuteAction();
            isDragging := false;
          }
        case OtherEvent =>
      }
    }

    /** `ExecuteAction`: delete on a right drag, place on a left one. */
    method ExecuteAction()
      modifies this`grid
      ensures grid == ActionResult(old(grid), dragStart, dragEnd, isRightClick,
                                   palette, selectedBlockIndex, depth)
    {
      var rect := SelectionRect(dragStart, dragEnd);
      if isRightClick {
        DeleteBlocks(rect.0, rect.1);
      } else {
        PlaceBlocks(rect.0, rect.1);
      }
    }

    /** `DrawVisualFeedback(currentPos)`: the rectangle to outline. */
    method DrawVisualFeedback(currentPos: Cell) returns (min: Cell, max: Cell, isDelete: bool)
      ensures (min, max, isDelete) == FeedbackRect(isDragging, dragStart, dragEnd, isRightClick, currentPos)
      ensures InRect(currentPos, min, max) || isDragging
      ensures isDelete ==> isDragging && isRightClick
    {
      if !isDragging {
        min, max, isDelete := currentPos, currentPos, false;
      } else {
        var rect := SelectionRect(dragStart, dragEnd);
        min, max, isDelete := rect.0, rect.1, isRightClick;
      }
    }

    /** `GetOrCreateGrid`. */
    method GetOrCreateGrid() returns (g: Grid)
      modifies this`grid
      ensures grid == Some(g)
      ensures g == GridOrEmpty(old(grid))
    {
      if grid.None? {
        grid := Some(map[]);
      }
      g := grid.value;
    }

    /** `PlaceBlocks(min, max)`: visit the rectangle column by column and give
        every cell without a group a new group of blocks. */
    method PlaceBlocks(min: Cell, max: Cell)
      modifies this`grid
      ensures grid == PlaceResult(old(grid), min, max, palette, selectedBlockIndex, depth)
    {
      if selectedBlockIndex < 0 || selectedBlockIndex >= |palette| {
        return;
      }
      var prefab := palette[selectedBlockIndex];
      if prefab.None? {
        return;
      }
      var g0 := GetOrCreateGrid();
      var zStart := -(depth - 1);
      var zEnd := depth - 1;
      var g := g0;
      var x := min.x;
      while x <= max.x
        invariant min.x <= x && (x <= max.x + 1 || x == min.x)
        invariant PlacedUpTo(g, g0, min, max, Column(prefab.value, depth), x, min.y)
      {
        var y := min.y;
        while y <= max.y
          invariant min.y <= y && (y <= max.y + 1 || y == min.y)
          invariant PlacedUpTo(g, g0, min, max, Column(prefab.value, depth), x, y)
        {
          var cell := Cell(x, y);
          if cell !in g {
            var blocks: seq<Block> := [];
            var z := zStart;
            while z <= zEnd
              invariant zStart <= z && (z <= zEnd + 1 || z == zStart)
              invariant |blocks| == z - zStart
              invariant forall k :: 0 <= k < |blocks| ==> blocks[k] == Block(prefab.value, zStart + k)
            {
              blocks := blocks + [Block(prefab.value, z)];
              z := z + 1;
            }
            assert blocks == Column(prefab.value, depth);
            g := g[cell := blocks];
          }
          y := y + 1;
        }
        x := x + 1;
      }
      PlacedUpToDone(g, g0, min, max, Column(prefab.value, depth), x);
      grid := Some(g);
    }

    /** `DeleteBlocks(min, max)`. */
    method DeleteBlocks(min: Cell, max: Cell)
      modifies this`grid
      ensures grid == DeleteResult(old(grid), min, max)
    {
      if grid.None? {
        return;
      }
      var g0 := grid.value;
      var g := g0;
      var x := min.x;
      while x <= max.x
        invariant min.x <= x && (x <= max.x + 1 || x == min.x)
        invariant DeletedUpTo(g, g0, min, max, x, min.y)
      {
        var y := min.y;
        while y <= max.y
          invariant min.y <= y && (y <= max.y + 1 || y == min.y)
          invariant DeletedUpTo(g, g0, min, max, x, y)
        {
          var cell := Cell(x, y);
          if cell in g {
            g := g - {cell};
          }
          y := y + 1;
        }
        x := x + 1;
      }
      DeletedUpToDone(g, g0, min, max, x);
      grid := Some(g);
    }
  }

  // ---------------------------------------------------------------------
  // Loop invariants of the two grid passes

  /** The cells of the rectangle already visited when the pass is at (x, y). */
  predicate Visited(c: Cell, lo: Cell, hi: Cell, x: int, y: int) {
    InRect(c, lo, hi) && (c.x < x || (c.x == x && c.y < y))
  }

  ghost predicate PlacedUpTo(g: Grid, g0: Grid, lo: Cell, hi: Cell, col: seq<Block>, x: int, y: int) {
    && (forall c :: c in g <==> c in g0 || Visited(c, lo, hi, x, y))
    && (forall c :: c in g0 ==> g[c] == g0[c])
    && (forall c :: c in g && c !in g0 ==> g[c] == col)
  }

  ghost predicate DeletedUpTo(g: Grid, g0: Grid, lo: Cell, hi: Cell, x: int, y: int) {
    && (forall c :: c in g <==> c in g0 && !Visited(c, lo, hi, x, y))
    && (forall c :: c in g ==> g[c] == g0[c])
  }

  lemma PlacedUpToDone(g: Grid, g0: Grid, lo: Cell, hi: Cell, col: seq<Block>, x: int)
    requires lo.x <= x && (x == hi.x + 1 || (x == lo.x && x > hi.x))
    requires PlacedUpTo(g, g0, lo, hi, col, x, lo.y)
    ensures g == Placed(g0, lo, hi, col)
  {
    var p := Placed(g0, lo, hi, col);
    assert forall c :: Visited(c, lo, hi, x, lo.y) <==> InRect(c, lo, hi);
    assert g.Keys == p.Keys;
  }

  lemma DeletedUpToDone(g: Grid, g0: Grid, lo: Cell, hi: Cell, x: int)
    requires lo.x <= x && (x == hi.x + 1 || (x == lo.x && x > hi.x))
    requires DeletedUpTo(g, g0, lo, hi, x, lo.y)
    ensures g == Deleted(g0, lo, hi)
  {
    var d := Deleted(g0, lo, hi);
    assert forall c :: Visited(c, lo, hi, x, lo.y) <==> InRect(c, lo, hi);
    assert g.Keys == d.Keys;
  }
}

/** A creature's picture of which tiles around it can be walked on, moved along as the creature walks. */
module WalkCache {

  const VIEW := 11   // maxViewportX, maxViewportY
  const SIZE := 23   // mapWalkWidth, mapWalkHeight

  datatype Position = Position(x: int, y: int, z: int)

  // Which tiles of a floor can be walked on.
  type World = (int, int) -> bool

  predicate InView(dx: int, dy: int) {
    -VIEW <= dx <= VIEW && -VIEW <= dy <= VIEW
  }

  // ---------------------------------------------------------------- what a cell shows after a step

  // A step to the south-east or the south-west.
  predicate SouthDiagonal(stepX: int, stepY: int) {
    stepX != 0 && stepY == 1
  }

  // The column, relative to the creature, of the tile that a cell shows after a step: its own, except in the first
  // and the last row after a step to the south and sideways. The rows to be left out when the columns are shifted
  // are chosen from the distance between the two rows, which does not tell north from south.
  function ShownX(stepX: int, stepY: int, dx: int, dy: int): int {
    if !SouthDiagonal(stepX, stepY) || dx == stepX * VIEW then dx
    else if dy == -VIEW then dx - stepX
    else if dy == VIEW then dx + stepX
    else dx
  }

  // ---------------------------------------------------------------- the cells, as values

  type Grid = seq<seq<bool>>

  predicate Full(g: Grid) {
    |g| == SIZE && forall r | 0 <= r < SIZE :: |g[r]| == SIZE
  }

  // Every cell but the creature's own, which is never asked for, shows its tile.
  ghost predicate Shows(g: Grid, world: World, pos: Position)
    requires Full(g)
  {
    forall r, c | 0 <= r < SIZE && 0 <= c < SIZE && (r != VIEW || c != VIEW) ::
      g[r][c] == world(pos.x + c - VIEW, pos.y + r - VIEW)
  }

  // The same, with the tiles that a step leaves in the cells.
  ghost predicate ShowsShifted(g: Grid, world: World, pos: Position, stepX: int, stepY: int)
    requires Full(g)
  {
    forall r, c | 0 <= r < SIZE && 0 <= c < SIZE && (r != VIEW || c != VIEW) ::
      g[r][c] == world(pos.x + ShownX(stepX, stepY, c - VIEW, r - VIEW), pos.y + r - VIEW)
  }

  function Row(world: World, pos: Position, dy: int): (row: seq<bool>)
    ensures |row| == SIZE && forall c | 0 <= c < SIZE :: row[c] == world(pos.x + c - VIEW, pos.y + dy)
  {
    seq(SIZE, c => world(pos.x + c - VIEW, pos.y + dy))
  }

  function WithColumn(g: Grid, world: World, pos: Position, dx: int): (h: Grid)
    requires Full(g) && -VIEW <= dx <= VIEW
    ensures Full(h) && forall r, c | 0 <= r < SIZE && 0 <= c < SIZE ::
      h[r][c] == if c == VIEW + dx then world(pos.x + dx, pos.y + r - VIEW) else g[r][c]
  {
    seq(SIZE, r requires 0 <= r < SIZE => g[r][VIEW + dx := world(pos.x + dx, pos.y + r - VIEW)])
  }

  function ShiftedRow(row: seq<bool>, stepX: int): (shifted: seq<bool>)
    requires |row| == SIZE
    ensures |shifted| == SIZE
  {
    if stepX > 0 then row[1..] + row[SIZE - 1..] else if stepX < 0 then row[..1] + row[..SIZE - 1] else row
  }

  // The columns of some rows shifted against the step.
  function ShiftedColumns(g: Grid, stepX: int, starty: int, endy: int): (h: Grid)
    requires Full(g)
    ensures Full(h) && forall r | 0 <= r < SIZE :: h[r] == if starty <= r <= endy then ShiftedRow(g[r], stepX) else g[r]
  {
    seq(SIZE, r requires 0 <= r < SIZE => if starty <= r <= endy then ShiftedRow(g[r], stepX) else g[r])
  }

  function MovedRows(g: Grid, world: World, pos: Position, stepY: int): (h: Grid)
    requires Full(g)
    ensures Full(h)
  {
    if stepY < 0 then [Row(world, pos, -VIEW)] + g[..SIZE - 1]
    else if stepY > 0 then g[1..] + [Row(world, pos, VIEW)]
    else g
  }

  function MovedColumns(g: Grid, world: World, pos: Position, stepX: int, stepY: int): (h: Grid)
    requires Full(g)
    ensures Full(h)
  {
    if stepX == 0 then g
    else WithColumn(ShiftedColumns(g, stepX, if stepY == 0 then 0 else 1, SIZE - 1), world, pos, if stepX > 0 then VIEW
      else -VIEW)
  }

  // The cache after a step: the rows moved, then the columns, then the tile that was left.
  function Moved(g: Grid, world: World, pos: Position, stepX: int, stepY: int): (h: Grid)
    requires Full(g) && -1 <= stepX <= 1 && -1 <= stepY <= 1
    ensures Full(h)
  {
    var columns := MovedColumns(MovedRows(g, world, pos, stepY), world, pos, stepX, stepY);
    columns[VIEW - stepY := columns[VIEW - stepY][VIEW - stepX := world(pos.x - stepX, pos.y - stepY)]]
  }

  lemma {:induction false} MovedRowsShow(g: Grid, before: World, world: World, pos: Position, stepX: int, stepY: int,
                                         r: int, c: int)
    requires Full(g) && Shows(g, before, Position(pos.x - stepX, pos.y - stepY, pos.z))
    requires -1 <= stepX <= 1 && -1 <= stepY <= 1
    requires 0 <= r < SIZE && 0 <= c < SIZE && (r != VIEW - stepY || c != VIEW)
    ensures MovedRows(g, world, pos, stepY)[r][c] ==
      if (stepY < 0 && r == 0) || (stepY > 0 && r == SIZE - 1) then world(pos.x + c - VIEW, pos.y + r - VIEW)
      else before(pos.x - stepX + c - VIEW, pos.y + r - VIEW)
  {}

  // After a step every cell but the creature's own shows the tile it is said to, in the world after the step.
  lemma {:induction false} MovedShows(g: Grid, before: World, world: World, pos: Position, stepX: int, stepY: int)
    requires Full(g) && Shows(g, before, Position(pos.x - stepX, pos.y - stepY, pos.z))
    requires -1 <= stepX <= 1 && -1 <= stepY <= 1
    requires OnlyTwoDiffer(before, world, pos, Position(pos.x - stepX, pos.y - stepY, pos.z))
    ensures ShowsShifted(Moved(g, world, pos, stepX, stepY), world, pos, stepX, stepY)
  {
    hide Moved, ShownX, Shows, OnlyTwoDiffer;
    forall r, c | 0 <= r < SIZE && 0 <= c < SIZE && (r != VIEW || c != VIEW)
      ensures Moved(g, world, pos, stepX, stepY)[r][c] ==
        world(pos.x + ShownX(stepX, stepY, c - VIEW, r - VIEW), pos.y + r - VIEW)
    {
      CellShows(g, before, world, pos, stepX, stepY, r, c);
    }
  }

  lemma {:induction false} CellShows(g: Grid, before: World, world: World, pos: Position, stepX: int, stepY: int,
                                     r: int, c: int)
    requires Full(g) && Shows(g, before, Position(pos.x - stepX, pos.y - stepY, pos.z))
    requires -1 <= stepX <= 1 && -1 <= stepY <= 1
    requires OnlyTwoDiffer(before, world, pos, Position(pos.x - stepX, pos.y - stepY, pos.z))
    requires 0 <= r < SIZE && 0 <= c < SIZE && (r != VIEW || c != VIEW)
    ensures Moved(g, world, pos, stepX, stepY)[r][c] ==
      world(pos.x + ShownX(stepX, stepY, c - VIEW, r - VIEW), pos.y + r - VIEW)
  {
    var rows := MovedRows(g, world, pos, stepY);
    MovedIs(g, world, pos, stepX, stepY, r, c);
    hide *;
    if !(r == VIEW - stepY && c == VIEW - stepX) {
      if stepX != 0 && c == VIEW + stepX * VIEW {
        FreshColumn(rows, world, pos, stepX, stepY, r, c);
      } else {
        ColumnFrom(rows, world, pos, stepX, stepY, r, c);
        FromShows(g, before, world, pos, stepX, stepY, r, c, From(stepX, stepY, r, c));
      }
    } else {
      LeftIs(stepX, stepY, r, c);
    }
  }

  // The column a cell's value comes from when the columns are shifted.
  function From(stepX: int, stepY: int, r: int, c: int): int {
    if stepX == 0 || (stepY != 0 && r == 0) then c else c + stepX
  }

  lemma {:induction false} MovedIs(g: Grid, world: World, pos: Position, stepX: int, stepY: int, r: int, c: int)
    requires Full(g) && -1 <= stepX <= 1 && -1 <= stepY <= 1 && 0 <= r < SIZE && 0 <= c < SIZE
    ensures Moved(g, world, pos, stepX, stepY)[r][c] ==
      if r == VIEW - stepY && c == VIEW - stepX then world(pos.x - stepX, pos.y - stepY)
      else MovedColumns(MovedRows(g, world, pos, stepY), world, pos, stepX, stepY)[r][c]
  {
    hide MovedRows, MovedColumns;
    var columns := MovedColumns(MovedRows(g, world, pos, stepY), world, pos, stepX, stepY);
    assert |columns| == SIZE && |columns[r]| == SIZE;
  }

  lemma {:induction false} LeftIs(stepX: int, stepY: int, r: int, c: int)
    requires -1 <= stepX <= 1 && -1 <= stepY <= 1 && r == VIEW - stepY && c == VIEW - stepX
    ensures ShownX(stepX, stepY, c - VIEW, r - VIEW) == -stepX && c - VIEW == -stepX && r - VIEW == -stepY
  {}

  lemma {:induction false} FromShows(g: Grid, before: World, world: World, pos: Position, stepX: int, stepY: int,
                                     r: int, c: int, from: int)
    requires Full(g) && Shows(g, before, Position(pos.x - stepX, pos.y - stepY, pos.z))
    requires -1 <= stepX <= 1 && -1 <= stepY <= 1
    requires OnlyTwoDiffer(before, world, pos, Position(pos.x - stepX, pos.y - stepY, pos.z))
    requires 0 <= r < SIZE && 0 <= c < SIZE && (r != VIEW || c != VIEW) && !(r == VIEW - stepY && c == VIEW - stepX)
    requires !(stepX != 0 && c == VIEW + stepX * VIEW) && from == From(stepX, stepY, r, c) && 0 <= from < SIZE
    ensures MovedRows(g, world, pos, stepY)[r][from] ==
      world(pos.x + ShownX(stepX, stepY, c - VIEW, r - VIEW), pos.y + r - VIEW)
  {
    hide MovedRows, Shows, OnlyTwoDiffer, Full;
    MovedRowsShow(g, before, world, pos, stepX, stepY, r, from);
    if !((stepY < 0 && r == 0) || (stepY > 0 && r == SIZE - 1)) {
      SameTile(before, world, pos, stepX, stepY, pos.x - stepX + from - VIEW, pos.y + r - VIEW);
    }
  }

  lemma {:induction false} FreshColumn(rows: Grid, world: World, pos: Position, stepX: int, stepY: int, r: int, c: int)
    requires Full(rows) && -1 <= stepX <= 1 && -1 <= stepY <= 1
    requires 0 <= r < SIZE && 0 <= c < SIZE && stepX != 0 && c == VIEW + stepX * VIEW
    ensures MovedColumns(rows, world, pos, stepX, stepY)[r][c] == world(pos.x + c - VIEW, pos.y + r - VIEW)
    ensures ShownX(stepX, stepY, c - VIEW, r - VIEW) == c - VIEW
  {}

  lemma {:induction false} SameTile(before: World, world: World, pos: Position, stepX: int, stepY: int, x: int, y: int)
    requires OnlyTwoDiffer(before, world, pos, Position(pos.x - stepX, pos.y - stepY, pos.z))
    requires !(x == pos.x && y == pos.y) && !(x == pos.x - stepX && y == pos.y - stepY)
    ensures before(x, y) == world(x, y)
  {}

  lemma {:induction false} ColumnFrom(rows: Grid, world: World, pos: Position, stepX: int, stepY: int, r: int, c: int)
    requires Full(rows) && -1 <= stepX <= 1 && -1 <= stepY <= 1
    requires 0 <= r < SIZE && 0 <= c < SIZE && !(stepX != 0 && c == VIEW + stepX * VIEW)
    ensures var from := From(stepX, stepY, r, c);
      0 <= from < SIZE && MovedColumns(rows, world, pos, stepX, stepY)[r][c] == rows[r][from]
  {}

  // The tiles left and entered may have changed, no others.
  ghost predicate OnlyTwoDiffer(before: World, world: World, p: Position, q: Position) {
    forall x, y | !(x == p.x && y == p.y) && !(x == q.x && y == q.y) :: before(x, y) == world(x, y)
  }
  function DistanceY(a: Position, b: Position): int {
    if a.y - b.y < 0 then b.y - a.y else a.y - b.y
  }

  // ---------------------------------------------------------------- the creature

  class Creature {
    const localMapCache: array<seq<bool>>
    var position: Position

    constructor (position: Position, world: World)
      ensures this.position == position && fresh(localMapCache) && Valid()
      ensures Shows(localMapCache[..], world, position)
    {
      this.position := position;
      localMapCache := new seq<bool>[SIZE](_ => seq(SIZE, _ => false));
      new;
      UpdateMapCache(world);
    }

    ghost predicate Valid()
      reads localMapCache
    {
      Full(localMapCache[..])
    }

    // Every tile in view is looked at.
    method UpdateMapCache(world: World)
      requires Valid()
      modifies localMapCache
      ensures Valid()
      ensures Shows(localMapCache[..], world, position)
      ensures localMapCache[VIEW][VIEW] == world(position.x, position.y)
    {
      for y := -VIEW to VIEW + 1
        invariant Valid()
        invariant forall r | 0 <= r < VIEW + y :: localMapCache[..][r] == Row(world, position, r - VIEW)
      {
        UpdateRow(world, y);
      }
    }

    method UpdateTileCache(walkable: bool, dx: int, dy: int)
      requires Valid()
      modifies localMapCache
      ensures Valid()
      ensures localMapCache[..] ==
        if InView(dx, dy)
          then old(localMapCache[..])[VIEW + dy := old(localMapCache[VIEW + dy])[VIEW + dx := walkable]]
            else old(localMapCache[..])
    {
      if -VIEW <= dx <= VIEW && -VIEW <= dy <= VIEW {
        localMapCache[VIEW + dy] := localMapCache[VIEW + dy][VIEW + dx := walkable];
      }
    }

    // A tile on the creature's floor has changed, or its creatures have.
    method UpdateTile(ghost before: World, world: World, pos: Position)
      requires Valid() && Shows(localMapCache[..], before, position)
      requires pos.z == position.z && OnlyTwoDiffer(before, world, pos, pos)
      modifies localMapCache
      ensures Valid() && Shows(localMapCache[..], world, position)
    {
      ghost var g := localMapCache[..];
      UpdateTileCache(world(pos.x, pos.y), pos.x - position.x, pos.y - position.y);
      forall r, c | 0 <= r < SIZE && 0 <= c < SIZE && (r != VIEW || c != VIEW)
        ensures localMapCache[..][r][c] == world(position.x + c - VIEW, position.y + r - VIEW)
      {
        if r - VIEW != pos.y - position.y || c - VIEW != pos.x - position.x {
          assert localMapCache[..][r][c] == g[r][c];
          SameTile(before, world, pos, 0, 0, position.x + c - VIEW, position.y + r - VIEW);
        }
      }
    }

    method UpdateRow(world: World, dy: int)
      requires Valid() && InView(0, dy)
      modifies localMapCache
      ensures Valid() && localMapCache[..] == old(localMapCache[..])[VIEW + dy := Row(world, position, dy)]
    {
      ghost var g := localMapCache[..];
      for dx := -VIEW to VIEW + 1
        invariant Valid() && localMapCache[..] == g[VIEW + dy := localMapCache[VIEW + dy]]
        invariant localMapCache[VIEW + dy][..VIEW + dx] == Row(world, position, dy)[..VIEW + dx]
      {
        UpdateTileCache(world(position.x + dx, position.y + dy), dx, dy);
      }
      assert localMapCache[VIEW + dy][..SIZE] == localMapCache[VIEW + dy];
      assert Row(world, position, dy)[..SIZE] == Row(world, position, dy);
    }

    method UpdateColumn(world: World, dx: int)
      requires Valid() && InView(dx, 0)
      modifies localMapCache
      ensures Valid() && localMapCache[..] == WithColumn(old(localMapCache[..]), world, position, dx)
    {
      ghost var g := localMapCache[..];
      ghost var h := WithColumn(g, world, position, dx);
      hide WithColumn, Row;
      for dy := -VIEW to VIEW + 1
        invariant Valid()
        invariant forall r | 0 <= r < SIZE :: localMapCache[..][r] == if r < VIEW + dy then h[r] else g[r]
      {
        ghost var now := localMapCache[..];
        assert now[VIEW + dy] == g[VIEW + dy];
        assert h[VIEW + dy] == g[VIEW + dy][VIEW + dx := world(position.x + dx, position.y + dy)];
        UpdateTileCache(world(position.x + dx, position.y + dy), dx, dy);
        assert localMapCache[..] == now[VIEW + dy := h[VIEW + dy]];
      }
      assert localMapCache[..] == h;
    }

    // 1 for a tile that can be walked on or the creature's own, 0 for others, 2 where the cache does not reach.
    method GetWalkCache(pos: Position, ghost world: World) returns (r: nat)
      requires Valid() && Shows(localMapCache[..], world, position)
      ensures r ==
        if pos.z != position.z then 0
        else if pos == position then 1
        else if !InView(pos.x - position.x, pos.y - position.y) then 2
        else if world(pos.x, pos.y) then 1 else 0
    {
      if position.z != pos.z {
        return 0;
      }
      if pos == position {
        return 1;
      }
      var dx, dy := pos.x - position.x, pos.y - position.y;
      if -VIEW <= dx <= VIEW && -VIEW <= dy <= VIEW {
        assert localMapCache[..][VIEW + dy][VIEW + dx] ==
          world(position.x + (VIEW + dx) - VIEW, position.y + (VIEW + dy) - VIEW);
        return if localMapCache[VIEW + dy][VIEW + dx] then 1 else 0;
      }
      return 2;
    }

    // ---- a step

    // The rows are copied one south or one north; a row comes into view.
    method MoveRows(oldPos: Position, world: World)
      requires Valid() && -1 <= position.y - oldPos.y <= 1
      modifies localMapCache
      ensures Valid() && localMapCache[..] == MovedRows(old(localMapCache[..]), world, position, position.y - oldPos.y)
    {
      if oldPos.y > position.y {
        CopySouth();
        UpdateRow(world, -VIEW);
      } else if oldPos.y < position.y {
        CopyNorth();
        UpdateRow(world, VIEW);
      }
    }

    method CopySouth()
      requires Valid()
      modifies localMapCache
      ensures Valid() && localMapCache[..] == old(localMapCache[..1] + localMapCache[..SIZE - 1])
    {
      ghost var g := localMapCache[..];
      var y := SIZE - 1;
      while y > 0
        invariant 0 <= y <= SIZE - 1 && localMapCache[..] == g[..y + 1] + g[y..SIZE - 1]
      {
        y := y - 1;
        localMapCache[y + 1] := localMapCache[y];
      }
    }

    method CopyNorth()
      requires Valid()
      modifies localMapCache
      ensures Valid() && localMapCache[..] == old(localMapCache[1..] + localMapCache[SIZE - 1..])
    {
      ghost var g := localMapCache[..];
      for y := 0 to SIZE - 1
        invariant localMapCache[..] == g[1..y + 1] + g[y..]
      {
        RowStep(g, y);
        assert localMapCache[y + 1] == localMapCache[..][y + 1];
        localMapCache[y] := localMapCache[y + 1];
      }
      assert g[1..SIZE] == g[1..];
    }

    // The cells of some rows are copied one west or one east.
    method ShiftColumns(stepX: int, starty: int, endy: int)
      requires Valid() && 0 <= starty && endy < SIZE && stepX in {-1, 1}
      modifies localMapCache
      ensures Valid() && localMapCache[..] == ShiftedColumns(old(localMapCache[..]), stepX, starty, endy)
    {
      ghost var g := localMapCache[..];
      var y := starty;
      while y <= endy
        invariant starty <= y && Valid()
        invariant localMapCache[..] == ShiftedColumns(g, stepX, starty, if y <= endy then y - 1 else endy)
      {
        if stepX == 1 {
          ShiftRowWest(y);
        } else {
          ShiftRowEast(y);
        }
        y := y + 1;
      }
    }

    method ShiftRowWest(y: nat)
      requires Valid() && y < SIZE
      modifies localMapCache
      ensures localMapCache[..] == old(localMapCache[..])[y := ShiftedRow(old(localMapCache[y]), 1)]
    {
      ghost var g, row := localMapCache[..], localMapCache[y];
      for x := 0 to SIZE - 1
        invariant localMapCache[..] == g[y := localMapCache[y]] && localMapCache[y] == row[1..x + 1] + row[x..]
      {
        RowStep(row, x);
        localMapCache[y] := localMapCache[y][x := localMapCache[y][x + 1]];
      }
      assert row[1..SIZE] == row[1..];
    }

    method ShiftRowEast(y: nat)
      requires Valid() && y < SIZE
      modifies localMapCache
      ensures localMapCache[..] == old(localMapCache[..])[y := ShiftedRow(old(localMapCache[y]), -1)]
    {
      ghost var g, row := localMapCache[..], localMapCache[y];
      var x := SIZE - 1;
      while x > 0
        invariant 0 <= x <= SIZE - 1
        invariant localMapCache[..] == g[y := localMapCache[y]] && localMapCache[y] == row[..x + 1] + row[x..SIZE - 1]
      {
        x := x - 1;
        localMapCache[y] := localMapCache[y][x + 1 := localMapCache[y][x]];
      }
    }

    // Then the columns of all rows, or of all but the first when the rows have moved; a column comes into view.
    method MoveColumns(oldPos: Position, world: World)
      requires Valid() && -1 <= position.x - oldPos.x <= 1 && -1 <= position.y - oldPos.y <= 1
      modifies localMapCache
      ensures Valid()
      ensures localMapCache[..] ==
        MovedColumns(old(localMapCache[..]), world, position, position.x - oldPos.x, position.y - oldPos.y)
    {
      hide ShiftedColumns, WithColumn;
      if oldPos.x != position.x {
        var starty, endy := 0, SIZE - 1;
        var dy := DistanceY(oldPos, position);
        if dy < 0 {
          endy := endy + dy;
        } else if dy > 0 {
          starty := dy;
        }
        assert endy == SIZE - 1 && starty == if position.y == oldPos.y then 0 else 1;
        ShiftColumns(position.x - oldPos.x, starty, endy);
        UpdateColumn(world, if oldPos.x < position.x then VIEW else -VIEW);
      }
    }

    // Follows a step or a longer way; `before` and `world` are the tiles before and after it. After a longer way, a
    // change of floor, or any step but a southern diagonal, the cache is what looking at every tile would give.
    method OnCreatureMove(newPos: Position, teleport: bool, ghost before: World, world: World)
      requires Valid() && Shows(localMapCache[..], before, position)
      requires !teleport && newPos.z == position.z ==>
        -1 <= newPos.x - position.x <= 1 && -1 <= newPos.y - position.y <= 1 &&
          OnlyTwoDiffer(before, world, newPos, position)
      modifies this`position, localMapCache
      ensures Valid() && position == newPos
      ensures
        var stepX, stepY := newPos.x - old(position.x), newPos.y - old(position.y);
        if teleport || newPos.z != old(position.z) then Shows(localMapCache[..], world, newPos)
        else
          && ShowsShifted(localMapCache[..], world, newPos, stepX, stepY)
          && (!SouthDiagonal(stepX, stepY) ==> Shows(localMapCache[..], world, newPos))
    {
      hide Shows, ShowsShifted, MovedRows, MovedColumns, OnlyTwoDiffer;
      ghost var g := localMapCache[..];
      var oldPos := position;
      position := newPos;
      if teleport || oldPos.z != newPos.z {
        UpdateMapCache(world);
      } else {
        ghost var stepX, stepY := newPos.x - oldPos.x, newPos.y - oldPos.y;
        assert Position(newPos.x - stepX, newPos.y - stepY, newPos.z) == oldPos;
        MoveRows(oldPos, world);
        MoveColumns(oldPos, world);
        UpdateTileCache(world(oldPos.x, oldPos.y), oldPos.x - newPos.x, oldPos.y - newPos.y);
        assert localMapCache[..] == Moved(g, world, newPos, stepX, stepY);
        MovedShows(g, before, world, newPos, stepX, stepY);
        StraightShows(localMapCache[..], world, newPos, stepX, stepY);
      }
    }
  }

  lemma {:induction false} RowStep<T>(row: seq<T>, x: nat)
    requires x + 1 < |row|
    ensures |row[1..x + 1] + row[x..]| == |row| && (row[1..x + 1] + row[x..])[x + 1] == row[x + 1]
    ensures (row[1..x + 1] + row[x..])[x := row[x + 1]] == row[1..x + 2] + row[x + 1..]
  {}

  lemma {:induction false} StraightShows(g: Grid, world: World, pos: Position, stepX: int, stepY: int)
    requires Full(g) && ShowsShifted(g, world, pos, stepX, stepY)
    ensures !SouthDiagonal(stepX, stepY) ==> Shows(g, world, pos)
  {}

  // ---------------------------------------------------------------- when the shifted cache is right

  // What looking at every tile would give.
  function ViewOf(world: World, pos: Position): (g: Grid)
    ensures Full(g) && Shows(g, world, pos)
  {
    var g := seq(SIZE, (r: int) => Row(world, pos, r - VIEW));
    assert forall r | 0 <= r < SIZE :: g[r] == Row(world, pos, r - VIEW);
    g
  }

  // A cache that is right before a step is right after it.
  ghost predicate ShownRight(g: Grid, before: World, world: World, pos: Position, stepX: int, stepY: int)
    requires -1 <= stepX <= 1 && -1 <= stepY <= 1
  {
    var oldPos := Position(pos.x - stepX, pos.y - stepY, pos.z);
    Full(g) && Shows(g, before, oldPos) && OnlyTwoDiffer(before, world, pos, oldPos) ==>
      Shows(Moved(g, world, pos, stepX, stepY), world, pos)
  }

  // The cache that is shifted in place stays right, for every cache and in every world, exactly if the step is no
  // southern diagonal.
  lemma {:induction false} ShownRightIff(pos: Position, stepX: int, stepY: int)
    requires -1 <= stepX <= 1 && -1 <= stepY <= 1
    ensures (forall g: Grid, before: World, world: World :: ShownRight(g, before, world, pos, stepX, stepY))
       <==> !SouthDiagonal(stepX, stepY)
  {
    hide Shows, ShowsShifted, Moved;
    if SouthDiagonal(stepX, stepY) {
      GoesWrong(pos, stepX, stepY);
    } else {
      forall g: Grid, before: World, world: World ensures ShownRight(g, before, world, pos, stepX, stepY) {
        var oldPos := Position(pos.x - stepX, pos.y - stepY, pos.z);
        if Full(g) && Shows(g, before, oldPos) && OnlyTwoDiffer(before, world, pos, oldPos) {
          MovedShows(g, before, world, pos, stepX, stepY);
          StraightShows(Moved(g, world, pos, stepX, stepY), world, pos, stepX, stepY);
        }
      }
    }
  }

  lemma {:induction false} GoesWrong(pos: Position, stepX: int, stepY: int)
    requires -1 <= stepX <= 1 && SouthDiagonal(stepX, stepY)
    ensures exists g: Grid, before: World, world: World :: !ShownRight(g, before, world, pos, stepX, stepY)
  {
    hide Moved;
    var oldPos := Position(pos.x - stepX, pos.y - stepY, pos.z);
    var oneTile: World := (x: int, y: int) => x == pos.x && y == pos.y - VIEW;
    var g := ViewOf(oneTile, oldPos);
    assert OnlyTwoDiffer(oneTile, oneTile, pos, oldPos);
    MovedShows(g, oneTile, oneTile, pos, stepX, stepY);
    assert Moved(g, oneTile, pos, stepX, stepY)[0][VIEW] != oneTile(pos.x + VIEW - VIEW, pos.y + 0 - VIEW);
    assert !ShownRight(g, oneTile, oneTile, pos, stepX, stepY);
  }
}

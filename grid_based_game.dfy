/** The grid exercise: a rows x columns grid of nullable entity handles with
    bounds-checked access.  operator()(row, column) returns a reference to a
    cell; reading through it is At, writing through it is Put. */
module GridBasedGame {
  import Errors

  const INDEX_OUT_OF_RANGE: string := "Index out of range"

  class Entity {
    const id: int

    constructor (id: int)
      ensures this.id == id
    {
      this.id := id;
    }
  }

  class Grid {
    const cells: array2<Entity?>

    /** Grid(rows, columns): every cell starts as nullptr. */
    constructor (rows: nat, columns: nat)
      ensures fresh(cells)
      ensures cells.Length0 == rows && cells.Length1 == columns
      ensures forall r, c :: 0 <= r < rows && 0 <= c < columns ==> cells[r, c] == null
    {
      cells := new Entity?[rows, columns]((r, c) => null);
    }

    /** The bounds test of operator(); the column bound is the width of row
        0, consulted only once the row is known to be in range. */
    predicate InRange(row: int, column: int) {
      !(row < 0 || row >= cells.Length0 || column < 0 || column >= cells.Length1)
    }

    /** Reading grid(row, column). */
    method At(row: int, column: int) returns (r: Errors.Result<Entity?>)
      ensures r.Ok? <==> 0 <= row < cells.Length0 && 0 <= column < cells.Length1
      ensures r.Ok? ==> r.value == cells[row, column]
      ensures r.Throw? ==> r.ex == Errors.OutOfRange(INDEX_OUT_OF_RANGE)
    {
      if !InRange(row, column) {
        return Errors.Throw(Errors.OutOfRange(INDEX_OUT_OF_RANGE));
      }
      return Errors.Ok(cells[row, column]);
    }

    /** Writing grid(row, column) = entity: only that cell changes. */
    method Put(row: int, column: int, entity: Entity?) returns (outcome: Errors.Outcome)
      modifies cells
      ensures outcome == Errors.Done <==> 0 <= row < cells.Length0 && 0 <= column < cells.Length1
      ensures outcome != Errors.Done ==> outcome == Errors.Thrown(Errors.OutOfRange(INDEX_OUT_OF_RANGE))
      ensures outcome == Errors.Done ==> cells[row, column] == entity
      ensures forall r, c :: 0 <= r < cells.Length0 && 0 <= c < cells.Length1 && (r != row || c != column) ==>
                cells[r, c] == old(cells[r, c])
      ensures outcome != Errors.Done ==> forall r, c :: 0 <= r < cells.Length0 && 0 <= c < cells.Length1 ==>
                cells[r, c] == old(cells[r, c])
    {
      if !InRange(row, column) {
        return Errors.Thrown(Errors.OutOfRange(INDEX_OUT_OF_RANGE));
      }
      cells[row, column] := entity;
      outcome := Errors.Done;
    }
  }

  /** A write through grid(row, column) is what a later read of the same
      cell returns. */
  method WriteThenRead(grid: Grid, row: int, column: int, entity: Entity?) returns (r: Errors.Result<Entity?>)
    modifies grid.cells
    ensures 0 <= row < grid.cells.Length0 && 0 <= column < grid.cells.Length1 ==> r == Errors.Ok(entity)
    ensures !(0 <= row < grid.cells.Length0 && 0 <= column < grid.cells.Length1) ==>
              r == Errors.Throw(Errors.OutOfRange(INDEX_OUT_OF_RANGE))
  {
    var _ := grid.Put(row, column, entity);
    r := grid.At(row, column);
  }

  /** With no rows, every access throws, whatever the column. */
  method EmptyGridAccess(columns: nat, row: int, column: int) returns (r: Errors.Result<Entity?>)
    ensures r == Errors.Throw(Errors.OutOfRange(INDEX_OUT_OF_RANGE))
  {
    var grid := new Grid(0, columns);
    r := grid.At(row, column);
  }

  /** The run of main: an entity with id 1 written at (2, 3) of a 10 x 10
      grid is read back from (2, 3). */
  method Demo() returns (retrieved: Errors.Result<Entity?>)
    ensures retrieved.Ok? && retrieved.value != null && retrieved.value.id == 1
  {
    var grid := new Grid(10, 10);
    var entity := new Entity(1);
    var _ := grid.Put(2, 3, entity);
    retrieved := grid.At(2, 3);
  }
}

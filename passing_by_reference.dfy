/** The passing-by-reference exercise: swap(int* a, int* b).  An int
    location a pointer designates is a Cell. */
module PassingByReference {

  class Cell {
    var value: int

    constructor (value: int)
      ensures this.value == value
    {
      this.value := value;
    }
  }

  /** Exchanges the values at a and b, through the temporary aux; when a and
      b are the same location, its value stays. */
  method Swap(a: Cell, b: Cell)
    modifies a, b
    ensures a.value == old(b.value) && b.value == old(a.value)
  {
    var aux := a.value;
    a.value := b.value;
    b.value := aux;
  }

  /** Swapping twice restores both values. */
  method SwapTwice(a: Cell, b: Cell)
    modifies a, b
    ensures a.value == old(a.value) && b.value == old(b.value)
  {
    Swap(a, b);
    Swap(a, b);
  }

  /** The run of main: x = 4 and y = 9 become x = 9 and y = 4. */
  method Demo() returns (x: int, y: int)
    ensures x == 9 && y == 4
  {
    var cx := new Cell(4);
    var cy := new Cell(9);
    Swap(cx, cy);
    x, y := cx.value, cy.value;
  }
}

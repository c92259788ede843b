/** Random draws, supplied from outside instead of computed. Every
    `rng.nextDouble()` the Java code makes for a matrix cell is looked up in a
    `Draws` table by the cell's site: the active layer, whether the matrix is
    the layer's weights or its biases, and the row and column. */
module Draws {
  import opened Matrices

  datatype Part = WeightsPart | BiasesPart

  datatype Site = Site(layer: nat, part: Part, row: nat, col: nat)

  type Draws = Site -> real

  /** Every draw lies in [0, 1), as `Random.nextDouble` promises. */
  ghost predicate Uniform(d: Draws) {
    forall s :: 0.0 <= d(s) < 1.0
  }

  /** `rng.nextDouble() * 2 - 1`: a draw moved to [-1, 1). */
  function Scaled(u: real): (v: real)
    ensures 0.0 <= u < 1.0 ==> -1.0 <= v < 1.0
  {
    u * 2.0 - 1.0
  }

  /** The matrix the Java random initialisation writes: every cell its own scaled draw. */
  function RandomMatrix(rows: nat, cols: nat, d: Draws, layer: nat, part: Part): (m: Matrix)
    ensures m.Valid() && m.rows == rows && m.cols == cols
    ensures forall r, c :: 0 <= r < rows && 0 <= c < cols ==> m.cells[r][c] == Scaled(d(Site(layer, part, r, c)))
  {
    Matrix(rows, cols, seq(rows, r => seq(cols, c =>
      if 0 <= r && 0 <= c then Scaled(d(Site(layer, part, r, c))) else 0.0)))
  }

  /** With uniform draws every entry of a random matrix lies in [-1, 1). */
  lemma RandomMatrixInRange(rows: nat, cols: nat, d: Draws, layer: nat, part: Part)
    requires Uniform(d)
    ensures var m := RandomMatrix(rows, cols, d, layer, part);
      forall r, c :: 0 <= r < rows && 0 <= c < cols ==> -1.0 <= m.cells[r][c] < 1.0
  {
    var m := RandomMatrix(rows, cols, d, layer, part);
    forall r, c | 0 <= r < rows && 0 <= c < cols
      ensures -1.0 <= m.cells[r][c] < 1.0
    {
      assert 0.0 <= d(Site(layer, part, r, c)) < 1.0;
    }
  }

  /** The nested loops of the random initialisation: every cell of `a`, row by
      row, is set to its scaled draw. */
  method Randomize(a: array2<real>, d: Draws, layer: nat, part: Part)
    modifies a
    ensures Contents(a) == RandomMatrix(a.Length0, a.Length1, d, layer, part)
  {
    var row := 0;
    while row < a.Length0
      invariant 0 <= row <= a.Length0
      invariant forall r, c :: 0 <= r < row && 0 <= c < a.Length1 ==> a[r, c] == Scaled(d(Site(layer, part, r, c)))
    {
      var column := 0;
      while column < a.Length1
        invariant 0 <= column <= a.Length1
        invariant forall r, c :: 0 <= r < row && 0 <= c < a.Length1 ==> a[r, c] == Scaled(d(Site(layer, part, r, c)))
        invariant forall c :: 0 <= c < column ==> a[row, c] == Scaled(d(Site(layer, part, row, c)))
      {
        a[row, column] := Scaled(d(Site(layer, part, row, column)));
        column := column + 1;
      }
      row := row + 1;
    }
    Extensionality(Contents(a), RandomMatrix(a.Length0, a.Length1, d, layer, part));
  }
}

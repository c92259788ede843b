/** The part of the dense-matrix library (EJML's SimpleMatrix) that the
    networks use: a matrix value with explicit row and column counts, its
    product and sum, and the bridge to a mutable `array2<real>` for the places
    where the Java code edits a matrix in place. */
module Matrices {
  import opened Results

  datatype Matrix = Matrix(rows: nat, cols: nat, cells: seq<seq<real>>) {
    /** `cells` holds exactly `rows` rows of `cols` entries each. */
    predicate Valid() {
      |cells| == rows && forall r :: 0 <= r < |cells| ==> |cells[r]| == cols
    }

    /** SimpleMatrix.isVector: one row or one column. */
    predicate IsVector() {
      rows == 1 || cols == 1
    }

    predicate SameShape(other: Matrix) {
      rows == other.rows && cols == other.cols
    }

    /** This matrix fits inside `other`: every position of this one is a position of `other`. */
    predicate FitsIn(other: Matrix) {
      rows <= other.rows && cols <= other.cols
    }
  }

  /** Every entry is 0. */
  predicate IsZero(m: Matrix)
    requires m.Valid()
  {
    forall r, c :: 0 <= r < m.rows && 0 <= c < m.cols ==> m.cells[r][c] == 0.0
  }

  /** `new SimpleMatrix(rows, cols)`: a zero-filled matrix. */
  function Zero(rows: nat, cols: nat): (m: Matrix)
    ensures m.Valid() && m.rows == rows && m.cols == cols && IsZero(m)
  {
    Matrix(rows, cols, seq(rows, r => seq(cols, c => 0.0)))
  }

  /** Two well-formed matrices with the same shape and the same entries are equal. */
  lemma Extensionality(m1: Matrix, m2: Matrix)
    requires m1.Valid() && m2.Valid() && m1.SameShape(m2)
    requires forall r, c :: 0 <= r < m1.rows && 0 <= c < m1.cols ==> m1.cells[r][c] == m2.cells[r][c]
    ensures m1 == m2
  {
    forall r | 0 <= r < m1.rows
      ensures m1.cells[r] == m2.cells[r]
    {
    }
  }

  /** The value currently held by a mutable matrix. */
  function Contents(a: array2<real>): (m: Matrix)
    reads a
    ensures m.Valid() && m.rows == a.Length0 && m.cols == a.Length1
    ensures forall r, c :: 0 <= r < a.Length0 && 0 <= c < a.Length1 ==> m.cells[r][c] == a[r, c]
  {
    Matrix(a.Length0, a.Length1,
      seq(a.Length0, r reads a => seq(a.Length1, c reads a =>
        if 0 <= r < a.Length0 && 0 <= c < a.Length1 then a[r, c] else 0.0)))
  }

  /** The mutable matrix `a` holds the value `m`, entry by entry. */
  ghost predicate Holds(a: array2<real>, m: Matrix)
    reads a
  {
    && m.Valid() && a.Length0 == m.rows && a.Length1 == m.cols
    && forall r, c :: 0 <= r < a.Length0 && 0 <= c < a.Length1 ==> a[r, c] == m.cells[r][c]
  }

  /** Holding a value is having it as contents. */
  lemma HoldsContents(a: array2<real>, m: Matrix)
    ensures Holds(a, m) <==> Contents(a) == m
  {
    if Holds(a, m) {
      Extensionality(Contents(a), m);
    }
  }

  /** `new SimpleMatrix(m)`: a fresh mutable copy, shared with nothing else. */
  method ToArray(m: Matrix) returns (a: array2<real>)
    requires m.Valid()
    ensures fresh(a) && Contents(a) == m
  {
    a := new real[m.rows, m.cols]((r, c) => if 0 <= r < m.rows && 0 <= c < m.cols then m.cells[r][c] else 0.0);
    Extensionality(Contents(a), m);
  }

  /** Row `i` of `a` times column `j` of `b`, summed over the first `k` terms. */
  function Dot(a: Matrix, b: Matrix, i: nat, j: nat, k: nat): real
    requires a.Valid() && b.Valid() && i < a.rows && j < b.cols && k <= a.cols && k <= b.rows
  {
    if k == 0 then 0.0 else Dot(a, b, i, j, k - 1) + a.cells[i][k - 1] * b.cells[k - 1][j]
  }

  /** SimpleMatrix.mult: the matrix product, refused when the inner dimensions differ. */
  function Mult(a: Matrix, b: Matrix): (r: Result<Matrix>)
    requires a.Valid() && b.Valid()
    ensures r.Ok? <==> a.cols == b.rows
    ensures r.Ok? ==> r.value.Valid() && r.value.rows == a.rows && r.value.cols == b.cols
  {
    if a.cols != b.rows then Err(MatrixDimensionMismatch)
    else Ok(Matrix(a.rows, b.cols, seq(a.rows, i => seq(b.cols, j =>
      if 0 <= i < a.rows && 0 <= j < b.cols then Dot(a, b, i, j, a.cols) else 0.0))))
  }

  /** SimpleMatrix.plus: the entrywise sum, refused when the shapes differ. */
  function Plus(a: Matrix, b: Matrix): (r: Result<Matrix>)
    requires a.Valid() && b.Valid()
    ensures r.Ok? <==> a.SameShape(b)
    ensures r.Ok? ==> r.value.Valid() && r.value.SameShape(a)
    ensures r.Ok? ==> forall i, j :: 0 <= i < a.rows && 0 <= j < a.cols ==>
      r.value.cells[i][j] == a.cells[i][j] + b.cells[i][j]
  {
    if !a.SameShape(b) then Err(MatrixDimensionMismatch)
    else Ok(Matrix(a.rows, a.cols, seq(a.rows, i => seq(a.cols, j =>
      if 0 <= i < a.rows && 0 <= j < a.cols then a.cells[i][j] + b.cells[i][j] else 0.0))))
  }

  /** A product whose left factor is all zeros is all zeros. */
  lemma {:induction false} DotOfZero(a: Matrix, b: Matrix, i: nat, j: nat, k: nat)
    requires a.Valid() && b.Valid() && i < a.rows && j < b.cols && k <= a.cols && k <= b.rows
    requires IsZero(a)
    ensures Dot(a, b, i, j, k) == 0.0
  {
    if k > 0 {
      DotOfZero(a, b, i, j, k - 1);
    }
  }

  lemma MultByZero(a: Matrix, b: Matrix)
    requires a.Valid() && b.Valid() && a.cols == b.rows && IsZero(a)
    ensures Mult(a, b).Ok? && IsZero(Mult(a, b).value)
  {
    var p := Mult(a, b).value;
    forall i, j | 0 <= i < p.rows && 0 <= j < p.cols
      ensures p.cells[i][j] == 0.0
    {
      DotOfZero(a, b, i, j, a.cols);
    }
  }
}

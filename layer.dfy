/** Layer.java: the stand-alone layer class. Unlike the network's private
    layer it keeps its matrices as mutable objects, hands them out without
    copying, and applies an activation to column 0 of its output. The
    activation (Math.tanh in the source) is a parameter here. */
module Layers {
  import opened Results
  import opened Matrices
  import opened Draws
  import opened Networks

  /** The matrix `activate` leaves behind: column 0 mapped through `act`, the
      other columns untouched. */
  function Activated(m: Matrix, act: real -> real): (r: Matrix)
    requires m.Valid()
    ensures r.Valid() && r.SameShape(m)
  {
    Matrix(m.rows, m.cols, seq(m.rows, i => seq(m.cols, j =>
      if 0 <= i < m.rows && 0 <= j < m.cols then
        (if j == 0 then act(m.cells[i][j]) else m.cells[i][j])
      else 0.0)))
  }

  class Layer {
    const weights: array2<real>
    const biases: array2<real>

    /** Layer(numNodes, previousLayerNumNodes, init): the matrix library
        refuses a negative dimension, so a negative node count fails when the
        biases are made and a negative previous count when the weights are;
        otherwise biases `numNodes x 1` and weights `numNodes x
        previousLayerNumNodes`, zero or drawn. */
    static method New(numNodes: int, previousLayerNumNodes: int, init: Init, d: Draws) returns (r: Result<Layer>)
      ensures r.Ok? <==> numNodes >= 0 && previousLayerNumNodes >= 0
      ensures r.Err? ==> r.error == NegativeMatrixSize
      ensures r.Ok? ==> fresh(r.value.weights) && fresh(r.value.biases)
      ensures r.Ok? ==>
        && Contents(r.value.weights) == InitialMatrix(numNodes, previousLayerNumNodes, init, d, 0, WeightsPart)
        && Contents(r.value.biases) == InitialMatrix(numNodes, 1, init, d, 0, BiasesPart)
    {
      if numNodes < 0 || previousLayerNumNodes < 0 {
        return Err(NegativeMatrixSize);
      }
      var layer := new Layer.Sized(numNodes, previousLayerNumNodes, init, d);
      r := Ok(layer);
    }

    /** The first constructor's body once both dimensions are known to be natural. */
    constructor Sized(numNodes: nat, previousLayerNumNodes: nat, init: Init, d: Draws)
      ensures fresh(weights) && fresh(biases)
      ensures Contents(weights) == InitialMatrix(numNodes, previousLayerNumNodes, init, d, 0, WeightsPart)
      ensures Contents(biases) == InitialMatrix(numNodes, 1, init, d, 0, BiasesPart)
    {
      biases := new real[numNodes, 1]((r, c) => 0.0);
      weights := new real[numNodes, previousLayerNumNodes]((r, c) => 0.0);
      new;
      if init == RandomInit {
        InitializeRandomParameters(d);
      } else {
        Extensionality(Contents(weights), Zero(numNodes, previousLayerNumNodes));
        Extensionality(Contents(biases), Zero(numNodes, 1));
      }
    }

    /** The second constructor's body once the bias check has passed: private copies of both. */
    constructor Copying(w: array2<real>, b: array2<real>)
      ensures fresh(weights) && fresh(biases)
      ensures Contents(weights) == old(Contents(w)) && Contents(biases) == old(Contents(b))
    {
      var weightsCopy := ToArray(Contents(w));
      var biasesCopy := ToArray(Contents(b));
      weights, biases := weightsCopy, biasesCopy;
    }

    /** Layer(SimpleMatrix weights, SimpleMatrix biases): throws unless the
        biases form a vector; otherwise stores copies of both arguments. */
    static method FromMatrices(w: array2<real>, b: array2<real>) returns (r: Result<Layer>)
      ensures r.Err? <==> !Contents(b).IsVector()
      ensures r.Err? ==> r.error == BiasesNotVector
      ensures r.Ok? ==> fresh(r.value.weights) && fresh(r.value.biases)
      ensures r.Ok? ==> Contents(r.value.weights) == Contents(w) && Contents(r.value.biases) == Contents(b)
    {
      if !(b.Length0 == 1 || b.Length1 == 1) {
        return Err(BiasesNotVector);
      }
      var layer := new Layer.Copying(w, b);
      r := Ok(layer);
    }

    /** initializeRandomParameters: the nested loops over weights, then biases. */
    method InitializeRandomParameters(d: Draws)
      requires weights != biases
      modifies weights, biases
      ensures Contents(weights) == RandomMatrix(weights.Length0, weights.Length1, d, 0, WeightsPart)
      ensures Contents(biases) == RandomMatrix(biases.Length0, biases.Length1, d, 0, BiasesPart)
    {
      Randomize(weights, d, 0, WeightsPart);
      Randomize(biases, d, 0, BiasesPart);
    }

    /** getWeights: the layer's own matrix, not a copy. */
    method GetWeights() returns (m: array2<real>)
      ensures m == weights
    {
      m := weights;
    }

    /** getBiases: the layer's own matrix, not a copy. */
    method GetBiases() returns (m: array2<real>)
      ensures m == biases
    {
      m := biases;
    }

    /** activate: overwrites `m` in place, row by row, with `act` of its
        column-0 entry, and returns the same matrix. A matrix with rows but no
        column would make the library's `get` of column 0 throw. */
    static method Activate(m: array2<real>, act: real -> real) returns (out: array2<real>)
      requires m.Length0 == 0 || m.Length1 >= 1
      modifies m
      ensures out == m
      ensures Contents(m) == Activated(old(Contents(m)), act)
    {
      ghost var before := Contents(m);
      var r := 0;
      while r < m.Length0
        invariant 0 <= r <= m.Length0
        invariant forall i, j :: 0 <= i < m.Length0 && 0 <= j < m.Length1 ==>
          m[i, j] == if i < r && j == 0 then act(before.cells[i][j]) else before.cells[i][j]
      {
        m[r, 0] := act(m[r, 0]);
        r := r + 1;
      }
      Extensionality(Contents(m), Activated(before, act));
      out := m;
    }

    /** feedForward: `activate(weights.mult(inputs).plus(biases))`; the
        product and the sum are new matrices, so only that new matrix is
        rewritten by the activation. A sum with rows but no column makes
        `activate` read outside the matrix. */
    method FeedForward(inputs: array2<real>, act: real -> real) returns (r: Result<array2<real>>)
      ensures r.Ok? <==>
        && weights.Length1 == inputs.Length0
        && weights.Length0 == biases.Length0 && inputs.Length1 == biases.Length1
        && (biases.Length0 == 0 || biases.Length1 >= 1)
      ensures (r.Err? && weights.Length1 == inputs.Length0 && weights.Length0 == biases.Length0
               && inputs.Length1 == biases.Length1) ==> r.error == CellOutOfBounds
      ensures r.Ok? ==> fresh(r.value)
      ensures r.Ok? ==>
        var sum := Plus(Mult(Contents(weights), Contents(inputs)).value, Contents(biases));
        sum.Ok? && Contents(r.value) == Activated(sum.value, act)
    {
      var product :- Mult(Contents(weights), Contents(inputs));
      var sum :- Plus(product, Contents(biases));
      if sum.rows > 0 && sum.cols == 0 {
        return Err(CellOutOfBounds);
      }
      var m := ToArray(sum);
      m := Activate(m, act);
      r := Ok(m);
    }
  }
}

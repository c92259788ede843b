/** NeuralNetwork.java: a feed-forward network whose active layers (every
    layer but the input) hold a weight matrix and a bias vector. A network is
    never changed after construction, so it is a value here; its two
    constructors are methods that fill the layers in a loop, each proved equal
    to a specification function (`Topology`, `FromMatrices`). */
module Networks {
  import opened Results
  import opened Matrices
  import opened Draws

  /** NeuralNetwork.Init: what the topology constructor writes into a fresh layer. */
  datatype Init = ZeroInit | RandomInit

  /** The private inner Layer: its node count and its parameters. */
  datatype ActiveLayer = ActiveLayer(size: int, weights: Matrix, biases: Matrix)

  datatype Network = Network(inputSize: int, layerSizes: seq<int>, layers: seq<ActiveLayer>) {

    /** What both constructors guarantee: at least one active layer; layer `i`
        has `layerSizes[i+1]` nodes, weights `layerSizes[i+1] x layerSizes[i]`
        and a bias vector of `layerSizes[i+1]` rows. */
    ghost predicate Valid() {
      && |layers| >= 1
      && |layerSizes| == |layers| + 1
      && inputSize == layerSizes[0]
      && (forall i :: 0 <= i < |layerSizes| ==> layerSizes[i] >= 0)
      && forall i :: 0 <= i < |layers| ==>
           && layers[i].size == layerSizes[i + 1]
           && layers[i].weights.Valid()
           && layers[i].weights.rows == layerSizes[i + 1]
           && layers[i].weights.cols == layerSizes[i]
           && layers[i].biases.Valid()
           && layers[i].biases.rows == layerSizes[i + 1]
           && layers[i].biases.IsVector()
    }

    /** Every bias vector is a column (the topology constructor only makes those). */
    ghost predicate ColumnBiases() {
      forall i :: 0 <= i < |layers| ==> layers[i].biases.cols == 1
    }

    /** A valid network with column biases and exactly the given layer sizes. */
    ghost predicate HasTopology(sizes: seq<int>) {
      Valid() && ColumnBiases() && layerSizes == sizes
    }

    function Weights(): (ws: seq<Matrix>)
      ensures |ws| == |layers| && forall i :: 0 <= i < |layers| ==> ws[i] == layers[i].weights
    {
      seq(|layers|, i requires 0 <= i < |layers| => layers[i].weights)
    }

    function Biases(): (bs: seq<Matrix>)
      ensures |bs| == |layers| && forall i :: 0 <= i < |layers| ==> bs[i] == layers[i].biases
    {
      seq(|layers|, i requires 0 <= i < |layers| => layers[i].biases)
    }
  }

  // ---------------------------------------------------------------------------
  // The topology constructor: NeuralNetwork(int[] layerSizes, Init init)
  // ---------------------------------------------------------------------------

  predicate NoNegativeLayer(sizes: seq<int>) {
    forall i :: 1 <= i < |sizes| ==> sizes[i] >= 0
  }

  /** The layer sizes the topology constructor accepts. */
  predicate ValidSizes(sizes: seq<int>) {
    |sizes| >= 2 && sizes[0] > 0 && NoNegativeLayer(sizes)
  }

  /** The exception the topology constructor throws for sizes it refuses. */
  function SizesError(sizes: seq<int>): Error {
    if |sizes| < 2 then TooFewLayers
    else if sizes[0] <= 0 then NonPositiveInputSize
    else NegativeMatrixSize
  }

  function InitialMatrix(rows: nat, cols: nat, init: Init, d: Draws, layer: nat, part: Part): Matrix {
    match init
    case ZeroInit => Zero(rows, cols)
    case RandomInit => RandomMatrix(rows, cols, d, layer, part)
  }

  /** Inner Layer(numNodes, previousLayerNumNodes, init) for active layer `layer`. */
  function InitialLayer(numNodes: nat, previous: nat, init: Init, d: Draws, layer: nat): ActiveLayer {
    ActiveLayer(numNodes,
      InitialMatrix(numNodes, previous, init, d, layer, WeightsPart),
      InitialMatrix(numNodes, 1, init, d, layer, BiasesPart))
  }

  /** The network the topology constructor builds, or the exception it throws. */
  function Topology(sizes: seq<int>, init: Init, d: Draws): Result<Network> {
    if |sizes| < 2 then Err(TooFewLayers)
    else if sizes[0] <= 0 then Err(NonPositiveInputSize)
    else if !NoNegativeLayer(sizes) then Err(NegativeMatrixSize)
    else Ok(Network(sizes[0], sizes, seq(|sizes| - 1, i requires 0 <= i < |sizes| - 1 =>
      InitialLayer(sizes[i + 1], sizes[i], init, d, i))))
  }

  /** The constructor fails exactly when there are fewer than two sizes, the
      input size is not positive, or a later size is negative (which the matrix
      library refuses); otherwise the network has `|sizes| - 1` active layers
      of the requested shapes. */
  lemma TopologyOutcome(sizes: seq<int>, init: Init, d: Draws)
    ensures Topology(sizes, init, d).Ok? <==> ValidSizes(sizes)
    ensures |sizes| < 2 ==> Topology(sizes, init, d) == Err(TooFewLayers)
    ensures |sizes| >= 2 && sizes[0] <= 0 ==> Topology(sizes, init, d) == Err(NonPositiveInputSize)
    ensures !ValidSizes(sizes) ==> Topology(sizes, init, d) == Err(SizesError(sizes))
    ensures Topology(sizes, init, d).Ok? ==>
      var net := Topology(sizes, init, d).value;
      && net.HasTopology(sizes)
      && net.inputSize == sizes[0] > 0
      && |net.layers| == |sizes| - 1
  {
    if ValidSizes(sizes) {
      var net := Topology(sizes, init, d).value;
      forall i | 0 <= i < |net.layers|
        ensures net.layers[i].weights.Valid() && net.layers[i].biases.Valid()
        ensures net.layers[i].weights.rows == sizes[i + 1] == net.layers[i].biases.rows
        ensures net.layers[i].weights.cols == sizes[i] && net.layers[i].biases.cols == 1
      {
        assert net.layers[i] == InitialLayer(sizes[i + 1], sizes[i], init, d, i);
      }
    }
  }

  /** With ZERO every weight and bias is 0; with RANDOM and uniform draws every
      weight and bias lies in [-1, 1). */
  lemma TopologyInitialValues(sizes: seq<int>, init: Init, d: Draws)
    requires Topology(sizes, init, d).Ok?
    ensures var net := Topology(sizes, init, d).value;
      forall i :: 0 <= i < |net.layers| ==>
        && (init == ZeroInit ==> IsZero(net.layers[i].weights) && IsZero(net.layers[i].biases))
        && (init == RandomInit && Uniform(d) ==>
              InRange(net.layers[i].weights) && InRange(net.layers[i].biases))
  {
    var net := Topology(sizes, init, d).value;
    forall i | 0 <= i < |net.layers| && init == RandomInit && Uniform(d)
      ensures InRange(net.layers[i].weights) && InRange(net.layers[i].biases)
    {
      RandomMatrixInRange(sizes[i + 1], sizes[i], d, i, WeightsPart);
      RandomMatrixInRange(sizes[i + 1], 1, d, i, BiasesPart);
    }
  }

  /** Every entry lies in [-1, 1). */
  ghost predicate InRange(m: Matrix)
    requires m.Valid()
  {
    forall r, c :: 0 <= r < m.rows && 0 <= c < m.cols ==> -1.0 <= m.cells[r][c] < 1.0
  }

  /** Inner Layer(numNodes, previousLayerNumNodes, init): zero-filled matrices,
      then, for RANDOM, the nested loops that draw every cell. */
  method NewActiveLayer(numNodes: nat, previous: nat, init: Init, d: Draws, layer: nat)
    returns (l: ActiveLayer)
    ensures l == InitialLayer(numNodes, previous, init, d, layer)
  {
    var biases := new real[numNodes, 1]((r, c) => 0.0);
    var weights := new real[numNodes, previous]((r, c) => 0.0);
    if init == RandomInit {
      Randomize(weights, d, layer, WeightsPart);
      Randomize(biases, d, layer, BiasesPart);
    } else {
      Extensionality(Contents(weights), Zero(numNodes, previous));
      Extensionality(Contents(biases), Zero(numNodes, 1));
    }
    l := ActiveLayer(numNodes, Contents(weights), Contents(biases));
  }

  /** NeuralNetwork(int[] layerSizes, Init init): the two checks, then one
      active layer per size after the first. */
  method NewNetwork(layerSizes: seq<int>, init: Init, d: Draws) returns (r: Result<Network>)
    ensures r == Topology(layerSizes, init, d)
  {
    if |layerSizes| < 2 {
      return Err(TooFewLayers);
    }
    if layerSizes[0] <= 0 {
      return Err(NonPositiveInputSize);
    }
    var inputSize := layerSizes[0];
    var activeLayers: seq<ActiveLayer> := [];
    var i := 1;
    while i < |layerSizes|
      invariant 1 <= i <= |layerSizes|
      invariant forall k :: 1 <= k < i ==> layerSizes[k] >= 0
      invariant |activeLayers| == i - 1
      invariant forall k :: 0 <= k < i - 1 ==>
        activeLayers[k] == InitialLayer(layerSizes[k + 1], layerSizes[k], init, d, k)
    {
      if layerSizes[i] < 0 {
        assert !NoNegativeLayer(layerSizes);
        return Err(NegativeMatrixSize);
      }
      var layer := NewActiveLayer(layerSizes[i], layerSizes[i - 1], init, d, i - 1);
      activeLayers := activeLayers + [layer];
      i := i + 1;
    }
    assert activeLayers == Topology(layerSizes, init, d).value.layers;
    r := Ok(Network(inputSize, layerSizes, activeLayers));
  }

  // ---------------------------------------------------------------------------
  // The array constructor: NeuralNetwork(SimpleMatrix[] weights, SimpleMatrix[] biases)
  // ---------------------------------------------------------------------------

  ghost predicate AllValid(ms: seq<Matrix>) {
    forall i :: 0 <= i < |ms| ==> ms[i].Valid()
  }

  /** Per-layer matrices that fit together: each weight matrix takes the
      previous layer's node count as its column count, and each bias is a
      vector with as many rows as its weight matrix. */
  ghost predicate Chained(ws: seq<Matrix>, bs: seq<Matrix>) {
    && |ws| == |bs| >= 1
    && AllValid(ws) && AllValid(bs)
    && (forall i :: 1 <= i < |ws| ==> ws[i].cols == ws[i - 1].rows)
    && forall i :: 0 <= i < |bs| ==> bs[i].rows == ws[i].rows && bs[i].IsVector()
  }

  /** The per-layer checks of the array constructor from layer `i` on, with
      `previous` the size of layer `i`'s input; the first failing check wins. */
  function CheckFrom(ws: seq<Matrix>, bs: seq<Matrix>, i: nat, previous: nat): Outcome
    requires |ws| == |bs| && i <= |ws|
    decreases |ws| - i
  {
    if i == |ws| then Pass
    else if ws[i].cols != previous then Fail(WeightsColumnsMismatch(i + 1))
    else if bs[i].rows != ws[i].rows then Fail(BiasesRowsMismatch(i + 1))
    else if !bs[i].IsVector() then Fail(BiasesNotVector)
    else CheckFrom(ws, bs, i + 1, ws[i].rows)
  }

  /** The network made from matrices that pass the checks: the input size is
      the first weight matrix's column count and every later size a weight
      matrix's row count. */
  function Assemble(ws: seq<Matrix>, bs: seq<Matrix>): Network
    requires |ws| == |bs| >= 1
  {
    Network(ws[0].cols,
      [ws[0].cols] + seq(|ws|, i requires 0 <= i < |ws| => ws[i].rows),
      seq(|ws|, i requires 0 <= i < |ws| => ActiveLayer(ws[i].rows, ws[i], bs[i])))
  }

  function FromMatrices(ws: seq<Matrix>, bs: seq<Matrix>): Result<Network>
    requires |ws| == |bs| >= 1
  {
    match CheckFrom(ws, bs, 0, ws[0].cols)
    case Fail(e) => Err(e)
    case Pass => Ok(Assemble(ws, bs))
  }

  lemma {:induction false} CheckFromPasses(ws: seq<Matrix>, bs: seq<Matrix>, i: nat, previous: nat)
    requires |ws| == |bs| && i <= |ws|
    ensures CheckFrom(ws, bs, i, previous) == Pass <==>
      && (i < |ws| ==> ws[i].cols == previous)
      && (forall k :: i < k < |ws| ==> ws[k].cols == ws[k - 1].rows)
      && (forall k :: i <= k < |ws| ==> bs[k].rows == ws[k].rows && bs[k].IsVector())
    decreases |ws| - i
  {
    if i < |ws| {
      CheckFromPasses(ws, bs, i + 1, ws[i].rows);
    }
  }

  /** The array constructor succeeds exactly on chained matrices, and then
      gives back the very matrices it was given, with `layerSizes` read off
      their shapes. */
  lemma FromMatricesOutcome(ws: seq<Matrix>, bs: seq<Matrix>)
    requires |ws| == |bs| >= 1 && AllValid(ws) && AllValid(bs)
    ensures FromMatrices(ws, bs).Ok? <==> Chained(ws, bs)
    ensures FromMatrices(ws, bs).Ok? ==>
      var net := FromMatrices(ws, bs).value;
      && net.Valid()
      && net.Weights() == ws && net.Biases() == bs
      && net.inputSize == ws[0].cols
      && |net.layerSizes| == |ws| + 1
      && forall i :: 0 <= i < |ws| ==> net.layerSizes[i + 1] == ws[i].rows
  {
    CheckFromPasses(ws, bs, 0, ws[0].cols);
    if Chained(ws, bs) {
      AssembleValid(ws, bs);
    }
  }

  lemma AssembleValid(ws: seq<Matrix>, bs: seq<Matrix>)
    requires Chained(ws, bs)
    ensures Assemble(ws, bs).Valid()
    ensures Assemble(ws, bs).Weights() == ws && Assemble(ws, bs).Biases() == bs
  {
    var net := Assemble(ws, bs);
    forall i | 0 <= i < |net.layers|
      ensures net.layers[i].weights.cols == net.layerSizes[i]
    {
      if i > 0 {
        assert net.layerSizes[i] == ws[i - 1].rows;
      }
    }
  }

  /** Taking a valid network's matrices apart and handing them to the array
      constructor rebuilds the same network. */
  lemma {:induction false} RebuildRoundTrip(net: Network)
    requires net.Valid()
    ensures Chained(net.Weights(), net.Biases())
    ensures FromMatrices(net.Weights(), net.Biases()) == Ok(net)
  {
    var ws, bs := net.Weights(), net.Biases();
    assert Chained(ws, bs) by {
      forall i | 1 <= i < |ws|
        ensures ws[i].cols == ws[i - 1].rows
      {
        assert ws[i].cols == net.layerSizes[i];
      }
      forall i | 0 <= i < |bs|
        ensures bs[i].rows == ws[i].rows && bs[i].IsVector()
      {
        assert bs[i] == net.layers[i].biases && ws[i] == net.layers[i].weights;
        assert net.layers[i].biases.rows == net.layerSizes[i + 1] == net.layers[i].weights.rows;
      }
    }
    FromMatricesOutcome(ws, bs);
    var built := Assemble(ws, bs);
    assert built.layerSizes == net.layerSizes by {
      forall k | 0 <= k < |net.layerSizes|
        ensures built.layerSizes[k] == net.layerSizes[k]
      {
        if k > 0 {
          assert built.layerSizes[k] == ws[k - 1].rows;
        }
      }
    }
    assert built.layers == net.layers;
  }

  /** Inner Layer(weights, biases): refuses a bias that is not a vector. */
  function LayerFrom(weights: Matrix, biases: Matrix): (r: Result<ActiveLayer>)
    ensures r.Ok? <==> biases.IsVector()
    ensures r.Ok? ==> r.value.size == weights.rows && r.value.weights == weights && r.value.biases == biases
  {
    if !biases.IsVector() then Err(BiasesNotVector)
    else Ok(ActiveLayer(weights.rows, weights, biases))
  }

  /** NeuralNetwork(SimpleMatrix[] weights, SimpleMatrix[] biases): layer by
      layer, record the size, check the weight columns and the bias rows, and
      build the layer. */
  method NewNetworkFromMatrices(weights: seq<Matrix>, biases: seq<Matrix>) returns (r: Result<Network>)
    requires |weights| == |biases| >= 1
    ensures r == FromMatrices(weights, biases)
  {
    var inputSize := weights[0].cols;
    var layerSizes := [inputSize];
    var activeLayers: seq<ActiveLayer> := [];
    var previousLayerSize := inputSize;
    var i := 0;
    while i < |biases|
      invariant 0 <= i <= |biases|
      invariant CheckFrom(weights, biases, 0, inputSize) == CheckFrom(weights, biases, i, previousLayerSize)
      invariant |layerSizes| == i + 1 && layerSizes[0] == inputSize
      invariant forall k :: 0 <= k < i ==> layerSizes[k + 1] == weights[k].rows
      invariant |activeLayers| == i
      invariant forall k :: 0 <= k < i ==> activeLayers[k] == ActiveLayer(weights[k].rows, weights[k], biases[k])
    {
      var layerSize := weights[i].rows;
      layerSizes := layerSizes + [layerSize];
      if weights[i].cols != previousLayerSize {
        return Err(WeightsColumnsMismatch(i + 1));
      }
      if biases[i].rows != layerSize {
        return Err(BiasesRowsMismatch(i + 1));
      }
      var layer :- LayerFrom(weights[i], biases[i]);
      activeLayers := activeLayers + [layer];
      previousLayerSize := layerSize;
      i := i + 1;
    }
    assert CheckFrom(weights, biases, i, previousLayerSize) == Pass;
    assert Network(inputSize, layerSizes, activeLayers) == Assemble(weights, biases);
    r := Ok(Network(inputSize, layerSizes, activeLayers));
  }

  // ---------------------------------------------------------------------------
  // Copy-out accessors
  // ---------------------------------------------------------------------------

  /** getWeightsForLayer(layerIndex): 1-based, counting the input layer as 0;
      a fresh copy, so writing to it cannot reach the network. An index
      outside the active layers fails as the array access does. */
  method WeightsForLayer(net: Network, layerIndex: int) returns (r: Result<array2<real>>)
    requires net.Valid()
    ensures r.Ok? <==> 1 <= layerIndex <= |net.layers|
    ensures r.Err? ==> r.error == IndexOutOfRange
    ensures r.Ok? ==> fresh(r.value) && Contents(r.value) == net.layers[layerIndex - 1].weights
  {
    if layerIndex < 1 || layerIndex > |net.layers| {
      return Err(IndexOutOfRange);
    }
    var m := ToArray(net.layers[layerIndex - 1].weights);
    r := Ok(m);
  }

  /** getBiasesForLayer(layerIndex): as WeightsForLayer, for the bias vector. */
  method BiasesForLayer(net: Network, layerIndex: int) returns (r: Result<array2<real>>)
    requires net.Valid()
    ensures r.Ok? <==> 1 <= layerIndex <= |net.layers|
    ensures r.Err? ==> r.error == IndexOutOfRange
    ensures r.Ok? ==> fresh(r.value) && Contents(r.value) == net.layers[layerIndex - 1].biases
  {
    if layerIndex < 1 || layerIndex > |net.layers| {
      return Err(IndexOutOfRange);
    }
    var m := ToArray(net.layers[layerIndex - 1].biases);
    r := Ok(m);
  }

  /** getWeightsForActiveLayer(i), the 0-based accessor the mutator calls. */
  method WeightsForActiveLayer(net: Network, i: int) returns (m: array2<real>)
    requires net.Valid() && 0 <= i < |net.layers|
    ensures fresh(m) && Contents(m) == net.layers[i].weights
  {
    m := ToArray(net.layers[i].weights);
  }

  /** getBiasesForActiveLayer(i), the 0-based accessor the mutator calls. */
  method BiasesForActiveLayer(net: Network, i: int) returns (m: array2<real>)
    requires net.Valid() && 0 <= i < |net.layers|
    ensures fresh(m) && Contents(m) == net.layers[i].biases
  {
    m := ToArray(net.layers[i].biases);
  }

  // ---------------------------------------------------------------------------
  // Feeding forward
  // ---------------------------------------------------------------------------

  ghost predicate LayersValid(layers: seq<ActiveLayer>) {
    forall i :: 0 <= i < |layers| ==> layers[i].weights.Valid() && layers[i].biases.Valid()
  }

  /** Inner Layer.feedForward: `weights.mult(inputs).plus(biases)`, with no activation. */
  function Affine(l: ActiveLayer, x: Matrix): (r: Result<Matrix>)
    requires l.weights.Valid() && l.biases.Valid() && x.Valid()
    ensures r.Ok? ==> r.value.Valid()
  {
    match Mult(l.weights, x)
    case Err(e) => Err(e)
    case Ok(p) => Plus(p, l.biases)
  }

  /** The values after passing `x` through every layer in order. */
  function Forward(layers: seq<ActiveLayer>, x: Matrix): (r: Result<Matrix>)
    requires LayersValid(layers) && x.Valid()
    ensures r.Ok? ==> r.value.Valid()
    decreases |layers|
  {
    if layers == [] then Ok(x)
    else match Affine(layers[0], x)
      case Err(e) => Err(e)
      case Ok(y) => Forward(layers[1..], y)
  }

  /** NeuralNetwork.feedForward: the two input checks, then every layer. */
  function Output(net: Network, inputs: Matrix): Result<Matrix>
    requires net.Valid() && inputs.Valid()
  {
    if !inputs.IsVector() then Err(InputsNotVector)
    else if inputs.rows != net.inputSize then Err(InputsLengthMismatch)
    else Forward(net.layers, inputs)
  }

  method FeedForward(net: Network, inputs: Matrix) returns (r: Result<Matrix>)
    requires net.Valid() && inputs.Valid()
    ensures r == Output(net, inputs)
  {
    if !inputs.IsVector() {
      return Err(InputsNotVector);
    }
    if inputs.rows != net.inputSize {
      return Err(InputsLengthMismatch);
    }
    var values := inputs;
    var i := 0;
    while i < |net.layers|
      invariant 0 <= i <= |net.layers| && values.Valid()
      invariant Forward(net.layers, inputs) == Forward(net.layers[i..], values)
    {
      assert net.layers[i..][1..] == net.layers[i + 1..];
      values :- Affine(net.layers[i], values);
      i := i + 1;
    }
    assert net.layers[i..] == [];
    r := Ok(values);
  }

  /** Layers from `from` on, in a valid network, take a column of the right
      height to a column of the last layer's height. */
  lemma {:induction false} ForwardColumn(net: Network, from: nat, x: Matrix)
    requires net.Valid() && net.ColumnBiases() && from <= |net.layers|
    requires x.Valid() && x.rows == net.layerSizes[from] && x.cols == 1
    ensures Forward(net.layers[from..], x).Ok?
    ensures Forward(net.layers[from..], x).value.rows == net.layerSizes[|net.layers|]
    ensures Forward(net.layers[from..], x).value.cols == 1
    decreases |net.layers| - from
  {
    if from < |net.layers| {
      var l := net.layers[from];
      assert l.biases.cols == 1 && l.biases.rows == net.layerSizes[from + 1] == l.weights.rows;
      var p := Mult(l.weights, x);
      assert p.Ok? && p.value.rows == l.biases.rows && p.value.cols == 1;
      var y := Affine(l, x);
      assert y.Ok?;
      assert net.layers[from..][1..] == net.layers[from + 1..];
      ForwardColumn(net, from + 1, y.value);
    }
  }

  /** feedForward succeeds exactly on a column of `inputSize` rows, and then
      returns a column with as many rows as the output layer has nodes. */
  lemma FeedForwardShape(net: Network, x: Matrix)
    requires net.Valid() && net.ColumnBiases() && x.Valid()
    ensures Output(net, x).Ok? <==> x.rows == net.inputSize && x.cols == 1
    ensures Output(net, x).Ok? ==>
      Output(net, x).value.rows == net.layerSizes[|net.layers|] && Output(net, x).value.cols == 1
  {
    if x.rows == net.inputSize && x.cols == 1 {
      assert net.layers[0..] == net.layers;
      ForwardColumn(net, 0, x);
    } else if x.IsVector() && x.rows == net.inputSize {
      assert Affine(net.layers[0], x).Err?;
    }
  }

  /** In a network whose parameters from layer `from` on are all zero, those
      layers send any column of the right height to the zero column. */
  lemma {:induction false} ForwardOfZeroLayers(net: Network, from: nat, x: Matrix)
    requires net.Valid() && net.ColumnBiases() && from < |net.layers|
    requires forall i :: from <= i < |net.layers| ==> IsZero(net.layers[i].weights) && IsZero(net.layers[i].biases)
    requires x.Valid() && x.rows == net.layerSizes[from] && x.cols == 1
    ensures Forward(net.layers[from..], x) == Ok(Zero(net.layerSizes[|net.layers|], 1))
    decreases |net.layers| - from
  {
    var l := net.layers[from];
    MultByZero(l.weights, x);
    var y := Affine(l, x);
    assert y.Ok? && IsZero(y.value) && y.value.rows == net.layerSizes[from + 1] && y.value.cols == 1;
    assert net.layers[from..][1..] == net.layers[from + 1..];
    if from + 1 < |net.layers| {
      ForwardOfZeroLayers(net, from + 1, y.value);
    } else {
      assert net.layers[from + 1..] == [];
      Extensionality(y.value, Zero(net.layerSizes[|net.layers|], 1));
    }
  }

  /** A ZERO-initialised network maps every valid input to the zero column of
      the output layer's height. */
  lemma ZeroNetworkOutputsZero(sizes: seq<int>, d: Draws, x: Matrix)
    requires ValidSizes(sizes)
    requires x.Valid() && x.rows == sizes[0] && x.cols == 1
    ensures var r := Topology(sizes, ZeroInit, d);
      r.Ok? && r.value.Valid() && Output(r.value, x) == Ok(Zero(sizes[|sizes| - 1], 1))
  {
    var net := Topology(sizes, ZeroInit, d).value;
    TopologyOutcome(sizes, ZeroInit, d);
    TopologyInitialValues(sizes, ZeroInit, d);
    assert net.layers[0..] == net.layers;
    ForwardOfZeroLayers(net, 0, x);
  }
}

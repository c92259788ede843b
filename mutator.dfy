/** NeuralNetworkMutator.java: a working copy of a network's parameters that
    can be crossed with another network and mutated in place, then turned
    back into a network. Each operation is specified by a function on matrix
    values (`CrossedMatrix`, `MutatedMatrix`, and their per-network forms);
    the class keeps the mutable arrays and proves its methods against those
    functions. */
module Mutators {
  import opened Results
  import opened Matrices
  import opened Draws
  import opened Networks

  // ---------------------------------------------------------------------------
  // Mutation, on values
  // ---------------------------------------------------------------------------

  /** One cell of mutateMatrix: redrawn in [-1, 1) when its coin falls below the rate. */
  function MutatedCell(x: real, rate: real, coin: real, value: real): real {
    if coin < rate then Scaled(value) else x
  }

  /** The matrix mutateMatrix leaves behind; the coin and the replacement value
      of a cell are looked up by its site. */
  function MutatedMatrix(m: Matrix, rate: real, coins: Draws, values: Draws, layer: nat, part: Part): (r: Matrix)
    requires m.Valid()
    ensures r.Valid() && r.SameShape(m)
    ensures forall i, j :: 0 <= i < m.rows && 0 <= j < m.cols ==>
      r.cells[i][j] == MutatedCell(m.cells[i][j], rate, coins(Site(layer, part, i, j)), values(Site(layer, part, i, j)))
  {
    Matrix(m.rows, m.cols, seq(m.rows, i => seq(m.cols, j =>
      if 0 <= i < m.rows && 0 <= j < m.cols then
        MutatedCell(m.cells[i][j], rate, coins(Site(layer, part, i, j)), values(Site(layer, part, i, j)))
      else 0.0)))
  }

  /** Every entry of a mutated matrix is the old entry or a value in [-1, 1). */
  lemma MutationKeepsOrRedraws(m: Matrix, rate: real, coins: Draws, values: Draws, layer: nat, part: Part)
    requires m.Valid() && Uniform(values)
    ensures var r := MutatedMatrix(m, rate, coins, values, layer, part);
      forall i, j :: 0 <= i < m.rows && 0 <= j < m.cols ==>
        r.cells[i][j] == m.cells[i][j] || -1.0 <= r.cells[i][j] < 1.0
  {
    var r := MutatedMatrix(m, rate, coins, values, layer, part);
    forall i, j | 0 <= i < m.rows && 0 <= j < m.cols
      ensures r.cells[i][j] == m.cells[i][j] || -1.0 <= r.cells[i][j] < 1.0
    {
      assert 0.0 <= values(Site(layer, part, i, j)) < 1.0;
    }
  }

  /** A rate of 0 or less never fires, since no coin lies below 0. */
  lemma NonPositiveRateKeepsMatrix(m: Matrix, rate: real, coins: Draws, values: Draws, layer: nat, part: Part)
    requires m.Valid() && Uniform(coins) && rate <= 0.0
    ensures MutatedMatrix(m, rate, coins, values, layer, part) == m
  {
    var r := MutatedMatrix(m, rate, coins, values, layer, part);
    forall i, j | 0 <= i < m.rows && 0 <= j < m.cols
      ensures r.cells[i][j] == m.cells[i][j]
    {
      assert 0.0 <= coins(Site(layer, part, i, j));
    }
    Extensionality(r, m);
  }

  /** A rate of 1 or more always fires: the result is a fresh random matrix of
      the same shape, whatever the old entries were. */
  lemma FullRateRedrawsMatrix(m: Matrix, rate: real, coins: Draws, values: Draws, layer: nat, part: Part)
    requires m.Valid() && Uniform(coins) && rate >= 1.0
    ensures MutatedMatrix(m, rate, coins, values, layer, part) == RandomMatrix(m.rows, m.cols, values, layer, part)
  {
    var r := MutatedMatrix(m, rate, coins, values, layer, part);
    var redrawn := RandomMatrix(m.rows, m.cols, values, layer, part);
    forall i, j | 0 <= i < m.rows && 0 <= j < m.cols
      ensures r.cells[i][j] == redrawn.cells[i][j]
    {
      assert coins(Site(layer, part, i, j)) < 1.0;
    }
    Extensionality(r, redrawn);
  }

  /** mutateMatrix on every matrix of one kind, the list position being the active layer. */
  function MutateAll(ms: seq<Matrix>, rate: real, coins: Draws, values: Draws, part: Part): (rs: seq<Matrix>)
    requires AllValid(ms)
    ensures |rs| == |ms| && AllValid(rs)
    ensures forall i :: 0 <= i < |ms| ==> rs[i] == MutatedMatrix(ms[i], rate, coins, values, i, part)
  {
    seq(|ms|, i requires 0 <= i < |ms| => MutatedMatrix(ms[i], rate, coins, values, i, part))
  }

  /** The network a mutator built from `net` returns after `mutate(rate)`. */
  function MutatedNetwork(net: Network, rate: real, coins: Draws, values: Draws): Network
    requires net.Valid()
  {
    Assemble(MutateAll(net.Weights(), rate, coins, values, WeightsPart),
             MutateAll(net.Biases(), rate, coins, values, BiasesPart))
  }

  // ---------------------------------------------------------------------------
  // Crossover, on values
  // ---------------------------------------------------------------------------

  /** One cell of crossoverMatrices: the first parent's entry when the draw is below 0.5. */
  function CrossedCell(x1: real, x2: real, pick: real): real {
    if pick < 0.5 then x1 else x2
  }

  /** The child crossoverMatrices builds: the first parent's shape, every cell
      taken from one parent by its own draw. The second parent is read at the
      first parent's positions, so it must be at least as large. */
  function CrossedMatrix(m1: Matrix, m2: Matrix, picks: Draws, layer: nat, part: Part): (r: Matrix)
    requires m1.Valid() && m2.Valid() && m1.FitsIn(m2)
    ensures r.Valid() && r.SameShape(m1)
    ensures forall i, j :: 0 <= i < m1.rows && 0 <= j < m1.cols ==>
      r.cells[i][j] == CrossedCell(m1.cells[i][j], m2.cells[i][j], picks(Site(layer, part, i, j)))
  {
    Matrix(m1.rows, m1.cols, seq(m1.rows, i => seq(m1.cols, j =>
      if 0 <= i < m1.rows && 0 <= j < m1.cols then
        CrossedCell(m1.cells[i][j], m2.cells[i][j], picks(Site(layer, part, i, j)))
      else 0.0)))
  }

  /** Every entry of the child comes from the same position of one of the parents. */
  lemma CrossoverProvenance(m1: Matrix, m2: Matrix, picks: Draws, layer: nat, part: Part)
    requires m1.Valid() && m2.Valid() && m1.FitsIn(m2)
    ensures var r := CrossedMatrix(m1, m2, picks, layer, part);
      && r.rows == m1.rows && r.cols == m1.cols
      && forall i, j :: 0 <= i < m1.rows && 0 <= j < m1.cols ==>
           r.cells[i][j] == m1.cells[i][j] || r.cells[i][j] == m2.cells[i][j]
  {
  }

  /** Crossing a matrix with itself gives it back. */
  lemma CrossWithSelf(m: Matrix, picks: Draws, layer: nat, part: Part)
    requires m.Valid()
    ensures CrossedMatrix(m, m, picks, layer, part) == m
  {
    Extensionality(CrossedMatrix(m, m, picks, layer, part), m);
  }

  /** Both lists hold valid matrices and each of the first fits in its partner. */
  ghost predicate FitPairwise(ms1: seq<Matrix>, ms2: seq<Matrix>) {
    && |ms1| <= |ms2| && AllValid(ms1) && AllValid(ms2)
    && forall i :: 0 <= i < |ms1| ==> ms1[i].FitsIn(ms2[i])
  }

  function CrossAll(ms1: seq<Matrix>, ms2: seq<Matrix>, picks: Draws, part: Part): (rs: seq<Matrix>)
    requires FitPairwise(ms1, ms2)
    ensures |rs| == |ms1| && AllValid(rs)
    ensures forall i :: 0 <= i < |ms1| ==> rs[i] == CrossedMatrix(ms1[i], ms2[i], picks, i, part)
  {
    seq(|ms1|, i requires 0 <= i < |ms1| => CrossedMatrix(ms1[i], ms2[i], picks, i, part))
  }

  /** The second network's matrices cover the first's, layer by layer (what
      crossoverWith reads without checking). */
  ghost predicate Covers(other: Network, net: Network) {
    && net.Valid() && other.Valid()
    && FitPairwise(net.Weights(), other.Weights())
    && FitPairwise(net.Biases(), other.Biases())
  }

  /** The network a mutator built from `net` returns after `crossoverWith(other)`. */
  function CrossedNetwork(net: Network, other: Network, picks: Draws): Network
    requires Covers(other, net)
  {
    Assemble(CrossAll(net.Weights(), other.Weights(), picks, WeightsPart),
             CrossAll(net.Biases(), other.Biases(), picks, BiasesPart))
  }

  // ---------------------------------------------------------------------------
  // Both operations keep the topology
  // ---------------------------------------------------------------------------

  /** Matrices with the same shapes as a network's own pass every check of the
      array constructor and give a network of the same topology. */
  lemma SameShapesKeepTopology(net: Network, sizes: seq<int>, ws: seq<Matrix>, bs: seq<Matrix>)
    requires net.HasTopology(sizes)
    requires |ws| == |bs| == |net.layers| && AllValid(ws) && AllValid(bs)
    requires forall i :: 0 <= i < |ws| ==> ws[i].SameShape(net.layers[i].weights) && bs[i].SameShape(net.layers[i].biases)
    ensures Chained(ws, bs)
    ensures FromMatrices(ws, bs) == Ok(Assemble(ws, bs))
    ensures Assemble(ws, bs).HasTopology(sizes)
    ensures Assemble(ws, bs).Weights() == ws && Assemble(ws, bs).Biases() == bs
  {
    RebuildRoundTrip(net);
    assert Chained(ws, bs) by {
      forall i | 1 <= i < |ws|
        ensures ws[i].cols == ws[i - 1].rows
      {
        assert net.Weights()[i].cols == net.Weights()[i - 1].rows;
      }
      forall i | 0 <= i < |bs|
        ensures bs[i].rows == ws[i].rows && bs[i].IsVector()
      {
        assert net.Biases()[i].rows == net.Weights()[i].rows;
      }
    }
    FromMatricesOutcome(ws, bs);
    var built := Assemble(ws, bs);
    assert built.layerSizes == sizes by {
      forall k | 0 <= k < |sizes|
        ensures built.layerSizes[k] == sizes[k]
      {
        if k > 0 {
          assert built.layerSizes[k] == ws[k - 1].rows == net.layers[k - 1].weights.rows;
        }
      }
    }
  }

  /** A mutated network has the topology of the network it came from, so
      getNetwork never meets the array constructor's dimension errors. */
  lemma MutatedNetworkKeepsTopology(net: Network, sizes: seq<int>, rate: real, coins: Draws, values: Draws)
    requires net.HasTopology(sizes)
    ensures var ws := MutateAll(net.Weights(), rate, coins, values, WeightsPart);
      var bs := MutateAll(net.Biases(), rate, coins, values, BiasesPart);
      FromMatrices(ws, bs) == Ok(MutatedNetwork(net, rate, coins, values))
    ensures MutatedNetwork(net, rate, coins, values).HasTopology(sizes)
  {
    SameShapesKeepTopology(net, sizes,
      MutateAll(net.Weights(), rate, coins, values, WeightsPart),
      MutateAll(net.Biases(), rate, coins, values, BiasesPart));
  }

  /** A child of two networks has the topology of its first parent. */
  lemma CrossedNetworkKeepsTopology(net: Network, other: Network, sizes: seq<int>, picks: Draws)
    requires net.HasTopology(sizes) && Covers(other, net)
    ensures var ws := CrossAll(net.Weights(), other.Weights(), picks, WeightsPart);
      var bs := CrossAll(net.Biases(), other.Biases(), picks, BiasesPart);
      FromMatrices(ws, bs) == Ok(CrossedNetwork(net, other, picks))
    ensures CrossedNetwork(net, other, picks).HasTopology(sizes)
  {
    SameShapesKeepTopology(net, sizes,
      CrossAll(net.Weights(), other.Weights(), picks, WeightsPart),
      CrossAll(net.Biases(), other.Biases(), picks, BiasesPart));
  }

  /** Two networks of the same topology cover each other. */
  lemma SameTopologyCovers(net: Network, other: Network, sizes: seq<int>)
    requires net.HasTopology(sizes) && other.HasTopology(sizes)
    ensures Covers(other, net)
  {
    forall i | 0 <= i < |net.layers|
      ensures net.Weights()[i].FitsIn(other.Weights()[i]) && net.Biases()[i].FitsIn(other.Biases()[i])
    {
      assert |other.layers| == |net.layers|;
      assert net.layers[i].weights.rows == sizes[i + 1] == other.layers[i].weights.rows;
      assert net.layers[i].weights.cols == sizes[i] == other.layers[i].weights.cols;
      assert net.layers[i].biases.rows == sizes[i + 1] == other.layers[i].biases.rows;
      assert net.layers[i].biases.cols == 1 == other.layers[i].biases.cols;
    }
  }

  /** Mutation at a rate of 0 or less gives back the very network it started from. */
  lemma NonPositiveRateKeepsNetwork(net: Network, rate: real, coins: Draws, values: Draws)
    requires net.Valid() && Uniform(coins) && rate <= 0.0
    ensures MutatedNetwork(net, rate, coins, values) == net
  {
    var ws, bs := net.Weights(), net.Biases();
    forall i | 0 <= i < |ws|
      ensures MutatedMatrix(ws[i], rate, coins, values, i, WeightsPart) == ws[i]
      ensures MutatedMatrix(bs[i], rate, coins, values, i, BiasesPart) == bs[i]
    {
      NonPositiveRateKeepsMatrix(ws[i], rate, coins, values, i, WeightsPart);
      NonPositiveRateKeepsMatrix(bs[i], rate, coins, values, i, BiasesPart);
    }
    assert MutateAll(ws, rate, coins, values, WeightsPart) == ws;
    assert MutateAll(bs, rate, coins, values, BiasesPart) == bs;
    RebuildRoundTrip(net);
  }

  /** Breeding a network with itself (both parents may be the same rank) gives it back. */
  lemma CrossWithSelfKeepsNetwork(net: Network, picks: Draws)
    requires net.Valid()
    ensures Covers(net, net) && CrossedNetwork(net, net, picks) == net
  {
    var ws, bs := net.Weights(), net.Biases();
    forall i | 0 <= i < |ws|
      ensures CrossedMatrix(ws[i], ws[i], picks, i, WeightsPart) == ws[i]
      ensures CrossedMatrix(bs[i], bs[i], picks, i, BiasesPart) == bs[i]
    {
      CrossWithSelf(ws[i], picks, i, WeightsPart);
      CrossWithSelf(bs[i], picks, i, BiasesPart);
    }
    assert CrossAll(ws, ws, picks, WeightsPart) == ws;
    assert CrossAll(bs, bs, picks, BiasesPart) == bs;
    RebuildRoundTrip(net);
  }

  // ---------------------------------------------------------------------------
  // The in-place matrix loops
  // ---------------------------------------------------------------------------

  /** mutateMatrix: row by row, a cell whose coin falls below the rate is overwritten. */
  method MutateMatrix(m: array2<real>, rate: real, coins: Draws, values: Draws, layer: nat, part: Part)
    modifies m
    ensures Contents(m) == MutatedMatrix(old(Contents(m)), rate, coins, values, layer, part)
  {
    ghost var before := Contents(m);
    var row := 0;
    while row < m.Length0
      invariant 0 <= row <= m.Length0
      invariant forall r, c :: 0 <= r < m.Length0 && 0 <= c < m.Length1 ==>
        m[r, c] == if r < row then MutatedCell(before.cells[r][c], rate, coins(Site(layer, part, r, c)), values(Site(layer, part, r, c)))
                   else before.cells[r][c]
    {
      var column := 0;
      while column < m.Length1
        invariant 0 <= column <= m.Length1
        invariant forall r, c :: 0 <= r < m.Length0 && 0 <= c < m.Length1 ==>
          m[r, c] == if r < row || (r == row && c < column) then MutatedCell(before.cells[r][c], rate, coins(Site(layer, part, r, c)), values(Site(layer, part, r, c)))
                     else before.cells[r][c]
      {
        if coins(Site(layer, part, row, column)) < rate {
          m[row, column] := Scaled(values(Site(layer, part, row, column)));
        }
        column := column + 1;
      }
      row := row + 1;
    }
    Extensionality(Contents(m), MutatedMatrix(before, rate, coins, values, layer, part));
  }

  /** crossoverMatrices: a new matrix of the first parent's shape, filled cell by cell. */
  method CrossoverMatrices(m1: array2<real>, m2: array2<real>, picks: Draws, layer: nat, part: Part)
    returns (child: array2<real>)
    requires m1.Length0 <= m2.Length0 && m1.Length1 <= m2.Length1
    ensures fresh(child)
    ensures Contents(child) == CrossedMatrix(Contents(m1), Contents(m2), picks, layer, part)
  {
    child := new real[m1.Length0, m1.Length1]((r, c) => 0.0);
    var row := 0;
    while row < m1.Length0
      invariant 0 <= row <= m1.Length0
      invariant forall r, c :: 0 <= r < row && 0 <= c < m1.Length1 ==>
        child[r, c] == CrossedCell(m1[r, c], m2[r, c], picks(Site(layer, part, r, c)))
    {
      var column := 0;
      while column < m1.Length1
        invariant 0 <= column <= m1.Length1
        invariant forall r, c :: 0 <= r < row && 0 <= c < m1.Length1 ==>
          child[r, c] == CrossedCell(m1[r, c], m2[r, c], picks(Site(layer, part, r, c)))
        invariant forall c :: 0 <= c < column ==>
          child[row, c] == CrossedCell(m1[row, c], m2[row, c], picks(Site(layer, part, row, c)))
      {
        child[row, column] := if picks(Site(layer, part, row, column)) < 0.5 then m1[row, column] else m2[row, column];
        column := column + 1;
      }
      row := row + 1;
    }
    Extensionality(Contents(child), CrossedMatrix(Contents(m1), Contents(m2), picks, layer, part));
  }

  /** One pass of mutate's loop: mutateMatrix on a layer's weights, then on its biases. */
  method MutateLayer(w: array2<real>, b: array2<real>, ghost w0: Matrix, ghost b0: Matrix,
                     rate: real, coins: Draws, values: Draws, layer: nat)
    requires w != b && Holds(w, w0) && Holds(b, b0)
    modifies w, b
    ensures Holds(w, MutatedMatrix(w0, rate, coins, values, layer, WeightsPart))
    ensures Holds(b, MutatedMatrix(b0, rate, coins, values, layer, BiasesPart))
  {
    HoldsContents(w, w0);
    HoldsContents(b, b0);
    MutateMatrix(w, rate, coins, values, layer, WeightsPart);
    MutateMatrix(b, rate, coins, values, layer, BiasesPart);
    HoldsContents(w, MutatedMatrix(w0, rate, coins, values, layer, WeightsPart));
    HoldsContents(b, MutatedMatrix(b0, rate, coins, values, layer, BiasesPart));
  }

  /** One pass of crossoverWith's loop: the children of a layer's weights and of its biases. */
  method CrossoverLayer(w: array2<real>, b: array2<real>, otherW: array2<real>, otherB: array2<real>,
                        ghost w0: Matrix, ghost b0: Matrix, ghost ow: Matrix, ghost ob: Matrix,
                        picks: Draws, layer: nat)
    returns (childW: array2<real>, childB: array2<real>)
    requires Holds(w, w0) && Holds(b, b0) && Holds(otherW, ow) && Holds(otherB, ob)
    requires w0.FitsIn(ow) && b0.FitsIn(ob)
    ensures fresh(childW) && fresh(childB) && childW != childB
    ensures Holds(childW, CrossedMatrix(w0, ow, picks, layer, WeightsPart))
    ensures Holds(childB, CrossedMatrix(b0, ob, picks, layer, BiasesPart))
  {
    HoldsContents(w, w0);
    HoldsContents(b, b0);
    HoldsContents(otherW, ow);
    HoldsContents(otherB, ob);
    childW := CrossoverMatrices(w, otherW, picks, layer, WeightsPart);
    childB := CrossoverMatrices(b, otherB, picks, layer, BiasesPart);
    HoldsContents(childW, CrossedMatrix(w0, ow, picks, layer, WeightsPart));
    HoldsContents(childB, CrossedMatrix(b0, ob, picks, layer, BiasesPart));
  }

  // ---------------------------------------------------------------------------
  // The mutator object
  // ---------------------------------------------------------------------------

  /** No matrix object appears twice among the weight and bias slots. */
  predicate Unshared(ws: seq<array2<real>>, bs: seq<array2<real>>) {
    && (forall i, j :: 0 <= i < j < |ws| ==> ws[i] != ws[j])
    && (forall i, j :: 0 <= i < j < |bs| ==> bs[i] != bs[j])
    && (forall i, j :: 0 <= i < |ws| && 0 <= j < |bs| ==> ws[i] != bs[j])
  }

  /** Two new objects, outside every object gathered so far, keep the slots unshared. */
  lemma AppendUnshared(ws: seq<array2<real>>, bs: seq<array2<real>>, repr: set<array2<real>>, w: array2<real>, b: array2<real>)
    requires Unshared(ws, bs)
    requires forall k :: 0 <= k < |ws| ==> ws[k] in repr
    requires forall k :: 0 <= k < |bs| ==> bs[k] in repr
    requires w !in repr && b !in repr && w != b
    ensures Unshared(ws + [w], bs + [b])
  {
  }

  /** One pass of getWeightsAndBiasesFromNetwork's loop: copies of a layer's weights and biases. */
  method LayerCopies(network: Network, i: nat) returns (w: array2<real>, b: array2<real>)
    requires network.Valid() && i < |network.layers|
    ensures fresh(w) && fresh(b) && w != b
    ensures Holds(w, network.layers[i].weights) && Holds(b, network.layers[i].biases)
  {
    w := WeightsForActiveLayer(network, i);
    b := BiasesForActiveLayer(network, i);
    HoldsContents(w, network.layers[i].weights);
    HoldsContents(b, network.layers[i].biases);
  }

  /** getWeightsAndBiasesFromNetwork: a fresh copy of every weight matrix and
      every bias matrix, gathered through the 0-based accessors. */
  method WeightsAndBiasesFrom(network: Network) returns (ws: seq<array2<real>>, bs: seq<array2<real>>, ghost repr: set<array2<real>>)
    requires network.Valid()
    ensures |ws| == |network.layers| && |bs| == |network.layers|
    ensures fresh(repr) && forall i :: 0 <= i < |ws| ==> ws[i] in repr && bs[i] in repr
    ensures Unshared(ws, bs)
    ensures forall i :: 0 <= i < |ws| ==> Holds(ws[i], network.layers[i].weights) && Holds(bs[i], network.layers[i].biases)
  {
    var numberOfActiveLayers := |network.layers|;
    ws, bs, repr := [], [], {};
    var i := 0;
    while i < numberOfActiveLayers
      invariant 0 <= i <= numberOfActiveLayers && |ws| == i && |bs| == i
      invariant fresh(repr) && forall k :: 0 <= k < i ==> ws[k] in repr && bs[k] in repr
      invariant Unshared(ws, bs)
      invariant forall k :: 0 <= k < i ==> Holds(ws[k], network.layers[k].weights) && Holds(bs[k], network.layers[k].biases)
    {
      var w, b := LayerCopies(network, i);
      AppendUnshared(ws, bs, repr, w, b);
      ws, bs, repr := ws + [w], bs + [b], repr + {w, b};
      i := i + 1;
    }
  }

  class Mutator {
    const numberOfActiveLayers: nat
    var weights: seq<array2<real>>
    var biases: seq<array2<real>>
    /** The values the weight and bias matrices hold, layer by layer. */
    ghost var Ws: seq<Matrix>
    ghost var Bs: seq<Matrix>
    ghost var Repr: set<array2<real>>

    /** One unshared matrix object per weight and bias slot, holding `Ws` and `Bs`. */
    ghost predicate Valid()
      reads this, Repr
    {
      && numberOfActiveLayers >= 1
      && |weights| == numberOfActiveLayers && |biases| == numberOfActiveLayers
      && |Ws| == numberOfActiveLayers && |Bs| == numberOfActiveLayers
      && (forall i :: 0 <= i < numberOfActiveLayers ==> weights[i] in Repr && biases[i] in Repr)
      && Unshared(weights, biases)
      && (forall i :: 0 <= i < numberOfActiveLayers ==> Holds(weights[i], Ws[i]) && Holds(biases[i], Bs[i]))
    }

    /** NeuralNetworkMutator(network): copies of every layer's weights and biases. */
    constructor (network: Network)
      requires network.Valid()
      ensures Valid() && fresh(Repr)
      ensures numberOfActiveLayers == |network.layers|
      ensures Ws == network.Weights() && Bs == network.Biases()
    {
      var ws, bs, repr := WeightsAndBiasesFrom(network);
      numberOfActiveLayers := |network.layers|;
      weights, biases := ws, bs;
      Ws, Bs := network.Weights(), network.Biases();
      Repr := repr;
    }

    /** getNetwork: the array constructor applied to the current matrices. */
    method GetNetwork() returns (r: Result<Network>)
      requires Valid()
      ensures r == FromMatrices(Ws, Bs)
    {
      var ws: seq<Matrix> := [];
      var bs: seq<Matrix> := [];
      var i := 0;
      while i < numberOfActiveLayers
        invariant 0 <= i <= numberOfActiveLayers
        invariant ws == Ws[..i] && bs == Bs[..i]
      {
        HoldsContents(weights[i], Ws[i]);
        HoldsContents(biases[i], Bs[i]);
        ws := ws + [Contents(weights[i])];
        bs := bs + [Contents(biases[i])];
        i := i + 1;
      }
      assert ws == Ws && bs == Bs;
      r := NewNetworkFromMatrices(ws, bs);
    }

    /** crossoverWith(network): every weight and bias slot is replaced by the
        child of its current matrix and the other network's matrix. */
    method CrossoverWith(network: Network, picks: Draws) returns (self: Mutator)
      requires Valid() && network.Valid()
      requires FitPairwise(Ws, network.Weights()) && FitPairwise(Bs, network.Biases())
      modifies this
      ensures Valid() && self == this
      ensures fresh(Repr)
      ensures Ws == CrossAll(old(Ws), network.Weights(), picks, WeightsPart)
      ensures Bs == CrossAll(old(Bs), network.Biases(), picks, BiasesPart)
    {
      var otherWeights, otherBiases, _ := WeightsAndBiasesFrom(network);
      var children, childBiases, repr := CrossoverLayers(weights, biases, otherWeights, otherBiases,
        Ws, Bs, network.Weights(), network.Biases(), picks);
      Install(children, childBiases, repr,
        CrossAll(Ws, network.Weights(), picks, WeightsPart), CrossAll(Bs, network.Biases(), picks, BiasesPart));
      self := this;
    }

    /** The field assignments ending crossoverWith: the children become the mutator's matrices. */
    method Install(ws: seq<array2<real>>, bs: seq<array2<real>>, ghost repr: set<array2<real>>,
                   ghost ws1: seq<Matrix>, ghost bs1: seq<Matrix>)
      requires numberOfActiveLayers >= 1
      requires |ws| == numberOfActiveLayers && |bs| == numberOfActiveLayers
      requires |ws1| == numberOfActiveLayers && |bs1| == numberOfActiveLayers
      requires forall k :: 0 <= k < |ws| ==> ws[k] in repr && bs[k] in repr
      requires Unshared(ws, bs)
      requires forall k :: 0 <= k < |ws| ==> Holds(ws[k], ws1[k]) && Holds(bs[k], bs1[k])
      modifies this
      ensures Valid() && Repr == repr && Ws == ws1 && Bs == bs1
    {
      weights, biases, Repr, Ws, Bs := ws, bs, repr, ws1, bs1;
    }

    /** mutate(mutationRate): mutateMatrix on every weight and bias matrix, in place. */
    method Mutate(rate: real, coins: Draws, values: Draws) returns (self: Mutator)
      requires Valid()
      modifies this, Repr
      ensures Valid() && self == this && Repr == old(Repr)
      ensures weights == old(weights) && biases == old(biases)
      ensures Ws == MutateAll(old(Ws), rate, coins, values, WeightsPart)
      ensures Bs == MutateAll(old(Bs), rate, coins, values, BiasesPart)
    {
      MutateLayers(weights, biases, Ws, Bs, Repr, rate, coins, values);
      Ws := MutateAll(Ws, rate, coins, values, WeightsPart);
      Bs := MutateAll(Bs, rate, coins, values, BiasesPart);
      self := this;
    }
  }

  /** The loop of crossoverWith: the child of every layer's weights, then of
      its biases, each a new matrix. */
  method CrossoverLayers(weights: seq<array2<real>>, biases: seq<array2<real>>,
                         otherWeights: seq<array2<real>>, otherBiases: seq<array2<real>>,
                         ghost ws0: seq<Matrix>, ghost bs0: seq<Matrix>, ghost ows: seq<Matrix>, ghost obs: seq<Matrix>,
                         picks: Draws)
    returns (ws: seq<array2<real>>, bs: seq<array2<real>>, ghost repr: set<array2<real>>)
    requires |weights| == |biases| == |ws0| == |bs0| && |otherWeights| == |otherBiases| == |ows| == |obs|
    requires FitPairwise(ws0, ows) && FitPairwise(bs0, obs)
    requires forall k :: 0 <= k < |weights| ==> Holds(weights[k], ws0[k]) && Holds(biases[k], bs0[k])
    requires forall k :: 0 <= k < |otherWeights| ==> Holds(otherWeights[k], ows[k]) && Holds(otherBiases[k], obs[k])
    ensures |ws| == |weights| && |bs| == |biases|
    ensures fresh(repr) && forall k :: 0 <= k < |ws| ==> ws[k] in repr && bs[k] in repr
    ensures Unshared(ws, bs)
    ensures forall k :: 0 <= k < |ws| ==>
      Holds(ws[k], CrossAll(ws0, ows, picks, WeightsPart)[k]) && Holds(bs[k], CrossAll(bs0, obs, picks, BiasesPart)[k])
  {
    ghost var crossedWs, crossedBs := CrossAll(ws0, ows, picks, WeightsPart), CrossAll(bs0, obs, picks, BiasesPart);
    ws, bs, repr := [], [], {};
    var i := 0;
    while i < |weights|
      invariant 0 <= i <= |weights| && |ws| == i && |bs| == i
      invariant fresh(repr) && forall k :: 0 <= k < i ==> ws[k] in repr && bs[k] in repr
      invariant Unshared(ws, bs)
      invariant forall k :: 0 <= k < i ==> Holds(ws[k], crossedWs[k]) && Holds(bs[k], crossedBs[k])
    {
      var w, b := CrossoverLayer(weights[i], biases[i], otherWeights[i], otherBiases[i],
        ws0[i], bs0[i], ows[i], obs[i], picks, i);
      AppendUnshared(ws, bs, repr, w, b);
      ws, bs, repr := ws + [w], bs + [b], repr + {w, b};
      i := i + 1;
    }
  }

  /** The loop of mutate: every layer's weights, then its biases, mutated in place. */
  method MutateLayers(weights: seq<array2<real>>, biases: seq<array2<real>>, ghost ws0: seq<Matrix>, ghost bs0: seq<Matrix>,
                      ghost repr: set<array2<real>>, rate: real, coins: Draws, values: Draws)
    requires |weights| == |biases| == |ws0| == |bs0| && AllValid(ws0) && AllValid(bs0)
    requires Unshared(weights, biases)
    requires forall k :: 0 <= k < |weights| ==> weights[k] in repr && biases[k] in repr
    requires forall k :: 0 <= k < |weights| ==> Holds(weights[k], ws0[k]) && Holds(biases[k], bs0[k])
    modifies repr
    ensures forall k :: 0 <= k < |weights| ==>
      && Holds(weights[k], MutateAll(ws0, rate, coins, values, WeightsPart)[k])
      && Holds(biases[k], MutateAll(bs0, rate, coins, values, BiasesPart)[k])
  {
    ghost var mutatedWs, mutatedBs := MutateAll(ws0, rate, coins, values, WeightsPart), MutateAll(bs0, rate, coins, values, BiasesPart);
    var i := 0;
    while i < |weights|
      invariant 0 <= i <= |weights|
      invariant forall k :: 0 <= k < i ==> Holds(weights[k], mutatedWs[k]) && Holds(biases[k], mutatedBs[k])
      invariant forall k :: i <= k < |weights| ==> unchanged(weights[k]) && unchanged(biases[k])
    {
      MutateLayer(weights[i], biases[i], ws0[i], bs0[i], rate, coins, values, i);
      i := i + 1;
    }
  }
}

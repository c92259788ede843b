/** Generation.java: one population of networks, the scores its tasks gave
    them, and the recipe for the next population: keep the best networks,
    clone and mutate the best, breed children of the kept ones, and fill the
    rest with fresh random networks. The population array is built in place,
    one slot after another, so `CreateNextGeneration` keeps the array and its
    running index; each slot is proved equal to `NextSlot`, the reference
    definition of what belongs there. */
module Generations {
  import opened Results
  import opened Draws
  import opened Networks
  import opened Mutators
  import opened Ranking

  /** The task class a generation instantiates once per network, by name. */
  type TaskClass = string

  /** The arguments of createNextGeneration: the population size, the three
      quotas and the mutation rate of the clones. */
  datatype Policy = Policy(numberOfNetworks: int, keep: int, clone: int, breed: int, mutationRate: real)

  /** The random draws behind one slot of a new population: the coins and
      values of a clone's mutation, the two `nextInt(keep)` draws (reduced
      modulo the bound) and the crossover picks of a child, and the initial
      values of a fresh network. */
  datatype SlotDraws = SlotDraws(coins: Draws, values: Draws, parent1: nat, parent2: nat, picks: Draws, init: Draws)

  /** How often `for (int i = 0; i < q; i++)` runs. */
  function Count(q: int): nat {
    if q < 0 then 0 else q
  }

  /** The slots the keep, clone and breed loops fill together. */
  function Filled(p: Policy): nat {
    Count(p.keep) + Count(p.clone) + Count(p.breed)
  }

  /** What createNextGeneration throws over `n` ranked networks, in the order
      its loops meet the failures: a negative array size; a rank or slot past
      the end in the keep loop, then in the clone loop; `nextInt` of a
      non-positive bound in the breed loop; a slot past the end in the breed
      loop; the topology constructor's exception in the fill-up loop. */
  function NextGenerationOutcome(n: nat, sizes: seq<int>, p: Policy): Outcome {
    var k, c := Count(p.keep), Count(p.clone);
    if p.numberOfNetworks < 0 then Fail(NegativeArraySize)
    else if k > n || k > p.numberOfNetworks then Fail(IndexOutOfRange)
    else if c > n || k + c > p.numberOfNetworks then Fail(IndexOutOfRange)
    else if Count(p.breed) > 0 && p.keep <= 0 then Fail(NonPositiveBound)
    else if Filled(p) > p.numberOfNetworks then Fail(IndexOutOfRange)
    else if Filled(p) < p.numberOfNetworks && !ValidSizes(sizes) then Fail(SizesError(sizes))
    else Pass
  }

  /** Every ranked network has the population's topology. */
  ghost predicate RankedWith(ranked: seq<Scored>, sizes: seq<int>) {
    forall x :: x in ranked ==> x.network.HasTopology(sizes)
  }

  /** Slot `j` can be filled: its rank exists, its parents can be drawn, or
      fresh networks of these sizes can be built. */
  ghost predicate SlotDefined(ranked: seq<Scored>, sizes: seq<int>, p: Policy, j: nat) {
    var k, c, b := Count(p.keep), Count(p.clone), Count(p.breed);
    && RankedWith(ranked, sizes)
    && (j < k ==> j < |ranked|)
    && (k <= j < k + c ==> j - k < |ranked|)
    && (k + c <= j < k + c + b ==> 0 < p.keep <= |ranked|)
    && (k + c + b <= j ==> ValidSizes(sizes))
  }


  /** A fresh network: `new NeuralNetwork(networkLayerSizes, Init.RANDOM)`. */
  function FreshNetwork(sizes: seq<int>, d: Draws): (net: Network)
    requires ValidSizes(sizes)
    ensures net.HasTopology(sizes)
  {
    TopologyOutcome(sizes, RandomInit, d);
    Topology(sizes, RandomInit, d).value
  }

  /** With uniform draws every weight and bias of a fresh network lies in [-1, 1). */
  lemma FreshNetworkInRange(sizes: seq<int>, d: Draws)
    requires ValidSizes(sizes) && Uniform(d)
    ensures var net := FreshNetwork(sizes, d);
      forall i :: 0 <= i < |net.layers| ==> InRange(net.layers[i].weights) && InRange(net.layers[i].biases)
  {
    TopologyInitialValues(sizes, RandomInit, d);
  }

  /** The network slot `j` of the next population receives: rank `j`
      unchanged; a mutated copy of rank `j - keep`; the child of two ranks
      drawn below `keep`; or a fresh random network. Whatever it is, it has
      the population's topology. */
  function NextSlot(ranked: seq<Scored>, sizes: seq<int>, p: Policy, draws: nat -> SlotDraws, j: nat): (net: Network)
    requires SlotDefined(ranked, sizes, p, j)
    ensures net.HasTopology(sizes)
  {
    var k, c, b := Count(p.keep), Count(p.clone), Count(p.breed);
    var d := draws(j);
    if j < k then
      assert ranked[j] in ranked;
      ranked[j].network
    else if j < k + c then
      var parent := ranked[j - k].network;
      assert ranked[j - k] in ranked;
      MutatedNetworkKeepsTopology(parent, sizes, p.mutationRate, d.coins, d.values);
      MutatedNetwork(parent, p.mutationRate, d.coins, d.values)
    else if j < k + c + b then
      var parent1 := ranked[d.parent1 % p.keep].network;
      var parent2 := ranked[d.parent2 % p.keep].network;
      assert ranked[d.parent1 % p.keep] in ranked && ranked[d.parent2 % p.keep] in ranked;
      SameTopologyCovers(parent1, parent2, sizes);
      CrossedNetworkKeepsTopology(parent1, parent2, sizes, d.picks);
      CrossedNetwork(parent1, parent2, d.picks)
    else
      FreshNetwork(sizes, d.init)
  }

  /** When createNextGeneration succeeds, every slot of the new array can be filled. */
  lemma PassDefinesSlots(ranked: seq<Scored>, sizes: seq<int>, p: Policy)
    requires RankedWith(ranked, sizes)
    requires NextGenerationOutcome(|ranked|, sizes, p) == Pass
    ensures forall j: nat :: j < p.numberOfNetworks ==> SlotDefined(ranked, sizes, p, j)
  {
  }

  /** The population createNextGeneration returns: `numberOfNetworks`
      networks, all of the population's topology. */
  function NextNetworks(ranked: seq<Scored>, sizes: seq<int>, p: Policy, draws: nat -> SlotDraws): (nets: seq<Network>)
    requires RankedWith(ranked, sizes)
    requires NextGenerationOutcome(|ranked|, sizes, p) == Pass
    ensures |nets| == p.numberOfNetworks
    ensures forall j :: 0 <= j < |nets| ==> nets[j].HasTopology(sizes)
  {
    PassDefinesSlots(ranked, sizes, p);
    seq(p.numberOfNetworks, j requires 0 <= j < p.numberOfNetworks => NextSlot(ranked, sizes, p, draws, j))
  }


  /** The kept networks are the best ones: slot `j` below the keep quota is
      rank `j`, and no network left out scored more. */
  lemma KeptAreBest(ranked: seq<Scored>, sizes: seq<int>, p: Policy, draws: nat -> SlotDraws)
    requires RankedWith(ranked, sizes) && SortedDesc(ranked)
    requires NextGenerationOutcome(|ranked|, sizes, p) == Pass
    ensures forall j :: 0 <= j < Count(p.keep) ==>
      && NextNetworks(ranked, sizes, p, draws)[j] == ranked[j].network
      && forall i :: Count(p.keep) <= i < |ranked| ==> ranked[j].score >= ranked[i].score
  {
  }

  /** Clones made at a mutation rate of 0 or less are exact copies of the
      best networks. */
  lemma ZeroRateClonesAreCopies(ranked: seq<Scored>, sizes: seq<int>, p: Policy, draws: nat -> SlotDraws)
    requires RankedWith(ranked, sizes)
    requires NextGenerationOutcome(|ranked|, sizes, p) == Pass
    requires p.mutationRate <= 0.0
    requires forall j: nat :: Uniform(draws(j).coins)
    ensures forall j :: Count(p.keep) <= j < Count(p.keep) + Count(p.clone) ==>
      NextNetworks(ranked, sizes, p, draws)[j] == ranked[j - Count(p.keep)].network
  {
    forall j | Count(p.keep) <= j < Count(p.keep) + Count(p.clone)
      ensures NextNetworks(ranked, sizes, p, draws)[j] == ranked[j - Count(p.keep)].network
    {
      ZeroRateCloneIsCopy(ranked, sizes, p, draws, j);
    }
  }

  lemma ZeroRateCloneIsCopy(ranked: seq<Scored>, sizes: seq<int>, p: Policy, draws: nat -> SlotDraws, j: nat)
    requires RankedWith(ranked, sizes)
    requires NextGenerationOutcome(|ranked|, sizes, p) == Pass
    requires p.mutationRate <= 0.0 && Uniform(draws(j).coins)
    requires Count(p.keep) <= j < Count(p.keep) + Count(p.clone)
    ensures NextNetworks(ranked, sizes, p, draws)[j] == ranked[j - Count(p.keep)].network
  {
    var parent := ranked[j - Count(p.keep)].network;
    CloneSlot(ranked, sizes, p, draws, j, parent);
    NonPositiveRateKeepsNetwork(parent, p.mutationRate, draws(j).coins, draws(j).values);
    assert NextNetworks(ranked, sizes, p, draws)[j] == NextSlot(ranked, sizes, p, draws, j);
  }

  /** With a single network kept, both parents of every child are that
      network, so every child is a copy of the best network. */
  lemma SingleKeptBreedsCopies(ranked: seq<Scored>, sizes: seq<int>, p: Policy, draws: nat -> SlotDraws)
    requires RankedWith(ranked, sizes)
    requires NextGenerationOutcome(|ranked|, sizes, p) == Pass
    requires p.keep == 1
    ensures forall j :: 1 + Count(p.clone) <= j < Filled(p) ==>
      NextNetworks(ranked, sizes, p, draws)[j] == ranked[0].network
  {
    forall j | 1 + Count(p.clone) <= j < Filled(p)
      ensures NextNetworks(ranked, sizes, p, draws)[j] == ranked[0].network
    {
      SingleKeptChildIsCopy(ranked, sizes, p, draws, j);
    }
  }

  lemma SingleKeptChildIsCopy(ranked: seq<Scored>, sizes: seq<int>, p: Policy, draws: nat -> SlotDraws, j: nat)
    requires RankedWith(ranked, sizes)
    requires NextGenerationOutcome(|ranked|, sizes, p) == Pass
    requires p.keep == 1 && 1 + Count(p.clone) <= j < Filled(p)
    ensures NextNetworks(ranked, sizes, p, draws)[j] == ranked[0].network
  {
    var best := ranked[0].network;
    assert draws(j).parent1 % p.keep == 0 && draws(j).parent2 % p.keep == 0;
    ChildSlot(ranked, sizes, p, draws, j, best, best);
    CrossWithSelfKeepsNetwork(best, draws(j).picks);
    assert NextNetworks(ranked, sizes, p, draws)[j] == NextSlot(ranked, sizes, p, draws, j);
  }

  /** The slots after the three quotas hold fresh random networks; with
      uniform draws every weight and bias of them lies in [-1, 1). */
  lemma FreshSlotsAreRandom(ranked: seq<Scored>, sizes: seq<int>, p: Policy, draws: nat -> SlotDraws)
    requires RankedWith(ranked, sizes)
    requires NextGenerationOutcome(|ranked|, sizes, p) == Pass
    requires forall j: nat :: Uniform(draws(j).init)
    ensures forall j :: Filled(p) <= j < p.numberOfNetworks ==>
      var net := NextNetworks(ranked, sizes, p, draws)[j];
      forall i :: 0 <= i < |net.layers| ==> InRange(net.layers[i].weights) && InRange(net.layers[i].biases)
  {
    forall j | Filled(p) <= j < p.numberOfNetworks
      ensures var net := NextNetworks(ranked, sizes, p, draws)[j];
        forall i :: 0 <= i < |net.layers| ==> InRange(net.layers[i].weights) && InRange(net.layers[i].biases)
    {
      assert NextNetworks(ranked, sizes, p, draws)[j] == FreshNetwork(sizes, draws(j).init);
      FreshNetworkInRange(sizes, draws(j).init);
    }
  }

  /** The networks of createGenerationWithRandomNetworks, slot by slot. */
  function RandomNetworks(sizes: seq<int>, n: nat, draws: nat -> SlotDraws): (nets: seq<Network>)
    requires n > 0 ==> ValidSizes(sizes)
    ensures |nets| == n
    ensures forall j :: 0 <= j < n ==> nets[j].HasTopology(sizes)
  {
    var nets := seq(n, j requires 0 <= j < n => FreshNetwork(sizes, draws(j).init));
    assert forall j :: 0 <= j < n ==> nets[j] == FreshNetwork(sizes, draws(j).init);
    nets
  }

  /** With uniform draws every weight and bias of a random population lies in [-1, 1). */
  lemma RandomNetworksInRange(sizes: seq<int>, n: nat, draws: nat -> SlotDraws)
    requires n > 0 ==> ValidSizes(sizes)
    requires forall j: nat :: Uniform(draws(j).init)
    ensures forall j :: 0 <= j < n ==>
      var net := RandomNetworks(sizes, n, draws)[j];
      forall i :: 0 <= i < |net.layers| ==> InRange(net.layers[i].weights) && InRange(net.layers[i].biases)
  {
    forall j | 0 <= j < n
      ensures var net := RandomNetworks(sizes, n, draws)[j];
        forall i :: 0 <= i < |net.layers| ==> InRange(net.layers[i].weights) && InRange(net.layers[i].biases)
    {
      FreshNetworkInRange(sizes, draws(j).init);
    }
  }

  /** A clone: `new NeuralNetworkMutator(parent).mutate(rate).getNetwork()`. */
  method CloneOf(parent: Network, sizes: seq<int>, rate: real, coins: Draws, values: Draws) returns (child: Network)
    requires parent.HasTopology(sizes)
    ensures child == MutatedNetwork(parent, rate, coins, values)
  {
    var mutator := new Mutator(parent);
    mutator := mutator.Mutate(rate, coins, values);
    var r := mutator.GetNetwork();
    MutatedNetworkKeepsTopology(parent, sizes, rate, coins, values);
    child := r.value;
  }

  /** A child: `new NeuralNetworkMutator(parent1).crossoverWith(parent2).getNetwork()`. */
  method ChildOf(parent1: Network, parent2: Network, sizes: seq<int>, picks: Draws) returns (child: Network)
    requires parent1.HasTopology(sizes) && parent2.HasTopology(sizes)
    ensures Covers(parent2, parent1) && child == CrossedNetwork(parent1, parent2, picks)
  {
    SameTopologyCovers(parent1, parent2, sizes);
    var mutator := new Mutator(parent1);
    mutator := mutator.CrossoverWith(parent2, picks);
    var r := mutator.GetNetwork();
    CrossedNetworkKeepsTopology(parent1, parent2, sizes, picks);
    child := r.value;
  }

  /** `slot` gives every slot that can be filled the network `NextSlot`
      puts in it. The loops below only ever apply `slot`; its link to
      `NextSlot` is used one slot at a time, by the lemmas that follow. */
  ghost predicate Plans(slot: nat -> Network, ranked: seq<Scored>, sizes: seq<int>, p: Policy, draws: nat -> SlotDraws) {
    forall j: nat {:trigger NextSlot(ranked, sizes, p, draws, j)} ::
      SlotDefined(ranked, sizes, p, j) ==> slot(j) == NextSlot(ranked, sizes, p, draws, j)
  }

  /** A network for every slot: `NextSlot` where it is defined, an empty
      network elsewhere (those slots are never filled: the creation throws first). */
  ghost function PlanOf(ranked: seq<Scored>, sizes: seq<int>, p: Policy, draws: nat -> SlotDraws): (slot: nat -> Network)
    ensures Plans(slot, ranked, sizes, p, draws)
  {
    (j: nat) => if SlotDefined(ranked, sizes, p, j) then NextSlot(ranked, sizes, p, draws, j) else Network(0, [], [])
  }

  /** `built` lists, slot by slot, the networks the slots receive. */
  ghost predicate Built(slot: nat -> Network, built: seq<Network>) {
    forall j :: 0 <= j < |built| ==> built[j] == slot(j)
  }

  /** Appending what the next slot receives keeps the list right. */
  lemma Extend(slot: nat -> Network, built: seq<Network>, network: Network)
    requires Built(slot, built) && network == slot(|built|)
    ensures Built(slot, built + [network])
  {
  }

  /** A full list of slots is the population `NextNetworks` describes. */
  lemma BuiltIsNext(ranked: seq<Scored>, sizes: seq<int>, p: Policy, draws: nat -> SlotDraws,
                    slot: nat -> Network, built: seq<Network>)
    requires RankedWith(ranked, sizes) && NextGenerationOutcome(|ranked|, sizes, p) == Pass
    requires Plans(slot, ranked, sizes, p, draws)
    requires Built(slot, built) && |built| == p.numberOfNetworks
    ensures built == NextNetworks(ranked, sizes, p, draws)
  {
    var next := NextNetworks(ranked, sizes, p, draws);
    forall j | 0 <= j < |built|
      ensures built[j] == next[j]
    {
      PassDefinesSlots(ranked, sizes, p);
      assert next[j] == NextSlot(ranked, sizes, p, draws, j);
    }
  }

  /** `networks[index] = network`: the filled prefix of the array grows by one. */
  method Place(slots: array<Network>, index: nat, network: Network)
    requires index < slots.Length
    modifies slots
    ensures slots[..index + 1] == old(slots[..index]) + [network]
  {
    slots[index] := network;
  }

  /** Slot `j` below the keep quota is rank `j`. */
  lemma KeptSlot(ranked: seq<Scored>, sizes: seq<int>, p: Policy, draws: nat -> SlotDraws, j: nat)
    requires RankedWith(ranked, sizes) && j < Count(p.keep) && j < |ranked|
    ensures SlotDefined(ranked, sizes, p, j) && NextSlot(ranked, sizes, p, draws, j) == ranked[j].network
  {
  }

  lemma KeptPlanned(ranked: seq<Scored>, sizes: seq<int>, p: Policy, draws: nat -> SlotDraws,
                    slot: nat -> Network, j: nat)
    requires Plans(slot, ranked, sizes, p, draws)
    requires RankedWith(ranked, sizes) && j < Count(p.keep) && j < |ranked|
    ensures slot(j) == ranked[j].network
  {
    KeptSlot(ranked, sizes, p, draws, j);
  }

  /** A slot of the clone quota is a mutated copy of the rank `keep` places before it. */
  lemma CloneSlot(ranked: seq<Scored>, sizes: seq<int>, p: Policy, draws: nat -> SlotDraws, j: nat, parent: Network)
    requires RankedWith(ranked, sizes) && Count(p.keep) <= j < Count(p.keep) + Count(p.clone)
    requires j - Count(p.keep) < |ranked| && parent == ranked[j - Count(p.keep)].network
    ensures parent.HasTopology(sizes)
    ensures SlotDefined(ranked, sizes, p, j)
    ensures NextSlot(ranked, sizes, p, draws, j) == MutatedNetwork(parent, p.mutationRate, draws(j).coins, draws(j).values)
  {
    assert ranked[j - Count(p.keep)] in ranked;
  }

  /** A slot of the breed quota is the child of the two ranks drawn for it. */
  lemma ChildSlot(ranked: seq<Scored>, sizes: seq<int>, p: Policy, draws: nat -> SlotDraws, j: nat,
                  parent1: Network, parent2: Network)
    requires RankedWith(ranked, sizes) && Count(p.keep) + Count(p.clone) <= j < Filled(p) && 0 < p.keep <= |ranked|
    requires parent1 == ranked[draws(j).parent1 % p.keep].network
    requires parent2 == ranked[draws(j).parent2 % p.keep].network
    ensures parent1.HasTopology(sizes) && parent2.HasTopology(sizes)
    ensures Covers(parent2, parent1)
    ensures SlotDefined(ranked, sizes, p, j)
    ensures NextSlot(ranked, sizes, p, draws, j) == CrossedNetwork(parent1, parent2, draws(j).picks)
  {
    var d := draws(j);
    assert ranked[d.parent1 % p.keep] in ranked && ranked[d.parent2 % p.keep] in ranked;
    SameTopologyCovers(parent1, parent2, sizes);
  }

  /** A slot past the three quotas is a fresh network. */
  lemma FreshSlot(ranked: seq<Scored>, sizes: seq<int>, p: Policy, draws: nat -> SlotDraws, j: nat)
    requires RankedWith(ranked, sizes) && Filled(p) <= j && ValidSizes(sizes)
    ensures SlotDefined(ranked, sizes, p, j) && NextSlot(ranked, sizes, p, draws, j) == FreshNetwork(sizes, draws(j).init)
  {
  }

  lemma FreshPlanned(ranked: seq<Scored>, sizes: seq<int>, p: Policy, draws: nat -> SlotDraws,
                     slot: nat -> Network, j: nat)
    requires Plans(slot, ranked, sizes, p, draws)
    requires RankedWith(ranked, sizes) && Filled(p) <= j && Topology(sizes, RandomInit, draws(j).init).Ok?
    ensures slot(j) == Topology(sizes, RandomInit, draws(j).init).value
  {
    TopologyOutcome(sizes, RandomInit, draws(j).init);
    FreshSlot(ranked, sizes, p, draws, j);
  }

  /** The clone for the next slot of the clone quota, with the list of
      built slots extended by it. */
  method CloneFor(ghost ranked: seq<Scored>, sizes: seq<int>, p: Policy, draws: nat -> SlotDraws,
                  ghost slot: nat -> Network, ghost built: seq<Network>, j: nat, parent: Network) returns (child: Network)
    requires RankedWith(ranked, sizes) && Plans(slot, ranked, sizes, p, draws) && Built(slot, built)
    requires j == |built| && Count(p.keep) <= j < Count(p.keep) + Count(p.clone)
    requires j - Count(p.keep) < |ranked| && parent == ranked[j - Count(p.keep)].network
    ensures Built(slot, built + [child])
  {
    CloneSlot(ranked, sizes, p, draws, j, parent);
    child := CloneOf(parent, sizes, p.mutationRate, draws(j).coins, draws(j).values);
    Extend(slot, built, child);
  }

  /** The child for the next slot of the breed quota, with the list of built
      slots extended by it. */
  method ChildFor(ghost ranked: seq<Scored>, sizes: seq<int>, p: Policy, draws: nat -> SlotDraws,
                  ghost slot: nat -> Network, ghost built: seq<Network>, j: nat, parent1: Network, parent2: Network)
    returns (child: Network)
    requires RankedWith(ranked, sizes) && Plans(slot, ranked, sizes, p, draws) && Built(slot, built)
    requires j == |built| && Count(p.keep) + Count(p.clone) <= j < Filled(p) && 0 < p.keep <= |ranked|
    requires parent1 == ranked[draws(j).parent1 % p.keep].network
    requires parent2 == ranked[draws(j).parent2 % p.keep].network
    ensures Built(slot, built + [child])
  {
    ChildSlot(ranked, sizes, p, draws, j, parent1, parent2);
    child := ChildOf(parent1, parent2, sizes, draws(j).picks);
    Extend(slot, built, child);
  }

  /** The fill-up loop of createNextGeneration: fresh random networks in
      every slot the quotas left empty; invalid sizes make the first of them throw. */
  method FillFresh(slots: array<Network>, sizes: seq<int>, p: Policy, draws: nat -> SlotDraws,
                   ghost ranked: seq<Scored>, ghost slot: nat -> Network, ghost built0: seq<Network>)
    returns (o: Outcome, ghost built: seq<Network>)
    requires RankedWith(ranked, sizes) && Plans(slot, ranked, sizes, p, draws)
    requires |built0| == Filled(p) <= slots.Length && slots[..|built0|] == built0
    requires Built(slot, built0)
    modifies slots
    ensures o.Pass? <==> (Filled(p) < slots.Length ==> ValidSizes(sizes))
    ensures o.Fail? ==> o.error == SizesError(sizes)
    ensures o.Pass? ==> slots[..] == built && Built(slot, built)
  {
    built := built0;
    var index := Filled(p);
    while index < slots.Length
      invariant Filled(p) <= index <= slots.Length
      invariant index > Filled(p) ==> ValidSizes(sizes)
      invariant |built| == index && slots[..index] == built
      invariant Built(slot, built)
    {
      var network := NewNetwork(sizes, RandomInit, draws(index).init);
      TopologyOutcome(sizes, RandomInit, draws(index).init);
      if network.Err? {
        return Fail(network.error), built;
      }
      FreshPlanned(ranked, sizes, p, draws, slot, index);
      Extend(slot, built, network.value);
      Place(slots, index, network.value);
      built := built + [network.value];
      index := index + 1;
    }
    o := Pass;
  }

  class Generation {
    const taskClass: TaskClass
    const networkLayerSizes: seq<int>
    const networks: seq<Network>
    /** The (network, score) pairs the finished tasks reported. */
    var scores: seq<Scored>
    var hasStarted: bool
    var sortedScores: bool

    /** Every network has the population's topology; before the start there
        are no scores, afterwards one pair per network; once sorted, the
        scores are in ranking order (and sorting only ever happens once every
        task has finished). */
    ghost predicate Valid()
      reads this
    {
      && (forall n :: n in networks ==> n.HasTopology(networkLayerSizes))
      && RankedWith(scores, networkLayerSizes)
      && (!hasStarted ==> scores == [])
      && (hasStarted ==> |scores| == |networks| && multiset(NetworksOf(scores)) == multiset(networks))
      && (sortedScores ==> SortedDesc(scores) && (hasStarted || |networks| == 0))
    }

    /** The private constructor: a population not yet started. */
    constructor Create(taskClass: TaskClass, networks: seq<Network>, networkLayerSizes: seq<int>)
      requires forall n :: n in networks ==> n.HasTopology(networkLayerSizes)
      ensures Valid() && !hasStarted && !sortedScores
      ensures this.taskClass == taskClass && this.networks == networks
      ensures this.networkLayerSizes == networkLayerSizes
    {
      this.taskClass := taskClass;
      this.networks := networks;
      this.networkLayerSizes := networkLayerSizes;
      scores := [];
      hasStarted := false;
      sortedScores := false;
    }

    /** start, with the tasks run to completion: a second start throws;
        otherwise the scores are the pairs the tasks reported, one per
        network, in the order they finished. */
    method Start(finished: seq<Scored>) returns (o: Outcome)
      requires Valid()
      requires multiset(NetworksOf(finished)) == multiset(networks)
      modifies this
      ensures Valid()
      ensures old(hasStarted) ==> o == Fail(AlreadyStarted) && unchanged(this)
      ensures !old(hasStarted) ==> o == Pass && hasStarted && scores == finished && sortedScores == old(sortedScores)
    {
      if hasStarted {
        return Fail(AlreadyStarted);
      }
      NetworksOfMembers(finished);
      assert |finished| == |networks| by {
        assert |multiset(NetworksOf(finished))| == |multiset(networks)|;
      }
      forall x | x in finished
        ensures x.network.HasTopology(networkLayerSizes)
      {
        assert x.network in multiset(networks);
      }
      hasStarted := true;
      scores := finished;
      o := Pass;
    }

    /** sortScores: sorts once, highest score first; a later call changes
        nothing. Sorting waits for every task, so the population must have
        started (or be empty). */
    method SortScores()
      requires Valid() && (hasStarted || |networks| == 0)
      modifies this
      ensures Valid() && sortedScores && hasStarted == old(hasStarted)
      ensures scores == SortByScore(old(scores))
    {
      if sortedScores {
        SortedIsFixed(scores);
        return;
      }
      SortSorts(scores);
      SortPermutes(scores);
      SortKeepsNetworks(scores);
      forall x | x in SortByScore(scores)
        ensures x in scores
      {
        assert x in multiset(SortByScore(scores));
      }
      scores := SortByScore(scores);
      sortedScores := true;
    }

    /** getHighestScore: the score at rank 0, the highest of all; an empty
        score list makes the unboxing of `null` throw. */
    method HighestScore() returns (r: Result<real>)
      requires Valid() && (hasStarted || |networks| == 0)
      modifies this
      ensures Valid() && sortedScores && hasStarted == old(hasStarted)
      ensures scores == SortByScore(old(scores))
      ensures r.Ok? <==> |networks| > 0
      ensures r.Err? ==> r.error == NoScores
      ensures r.Ok? ==> exists x :: x in old(scores) && x.score == r.value
      ensures r.Ok? ==> forall x :: x in old(scores) ==> r.value >= x.score
    {
      SortScores();
      if |scores| == 0 {
        return Err(NoScores);
      }
      HighestFirst(old(scores));
      r := Ok(scores[0].score);
    }

    /** getNetworkByRank: the network at position `rank` of the sorted
        scores; a rank outside the list throws. */
    method GetNetworkByRank(rank: int) returns (r: Result<Network>)
      requires Valid() && (hasStarted || |networks| == 0)
      modifies this
      ensures Valid() && sortedScores && hasStarted == old(hasStarted)
      ensures scores == SortByScore(old(scores))
      ensures r.Ok? <==> 0 <= rank < |scores|
      ensures r.Err? ==> r.error == IndexOutOfRange
      ensures r.Ok? ==> r.value == scores[rank].network
    {
      SortScores();
      if rank < 0 || rank >= |scores| {
        return Err(IndexOutOfRange);
      }
      r := Ok(scores[rank].network);
    }

    /** createNextGeneration: ranks the scores, then fills a new array of
        `numberOfNetworks` slots with the kept, cloned, bred and fresh
        networks, in that order; it fails as `NextGenerationOutcome` says and
        otherwise returns the population `NextNetworks` describes. */
    method CreateNextGeneration(p: Policy, draws: nat -> SlotDraws) returns (r: Result<Generation>)
      requires Valid() && (hasStarted || |networks| == 0)
      modifies this
      ensures Valid() && sortedScores && hasStarted == old(hasStarted)
      ensures scores == SortByScore(old(scores))
      ensures var outcome := NextGenerationOutcome(|networks|, networkLayerSizes, p);
        && (r.Ok? <==> outcome == Pass)
        && (r.Err? ==> outcome == Fail(r.error))
      ensures r.Ok? ==>
        && fresh(r.value) && r.value.Valid() && !r.value.hasStarted
        && r.value.taskClass == taskClass && r.value.networkLayerSizes == networkLayerSizes
        && NextGenerationOutcome(|scores|, networkLayerSizes, p) == Pass
        && r.value.networks == NextNetworks(scores, networkLayerSizes, p, draws)
    {
      SortScores();
      ghost var ranked := scores;
      SortedIsFixed(ranked);
      assert |ranked| == |networks|;
      if p.numberOfNetworks < 0 {
        return Err(NegativeArraySize);
      }
      var slots := new Network[p.numberOfNetworks];
      ghost var slot := PlanOf(ranked, networkLayerSizes, p, draws);
      var o, built := KeepBest(slots, p, draws, ranked, slot);
      if o.Fail? {
        return Err(o.error);
      }
      o, built := CloneBest(slots, p, draws, ranked, slot, built);
      if o.Fail? {
        return Err(o.error);
      }
      o, built := BreedKept(slots, p, draws, ranked, slot, built);
      if o.Fail? {
        return Err(o.error);
      }
      o, built := FillFresh(slots, networkLayerSizes, p, draws, ranked, slot, built);
      if o.Fail? {
        return Err(o.error);
      }
      BuiltIsNext(ranked, networkLayerSizes, p, draws, slot, built);
      var next := new Generation.Create(taskClass, slots[..], networkLayerSizes);
      r := Ok(next);
    }

    /** The keep loop of createNextGeneration: slot `i` gets rank `i`. */
    method KeepBest(slots: array<Network>, p: Policy, draws: nat -> SlotDraws,
                    ghost ranked: seq<Scored>, ghost slot: nat -> Network)
      returns (o: Outcome, ghost built: seq<Network>)
      requires Valid() && sortedScores && scores == ranked && SortByScore(ranked) == ranked
      requires Plans(slot, ranked, networkLayerSizes, p, draws)
      requires slots.Length == p.numberOfNetworks
      modifies this, slots
      ensures Valid() && sortedScores && scores == ranked && hasStarted == old(hasStarted)
      ensures o.Pass? <==> Count(p.keep) <= |ranked| && Count(p.keep) <= slots.Length
      ensures o.Fail? ==> o.error == IndexOutOfRange
      ensures o.Pass? ==> |built| == Count(p.keep) && slots[..|built|] == built
      ensures o.Pass? ==> Built(slot, built)
    {
      built := [];
      var index := 0;
      var i := 0;
      while i < p.keep
        invariant 0 <= i <= Count(p.keep) && index == i && i <= |ranked| && index <= slots.Length
        invariant Valid() && sortedScores && scores == ranked && hasStarted == old(hasStarted)
        invariant |built| == index && slots[..index] == built
        invariant Built(slot, built)
      {
        var rank := GetNetworkByRank(i);
        if rank.Err? {
          return Fail(rank.error), built;
        }
        if index >= slots.Length {
          return Fail(IndexOutOfRange), built;
        }
        KeptPlanned(ranked, networkLayerSizes, p, draws, slot, i);
        Extend(slot, built, rank.value);
        Place(slots, index, rank.value);
        built := built + [rank.value];
        index, i := index + 1, i + 1;
      }
      o := Pass;
    }

    /** The clone loop of createNextGeneration: slot `keep + i` gets a
        mutated copy of rank `i`. */
    method CloneBest(slots: array<Network>, p: Policy, draws: nat -> SlotDraws,
                     ghost ranked: seq<Scored>, ghost slot: nat -> Network, ghost built0: seq<Network>)
      returns (o: Outcome, ghost built: seq<Network>)
      requires Valid() && sortedScores && scores == ranked && SortByScore(ranked) == ranked
      requires slots.Length == p.numberOfNetworks && Count(p.keep) <= |ranked|
      requires |built0| == Count(p.keep) <= slots.Length && slots[..|built0|] == built0
      requires Plans(slot, ranked, networkLayerSizes, p, draws) && Built(slot, built0)
      modifies this, slots
      ensures Valid() && sortedScores && scores == ranked && hasStarted == old(hasStarted)
      ensures o.Pass? <==> Count(p.clone) <= |ranked| && Count(p.keep) + Count(p.clone) <= slots.Length
      ensures o.Fail? ==> o.error == IndexOutOfRange
      ensures o.Pass? ==> |built| == Count(p.keep) + Count(p.clone) && slots[..|built|] == built
      ensures o.Pass? ==> Built(slot, built)
    {
      built := built0;
      var index := Count(p.keep);
      var i := 0;
      while i < p.clone
        invariant 0 <= i <= Count(p.clone) && index == Count(p.keep) + i && i <= |ranked| && index <= slots.Length
        invariant Valid() && sortedScores && scores == ranked && hasStarted == old(hasStarted)
        invariant |built| == index && slots[..index] == built
        invariant Built(slot, built)
      {
        var rank := GetNetworkByRank(i);
        if rank.Err? {
          return Fail(rank.error), built;
        }
        var child := CloneFor(ranked, networkLayerSizes, p, draws, slot, built, index, rank.value);
        if index >= slots.Length {
          return Fail(IndexOutOfRange), built;
        }
        Place(slots, index, child);
        built := built + [child];
        index, i := index + 1, i + 1;
      }
      o := Pass;
    }

    /** The breed loop of createNextGeneration: slot `keep + clone + i` gets
        the child of two ranks drawn with `nextInt(keep)`, which throws for a
        bound of 0 or less. */
    method BreedKept(slots: array<Network>, p: Policy, draws: nat -> SlotDraws,
                     ghost ranked: seq<Scored>, ghost slot: nat -> Network, ghost built0: seq<Network>)
      returns (o: Outcome, ghost built: seq<Network>)
      requires Valid() && sortedScores && scores == ranked && SortByScore(ranked) == ranked
      requires slots.Length == p.numberOfNetworks && Count(p.keep) <= |ranked| && Count(p.clone) <= |ranked|
      requires |built0| == Count(p.keep) + Count(p.clone) <= slots.Length && slots[..|built0|] == built0
      requires Plans(slot, ranked, networkLayerSizes, p, draws) && Built(slot, built0)
      modifies this, slots
      ensures Valid() && sortedScores && scores == ranked && hasStarted == old(hasStarted)
      ensures o.Pass? <==> (Count(p.breed) > 0 ==> p.keep > 0) && Filled(p) <= slots.Length
      ensures o.Fail? ==> o.error == if Count(p.breed) > 0 && p.keep <= 0 then NonPositiveBound else IndexOutOfRange
      ensures o.Pass? ==> |built| == Filled(p) && slots[..|built|] == built
      ensures o.Pass? ==> Built(slot, built)
    {
      built := built0;
      var index := Count(p.keep) + Count(p.clone);
      var i := 0;
      while i < p.breed
        invariant 0 <= i <= Count(p.breed) && index == Count(p.keep) + Count(p.clone) + i && index <= slots.Length
        invariant i > 0 ==> p.keep > 0
        invariant Valid() && sortedScores && scores == ranked && hasStarted == old(hasStarted)
        invariant |built| == index && slots[..index] == built
        invariant Built(slot, built)
      {
        if p.keep <= 0 {
          return Fail(NonPositiveBound), built;
        }
        var d := draws(index);
        var first := GetNetworkByRank(d.parent1 % p.keep);
        var second := GetNetworkByRank(d.parent2 % p.keep);
        var child := ChildFor(ranked, networkLayerSizes, p, draws, slot, built, index, first.value, second.value);
        if index >= slots.Length {
          return Fail(IndexOutOfRange), built;
        }
        Place(slots, index, child);
        built := built + [child];
        index, i := index + 1, i + 1;
      }
      o := Pass;
    }

    /** createGenerationWithRandomNetworks: `numberOfNetworks` fresh random
        networks; a negative count or, when there is a network to build, an
        invalid list of sizes throws. */
    static method CreateGenerationWithRandomNetworks(taskClass: TaskClass, numberOfNetworks: int,
                                                     networkLayerSizes: seq<int>, draws: nat -> SlotDraws)
      returns (r: Result<Generation>)
      ensures r.Ok? <==> numberOfNetworks >= 0 && (numberOfNetworks > 0 ==> ValidSizes(networkLayerSizes))
      ensures r.Err? && numberOfNetworks < 0 ==> r.error == NegativeArraySize
      ensures r.Err? && numberOfNetworks >= 0 ==> r.error == SizesError(networkLayerSizes)
      ensures r.Ok? ==>
        && fresh(r.value) && r.value.Valid() && !r.value.hasStarted
        && r.value.taskClass == taskClass && r.value.networkLayerSizes == networkLayerSizes
        && r.value.networks == RandomNetworks(networkLayerSizes, numberOfNetworks, draws)
    {
      if numberOfNetworks < 0 {
        return Err(NegativeArraySize);
      }
      var slots := new Network[numberOfNetworks];
      var i := 0;
      while i < slots.Length
        invariant 0 <= i <= slots.Length
        invariant i > 0 ==> ValidSizes(networkLayerSizes)
        invariant forall j :: 0 <= j < i ==> slots[j] == FreshNetwork(networkLayerSizes, draws(j).init)
      {
        var network := NewNetwork(networkLayerSizes, RandomInit, draws(i).init);
        TopologyOutcome(networkLayerSizes, RandomInit, draws(i).init);
        if network.Err? {
          return Err(network.error);
        }
        slots[i] := network.value;
        i := i + 1;
      }
      assert slots[..] == RandomNetworks(networkLayerSizes, numberOfNetworks, draws);
      var generation := new Generation.Create(taskClass, slots[..], networkLayerSizes);
      r := Ok(generation);
    }
  }
}

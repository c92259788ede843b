/** The driver (GeneticAlgorithm.java): a fixed configuration checked once
    by the constructor, and a loop of generations. Each generation notifies
    the listeners, creates a population (random the first time, derived from
    the current generation afterwards), lets every task score its network,
    raises the best score seen so far and notifies the listeners again. */
module Driver {
  import opened Results
  import opened Draws
  import opened Networks
  import opened Ranking
  import opened Generations

  datatype Option<T> = None | Some(value: T)

  /** A registered listener, known by its identity only. */
  type ListenerId = nat

  datatype Event = GenerationStart | GenerationEnd

  /** One callback made on a listener. */
  datatype Notice = Notice(listener: ListenerId, event: Event)

  /** The callbacks one trigger loop makes: one per listener, in registration order. */
  function Broadcast(listeners: seq<ListenerId>, event: Event): seq<Notice> {
    seq(|listeners|, i requires 0 <= i < |listeners| => Notice(listeners[i], event))
  }

  /** Regrouping a log of callbacks. Stated once, for sequences of callbacks
      only, so that the loop of `RunGenerations` need not prove it afresh on
      every path. */
  lemma AppendAssociates(a: seq<Notice>, b: seq<Notice>, c: seq<Notice>)
    ensures a + b + c == a + (b + c)
  {
  }

  /** The callbacks of `rounds` complete generations. */
  function Rounds(listeners: seq<ListenerId>, rounds: nat): seq<Notice> {
    if rounds == 0 then []
    else Rounds(listeners, rounds - 1) + Broadcast(listeners, GenerationStart) + Broadcast(listeners, GenerationEnd)
  }

  // ---------------------------------------------------------------------------
  // Scores
  // ---------------------------------------------------------------------------

  function Pow2(n: nat): (r: nat)
    ensures r >= 1
  {
    if n == 0 then 1 else 2 * Pow2(n - 1)
  }

  /** `Double.MIN_VALUE`: the smallest positive double, 2^-1074. */
  const MinPositiveDouble: real := 1.0 / (Pow2(1074) as real)

  lemma MinPositiveDoubleIsPositive()
    ensures MinPositiveDouble > 0.0
  {
    var d := Pow2(1074) as real;
    assert d >= 1.0;
    assert MinPositiveDouble * d == 1.0;
  }

  /** `Math.max` on two scores. */
  function Max(a: real, b: real): (m: real)
    ensures m >= a && m >= b
    ensures m == a || m == b
  {
    if a >= b then a else b
  }

  /** The best score of any generation after generations whose own best
      scores were `bests`, starting from `start`. */
  function RunningBest(start: real, bests: seq<real>): real
    decreases |bests|
  {
    if bests == [] then start else RunningBest(Max(start, bests[0]), bests[1..])
  }

  /** The running best never falls below its start or below any generation's
      best, and it is one of them. */
  lemma {:induction false} RunningBestBounds(start: real, bests: seq<real>)
    ensures RunningBest(start, bests) >= start
    ensures forall i :: 0 <= i < |bests| ==> RunningBest(start, bests) >= bests[i]
    ensures RunningBest(start, bests) == start || RunningBest(start, bests) in bests
    decreases |bests|
  {
    if bests != [] {
      var next := Max(start, bests[0]);
      RunningBestBounds(next, bests[1..]);
      forall i | 0 <= i < |bests|
        ensures RunningBest(start, bests) >= bests[i]
      {
        if i > 0 {
          assert bests[i] == bests[1..][i - 1];
        }
      }
      if RunningBest(start, bests) != next {
        assert RunningBest(start, bests) in bests[1..];
      }
    }
  }

  /** One more generation raises the running best to its own best score at most. */
  lemma {:induction false} RunningBestAppend(start: real, bests: seq<real>, best: real)
    ensures RunningBest(start, bests + [best]) == Max(RunningBest(start, bests), best)
    decreases |bests|
  {
    if bests != [] {
      assert (bests + [best])[1..] == bests[1..] + [best];
      RunningBestAppend(Max(start, bests[0]), bests[1..], best);
    } else {
      assert ([best])[1..] == [];
    }
  }

  /** Starting from `Double.MIN_VALUE`, generations that score nothing above 0
      leave the reported best at `Double.MIN_VALUE`, a positive number. */
  lemma NonPositiveScoresReportMinimum(bests: seq<real>)
    requires forall i :: 0 <= i < |bests| ==> bests[i] <= 0.0
    ensures RunningBest(MinPositiveDouble, bests) == MinPositiveDouble > 0.0
  {
    MinPositiveDoubleIsPositive();
    RunningBestBounds(MinPositiveDouble, bests);
  }

  // ---------------------------------------------------------------------------
  // The quota check of the constructor
  // ---------------------------------------------------------------------------

  predicate Int32(x: int) {
    -0x8000_0000 <= x < 0x8000_0000
  }

  /** Java `int` arithmetic: the result wraps around modulo 2^32. */
  function Wrap32(x: int): (r: int)
    ensures Int32(r) && (r - x) % 0x1_0000_0000 == 0
    ensures Int32(x) ==> r == x
  {
    (x + 0x8000_0000) % 0x1_0000_0000 - 0x8000_0000
  }

  /** The constructor's check as written: the sum of the three quotas is an
      `int` and can wrap around to a negative number. */
  predicate QuotasRejectedAsWritten(keep: int, clone: int, breed: int, numberOfNetworks: int)
    requires Int32(keep) && Int32(clone) && Int32(breed) && Int32(numberOfNetworks)
  {
    Wrap32(Wrap32(keep + clone) + breed) > numberOfNetworks
  }

  /** The check as intended: more networks passed on than there are slots. */
  predicate QuotasExceed(keep: int, clone: int, breed: int, numberOfNetworks: int) {
    keep + clone + breed > numberOfNetworks
  }

  /** Without overflow the check as written is the check as intended. */
  lemma AsWrittenAgreesWithoutOverflow(keep: int, clone: int, breed: int, numberOfNetworks: int)
    requires Int32(keep) && Int32(clone) && Int32(breed) && Int32(numberOfNetworks)
    requires Int32(keep + clone) && Int32(keep + clone + breed)
    ensures QuotasRejectedAsWritten(keep, clone, breed, numberOfNetworks) == QuotasExceed(keep, clone, breed, numberOfNetworks)
  {
  }

  /** The wrap-around lets through a keep quota far larger than the
      population; every generation derived under it throws. */
  lemma QuotaSumOverflows(sizes: seq<int>, rate: real)
    ensures !QuotasRejectedAsWritten(0x7FFF_FFFF, 1, 0, 10)
    ensures QuotasExceed(0x7FFF_FFFF, 1, 0, 10)
    ensures NextGenerationOutcome(10, sizes, Policy(10, 0x7FFF_FFFF, 1, 0, rate)) == Fail(IndexOutOfRange)
  {
    assert Wrap32(0x7FFF_FFFF + 1) == -0x8000_0000;
  }

  /** Quotas that pass the intended check fit in the population. */
  lemma QuotasFitPopulation(p: Policy)
    requires !QuotasExceed(p.keep, p.clone, p.breed, p.numberOfNetworks)
    requires p.keep >= 0 && p.clone >= 0 && p.breed >= 0
    ensures Filled(p) <= p.numberOfNetworks
    ensures Count(p.keep) <= p.numberOfNetworks && Count(p.clone) <= p.numberOfNetworks
  {
  }

  /** What creating the population of the next generation throws: a random
      population the first time (`previous` is `None`), afterwards the
      population derived from the `previous` networks. */
  function CreationOutcome(previous: Option<nat>, sizes: seq<int>, p: Policy): Outcome {
    match previous
    case None =>
      if p.numberOfNetworks < 0 then Fail(NegativeArraySize)
      else if p.numberOfNetworks > 0 && !ValidSizes(sizes) then Fail(SizesError(sizes))
      else Pass
    case Some(n) => NextGenerationOutcome(n, sizes, p)
  }

  /** A driver that passed the intended check, with non-negative quotas,
      valid sizes, a population to score and a network to breed from, never
      throws while creating a generation. */
  lemma ConfiguredCreationPasses(sizes: seq<int>, p: Policy)
    requires !QuotasExceed(p.keep, p.clone, p.breed, p.numberOfNetworks)
    requires p.keep >= 0 && p.clone >= 0 && p.breed >= 0 && (p.breed > 0 ==> p.keep > 0)
    requires ValidSizes(sizes) && p.numberOfNetworks > 0
    ensures CreationOutcome(None, sizes, p) == Pass
    ensures CreationOutcome(Some(p.numberOfNetworks), sizes, p) == Pass
  {
    QuotasFitPopulation(p);
  }

  /** The tasks of a generation report one (network, score) pair per
      network, in the order they finish. */
  ghost predicate Evaluates(evaluate: seq<Network> -> seq<Scored>) {
    forall networks :: multiset(NetworksOf(evaluate(networks))) == multiset(networks)
  }

  class GeneticAlgorithm {
    const taskClass: TaskClass
    const networkLayerSizes: seq<int>
    const numberOfNetworks: int
    const numberToKeepBetweenGenerations: int
    const numberToCloneBetweenGenerations: int
    const numberToBreedBetweenGenerations: int
    const mutationRate: real
    var listeners: seq<ListenerId>
    var currentGeneration: Generation?
    var currentGenerationNumber: int
    var highestScoreOfAnyGeneration: real
    /** Every callback made on a listener so far, in order. */
    var notices: seq<Notice>

    /** The arguments every derived generation is created with. */
    function Quotas(): Policy {
      Policy(numberOfNetworks, numberToKeepBetweenGenerations, numberToCloneBetweenGenerations,
             numberToBreedBetweenGenerations, mutationRate)
    }

    /** The invariant between two generations, except that the current
        generation may not have been started yet. */
    ghost predicate Settled()
      reads this, currentGeneration
    {
      && !QuotasExceed(numberToKeepBetweenGenerations, numberToCloneBetweenGenerations,
                       numberToBreedBetweenGenerations, numberOfNetworks)
      && currentGenerationNumber >= 0
      && highestScoreOfAnyGeneration >= MinPositiveDouble
      && (currentGeneration != null ==>
            && currentGeneration.Valid()
            && currentGeneration.taskClass == taskClass
            && currentGeneration.networkLayerSizes == networkLayerSizes
            && |currentGeneration.networks| == numberOfNetworks)
    }

    /** The quotas passed the check, the best score is at least
        `Double.MIN_VALUE`, and the current generation (once there is one)
        has this driver's task class and sizes, a full population and has
        been started. */
    ghost predicate Valid()
      reads this, currentGeneration
    {
      Settled() && (currentGeneration != null ==> currentGeneration.hasStarted)
    }

    constructor Init(taskClass: TaskClass, networkLayerSizes: seq<int>, numberOfNetworks: int,
                     keep: int, clone: int, breed: int, mutationRate: real)
      requires !QuotasExceed(keep, clone, breed, numberOfNetworks)
      ensures Valid()
      ensures this.taskClass == taskClass && this.networkLayerSizes == networkLayerSizes
      ensures this.numberOfNetworks == numberOfNetworks && this.mutationRate == mutationRate
      ensures numberToKeepBetweenGenerations == keep && numberToCloneBetweenGenerations == clone
      ensures numberToBreedBetweenGenerations == breed
      ensures listeners == [] && notices == [] && currentGeneration == null
      ensures currentGenerationNumber == 0 && highestScoreOfAnyGeneration == MinPositiveDouble
    {
      this.taskClass := taskClass;
      this.networkLayerSizes := networkLayerSizes;
      this.numberOfNetworks := numberOfNetworks;
      numberToKeepBetweenGenerations := keep;
      numberToCloneBetweenGenerations := clone;
      numberToBreedBetweenGenerations := breed;
      this.mutationRate := mutationRate;
      listeners := [];
      notices := [];
      currentGeneration := null;
      currentGenerationNumber := 0;
      highestScoreOfAnyGeneration := MinPositiveDouble;
    }

    /** The public constructor: quotas adding up to more than the population
        throw an IllegalArgumentException. */
    static method New(taskClass: TaskClass, networkLayerSizes: seq<int>, numberOfNetworks: int,
                      keep: int, clone: int, breed: int, mutationRate: real)
      returns (r: Result<GeneticAlgorithm>)
      ensures r.Ok? <==> !QuotasExceed(keep, clone, breed, numberOfNetworks)
      ensures r.Err? ==> r.error == QuotasExceedPopulation
      ensures r.Ok? ==>
        && fresh(r.value) && r.value.Valid()
        && r.value.taskClass == taskClass && r.value.networkLayerSizes == networkLayerSizes
        && r.value.Quotas() == Policy(numberOfNetworks, keep, clone, breed, mutationRate)
        && r.value.listeners == [] && r.value.notices == [] && r.value.currentGeneration == null
        && r.value.currentGenerationNumber == 0 && r.value.highestScoreOfAnyGeneration == MinPositiveDouble
    {
      if QuotasExceed(keep, clone, breed, numberOfNetworks) {
        return Err(QuotasExceedPopulation);
      }
      MinPositiveDoubleIsPositive();
      var ga := new GeneticAlgorithm.Init(taskClass, networkLayerSizes, numberOfNetworks, keep, clone, breed, mutationRate);
      r := Ok(ga);
    }

    method AddListener(listener: ListenerId)
      modifies this
      ensures listeners == old(listeners) + [listener]
      ensures notices == old(notices) && currentGeneration == old(currentGeneration)
      ensures currentGenerationNumber == old(currentGenerationNumber)
      ensures highestScoreOfAnyGeneration == old(highestScoreOfAnyGeneration)
    {
      listeners := listeners + [listener];
    }

    /** triggerListenersOnGenerationStart / triggerListenersOnGenerationEnd:
        every listener, in registration order, receives the event. */
    method TriggerListeners(event: Event)
      modifies this
      ensures notices == old(notices) + Broadcast(listeners, event)
      ensures listeners == old(listeners) && currentGeneration == old(currentGeneration)
      ensures currentGenerationNumber == old(currentGenerationNumber)
      ensures highestScoreOfAnyGeneration == old(highestScoreOfAnyGeneration)
    {
      var i := 0;
      while i < |listeners|
        invariant 0 <= i <= |listeners|
        invariant notices == old(notices) + Broadcast(listeners[..i], event)
        invariant listeners == old(listeners) && currentGeneration == old(currentGeneration)
        invariant currentGenerationNumber == old(currentGenerationNumber)
        invariant highestScoreOfAnyGeneration == old(highestScoreOfAnyGeneration)
      {
        assert Broadcast(listeners[..i + 1], event) == Broadcast(listeners[..i], event) + [Notice(listeners[i], event)];
        notices := notices + [Notice(listeners[i], event)];
        i := i + 1;
      }
      assert listeners[..i] == listeners;
    }

    /** The private createNextGeneration: a random population the first
        time, afterwards the population derived from the current generation
        with the configured quotas and rate. */
    method CreateNextGeneration(draws: nat -> SlotDraws) returns (o: Outcome)
      requires Valid()
      modifies this, currentGeneration
      ensures Settled()
      ensures listeners == old(listeners) && notices == old(notices)
      ensures currentGenerationNumber == old(currentGenerationNumber)
      ensures highestScoreOfAnyGeneration == old(highestScoreOfAnyGeneration)
      ensures o == CreationOutcome(if old(currentGeneration) == null then None else Some(|old(currentGeneration).networks|),
                                   networkLayerSizes, Quotas())
      ensures o.Fail? ==> currentGeneration == old(currentGeneration) && Valid()
      ensures o.Pass? ==> currentGeneration != null && fresh(currentGeneration) && !currentGeneration.hasStarted
      ensures o.Pass? && old(currentGeneration) == null ==>
        currentGeneration.networks == RandomNetworks(networkLayerSizes, numberOfNetworks, draws)
      ensures o.Pass? && old(currentGeneration) != null ==>
        var previous := old(currentGeneration);
        && previous.Valid() && previous.hasStarted && previous.networkLayerSizes == networkLayerSizes
        && previous.scores == SortByScore(old(currentGeneration.scores))
        && NextGenerationOutcome(|previous.scores|, networkLayerSizes, Quotas()) == Pass
        && currentGeneration.networks == NextNetworks(previous.scores, networkLayerSizes, Quotas(), draws)
    {
      var next: Result<Generation>;
      if currentGeneration == null {
        next := Generation.CreateGenerationWithRandomNetworks(taskClass, numberOfNetworks, networkLayerSizes, draws);
      } else {
        next := currentGeneration.CreateNextGeneration(Quotas(), draws);
      }
      if next.Err? {
        return Fail(next.error);
      }
      currentGeneration := next.value;
      o := Pass;
    }

    /** runGeneration: the generation number goes up, the listeners hear of
        the start, the next population is created, started and scored by
        `evaluate`, the best score seen so far is raised to the
        generation's highest score and the listeners hear of the end. */
    method RunGeneration(evaluate: seq<Network> -> seq<Scored>, draws: nat -> SlotDraws)
      returns (o: Outcome, ghost best: real)
      requires Valid() && Evaluates(evaluate)
      modifies this, currentGeneration
      ensures Valid()
      ensures currentGenerationNumber == old(currentGenerationNumber) + 1
      ensures listeners == old(listeners)
      ensures notices == old(notices) + Broadcast(listeners, GenerationStart)
                         + (if o.Pass? then Broadcast(listeners, GenerationEnd) else [])
      ensures var created := CreationOutcome(if old(currentGeneration) == null then None
                                             else Some(|old(currentGeneration).networks|), networkLayerSizes, Quotas());
        o == if created.Fail? then created else if numberOfNetworks == 0 then Fail(NoScores) else Pass
      ensures o.Fail? ==> highestScoreOfAnyGeneration == old(highestScoreOfAnyGeneration)
      ensures o.Pass? ==>
        && currentGeneration != null && fresh(currentGeneration)
        && |currentGeneration.scores| == numberOfNetworks > 0
        && currentGeneration.scores == SortByScore(evaluate(currentGeneration.networks))
        && (forall x :: x in evaluate(currentGeneration.networks) ==> currentGeneration.scores[0].score >= x.score)
        && best == currentGeneration.scores[0].score
        && highestScoreOfAnyGeneration == Max(old(highestScoreOfAnyGeneration), best)
    {
      best := highestScoreOfAnyGeneration;
      currentGenerationNumber := currentGenerationNumber + 1;
      TriggerListeners(GenerationStart);
      o := CreateNextGeneration(draws);
      if o.Fail? {
        return;
      }
      o := ScoreGeneration(evaluate);
      if o.Fail? {
        return;
      }
      best := currentGeneration.scores[0].score;
      TriggerListeners(GenerationEnd);
    }

    /** The middle of runGeneration: the new generation is started, its
        tasks score every network, and the best score seen so far becomes
        the larger of itself and the generation's highest score. */
    method ScoreGeneration(evaluate: seq<Network> -> seq<Scored>) returns (o: Outcome)
      requires Settled() && currentGeneration != null && !currentGeneration.hasStarted && Evaluates(evaluate)
      modifies this, currentGeneration
      ensures Valid() && currentGeneration == old(currentGeneration)
      ensures listeners == old(listeners) && notices == old(notices)
      ensures currentGenerationNumber == old(currentGenerationNumber)
      ensures o.Pass? <==> numberOfNetworks > 0
      ensures o.Fail? ==> o == Fail(NoScores) && highestScoreOfAnyGeneration == old(highestScoreOfAnyGeneration)
      ensures o.Pass? ==>
        && |currentGeneration.scores| == numberOfNetworks
        && currentGeneration.scores == SortByScore(evaluate(currentGeneration.networks))
        && (forall x :: x in evaluate(currentGeneration.networks) ==> currentGeneration.scores[0].score >= x.score)
        && highestScoreOfAnyGeneration == Max(old(highestScoreOfAnyGeneration), currentGeneration.scores[0].score)
    {
      var generation := currentGeneration;
      var finished := evaluate(generation.networks);
      var started := generation.Start(finished);
      var best := generation.HighestScore();
      if best.Err? {
        return Fail(best.error);
      }
      SortPermutes(finished);
      HighestFirst(finished);
      highestScoreOfAnyGeneration := Max(highestScoreOfAnyGeneration, best.value);
      o := Pass;
    }

    /** runGenerations: `count` generations one after the other; the first
        exception ends the run. `bests` are the highest scores of the
        generations that finished. */
    method RunGenerations(count: int, evaluate: seq<Network> -> seq<Scored>, draws: nat -> nat -> SlotDraws)
      returns (o: Outcome, ghost bests: seq<real>)
      requires Valid() && Evaluates(evaluate)
      modifies this, currentGeneration
      ensures Valid() && listeners == old(listeners)
      ensures o.Pass? ==> |bests| == Count(count)
      ensures o.Fail? ==> |bests| < Count(count)
      ensures currentGenerationNumber == old(currentGenerationNumber) + |bests| + (if o.Pass? then 0 else 1)
      ensures highestScoreOfAnyGeneration == RunningBest(old(highestScoreOfAnyGeneration), bests)
      ensures notices == old(notices) + Rounds(listeners, |bests|)
                         + (if o.Pass? then [] else Broadcast(listeners, GenerationStart))
    {
      bests := [];
      var i := 0;
      while i < count
        invariant 0 <= i <= Count(count) && |bests| == i
        invariant Valid() && listeners == old(listeners)
        invariant currentGenerationNumber == old(currentGenerationNumber) + i
        invariant highestScoreOfAnyGeneration == RunningBest(old(highestScoreOfAnyGeneration), bests)
        invariant notices == old(notices) + Rounds(listeners, i)
        invariant currentGeneration == old(currentGeneration) || fresh(currentGeneration)
      {
        ghost var best;
        o, best := RunGeneration(evaluate, draws(i));
        if o.Fail? {
          AppendAssociates(old(notices), Rounds(listeners, i), Broadcast(listeners, GenerationStart));
          return;
        }
        RunningBestAppend(old(highestScoreOfAnyGeneration), bests, best);
        AppendAssociates(old(notices), Rounds(listeners, i), Broadcast(listeners, GenerationStart));
        AppendAssociates(old(notices), Rounds(listeners, i) + Broadcast(listeners, GenerationStart),
                         Broadcast(listeners, GenerationEnd));
        bests := bests + [best];
        i := i + 1;
      }
      o := Pass;
    }
  }

  /** Between runs the best score never falls, and it never falls below
      `Double.MIN_VALUE`. */
  lemma BestScoreNeverFalls(start: real, bests: seq<real>, more: seq<real>)
    requires start >= MinPositiveDouble
    ensures RunningBest(start, bests) >= start >= MinPositiveDouble
    ensures RunningBest(start, bests + more) >= RunningBest(start, bests)
  {
    RunningBestBounds(start, bests);
    RunningBestSplit(start, bests, more);
    RunningBestBounds(RunningBest(start, bests), more);
  }

  lemma {:induction false} RunningBestSplit(start: real, bests: seq<real>, more: seq<real>)
    ensures RunningBest(start, bests + more) == RunningBest(RunningBest(start, bests), more)
    decreases |bests|
  {
    if bests != [] {
      assert (bests + more)[1..] == bests[1..] + more;
      RunningBestSplit(Max(start, bests[0]), bests[1..], more);
    } else {
      assert bests + more == more;
    }
  }
}

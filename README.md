# jnn: feed-forward networks trained by a genetic algorithm

jnn is a small Java library. It evolves feed-forward neural networks with a
genetic algorithm. This project models its core in Dafny:

- **Networks** (`networks.dfy`, `NeuralNetwork.java`). A network is an input
  size plus a list of active layers. Each layer holds a weight matrix and a
  bias vector. A network is built in one of two ways:
  - from layer sizes, with zero or random parameters;
  - from per-layer matrices, after checking that consecutive layers fit.

  Feeding a column of inputs forward multiplies it by each layer's weights and
  adds that layer's biases. Networks never change after construction, so they
  are values. The constructors and the forward pass are methods with loops,
  and each is proved equal to a reference function.
- **Matrices** (`matrices.dfy`). These model the parts of EJML's
  `SimpleMatrix` that the core calls:
  - the zero matrix, the product and the sum;
  - refusal of mismatched shapes.

  A `Matrix` value stands for an immutable matrix. An `array2<real>` stands
  for a matrix the Java edits in place.
- **Random draws** (`draws.dfy`). Every `Random.nextDouble` becomes a value
  read from a function parameter, indexed by layer, part, row and column.
  `Uniform` states that every draw lies in [0, 1).
- **The stand-alone layer** (`layer.dfy`, `Layer.java`). It is a class over
  two arrays. Its `activate` rewrites column 0 in place.
- **The mutator** (`mutator.dfy`, `NeuralNetworkMutator.java`). It is a class
  holding private, unshared copies of a network's matrices.
  - `mutate` redraws each cell whose coin falls below the rate.
  - `crossoverWith` replaces each matrix with a child that takes every cell
    from one parent or the other.
  - `getNetwork` rebuilds a network from the current matrices.

  The model proves that both operations keep the topology, that a rate of 0
  changes nothing, and that crossing a network with itself gives it back.
- **Ranking** (`ranking.dfy`). `sortScores` orders (network, score) pairs with
  a stable library sort, highest score first. `SortByScore` is a reference
  insertion sort with the same order. The model proves that it sorts, that it
  permutes, that it is stable and that it is idempotent.
- **Generations** (`generation.dfy`, `Generation.java`). A population is
  started once and then scored. From the ranking, the next population is
  built in a new array:
  1. the best networks are kept;
  2. the best networks are cloned and mutated;
  3. children of two kept networks drawn at random are bred;
  4. fresh random networks fill the rest.

  `NextSlot` defines what each slot receives. `NextNetworks` defines the whole
  population, and `NextGenerationOutcome` defines the exception the loops
  throw, in the order they meet them.
- **The driver** (`genetic_algorithm.dfy`, `GeneticAlgorithm.java`). It checks
  the quotas once. Each round it:
  1. numbers the generation;
  2. tells every listener of the start;
  3. creates a random first population or a derived one;
  4. scores the population;
  5. raises the best score seen so far;
  6. tells every listener of the end.

  Listener calls are logged in order in `notices`. The best score starts at
  `Double.MIN_VALUE`, the smallest positive double. As written, a run whose
  generations all score 0 or less therefore reports that tiny positive value
  and not its real best score (`Driver.NonPositiveScoresReportMinimum`).

Java exceptions, whether explicit `throw`s or raised by the runtime, become
`Err` values of `Results.Error`:
- a negative array size;
- an index past the end;
- `nextInt` of a bound that is not positive;
- a null score unboxed when a generation has no scores.

## Model

| member | source | states |
|---|---|---|
| Matrices.Zero | src/uk/co/marcnorth/jnn/NeuralNetwork.java:180-181 | `new SimpleMatrix(rows, cols)` is a well-formed matrix of that shape whose every entry is 0 |
| Matrices.ToArray | src/uk/co/marcnorth/jnn/NeuralNetwork.java:207-208 | the copy constructor gives a fresh array holding exactly the matrix's entries |
| Matrices.Mult | src/uk/co/marcnorth/jnn/NeuralNetwork.java:214 | the product succeeds exactly when the inner dimensions agree, and then has the left factor's rows and the right factor's columns |
| Matrices.Plus | src/uk/co/marcnorth/jnn/NeuralNetwork.java:214 | the sum succeeds exactly when the shapes agree, and then has that shape and the entrywise sums |
| Matrices.MultByZero | src/uk/co/marcnorth/jnn/NeuralNetwork.java:214 | a product whose left factor is all zeros is defined and all zeros |
| Draws.Scaled | src/uk/co/marcnorth/jnn/NeuralNetwork.java:190 | `nextDouble() * 2 - 1` maps a draw in [0, 1) into [-1, 1) |
| Draws.RandomMatrix | src/uk/co/marcnorth/jnn/NeuralNetwork.java:188-194 | the randomly initialised matrix has the requested shape, and each cell is the scaled draw of its own site |
| Draws.RandomMatrixInRange | src/uk/co/marcnorth/jnn/NeuralNetwork.java:188-194 | with uniform draws every entry of a random matrix lies in [-1, 1) |
| Draws.Randomize | src/uk/co/marcnorth/jnn/NeuralNetwork.java:188-190 | the nested loops leave the array holding exactly the random matrix of its shape |
| Networks.TopologyOutcome | src/uk/co/marcnorth/jnn/NeuralNetwork.java:31-53 | the sizes constructor succeeds exactly on valid sizes. Fewer than two sizes throws TooFewLayers, a non-positive input size throws NonPositiveInputSize, and every other refusal throws its own error. On success, layer `i` has `sizes[i+1] x sizes[i]` weights and a `sizes[i+1] x 1` bias column |
| Networks.TopologyInitialValues | src/uk/co/marcnorth/jnn/NeuralNetwork.java:176-198 | with ZERO every weight and bias is 0. With RANDOM and uniform draws every weight and bias lies in [-1, 1) |
| Networks.NewActiveLayer | src/uk/co/marcnorth/jnn/NeuralNetwork.java:176-198 | the inner layer constructor builds the reference layer: zero matrices, randomised cell by cell under RANDOM |
| Networks.NewNetwork | src/uk/co/marcnorth/jnn/NeuralNetwork.java:31-53 | the checks and the layer loop give exactly the `Topology` result, error included |
| Networks.CheckFromPasses | src/uk/co/marcnorth/jnn/NeuralNetwork.java:68-84 | the per-layer checks from layer `i` pass exactly when every weight matrix takes the previous layer's size and every bias is a vector of the layer's size |
| Networks.FromMatricesOutcome | src/uk/co/marcnorth/jnn/NeuralNetwork.java:55-86 | the matrix constructor succeeds exactly on chained matrices. The network then holds exactly those matrices, its input size is the first weight matrix's column count, and layer size `i + 1` is weight matrix `i`'s row count |
| Networks.AssembleValid | src/uk/co/marcnorth/jnn/NeuralNetwork.java:55-86 | a network assembled from chained matrices is valid, and its weights and biases are those matrices |
| Networks.RebuildRoundTrip | src/uk/co/marcnorth/jnn/NeuralNetwork.java:55-86 | handing a valid network's own matrices to the matrix constructor rebuilds the same network |
| Networks.LayerFrom | src/uk/co/marcnorth/jnn/NeuralNetwork.java:200-210 | the inner layer accepts exactly vector biases, and keeps both matrices with size = weight rows |
| Networks.NewNetworkFromMatrices | src/uk/co/marcnorth/jnn/NeuralNetwork.java:55-86 | the checking loop gives exactly the `FromMatrices` result, error included |
| Networks.WeightsForLayer | src/uk/co/marcnorth/jnn/NeuralNetwork.java:110-114 | the 1-based accessor fails with IndexOutOfRange exactly when no active layer has that index, and otherwise returns a fresh copy of active layer `layerIndex - 1`'s weights |
| Networks.BiasesForLayer | src/uk/co/marcnorth/jnn/NeuralNetwork.java:120-124 | the 1-based accessor fails with IndexOutOfRange exactly when no active layer has that index, and otherwise returns a fresh copy of active layer `layerIndex - 1`'s biases |
| Networks.WeightsForActiveLayer | src/uk/co/marcnorth/jnn/NeuralNetworkMutator.java:70 | the 0-based accessor the mutator calls returns a fresh copy of layer `i`'s weights |
| Networks.BiasesForActiveLayer | src/uk/co/marcnorth/jnn/NeuralNetworkMutator.java:71 | the 0-based accessor the mutator calls returns a fresh copy of layer `i`'s biases |
| Networks.Affine | src/uk/co/marcnorth/jnn/NeuralNetwork.java:212-216 | a layer's `weights.mult(inputs).plus(biases)`, when defined, is a well-formed matrix (its shape is stated by `Networks.ForwardColumn`) |
| Networks.Forward | src/uk/co/marcnorth/jnn/NeuralNetwork.java:142-146 | passing values through the layers in order, when defined, gives a well-formed matrix |
| Networks.FeedForward | src/uk/co/marcnorth/jnn/NeuralNetwork.java:131-150 | the two input checks and the layer loop give exactly the reference output, error included |
| Networks.ForwardColumn | src/uk/co/marcnorth/jnn/NeuralNetwork.java:142-146 | a column the height of layer `from`'s input goes through every later layer without error, and comes out as a column the size of the output layer |
| Networks.FeedForwardShape | src/uk/co/marcnorth/jnn/NeuralNetwork.java:131-150 | feedForward succeeds exactly on a column of `inputSize` rows, and then returns a column the size of the output layer |
| Networks.ForwardOfZeroLayers | src/uk/co/marcnorth/jnn/NeuralNetwork.java:142-146 | layers whose parameters are all zero map any fitting column to the zero column |
| Networks.ZeroNetworkOutputsZero | src/uk/co/marcnorth/jnn/NeuralNetwork.java:25-29 | a network built with the default ZERO initialisation maps every valid input to the zero column of the output size |
| Layers.Activated | src/uk/co/marcnorth/jnn/Layer.java:52-56 | the reference definition of what `activate` leaves behind: the same shape, column 0 mapped through the activation and every other cell as it was. Its contract states only the shape; the cell values are its definition, which `Layers.Layer.Activate`'s loop is proved to produce |
| Layers.Layer.New | src/uk/co/marcnorth/jnn/Layer.java:14-19 | fails with NegativeMatrixSize exactly when a dimension is negative. Otherwise it gives fresh `numNodes x previous` weights and `numNodes x 1` biases: zero, or random draws under RANDOM |
| Layers.Layer.Sized | src/uk/co/marcnorth/jnn/Layer.java:15-18 | with natural dimensions: fresh `numNodes x previous` weights and `numNodes x 1` biases, zero or randomised cell by cell under RANDOM |
| Layers.Layer.Copying | src/uk/co/marcnorth/jnn/Layer.java:24-25 | the layer's matrices are fresh copies of the arguments |
| Layers.Layer.FromMatrices | src/uk/co/marcnorth/jnn/Layer.java:21-26 | fails with BiasesNotVector exactly when the biases are not a vector, and otherwise holds fresh copies of both matrices |
| Layers.Layer.InitializeRandomParameters | src/uk/co/marcnorth/jnn/Layer.java:28-38 | the weights, then the biases, hold exactly the random matrices of their shapes |
| Layers.Layer.GetWeights | src/uk/co/marcnorth/jnn/Layer.java:40-42 | returns the layer's own weight matrix, not a copy |
| Layers.Layer.GetBiases | src/uk/co/marcnorth/jnn/Layer.java:44-46 | returns the layer's own bias matrix, not a copy |
| Layers.Layer.Activate | src/uk/co/marcnorth/jnn/Layer.java:52-56 | rewrites its argument in place to the activated matrix and returns that same object |
| Layers.Layer.FeedForward | src/uk/co/marcnorth/jnn/Layer.java:48-50 | succeeds exactly when the product and the sum are defined and there is a column to activate. It then returns a fresh matrix holding the activated affine value, and leaves the layer's own matrices unchanged |
| Mutators.MutatedMatrix | src/uk/co/marcnorth/jnn/NeuralNetworkMutator.java:58-63 | same shape, and each cell is redrawn into [-1, 1) exactly when its coin falls below the rate, otherwise kept |
| Mutators.MutationKeepsOrRedraws | src/uk/co/marcnorth/jnn/NeuralNetworkMutator.java:58-63 | every entry after mutation is the old entry or a value in [-1, 1) |
| Mutators.NonPositiveRateKeepsMatrix | src/uk/co/marcnorth/jnn/NeuralNetworkMutator.java:61 | a rate of 0 or less never fires, so the matrix is unchanged |
| Mutators.FullRateRedrawsMatrix | src/uk/co/marcnorth/jnn/NeuralNetworkMutator.java:61-62 | a rate of 1 or more always fires, so the result is a fresh random matrix of the same shape |
| Mutators.MutateAll | src/uk/co/marcnorth/jnn/NeuralNetworkMutator.java:51-54 | mutating every layer's matrix keeps the list length, and position `i` is matrix `i` mutated with layer `i`'s draws |
| Mutators.CrossedMatrix | src/uk/co/marcnorth/jnn/NeuralNetworkMutator.java:36-48 | the child has the first parent's shape, and each cell is the first parent's entry when its draw is below 0.5, else the second's |
| Mutators.CrossoverProvenance | src/uk/co/marcnorth/jnn/NeuralNetworkMutator.java:36-48 | every entry of the child is the entry at the same position in one of the two parents |
| Mutators.CrossWithSelf | src/uk/co/marcnorth/jnn/NeuralNetworkMutator.java:36-48 | crossing a matrix with itself gives it back |
| Mutators.CrossAll | src/uk/co/marcnorth/jnn/NeuralNetworkMutator.java:29-32 | crossing list with list keeps the length, and position `i` is the child of the two `i`-th matrices |
| Mutators.SameShapesKeepTopology | src/uk/co/marcnorth/jnn/NeuralNetworkMutator.java:21-23 | matrices shaped like a network's own pass every check of `getNetwork`, and rebuild a network of the same topology holding exactly them |
| Mutators.MutatedNetworkKeepsTopology | src/uk/co/marcnorth/jnn/NeuralNetworkMutator.java:50-56 | mutated matrices rebuild without error into a network of the original topology |
| Mutators.CrossedNetworkKeepsTopology | src/uk/co/marcnorth/jnn/NeuralNetworkMutator.java:25-34 | crossed matrices rebuild without error into a network of the first parent's topology |
| Mutators.SameTopologyCovers | src/uk/co/marcnorth/jnn/NeuralNetworkMutator.java:36-48 | two networks of the same topology can be crossed: each matrix of one fits in the other's |
| Mutators.NonPositiveRateKeepsNetwork | src/uk/co/marcnorth/jnn/NeuralNetworkMutator.java:50-56 | mutation at a rate of 0 or less gives back the very network it started from |
| Mutators.CrossWithSelfKeepsNetwork | src/uk/co/marcnorth/jnn/NeuralNetworkMutator.java:25-34 | breeding a network with itself gives it back |
| Mutators.MutateMatrix | src/uk/co/marcnorth/jnn/NeuralNetworkMutator.java:58-63 | the in-place loop leaves the array holding the mutated matrix of its old contents |
| Mutators.CrossoverMatrices | src/uk/co/marcnorth/jnn/NeuralNetworkMutator.java:36-48 | returns a fresh array holding the crossed matrix of the two parents' contents |
| Mutators.MutateLayer | src/uk/co/marcnorth/jnn/NeuralNetworkMutator.java:52-53 | one pass of the mutate loop mutates the weights, then the biases, of one layer in place |
| Mutators.CrossoverLayer | src/uk/co/marcnorth/jnn/NeuralNetworkMutator.java:30-31 | one pass of the crossover loop gives two distinct fresh children, of the weights and of the biases |
| Mutators.LayerCopies | src/uk/co/marcnorth/jnn/NeuralNetworkMutator.java:70-71 | two distinct fresh copies of one layer's weights and biases |
| Mutators.WeightsAndBiasesFrom | src/uk/co/marcnorth/jnn/NeuralNetworkMutator.java:65-74 | one fresh copy per layer of the weights and of the biases, with no matrix object shared between slots |
| Mutators.Mutator.constructor | src/uk/co/marcnorth/jnn/NeuralNetworkMutator.java:14-19 | the mutator holds unshared copies of exactly the network's weights and biases |
| Mutators.Mutator.GetNetwork | src/uk/co/marcnorth/jnn/NeuralNetworkMutator.java:21-23 | the result is the matrix constructor applied to the current matrices |
| Mutators.Mutator.CrossoverWith | src/uk/co/marcnorth/jnn/NeuralNetworkMutator.java:25-34 | every matrix slot now holds the child of the old matrix and the other network's matrix, and the method returns the mutator itself |
| Mutators.Mutator.Install | src/uk/co/marcnorth/jnn/NeuralNetworkMutator.java:30-31 | the children become the mutator's matrices, and the invariant is kept |
| Mutators.Mutator.Mutate | src/uk/co/marcnorth/jnn/NeuralNetworkMutator.java:50-56 | every matrix is mutated in place, no new objects, and the method returns the mutator itself |
| Mutators.CrossoverLayers | src/uk/co/marcnorth/jnn/NeuralNetworkMutator.java:29-32 | the crossover loop gives, layer by layer, unshared fresh children of each weight and bias pair |
| Mutators.MutateLayers | src/uk/co/marcnorth/jnn/NeuralNetworkMutator.java:51-54 | the mutate loop leaves every matrix holding its mutated value |
| Ranking.NetworksOfMembers | src/uk/co/marcnorth/jnn/Generation.java:130 | the networks of a score list are one per pair, and include every pair's network |
| Ranking.InsertPermutes | src/uk/co/marcnorth/jnn/Generation.java:74-82 | inserting adds exactly the one element |
| Ranking.InsertBelow | src/uk/co/marcnorth/jnn/Generation.java:74-82 | inserting into a list bounded by `b` an element bounded by `b` keeps the list bounded |
| Ranking.InsertSorted | src/uk/co/marcnorth/jnn/Generation.java:74-82 | inserting into a list ordered highest first keeps it ordered |
| Ranking.InsertWithScore | src/uk/co/marcnorth/jnn/Generation.java:74-82 | insertion puts the new element ahead of the existing elements with the same score |
| Ranking.InsertNetworks | src/uk/co/marcnorth/jnn/Generation.java:74-82 | inserting adds exactly the element's network to the networks |
| Ranking.SortSorts | src/uk/co/marcnorth/jnn/Generation.java:74-82 | the sorted list has non-increasing scores (the comparator's order) |
| Ranking.SortPermutes | src/uk/co/marcnorth/jnn/Generation.java:74-82 | the sorted list is a permutation of the original |
| Ranking.SortKeepsNetworks | src/uk/co/marcnorth/jnn/Generation.java:74-82 | sorting neither adds nor drops a network |
| Ranking.SortIsStable | src/uk/co/marcnorth/jnn/Generation.java:74-82 | pairs with equal scores keep their relative order, as in the stable `Collections.sort` |
| Ranking.SortedIsFixed | src/uk/co/marcnorth/jnn/Generation.java:74-82 | an already ordered list is left exactly as it is |
| Ranking.SortIsIdempotent | src/uk/co/marcnorth/jnn/Generation.java:70-84 | sorting twice is sorting once, which is why the `sortedScores` flag may skip later sorts |
| Ranking.HighestFirst | src/uk/co/marcnorth/jnn/Generation.java:65-68 | rank 0 of the sorted list is one of the pairs and has the highest score of all |
| Generations.FreshNetwork | src/uk/co/marcnorth/jnn/Generation.java:121 | a fresh RANDOM network for valid sizes has exactly those sizes |
| Generations.FreshNetworkInRange | src/uk/co/marcnorth/jnn/Generation.java:121 | with uniform draws every weight and bias of a fresh network lies in [-1, 1) |
| Generations.NextSlot | src/uk/co/marcnorth/jnn/Generation.java:99-123 | whatever a slot receives (kept, cloned, bred or fresh), it has the population's topology |
| Generations.PassDefinesSlots | src/uk/co/marcnorth/jnn/Generation.java:95-123 | when createNextGeneration throws nothing, every slot of the new array has a defined content |
| Generations.NextNetworks | src/uk/co/marcnorth/jnn/Generation.java:95-125 | the next population has `numberOfNetworks` networks, all of the population's topology |
| Generations.KeptAreBest | src/uk/co/marcnorth/jnn/Generation.java:99-102 | slot `j` below the keep quota is rank `j`, and it scores at least as high as every network not kept |
| Generations.ZeroRateClonesAreCopies | src/uk/co/marcnorth/jnn/Generation.java:104-109 | at a mutation rate of 0 or less each clone is an exact copy of the rank it came from |
| Generations.ZeroRateCloneIsCopy | src/uk/co/marcnorth/jnn/Generation.java:104-109 | at a mutation rate of 0 or less the clone in slot `j` is the rank `j - keep` network |
| Generations.SingleKeptBreedsCopies | src/uk/co/marcnorth/jnn/Generation.java:111-118 | with a single network kept, every bred child is a copy of the best network |
| Generations.SingleKeptChildIsCopy | src/uk/co/marcnorth/jnn/Generation.java:111-118 | with a single network kept, the child in breed slot `j` is the best network |
| Generations.FreshSlotsAreRandom | src/uk/co/marcnorth/jnn/Generation.java:120-123 | slots past the three quotas hold fresh networks of the population's topology, with every parameter in [-1, 1) |
| Generations.RandomNetworks | src/uk/co/marcnorth/jnn/Generation.java:133-139 | a random population has `n` networks, all of the given topology |
| Generations.RandomNetworksInRange | src/uk/co/marcnorth/jnn/Generation.java:133-139 | with uniform draws every parameter of a random population lies in [-1, 1) |
| Generations.CloneOf | src/uk/co/marcnorth/jnn/Generation.java:105-107 | mutator, mutate, getNetwork gives the mutated network of the parent |
| Generations.ChildOf | src/uk/co/marcnorth/jnn/Generation.java:114-116 | mutator, crossoverWith, getNetwork gives the crossed network of the two parents |
| Generations.BuiltIsNext | src/uk/co/marcnorth/jnn/Generation.java:95-125 | an array whose every slot holds its planned content is the population `NextNetworks` describes |
| Generations.ChildSlot | src/uk/co/marcnorth/jnn/Generation.java:112-116 | a breed slot receives the child of the two ranks drawn below `keep` |
| Generations.CloneFor | src/uk/co/marcnorth/jnn/Generation.java:105-108 | the network placed in the next clone slot is that slot's planned content |
| Generations.ChildFor | src/uk/co/marcnorth/jnn/Generation.java:112-117 | the network placed in the next breed slot is that slot's planned content |
| Generations.FillFresh | src/uk/co/marcnorth/jnn/Generation.java:120-123 | the fill-up loop fails exactly when a fresh network is needed and the sizes are refused, and otherwise leaves every slot with its planned content |
| Generations.Generation.Create | src/uk/co/marcnorth/jnn/Generation.java:21-26 | a new generation holds the given task class, networks and sizes, and is neither started nor sorted |
| Generations.Generation.Start | src/uk/co/marcnorth/jnn/Generation.java:32-38 | a second start throws AlreadyStarted and changes nothing. A first start marks the generation started and records one score per network |
| Generations.Generation.SortScores | src/uk/co/marcnorth/jnn/Generation.java:70-84 | the scores become their stable highest-first order, and the flag is set |
| Generations.Generation.HighestScore | src/uk/co/marcnorth/jnn/Generation.java:65-68 | with scores, returns a score among them that is at least every other. With none, fails with NoScores |
| Generations.Generation.GetNetworkByRank | src/uk/co/marcnorth/jnn/Generation.java:128-131 | returns the network at position `rank` of the sorted scores, or IndexOutOfRange when there is none |
| Generations.Generation.CreateNextGeneration | src/uk/co/marcnorth/jnn/Generation.java:86-126 | fails exactly as `NextGenerationOutcome` says. Otherwise returns a fresh, unstarted generation of the same task and sizes whose networks are `NextNetworks` of the ranking |
| Generations.Generation.KeepBest | src/uk/co/marcnorth/jnn/Generation.java:99-102 | the keep loop fails with IndexOutOfRange exactly when the quota passes the ranks or the array. Otherwise it fills the first `keep` slots with their planned content |
| Generations.Generation.CloneBest | src/uk/co/marcnorth/jnn/Generation.java:104-109 | the clone loop fails with IndexOutOfRange exactly when the quota passes the ranks or the array. Otherwise it fills the next `clone` slots with their planned content |
| Generations.Generation.BreedKept | src/uk/co/marcnorth/jnn/Generation.java:111-118 | the breed loop fails with NonPositiveBound when it must draw below a keep of 0 or less, and with IndexOutOfRange past the array. Otherwise it fills the next `breed` slots with their planned content |
| Generations.Generation.CreateGenerationWithRandomNetworks | src/uk/co/marcnorth/jnn/Generation.java:133-139 | fails with NegativeArraySize for a negative count, or with the sizes error when a network must be built from refused sizes. Otherwise returns an unstarted generation of `RandomNetworks` |
| Driver.MinPositiveDoubleIsPositive | src/uk/co/marcnorth/jnn/GeneticAlgorithm.java:18 | `Double.MIN_VALUE` is positive, not the most negative double |
| Driver.Max | src/uk/co/marcnorth/jnn/GeneticAlgorithm.java:67-70 | `Math.max` is one of its arguments and at least both |
| Driver.RunningBestBounds | src/uk/co/marcnorth/jnn/GeneticAlgorithm.java:67-70 | the best score after several generations is at least the start and every generation's best, and is one of them |
| Driver.RunningBestAppend | src/uk/co/marcnorth/jnn/GeneticAlgorithm.java:67-70 | one more generation makes the best score the maximum of the old best and its own |
| Driver.RunningBestSplit | src/uk/co/marcnorth/jnn/GeneticAlgorithm.java:56-59 | running generations in two batches gives the same best score as running them in one |
| Driver.BestScoreNeverFalls | src/uk/co/marcnorth/jnn/GeneticAlgorithm.java:67-70 | the best score of any generation never falls, and never falls below `Double.MIN_VALUE` |
| Driver.NonPositiveScoresReportMinimum | src/uk/co/marcnorth/jnn/GeneticAlgorithm.java:18 | when every generation's best is 0 or less, the reported best stays `Double.MIN_VALUE` (positive) |
| Driver.Wrap32 | src/uk/co/marcnorth/jnn/GeneticAlgorithm.java:29 | Java `int` addition wraps into the 32-bit range, agrees modulo 2^32, and is exact without overflow |
| Driver.AsWrittenAgreesWithoutOverflow | src/uk/co/marcnorth/jnn/GeneticAlgorithm.java:29-30 | when the sums do not overflow, the constructor's check is the intended one |
| Driver.QuotaSumOverflows | src/uk/co/marcnorth/jnn/GeneticAlgorithm.java:29-30 | keep 2147483647, clone 1, breed 0 over 10 networks pass the check as written, although the quotas exceed the population. The next generation then fails with IndexOutOfRange |
| Driver.QuotasFitPopulation | src/uk/co/marcnorth/jnn/GeneticAlgorithm.java:29-30 | non-negative quotas that pass the intended check fit in the population |
| Driver.ConfiguredCreationPasses | src/uk/co/marcnorth/jnn/GeneticAlgorithm.java:74-90 | with checked quotas, valid sizes and a parent to breed from, creating the first and every later population throws nothing |
| Driver.GeneticAlgorithm.Init | src/uk/co/marcnorth/jnn/GeneticAlgorithm.java:20-38 | the configuration is stored as given: no listeners, no generation, number 0, best score `Double.MIN_VALUE` |
| Driver.GeneticAlgorithm.New | src/uk/co/marcnorth/jnn/GeneticAlgorithm.java:20-38 | the constructor fails with QuotasExceedPopulation exactly when the quotas exceed the population, and otherwise starts in the initial state |
| Driver.GeneticAlgorithm.AddListener | src/uk/co/marcnorth/jnn/GeneticAlgorithm.java:48-50 | appends the listener and changes nothing else |
| Driver.GeneticAlgorithm.TriggerListeners | src/uk/co/marcnorth/jnn/GeneticAlgorithm.java:92-100 | calls every listener once, in registration order, and changes nothing else |
| Driver.GeneticAlgorithm.CreateNextGeneration | src/uk/co/marcnorth/jnn/GeneticAlgorithm.java:74-90 | fails as `CreationOutcome` says, keeping the old generation. Otherwise installs a fresh, unstarted generation: a random one the first time, then `NextNetworks` of the previous ranking |
| Driver.GeneticAlgorithm.RunGeneration | src/uk/co/marcnorth/jnn/GeneticAlgorithm.java:61-72 | the number goes up by one and the start is announced. On success the new generation is scored, the best score becomes the maximum of the old best and the generation's rank-0 score, and the end is announced |
| Driver.GeneticAlgorithm.ScoreGeneration | src/uk/co/marcnorth/jnn/GeneticAlgorithm.java:65-70 | starts the new generation with its evaluated scores. An empty population fails with NoScores; otherwise the best score becomes the maximum of the old best and the generation's highest |
| Driver.GeneticAlgorithm.RunGenerations | src/uk/co/marcnorth/jnn/GeneticAlgorithm.java:56-59 | runs `count` rounds or stops at the first failure. The number grows by one per round attempted, the best score is the running best of the rounds' bests, and the listeners hear start and end of every completed round |

## Left out

- Threads, the countdown latch and `await` are not modelled. `Generation.Start` takes the finished (network, score) pairs, in completion order, as an argument. The order in which threads finish is therefore a parameter, and `sortScores` (with callers) requires a started generation or an empty one.
- `NeuralNetworkTask` and the reflection that creates one task per network are not part of this model. Scoring is a function argument that returns one pair per network (`Driver.Evaluates`). Task construction failures are not modelled.
- `tanh` in `Layer.activate` is an arbitrary function argument. Floating point is modelled as real numbers, with no rounding, NaN or infinity.
- `java.util.Random` is not modelled. Every draw is a function parameter, and `nextInt(keep)` is a natural number reduced modulo `keep`.
- `print` (console output) and the plain getters (`getTaskClass`, `getInputSize`, `getLayerSizes`, `getNumActiveLayers`, `getCurrentGenerationNumber`, `getNumberOfNetworks`, `getHighestScoreOfAnyGeneration`) are not modelled as members. The model reads the corresponding fields directly.
- Listener callbacks have no effects in the model. Each call is recorded in the order it is made.
- `Networks.NewNetworkFromMatrices` requires as many bias matrices as weight matrices and at least one of each. With no weights the Java fails on `weights[0]`; with unequal lengths it indexes past one array or leaves trailing zero sizes.
- `Layers.Layer.Activate` requires a column 0 whenever the matrix has rows. Its only caller, `Layers.Layer.FeedForward`, checks this first and fails with CellOutOfBounds, where the Java would throw from the `get` of column 0.
- `Mutators.Mutator.CrossoverWith` requires the other network's matrices to cover this one's, as two networks of the same topology always do. With a smaller partner the Java may read out of bounds: it does so whenever a cell outside the partner's matrix draws 0.5 or more, and succeeds when every such cell draws below 0.5. The model excludes all such inputs, including those successful runs.
- `NeuralNetwork.java` does not define the 0-based `getWeightsForActiveLayer` and `getBiasesForActiveLayer` that the mutator calls. They are modelled as copy-out accessors of active layer `i`, next to the 1-based accessors that the file does define.
- Java exception types and messages are merged into the constructors of `Results.Error`.
- `Driver.GeneticAlgorithm.RunGenerations`: does not model the 32-bit wrap-around of `currentGenerationNumber`, which the model counts as an unbounded integer.
- Negative quotas are not rejected by the constructor. As in the Java, the loops simply run zero times for them (`Generations.Count`).

## Findings

| source | as written | input that shows it | evidently intended | confidence | as-written member | corrected member |
|---|---|---|---|---|---|---|
| src/uk/co/marcnorth/jnn/GeneticAlgorithm.java:29-30 | the three quotas are added as 32-bit `int`s, so a large sum wraps to a negative number and passes the check | keep = 2147483647, clone = 1, breed = 0, numberOfNetworks = 10: the sum wraps to -2147483648, the constructor accepts, and the next generation fails with an index past the end | the mathematical sum of the quotas is compared with the population size | not executed | Driver.QuotaSumOverflows | Driver.GeneticAlgorithm.New |

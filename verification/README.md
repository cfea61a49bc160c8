# A verified model of the GAuV proof engine and its BGW frontend

The repository proves information-theoretic security of multi-party protocols by rewriting.
A protocol is a graph of value nodes joined by operation edges. The prover (`src/backend`)
replaces sets of edges by others until no "bubble" is left (an input or output at an honest
party, or one at a corrupted party that is still computed by an edge), deletes the honest
nodes nobody uses, and answers yes if that removed all bubbles. The frontend
(`src/bgwfrontend`) writes BGW circuits in terms of Shamir shares, `src/backend/graph_builder.hpp`
lowers expressions to the graph, and `src/mpclib` computes concrete shares in 64-bit words.

This project models these parts and proves what they are for:

* **Meaning.** `Semantics` gives a graph the set of valuations of its nodes, in a prime field,
  that satisfy every edge. An EVAL or RECONSTRUCT edge holds when one polynomial of degree at
  most T takes all the values of its inputs and its output. Interpolation is not assumed:
  `Arith` and `Polynomials` prove Euclid's lemma and root counting.
* **The rewriters preserve meaning** (`Patterns`, `Sharing`, `Reconstruction`, `SharingMeaning`,
  `Rewriting`) when the sources of a rewrite fix the polynomial it is about, and the loops that
  implement them compute exactly the specified replacement (`Transformers`,
  `SharingTransformers`, `ReconstructionTransformer`), their filters behave exactly as
  characterised (`SharingCounts`, `ReconstructionCounts`). `Assembly` and `Dealing` build the
  sharings a dealer makes for every number of parties and every threshold, `DealtRewrites`
  decides for them when a rewrite preserves meaning, `Masking`, `MaskedRewrites` and `MaskedRuns`
  do so for whole runs of the loop, `Cases` holds concrete failures.
* **The rewriters find what they are for** (`Guards`, `BuiltMatches`, `Subterms`, `ProductMatches`,
  `ProductGuards`, `YieldMatches`): the guard of the sharing rewriters does not look at what the
  matched node is computed from, and accepts every constant term that a built graph deals to all
  parties, the local products of a multiplication among them; the pre-check of the
  reconstruction rewriter is decided for the output of every circuit.
* **When nodes fix a polynomial** (`Polynomials`, `Elimination`, `GeneralPosition`): Gaussian
  elimination decides it, and general position is characterised for all thresholds, for T = 2 by
  sums of points.
* **Whole runs** (`Potentials`, `Hashing`, `SourceParties`, `Selection`, `Runs`): the loop
  terminates within an explicit bound, every graph on the way has the solutions of the first if
  the sources of every step fix the polynomial it rewrites, every move is the greedy choice, and
  the loop stops with bubbles only when no rewrite at all is acceptable.
* **Verdict** (`Tails`, `Runs`, `Enumeration`, `Provers`): tail elimination is a greatest
  fixpoint, a positive answer means that the corrupted parties' view is a function of randomness
  and of their own inputs and outputs, and corrupted sets are enumerated once per
  combination of class sizes.
* **BGW** (`Lagrange`, `Expressions`, `Bgw`, `BgwCorrectness`): every circuit yields shares of
  its clear-text value, on a polynomial of degree at most T, one per party.
* **Builder** (`Lowering`, `ImportSteps`, `Builders`, `BuiltGraphs`, `LoweredMeaning`,
  `BuiltProtocols`, `BuiltStarts`): the built graph is well formed, computes what the expressions
  mean, for a well-typed program meets the standing conditions of the prover, and its bubbles and
  random nodes are the ones the program says.
* **From circuit to verdict** (`FrontendPrograms`, `FrontendMeaning`, `CircuitPrograms`,
  `Executions`, `CircuitExecutions`, `BuiltProtocols`): the frontend's expression trees become
  programs of the builder. The program of every circuit is well typed, the graph built for it
  computes the circuit's clear-text value, the prover accepts it, every execution of the circuit
  is a solution of it, and a positive answer says that two executions with the same final
  randomness and the same corrupted inputs and outputs look the same to the corrupted parties.
* **Words** (`Words`, `MpcLib`): where 64-bit modular arithmetic is exact, and that shares are
  evaluations of polynomials.

## How the program is read

* Edges omit their arguments (`src/backend/operation.hpp:118`). The model attaches them: `arg`
  names the polynomial of an EVAL or RECONSTRUCT edge and the constant of a SCALARMUL edge, and
  `Env.roles` says for each node of a sharing whether it holds a coefficient or the value at a
  party's point. DIV and TYPECAST are fixed but arbitrary functions.
* Edges are values; two edges with equal contents are told apart only by multiplicity. The
  builder, whose operations are completed after they have been put in lists, keeps them as
  shared objects in a table.
* Iteration over hash sets has no order in the program, so the lists of a rewritten graph are
  specified up to order; `OrderIrrelevant` proves that potential, hash and counters do not
  depend on it.
* The assertions in `src/backend/transformer.hpp` on the kind of a matched edge are read as part
  of the guard: `isRewritableSecret` alone also accepts other edges.
* Standing conditions (`Ready`): N >= 2T + 1, T >= 1, lists in sync, exact counters, each edge
  with as many inputs as its operator takes, all inputs of a RECONSTRUCT edge at one party, at
  most T corrupted parties, fewer than 2^31 nodes.
* Because of the first finding below, the theorems about runs ask of every step that its sources
  fix the polynomial (`FixedStep`, `FixedRun`), and those about determinacy that the inputs of
  every EVAL and RECONSTRUCT edge do (`EdgesFix`, kept by such steps). Per step this is the exact
  condition on the points (`DealtStep`): none at a secret, for random-sharing rewrites and for
  reconstructions (`DealtReconStep`), a nonzero coefficient elsewhere.
* `Generic` says that any T + 1 nodes of any sharing fix its polynomial. It implies all of this
  for every run (`GenericRun`), but it is not asked for. It can be checked by elimination
  (`GenericByElimination`); it always holds for T = 1 (`GenericForOne`), and for T = 2 exactly if
  no linear coefficient shares a sharing with two opposite points (`GenericForTwo`).
* A RECONSTRUCT edge of a built graph has a sharing of its own, named after its expression; the
  program keeps no such name.

## Findings

* **A sharing rewrite can change the meaning of a protocol.** The guard of the sharing rewriter
  does not ask whether the matched node is the secret: when the secret is itself random, a
  coefficient node matches as well, and is kept as a source beside T shares. The k-th
  coefficient and T points determine a polynomial only if the k-th coefficient of the monic
  polynomial with those points as roots is nonzero. `DealtExact` says that the replaced edges
  keep their solutions exactly under this condition, and `DealtRewriteExact` says it of the whole
  graph of a dealer who sends all shares on, for every number of parties and threshold.
  `MeaningChanges` is a protocol whose solutions change (p = 7, N = 5, T = 2, points 2 and 5);
  modulo 11 the same rewrite keeps them (`MeaningKept`). The loop does make such moves: if the
  dealer of a random secret outputs its own share and uses the secret once more, and T other
  parties are corrupted, the first move of every complete run is the rewrite at the linear
  coefficient, and it keeps the solutions exactly if that coefficient is nonzero (`RunExact`, for
  every N and T; `RunChanges` is the case p = 7). So the run theorems need their hypothesis
  (`FixedRunExact`).
* **The reconstruction filter is redundant but for one family.** The pre-check predicts the
  filter exactly if the reconstructed node is no origin of its own destination shares, or is an
  input or output, or at least two destination shares come from random nodes
  (`ReconPrediction`). Only cyclic graphs can fail this (`OriginsOfAcyclic`), one does
  (`PredictionFails`), and the builder makes acyclic ones (`BuiltGraph`).
* **The record of considered graphs cannot tell some graphs apart.** Edges with the same operator
  into the same node hash alike exactly if the sums of their inputs agree modulo 2^64
  (`EdgeHashExact`), so a - b and b - a, or nodes 1 + 4 and 2 + 3, collide, and graphs that differ
  in nothing else have the same key (`KeysCollide`). `DifferencesCollide` is a pair with different
  solutions. This can only make the loop skip a candidate.
* **`field::operator-` reduces after wrapping**, so it is right exactly when the minuend is at
  least the subtrahend or the base divides 2^64 (`SubtractionExact`). Multiplication is right
  exactly when the base divides what wrapping drops (`MultiplicationExact`); modulo 2^64 - 1 twice
  2^63 comes out as 0 instead of 1 (`MultiplicationCounterexample`).
* **BGW multiplication needs 2T + 1 parties**: with T + 1 or more parties, yielded products are
  right for all inputs exactly from 2T + 1 parties on; with fewer, a product of nonzero values is
  yielded as zero without any error (`ProductsNeedParties`, `ProductVanishes`).
* **The last component of the potential is a 32-bit integer in the program.** It fits for all
  graphs of n nodes exactly if n is at most 65535 (`TopoFitsExactly`). Beyond that `RunDescends`
  and `RunBound` are about the exact sums, not about the program's comparisons.
* **The reconstruction of a dealt secret at another party is not rewritten.** The pre-check counts
  a share that the dealer sent to the receiver as the dealer's, next to the dealer's own. So on
  the graph built for a circuit it accepts the output exactly if that is marked as an output and
  is not a secret yielded as it was dealt by another party (`CircuitYieldAccepted`).
* A polynomial whose constant term is a public constant is lowered without a secret input
  (`ConstantSecret`), so its evaluations have T inputs instead of T + 1.

## Model

| member | source | states |
|---|---|---|
| Arith.NoZeroDivisors | src/mpcgraph/type.hpp:5-7 | the field of the protocols has no zero divisors, for every prime |
| Arith.Inverse | src/mpcgraph/type.hpp:5-7 | every nonzero residue has a multiplicative inverse |
| Polynomials.RootsDetermine | src/backend/transformer.hpp:154-157 | a polynomial with as many distinct roots as coefficients is zero (uniqueness of interpolation) |
| Polynomials.SecretAndPointsDetermine | src/backend/transformer.hpp:154-157 | the secret and T distinct nonzero points determine a polynomial of degree at most T |
| Polynomials.PointsDetermine | src/backend/transformer.hpp:240-243 | T + 1 distinct points determine it |
| Polynomials.CoefficientAndPointsDetermine | src/backend/transformer.hpp:179-205 | one coefficient and T points determine it if and only if that coefficient of the monic polynomial with those roots is nonzero |
| Polynomials.LinearCoefficientCounterexample | src/backend/transformer.hpp:179-205 | a concrete field, threshold and points where they do not |
| Graphs.EliminateEdge | src/backend/graph.hpp:218-251 | the loops remove one occurrence of the edge from its output's in-list and one per input from the out-lists, and update both counters |
| Graphs.AddEdge | src/backend/graph.hpp:266-292 | the loops append the edge to those lists and update both counters |
| Graphs.WithEdgeSync | src/backend/graph.hpp:266-292 | adding any edge keeps in- and out-lists in sync, and the edges are the old ones and the new one |
| Graphs.WithoutEdgeSync | src/backend/graph.hpp:218-251 | eliminating a present edge keeps the lists in sync and removes no other edge |
| Counters.WithEdgeCounted | src/backend/graph.hpp:266-292 | after adding an edge the cached counters equal a recount and have not wrapped |
| Counters.WithoutEdgeCounted | src/backend/graph.hpp:218-251 | the same after eliminating a present edge |
| Counters.RewriteGood | src/backend/graph.hpp:252-306 | eliminating present edges and adding others keeps sync and exact counters, with the edges and in-degrees one expects |
| Counters.Recount | src/backend/graph.hpp:160-177 | the constructor's loops count exactly the random nodes and the bubbles |
| Counters.EliminateAdded | src/backend/graph.hpp:218-292 | eliminating an edge that was just added gives back the very same graph |
| Hashing.HashEdge | src/backend/operation.hpp:14-29 | the loop, wrapping at every step, computes (code * 2333333^2 + sum of inputs * 2333333 + output) mod 2^64 |
| Hashing.EdgeHashExact | src/backend/operation.hpp:14-29 | with the same operator and output, two edges hash alike if and only if the sums of their inputs agree modulo 2^64, so always if the inputs are a permutation |
| Cases.DifferencesCollide | src/backend/prover.hpp:111-136 | the graphs of a - b and of b - a have the same key and different solutions |
| Hashing.KeysCollide | src/backend/prover.hpp:111-136 | graphs whose edges agree up to inputs with equal sums have the same key in the record of considered graphs |
| Hashing.EdgeHashTellsApart | src/backend/operation.hpp:14-29 | edges that differ in the operator alone, or in the output modulo 2^64 alone, hash differently |
| Hashing.SmallEdgesExact | src/backend/operation.hpp:14-29 | while sums of inputs and outputs stay below 2333333, the hash of an edge determines its operator, the sum of its inputs and its output |
| Hashing.HashGraph | src/backend/graph.hpp:31-43 | the two nested loops compute the graph hash, in which every node and every edge counts (next four rows) |
| Hashing.NodeHashExact | src/backend/graph.hpp:33-39 | replacing one in-edge of a node leaves the node's hash alone if and only if the two edges hash alike |
| Hashing.LastNodeExact | src/backend/graph.hpp:31-43 | with the same last node two hashes are equal if and only if those of all nodes before it are, and with the same nodes before it if and only if the last nodes hash alike |
| Hashing.GraphHashExact | src/backend/graph.hpp:31-43 | replacing the in-list of any node leaves the hash of the graph alone if and only if the node's hash stays |
| Hashing.OneEdgeExact | src/backend/graph.hpp:31-43 | so does replacing one edge anywhere, if and only if the two edges hash alike |
| Hashing.KeyExact | src/backend/graph.hpp:190-199 | graphs that differ at one node share a key if and only if that node hashes alike and both counters agree |
| Hashing.GraphHashOrder | src/backend/graph.hpp:31-43 | the hash depends only on each node's multiset of in-edges |
| Hashing.OrderIrrelevant | src/backend/graph.hpp:190-199 | graphs that differ in list order only have the same potential, hash and counters |
| Hashing.AddEliminated | src/backend/graph.hpp:218-292 | adding back an eliminated edge gives the same graph up to list order, with the same hash and counters |
| Semantics.SamePolynomial | src/backend/operation.hpp:118 | two polynomials through the same determining values agree at every node of the sharing |
| Semantics.Family | src/backend/transformer.hpp:154-157 | evaluations from common determining sources say together exactly that all nodes lie on one polynomial |
| Semantics.RewriteSat | src/backend/graph.hpp:252-306 | replacing edges by others with the same solutions keeps the solutions of the whole graph |
| Semantics.OutputDetermined | src/backend/operation.hpp:118 | satisfying valuations that agree on an edge's inputs agree on its output, for a polynomial edge when its own inputs fix the polynomial |
| Elimination.EliminationDecides | src/backend/transformer.hpp:154-157 | any list of coefficients and points determines a polynomial of degree at most T if and only if Gaussian elimination finds T + 1 pivots |
| GeneralPosition.GenericByElimination | src/backend/transformer.hpp:154-157 | general position is that elimination succeeds on every list of T + 1 different nodes of a sharing |
| GeneralPosition.GenericForTwo | src/backend/transformer.hpp:154-157 | for T = 2 general position is that no sharing holds the linear coefficient and two points that add up to 0 |
| GeneralPosition.DealtGeneric | src/bgwfrontend/variable.hpp:20-31 | dealt sharings of threshold 2 are in general position modulo every prime above 2N |
| Dealing.StandingConditions | src/bgwfrontend/variable.hpp:20-31 | the sharing a dealer makes and sends meets all standing conditions, for every N >= 2T + 1 and every prime above N |
| Dealing.DealtSettingHolds | src/backend/transformer.hpp:37-84 | it matches the sharing pattern at its secret and, when that is random, at every coefficient |
| Dealing.DealtEdgesFix | src/backend/operation.hpp:118 | the inputs of its edges fix their polynomials, whatever the points |
| DealtRewrites.DealtRewriteExact | src/backend/transformer.hpp:168-233 | the rewrite at the n-th coefficient keeps the solutions of the whole dealt graph if and only if the n-th coefficient of the monic polynomial with the sources' points as roots is nonzero, for every N and T |
| Cases.MeaningChanges | src/backend/transformer.hpp:168-233 | a protocol with five parties, T = 2, p = 7 where the rewrite has results and each has other solutions |
| Cases.MeaningKept | src/backend/transformer.hpp:168-233 | modulo 11 the same protocol is in general position and the same rewrite keeps its solutions |
| MaskedRewrites.MaskedRewriteExact | src/backend/transformer.hpp:168-233 | the same whole-graph condition when the dealer also outputs its own share and multiplies the secret by a constant |
| MaskedRuns.RunExact | src/backend/prover.hpp:112-145 | on such a protocol, with T corrupted parties that are not the dealer, every complete run makes a first move, and it keeps the solutions if and only if the linear coefficient of the monic polynomial with the corrupted parties' points as roots is nonzero |
| MaskedRuns.FixedRunExact | src/backend/prover.hpp:112-145 | when that coefficient is zero, no complete run has fixing sources at every step |
| MaskedRuns.SomeRun | src/backend/prover.hpp:112-136 | there is a bubble, and the loop can make that move |
| MaskedRuns.DealerIsNext | src/backend/prover.hpp:78-103 | the source parties of that attempt are the corrupted parties, and the dealer as one more |
| Cases.RunChanges | src/backend/prover.hpp:112-145 | with five parties, T = 2, p = 7 and the parties at points 2 and 5 corrupted, every complete run changes the solutions with its first move |
| Cases.RunExists | src/backend/prover.hpp:112-136 | the loop can make that move: a run with this first move exists, from a graph with a bubble |
| Transformers.IsRewritableSecret | src/backend/transformer.hpp:37-84 | the guard's loop with its sets and early exits decides exactly the specified pattern |
| Guards.GuardReads | src/backend/transformer.hpp:37-84 | the guard depends on the node's out-list, on where its shares end and how many in-edges there are there, and on which other inputs are random, and on nothing else |
| Guards.GuardIgnoresInList | src/backend/transformer.hpp:37-84 | so what the matched node is computed from does not matter: its in-list may be anything |
| Guards.ComputedSecretMatches | src/backend/transformer.hpp:37-84 | the secret of a dealt sharing matches for all source parties when any edge from outside the sharing computes it, for every N and T |
| BuiltMatches.TermAccepted | src/backend/transformer.hpp:37-84 | completeness: in the graph built for a well-typed program the node of every constant term that is dealt to all parties is accepted for every set of source parties, whatever it is computed from |
| ProductGuards.CircuitProductAccepted | src/backend/transformer.hpp:37-84 | in the graph built for any circuit that ends in a product, the sharing rewriter's guard accepts every party's local product for every set of source parties |
| YieldMatches.CircuitYieldAccepted | src/backend/transformer.hpp:332-366 | in the graph built for any circuit the pre-check accepts the yielded output, for every set of source parties, if and only if it is marked as an output and is not a secret yielded as another party dealt it |
| Patterns.SharingParties | src/backend/transformer.hpp:41-83 | pigeonhole: a matched node has exactly one share per party |
| Patterns.SharingSizes | src/backend/transformer.hpp:179-219 | with T sources beside the secret, or T + 1 without it, there are T + 1 sources and N destinations, disjoint and together all nodes of the sharing, so the assertions hold |
| Transformers.ApplyAddition | src/backend/transformer.hpp:107-147 | the candidates are exactly the additions c = a + b solved for an operand that keep the number of random nodes, in node order; both b = c - a and a = c - b are offered where they keep it |
| Transformers.SolvesFor | src/backend/transformer.hpp:131-139 | solving for operand k replaces the addition by the subtraction of the other operand from the sum |
| Transformers.AdditionFilter | src/backend/transformer.hpp:142-146 | that keeps the number of random nodes if and only if the operand is the sum itself, or is random exactly when the sum becomes so |
| Transformers.AdditionEquivalent | src/backend/transformer.hpp:107-140 | an addition has the same solutions as the subtraction that solves it for either operand, equal operands included |
| SharingTransformers.ShareRewrite | src/backend/transformer.hpp:179-226 | the loop over the shares performs exactly the specified replacement, reversed transits included |
| SharingTransformers.ApplySharing | src/backend/transformer.hpp:168-233 | a node is offered if and only if it matches and no source share copy is an input or output; the candidates keep the number of random nodes and come one per node in node order |
| SharingCounts.SharingFilter | src/backend/transformer.hpp:228-232 | the number of random nodes is unchanged if and only if no source share copy is an input or output |
| SharingCounts.SharingRandom | src/backend/transformer.hpp:313-317 | the random nodes after the rewrite are the old ones without the spent inputs and with the freed copies |
| Sharing.SharingEquivalent | src/backend/transformer.hpp:168-226 | when old inputs and new sources each determine the polynomial, the new edges have the solutions of the old ones and are well formed |
| SharingMeaning.DealtFixes | src/backend/transformer.hpp:254-311 | T + 1 shares always determine a dealt polynomial; the matched node with T shares does so under the exact coefficient condition, always for the secret |
| SharingMeaning.DealtExact | src/backend/transformer.hpp:168-226 | the edges that a rewrite of a dealt sharing replaces keep their solutions if and only if its sources determine the polynomial; for the whole graph see DealtRewriteExact |
| Rewriting.DealtSharingKeeps | src/backend/transformer.hpp:168-318 | random-sharing rewrites, and sharing rewrites at the secret, preserve all solutions and the invariants for any points |
| ReconstructionTransformer.IsRewritableReconstruction | src/backend/transformer.hpp:332-366 | the counting loop decides exactly the pre-check |
| ReconstructionTransformer.ReconRewrite | src/backend/transformer.hpp:376-424 | the loop over the reconstructed shares performs exactly the specified replacement, and the asserted edge counts hold |
| ReconstructionTransformer.EdgeCounts | src/backend/transformer.hpp:418-422 | both lower bounds on the number of edges follow from the pattern |
| ReconstructionTransformer.ApplyReconstruction | src/backend/transformer.hpp:368-432 | candidates are results that keep the number of random nodes, and there is one at a node if and only if it matches and is no origin of its own destination shares or is an input or output, in node order |
| Reconstruction.ReconEquivalent | src/backend/transformer.hpp:368-424 | one reconstruction edge has the same solutions as the evaluations of all other shares from the secret and the kept shares |
| Rewriting.DealtReconKeeps | src/backend/transformer.hpp:368-432 | reconstructing a secret from shares at distinct points is rewritten without changing any solution, for T or T + 1 source parties |
| ReconstructionCounts.ReconFilter | src/backend/transformer.hpp:334-358 | the filter passes if and only if the number of destination shares from random nodes is 0 when the node is an input, an output or an origin of its own destination shares, and 1 otherwise |
| ReconstructionCounts.ReconPrediction | src/backend/transformer.hpp:334-358 | pre-check and filter agree if and only if the node is no origin of its own destination shares, or is an input or output, or two destination shares come from random nodes |
| ReconstructionCounts.OriginsOfAcyclic | src/backend/transformer.hpp:334-358 | on acyclic graphs no node is such an origin |
| Cases.PredictionFails | src/backend/transformer.hpp:334-358 | a cyclic graph meeting the standing conditions where the pre-check passes and the filter drops every result |
| Rewriting.GenericForOne | src/backend/transformer.hpp:154-157 | for T = 1 the points are always in general position |
| Rewriting.StepKeeps | src/backend/prover.hpp:113-145 | one step by any of the five rewriters whose sources fix the polynomial keeps solutions, nodes, number of random nodes, sync and exact counters |
| Rewriting.StepFixes | src/backend/prover.hpp:113-145 | such a step keeps that the inputs of every edge fix its polynomial |
| Rewriting.DealtStep | src/backend/transformer.hpp:168-318 | a rewrite of a dealt sharing is such a step at the secret, without a kept node, and elsewhere when the coefficient of the monic polynomial is nonzero |
| Rewriting.DealtReconStep | src/backend/transformer.hpp:368-432 | a rewrite of the reconstruction of a secret from shares is such a step for any points |
| Rewriting.GenericStep | src/backend/prover.hpp:113-145 | in general position every step of the loop is such a step |
| Potentials.CountReaching | src/backend/graph.hpp:355-388 | the queue search terminates on every graph, cyclic ones included, and counts exactly the honest nodes with a path to a corrupted party's node, each once |
| Potentials.ComputePotential | src/backend/graph.hpp:355-388 | the three loops compute the specified potential |
| Potentials.PotentialCounts | src/backend/graph.hpp:355-388 | its components count the bubbles, the honest nodes that reach a corrupted party, the nodes, and the pairs of an honest node without in-edges and a guid from its own on |
| Potentials.LessTotal | src/backend/prover.hpp:122-123 | of two different potentials one is smaller, never both |
| Potentials.RankOrders | src/backend/common.hpp:31 | on potentials of graphs with n nodes the comparison is that of the ranks, in both directions |
| Potentials.PotentialBounds | src/backend/graph.hpp:355-388 | all components are non-negative and bounded by the number of nodes |
| Potentials.TopoFitsExactly | src/backend/graph.hpp:355-388 | the last component fits 32 bits for all graphs of n nodes if and only if n is at most 65535 |
| Selection.Consider | src/backend/prover.hpp:120-133 | the inner loop with its break takes the first candidate in list order that beats the choice so far, else keeps that choice, and never ends worse than the rewriter's first acceptable one |
| Selection.PickBest | src/backend/prover.hpp:114-136 | the choice is what the five lists in turn leave, acceptable and no worse than each rewriter's first acceptable candidate; none is chosen only when no rewrite is acceptable |
| SourceParties.ChooseSources | src/backend/prover.hpp:78-103 | the source parties are the corrupted ones and the first honest ones in list order, T and T + 1 in all |
| Runs.RunKeeps | src/backend/prover.hpp:113-145 | every graph of a run whose steps have fixing sources has the solutions, nodes and number of random nodes of the first, in sync and with exact counters |
| Runs.RunFixes | src/backend/prover.hpp:113-145 | along such a run the inputs of every edge keep fixing its polynomial |
| Runs.GenericRun | src/backend/prover.hpp:113-145 | in general position every run from every graph is such a run |
| Runs.RunDescends | src/backend/prover.hpp:113-136 | potentials strictly decrease, so no graph is met twice even without the record of considered graphs |
| Runs.RunBound | src/backend/prover.hpp:113-145 | a run on n nodes has fewer than (n+1)(n+1)(n(n+1)/2+1) rewrites |
| Runs.RewriteLoop | src/backend/prover.hpp:112-145 | the loop produces a greedy run that ends without bubbles or where no rewrite is acceptable |
| Runs.KeysDiffer | src/backend/prover.hpp:111-136 | no two graphs the loop moves to have the same key in its record |
| Runs.StopsOnlyAtSeen | src/backend/prover.hpp:111-145 | it stops with bubbles only where every rewrite to a smaller potential leads to a key it has recorded |
| Tails.EliminateNode | src/backend/graph.hpp:307-343 | the loops remove the node, its edges and their list entries, and update the counters |
| Tails.TailSync | src/backend/graph.hpp:307-343 | eliminating a node without out-edges keeps sync and touches no other in-list |
| Tails.TrimStep | src/backend/prover.hpp:149-161 | under the tail guard the bubble count stays exact and the random count an upper bound |
| Tails.EliminateTails | src/backend/prover.hpp:149-161 | the loop ends with the largest set of honest nodes in which every node feeds the set or a corrupted party's node |
| Tails.AnyOrder | src/backend/prover.hpp:149-161 | so does every sequence of tail eliminations that ends without tails, whatever order it takes |
| Tails.SameSurvivors | src/backend/prover.hpp:149-161 | two such eliminations leave the same live nodes, in-lists and bubble count |
| Tails.SurvivorsReach | src/backend/graph.hpp:355-381 | on acyclic graphs the survivors are exactly the nodes the potential's search counts |
| Runs.TryProving | src/backend/prover.hpp:69-170 | the answer is yes exactly when, after a complete greedy run and tail elimination, no honest input or output is left and no corrupted one has an in-edge |
| Runs.ViewDetermined | src/backend/prover.hpp:163-169 | if the final graph is acyclic and edges and steps fix their polynomials, valuations satisfying the original protocol that agree on final random nodes and on corrupted inputs and outputs without in-edges agree on everything corrupted parties hold |
| Enumeration.ChoicesExact | src/backend/prover.hpp:29-65 | the search lists exactly the count vectors that fit the classes, are not all zero and meet the quota |
| Enumeration.ChoicesDistinct | src/backend/prover.hpp:29-65 | it lists none of them twice |
| Provers.Prover.Search | src/backend/prover.hpp:29-65 | the recursion pushes start graphs whose per-class counts are exactly those vectors, whatever order classes are iterated in |
| Provers.Prover.CoveredOnce | src/backend/prover.hpp:29-65 | every corrupted set of admissible size has exactly one start graph with the same per-class counts |
| Provers.Prover.AllWithinQuota | src/backend/prover.hpp:36-42 | every start graph has a nonempty corrupted set within the quota, of the exact size in strict mode |
| Provers.Prover.TryAllPossibilities | src/backend/prover.hpp:185-194 | the conjunction of one complete attempt per start graph |
| Provers.Prover.Prove | src/backend/prover.hpp:203-209 | covers every number of corrupted parties from 1 to T |
| Provers.Prover.ProveExactly | src/backend/prover.hpp:196-202 | covers exactly I corrupted parties |
| Provers.AttemptMeaning | src/backend/prover.hpp:69-170 | what a successful attempt says about the protocol graph it started from |
| Lagrange.LagrangeAtZero | src/bgwfrontend/variable.hpp:91-111 | the Lagrange coefficients of N points recover the constant term of every polynomial with at most N coefficients |
| Lagrange.TooFewPoints | src/bgwfrontend/variable.hpp:91-111 | with at most 2T points two polynomials have a nonzero product of secrets although all share products are zero |
| Expressions.ReconstructAt | src/mpcgraph/share.hpp:163-209 | reconstruction succeeds exactly when all shares are at one party, else reports a mismatching pair |
| Bgw.Variable.Deal | src/bgwfrontend/variable.hpp:20-31 | one polynomial is drawn, its values are sent to their parties, the dealer's own is kept |
| Bgw.Variable.Add | src/bgwfrontend/variable.hpp:72-79 | share-wise sum or the first party mismatch, and the gate counter |
| Bgw.Variable.Scale | src/bgwfrontend/variable.hpp:81-88 | share-wise multiple in a fresh copy, and the gate counter |
| Bgw.Variable.Multiply | src/bgwfrontend/variable.hpp:93-111 | the resharing product or the first party mismatch, with N polynomials, N constant and N - 1 addition gates |
| Bgw.Variable.Yield | src/bgwfrontend/variable.hpp:60-70 | reconstruction from all shares at the receiver never fails |
| BgwCorrectness.SumShares | src/bgwfrontend/variable.hpp:72-79 | shares of x and y add up to shares of x + y on the sum polynomial, without an error |
| BgwCorrectness.MultiplySharings | src/bgwfrontend/variable.hpp:93-111 | for N >= 2T + 1 the product is again a sharing of degree T, of x * y, without an error |
| BgwCorrectness.YieldReconstructs | src/bgwfrontend/variable.hpp:60-70 | the yielded value is the shared one, and no other value fits the shares |
| BgwCorrectness.CircuitCorrect | src/bgwfrontend/variable.hpp:20-111 | every circuit builds without an error into a sharing of its clear-text value, share j at party j |
| BgwCorrectness.ProductVanishes | src/bgwfrontend/variable.hpp:60-111 | with T + 1 to 2T parties some two sharings of nonzero values have a product that builds without an error and is yielded as zero |
| BgwCorrectness.ProductsNeedParties | src/bgwfrontend/variable.hpp:60-111 | from T + 1 parties on, the yielded product is right for all inputs if and only if there are 2T + 1 parties |
| BgwCorrectness.CircuitYields | src/bgwfrontend/variable.hpp:60-111 | any party to which a circuit's output is yielded learns its clear-text value |
| Words.ExactUpTo32Bits | src/mpclib/field.hpp:24-58 | up to a base of 2^32 no addition or multiplication wraps, so both are exact |
| Words.SubtractionExact | src/mpclib/field.hpp:29-32 | subtraction is exact if and only if the minuend is at least the subtrahend or the base divides 2^64 |
| Words.AdditionExact | src/mpclib/field.hpp:24-27 | addition is exact if and only if it does not wrap or the base divides 2^64 |
| Words.MultiplicationExact | src/mpclib/field.hpp:34-37 | multiplication is exact if and only if the base divides floor(ab / 2^64) * 2^64 |
| Words.MultiplicationCounterexample | src/mpclib/field.hpp:34-37 | a concrete wrong product modulo 2^64 - 1 |
| Words.SubtractionCounterexample | src/mpclib/field.hpp:29-32 | a concrete wrong difference |
| Words.Field.Update | src/mpclib/field.hpp:39-58 | compound assignment changes the element in place and keeps it reduced |
| MpcLib.EvalShare | src/mpclib/poly.hpp:32-41 | for every degree and base up to 2^32 the power-accumulating loop returns the value of the polynomial modulo the base |
| MpcLib.MakeBundle | src/mpclib/share.hpp:95-109 | a bundle is made exactly when sizes and parties agree, else the error says why |
| MpcLib.ShareWise | src/mpclib/share.hpp:118-166 | share-wise operations succeed exactly on equal party lists whose indices tell the parties apart |
| MpcLib.Combine | src/mpclib/share.hpp:123-166 | share-wise sums and products are evaluations of the sum and of the product polynomial |
| MpcLib.ProductRecovers | src/mpclib/share.hpp:151-166 | from 2T + 1 parties on, the product bundle recombines to the product of the secrets |
| Builders.Builder.Import | src/backend/graph_builder.hpp:30-142 | the memoised recursion lowers each expression once and only extends the graph; a secret or given share gets an input or output node at its party, a randomness a node that is no input |
| Builders.Builder.Build | src/backend/graph_builder.hpp:144-170 | the finished graph is well formed, and exactly the nodes of the outputs are marked as outputs |
| BuiltGraphs.BuiltGraph | src/backend/graph_builder.hpp:12-25 | adjacency is in sync, each node has at most one in-edge, from smaller guids, so the graph is acyclic |
| BuiltGraphs.InputGenres | src/backend/graph_builder.hpp:52-62 | at any moment of a build a lowered secret or given share is an input or output, a lowered randomness is no input, and none of them has an in-edge |
| BuiltStarts.NodeKinds | src/backend/graph_builder.hpp:52-62 | every node is given from outside and marked as such, or drawn and without in-edge, or computed by its one in-edge |
| BuiltStarts.StartBubbles | src/backend/graph.hpp:160-177 | the bubbles of a start graph are exactly the given nodes and outputs of honest parties and the corrupted parties' outputs that are computed |
| BuiltStarts.StartRandom | src/backend/graph.hpp:160-177 | its random nodes are exactly the drawn coefficients and randomness expressions that are no outputs |
| BuiltStarts.HonestInput | src/backend/graph_builder.hpp:52-62 | a secret or given share is a bubble if and only if its holder is honest, so as long as there is one an attempt does not start without bubbles |
| BuiltGraphs.UniqueExtension | src/backend/graph_builder.hpp:144-170 | every assignment to the nodes without in-edges extends to exactly one satisfying valuation |
| LoweredMeaning.LoweringPreservesMeaning | src/backend/graph_builder.hpp:30-142 | whatever the nodes without in-edges are assigned, the graph computes for the node of every expression what it means when inputs and coefficients are read off the assignment |
| LoweredMeaning.MeaningsEvaluated | src/backend/graph_builder.hpp:30-142 | conversely, for any inputs and coefficients some assignment makes the graph compute all meanings |
| LoweredMeaning.SharedCoefficients | src/backend/graph_builder.hpp:91-114 | all evaluations of one polynomial have the same inputs |
| LoweredMeaning.ApartCoefficients | src/backend/graph_builder.hpp:115-135 | different polynomials have different coefficient nodes |
| LoweredMeaning.ConstantSecret | src/backend/graph_builder.hpp:115-135 | an evaluation has one input less exactly when the constant term is a public constant |
| BuiltProtocols.SharingsApart | src/backend/graph_builder.hpp:91-135 | two different sharings of a well-typed program have at most one expression in common |
| BuiltProtocols.BuiltStartable | src/backend/graph_builder.hpp:144-170 | the graph built for a well-typed program meets the standing conditions of the prover for every corrupted set, is acyclic, and the inputs of its edges fix their polynomials |
| BuiltProtocols.BuiltVerdict | src/backend/prover.hpp:69-170 | a well-typed program in general position, built and proved with an acyclic final graph: everything corrupted parties hold is a function of final random nodes and of corrupted inputs and outputs without in-edges |
| FrontendPrograms.ListingWf | src/backend/graph_builder.hpp:30-142 | the parts of any expression, each listed once after its own parts, are a program the builder accepts |
| FrontendPrograms.ListingTyped | src/backend/graph_builder.hpp:30-142 | that program is well typed over the world's field and points if its items are |
| FrontendMeaning.MeaningIs | src/backend/graph_builder.hpp:30-142 | in every world the meaning of a listed expression is its value |
| CircuitPrograms.CircuitTyped | src/bgwfrontend/variable.hpp:20-111 | the program of every circuit over secrets and given sharings, yielded to any party, is well typed |
| CircuitPrograms.CircuitStartable | src/bgwfrontend/variable.hpp:20-111 | so the graph built for it meets the standing conditions of the prover |
| CircuitPrograms.CircuitComputes | src/bgwfrontend/variable.hpp:20-111 | for all secrets, given sharings and coefficients some assignment makes that graph compute the clear-text value at the yielded output |
| CircuitPrograms.HandoverTyped | src/bgwfrontend/variable.hpp:20-70 | a concrete instance: three parties, one secret shared and reconstructed at another party |
| Executions.ExecutionsSatisfy | src/backend/graph_builder.hpp:30-142 | in every world the values of the frontend's expressions at their nodes, and the random coefficients at the drawn ones, satisfy every edge of the built graph in the prover's semantics |
| CircuitExecutions.CircuitExecutes | src/bgwfrontend/variable.hpp:20-111 | every execution of a circuit is a solution of its graph and has the clear-text value at the node of the yielded output |
| CircuitExecutions.CircuitVerdict | src/backend/prover.hpp:69-170 | if an attempt on the graph of a circuit in general position succeeds with an acyclic final graph, two executions that agree on its random nodes and on corrupted inputs and outputs without in-edges agree on everything corrupted parties hold, whatever the secrets |

## Left out

- Simulation security: the statements are about solution sets, numbers of random nodes and determinacy, not about probability distributions.
- Runs.ViewDetermined: acyclicity of the final graph is a hypothesis; nothing in the program checks it.
- Runs.RunKeeps: asks that the sources of each step fix the polynomial; without that it is false (`RunChanges`), and for dealt and masked sharings the exact condition is given.
- Expressions.ReconstructAt: the types of shares, a mismatch of which is an error as well, are not modelled.
- BuiltProtocols.BuiltStartable: a reconstruction may have at most one expression in common with any other sharing, and constant terms are no public constants; otherwise the conditions on sharings fail.
- Provers.Prover.ProveExactly: asks for I <= T, which the program does not check; beyond T the choice of source parties does not stop where it should.
- Tails.TrimStep: the cached random count after node deletion is only an upper bound, as in the program, where nothing reads it any more.
- `Graph::operator==`: it compares hash and counters and may only skip candidates; the model does the same through `KeyOf` and soundness does not rest on it.
- OpenMP: the sequential program is modelled; the parallel conjunction over start graphs is a conjunction.
- The memo maps of the builder are function-static and survive builds; one build with empty maps is modelled.
- Expressions are trees in the frontend and positions in a program whose operands come earlier in the builder, instead of heap objects: structurally equal expressions are one. Types, names and contexts are not modelled.
- `Variable::operator=(Expression&)` on a variable that already has shares, which appends to them.
- ProductGuards.CircuitProductAccepted: asks that the circuit end in the product; an equal product elsewhere in a circuit would have the same local products, which are one node in the model and two in the program.
- Assignment operators of `mpclib` shares, party registration, message queues and random generation.
- The gate counters of the frontend are unbounded; in the program they are `int`.
- EVAL's point, which the lowering drops, is taken from the expression an edge computes.
- Logging, printing, names, registries and the text of exceptions.
- Everything under `external/`: persistent vectors and sets are sequences and sets.

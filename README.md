# Local state discrimination: classical, no-signalling and quantum values

This project models the index arithmetic and combinatorics of a small
research code base about the game of local state discrimination (LSSD). In
the game a referee draws a combination (x, a, b, c) uniformly from a subset of
the 16 binary combinations. The players see only their own inputs a, b and c,
and they win when all of their answers equal x. The programs compute the
following, and this model covers each of them:

- `Classical.py`: the best classical value. A strategy is three functions from
  bits to bits; the module tries all 64 triples.
- `no-signalling.py`: the best no-signalling value, as a linear program over
  the 64 variables q(xa, xb, xc | a, b, c). The sweep in its main block
  compares it with the classical value for every one of the 2^16 - 1
  non-empty subsets.
- `polytope_extrema.py`: the [b | -A] rows (a right-hand side b, then the
  negated coefficients) handed to cdd for the no-signalling polytopes of
  seven topologies: three binary players, and two players with binary
  questions and answers, with three answers (x3), with three inputs for A
  (a3), with three inputs for both (ab3), with three answers and three
  inputs (xa3), and with four answers (x4).
- `filter_strategies.py`: sorting the polytope's vertices into relevant
  deterministic and relevant non-deterministic strategies, and writing them
  to text.
- `optimal_gap.py`: the gap programs. They search for a distribution under
  which one no-signalling strategy beats every deterministic one by the
  largest margin. The drivers take the best gap.
- `first_sdp.py`: the embedding of complex matrices in real ones, the block
  diagonal `combine`, and the semidefinite program that discriminates two
  qubit states.
- `clas_strat_one_party_quantum.py`: the variant of that program where player
  2 answers with a fixed classical function.

Solvers are not modelled: a linear or semidefinite program is a value, and
its optimum is an abstract function parameter (`solve`). Numbers are exact
reals. Files become strings. Fraction parsing is an abstract
`parse: string -> real`.

Module layout (one file each):

- `Index`: bitstrings, `'{0:0wb}'.format`, `int(s, 2)` and the flat layouts.
- `Sums`, `Folds`: sums over ranges and the running maximum.
- `Games`: the 16 combinations and the mask-to-subset decoding.
- `Classical`.
- `Text`: Python's `split`, `join` and slicing.
- `Filter`.
- `Rows`: rows built from lists of assignments, and their value at a point.
- `Polytope`: the seven builders.
- `PolytopeProps` and `ThreePlayerProps`: what the rows mean.
- `Lp`: PuLP programs as data.
- `NoSignallingLp`.
- `OptimalGap`.
- `Sdp`.
- `OneParty`.

## Model

| member | source | states |
|---|---|---|
| Classical.BinFuncsAreAllBinaryFunctions | Classical.py:4-15 | id, not, bot and top map bits to bits, not flips a bit, and every truth table (v0, v1) is the table of exactly one of the four |
| Classical.WinCount | Classical.py:28-30 | the number of won combinations never exceeds the length of the subset |
| Classical.WinProbIsProbability | Classical.py:18-35 | the winning probability of any triple on a non-empty subset lies in [0, 1] |
| Classical.FindWinProb | Classical.py:18-35 | the counting loop returns the share of the subset won by (f, g, h), a number in [0, 1] |
| Classical.AllWinProbsAt | Classical.py:50-53 | entry 16·fi + 4·gi + hi of the enumeration is the probability of (bin_funcs[fi], bin_funcs[gi], bin_funcs[hi]) |
| Classical.OptimalIsBestTriple | Classical.py:39-57 | the optimum bounds the probability of every triple, is attained by some triple, and is the strict running maximum from 0 over the enumeration |
| Classical.FindOptimalStrategy | Classical.py:39-57 | the triple loop returns the optimum: at least every triple's probability and equal to one of them |
| Classical.BotTopCover | Classical.py:11-15 | on a binary subset, the all-bot and the all-top strategies together win every combination exactly once |
| Classical.OptimalAtLeastHalf | Classical.py:75-76 | every non-empty binary game is won with probability at least 1/2 |
| Classical.OptimalOfSingleton | Classical.py:39-57 | a game with one combination is won with certainty |
| Classical.ClassicalSweep | Classical.py:67-76 | the sweep over all masks 1 .. 2^16 - 1 prints nothing |
| Games.UniverseAt | Classical.py:61-64 | combination j of the list is the 4-bit string of j, and it is binary |
| Games.UniverseIsAllCombos | Classical.py:61-64 | every binary combination appears in the list exactly once, at 8x + 4a + 2b + c |
| Games.SubsetOfMask | Classical.py:68-73 | the loop builds the subset of the mask, and combination j is in it exactly when bit 15 - j of the mask is set |
| Games.MaskSubsetMembers | no-signalling.py:100-105 | combination j is in the subset of mask i exactly when bit 15 - j of i is set |
| Games.MaskSubsetNonEmpty | no-signalling.py:99-105 | every mask from 1 up gives a non-empty binary subset, so the divisions by len(subset) are defined |
| Games.MaskSubsetInjective | no-signalling.py:99-105 | distinct masks below 2^16 select distinct subsets |
| Index.BitsValueOfToBits | no-signalling.py:35-37 | reading back the w-bit string of i < 2^w gives i |
| Index.ToBitsOfBitsValue | no-signalling.py:35-37 | every bitstring is the w-bit string of its value, and that value is below 2^w |
| Index.BitsValueAppend | no-signalling.py:63 | the value of a concatenation is the left value shifted by the right length plus the right value |
| Index.ToBitsAt | no-signalling.py:36-37 | character j of the w-bit string of i is bit w-1-j of i |
| Index.Flat6Bijection | no-signalling.py:20-27 | the six-bit index of an assignment is below 64 and decodes back to the assignment |
| Index.Unflat6Bijection | no-signalling.py:20-27 | every index below 64 is the index of the assignment it decodes to |
| Index.Flat2Bijection | polytope_extrema.py:145-153 | the flat index of an in-range two-player assignment is below the layout's size and decodes back |
| Index.Unflat2Bijection | polytope_extrema.py:145-153 | every index below the size decodes to an in-range assignment whose index it is |
| Index.Flat2Distinct | polytope_extrema.py:145-153 | distinct in-range assignments have distinct flat indices |
| Index.Flat2Blocks | polytope_extrema.py:182-188 | a flat index splits as (output pair) · (number of input pairs) + (input pair) |
| Text.Split | filter_strategies.py:86 | split always yields one more piece than the string has separators |
| Text.JoinOfSplit | filter_strategies.py:86 | joining the pieces of a split with the separator gives back the string |
| Text.SplitOfJoin | filter_strategies.py:69-71 | splitting a join of separator-free pieces gives back the pieces |
| Text.Trimmed | filter_strategies.py:86 | line[3:len(line)-1] has length len(line) - 4, or 0 for short lines, and character k is line[k + 3] |
| Filter.IsRelevant | filter_strategies.py:8-21 | the loop returns the result of the relevance test, including the IndexError the first out-of-range read raises |
| Filter.RelevantMeaning | filter_strategies.py:8-21 | a strategy of 64 or more entries is relevant exactly when some diagonal entry q(xxx ∣ abc) exceeds 1/2; one of 56 or fewer raises IndexError |
| Filter.DiagonalEntry | filter_strategies.py:14-19 | the strings '000' + bitstring and '111' + bitstring name the diagonal entries of the flat layout |
| Filter.TermIndexIsSourceIndex | filter_strategies.py:33-41 | the strings assembled in the three loops, read in base 2, are the entries of the marginal they sum |
| Filter.SourceIndex | filter_strategies.py:34-38 | the index read from target and sum_variables is the marginal's term k for player p |
| Filter.ConditionalProb | filter_strategies.py:33-41 | one marginal is the sum of its four entries when they are in range, and IndexError otherwise |
| Filter.IsDeterministic | filter_strategies.py:23-63 | the three loops return the result of the determinism test, IndexError included |
| Filter.DeterministicMeaning | filter_strategies.py:23-63 | a strategy is deterministic exactly when each of the twelve marginals Q(x∣a) of the three players is 0 or 1 |
| Filter.ProductIsDeterministic | filter_strategies.py:23-63 | every product of three classical functions of full length is recognised as deterministic |
| Filter.WriteToFile | filter_strategies.py:65-73 | the written text joins each strategy with spaces and the strategies with newlines |
| Filter.FileTextRoundTrip | filter_strategies.py:65-73 | splitting the written text at newlines and then at spaces gives back the strategies, when there is at least one and no token holds a space or newline |
| Filter.FilterThreePlayers | filter_strategies.py:75-93 | the filter over the vertex lines returns the two file texts its sorting determines, or the first IndexError |
| Filter.FilterStopsAtError | filter_strategies.py:84-91 | once a test raises, the whole filter ends with that error |
| Filter.SelectMeaning | filter_strategies.py:87-91 | the deterministic list holds only relevant deterministic strategies and the other only relevant non-deterministic ones; together they are no more than the candidates; when no test raises, a relevant candidate is in the deterministic list exactly when it is deterministic and in the other exactly when it is not, and the two lists together hold each relevant candidate as often as it occurs |
| Filter.SelectInOrder | filter_strategies.py:87-91 | each list is a subsequence of the candidate lines: its entries are the candidates at strictly increasing positions |
| Filter.SortedMeaning | filter_strategies.py:84-91 | the sort raises exactly when some vertex line crashes a test, and otherwise it splits the candidate lines by the two tests |
| Filter.FilterPartition | filter_strategies.py:75-93 | the filter fails exactly when some line makes a test raise; otherwise the two lists are the order-kept selections of the candidates, each relevant candidate goes to the deterministic list exactly when it is deterministic and to the other exactly when it is not, and together they hold the relevant candidates with their multiplicities |
| Rows.MakeRule | polytope_extrema.py:33-39 | building a row allocates n + 1 zeros, puts b in column 0 and applies the assignments in order |
| Rows.ValueOfRule | polytope_extrema.py:33-39 | with distinct target columns, a built row is worth b plus the sum of coefficient times q at each target |
| Rows.CoefAt | polytope_extrema.py:33-39 | an untargeted column stays 0, and with distinct targets the column of an assignment holds its coefficient |
| Polytope.Positivity | polytope_extrema.py:20-26 | the positivity loop produces row i with 0 in column 0 and 1 in column i + 1, for each variable |
| Polytope.Distribution | polytope_extrema.py:122-130 | the distribution loop produces, for each input tuple i, the row 1∣-1 at column j·K + i + 1 for every output tuple j |
| Polytope.ThreePlayerRuleA | polytope_extrema.py:32-39 | the spelled-out body of A's loop builds the no-signalling row of party A at the others' bits |
| Polytope.ThreePlayerRuleB | polytope_extrema.py:41-48 | the spelled-out body of B's loop builds the no-signalling row of party B |
| Polytope.ThreePlayerRuleC | polytope_extrema.py:50-57 | the spelled-out body of C's loop builds the no-signalling row of party C |
| Polytope.ThreePlayerNoSignalling | polytope_extrema.py:31-58 | the three loops produce the 48 rows for A, then B, then C, each over the 16 bitstrings |
| Polytope.ThreePlayerDistribution | polytope_extrema.py:63-75 | the loop indexing by int(outcome + condition, 2) produces the distribution rows of eight input and eight output triples |
| Polytope.ThreePlayers | polytope_extrema.py:11-86 | three_players hands cdd 64 positivity, 48 no-signalling and 8 distribution rows |
| Polytope.BinaryRuleA | polytope_extrema.py:102-109 | the body of the first loop is the A-side row of the binary layout for B's output i / 2 and input i % 2 |
| Polytope.BinaryRuleB | polytope_extrema.py:111-118 | the body of the second loop is the B-side row for A's output i / 2 and input i % 2 |
| Polytope.BinaryNoSignallingA | polytope_extrema.py:102-109 | the first loop produces the A-side rows of the binary layout |
| Polytope.BinaryNoSignallingB | polytope_extrema.py:111-118 | the second loop appends the B-side rows |
| Polytope.BinaryDistribution | polytope_extrema.py:122-130 | the distribution loop of two_players produces the four distribution rows |
| Polytope.TwoPlayers | polytope_extrema.py:88-138 | two_players hands cdd 16 positivity, 8 no-signalling and 4 distribution rows of the binary layout |
| Polytope.X3WritesA | polytope_extrema.py:158-167 | the spelled-out cells of x3's A-side row are those of the generic row |
| Polytope.X3NoSignallingA | polytope_extrema.py:158-167 | x3's loop over B's outputs and inputs produces the A-side rows |
| Polytope.X3WritesB | polytope_extrema.py:169-178 | the spelled-out cells of x3's B-side row are those of the generic row |
| Polytope.X3NoSignallingB | polytope_extrema.py:169-178 | x3's loop over A's outputs and inputs appends the B-side rows |
| Polytope.TwoPlayersX3 | polytope_extrema.py:140-197 | two_players_x3 hands cdd 36 positivity, 12 no-signalling and 4 distribution rows |
| Polytope.A3WritesA | polytope_extrema.py:217-231 | a3's spelled-out A-side rows compare A's inputs 0 with 1 and 1 with 2 |
| Polytope.A3NoSignallingA | polytope_extrema.py:217-231 | a3's loop over B's outputs and inputs produces the A-side rows |
| Polytope.A3WritesB | polytope_extrema.py:233-240 | a3's spelled-out B-side row is the generic row |
| Polytope.A3NoSignallingB | polytope_extrema.py:233-240 | a3's loop over A's outputs and inputs appends the B-side rows |
| Polytope.TwoPlayersA3 | polytope_extrema.py:199-259 | two_players_a3 hands cdd 24 positivity, 14 no-signalling and 6 distribution rows |
| Polytope.AB3WritesA | polytope_extrema.py:279-293 | ab3's spelled-out A-side rows compare A's inputs 0 with 1 and 1 with 2 |
| Polytope.AB3NoSignallingA | polytope_extrema.py:279-293 | ab3's first loop produces the A-side rows |
| Polytope.AB3WritesB | polytope_extrema.py:295-309 | ab3's spelled-out B-side rows compare B's inputs 0 with 1 and 1 with 2 |
| Polytope.AB3NoSignallingB | polytope_extrema.py:295-309 | ab3's second loop appends the B-side rows |
| Polytope.TwoPlayersAB3 | polytope_extrema.py:261-328 | two_players_ab3 hands cdd 36 positivity, 24 no-signalling and 9 distribution rows |
| Polytope.XA3WritesA | polytope_extrema.py:348-366 | xa3's spelled-out A-side rows compare A's inputs 0 with 1 and 1 with 2 |
| Polytope.XA3NoSignallingA | polytope_extrema.py:348-366 | xa3's first loop produces the A-side rows |
| Polytope.XA3WritesB | polytope_extrema.py:368-377 | xa3's spelled-out B-side row is the generic row |
| Polytope.XA3NoSignallingB | polytope_extrema.py:368-377 | xa3's second loop appends the B-side rows |
| Polytope.TwoPlayersXA3 | polytope_extrema.py:330-396 | two_players_xa3 hands cdd 54 positivity, 21 no-signalling and 6 distribution rows |
| Polytope.X4WritesA | polytope_extrema.py:417-428 | x4's spelled-out A-side row is the generic row |
| Polytope.X4NoSignallingA | polytope_extrema.py:417-428 | x4's first loop produces the A-side rows |
| Polytope.X4WritesB | polytope_extrema.py:430-441 | x4's spelled-out B-side row is the generic row |
| Polytope.X4NoSignallingB | polytope_extrema.py:430-441 | x4's second loop appends the B-side rows |
| Polytope.TwoPlayersX4 | polytope_extrema.py:399-460 | two_players_x4 hands cdd 64 positivity, 16 no-signalling and 4 distribution rows |
| PolytopeProps.PositivityRowsMeaning | polytope_extrema.py:20-26 | the positivity rows hold exactly at the non-negative points |
| PolytopeProps.DistributionValue | polytope_extrema.py:122-130 | a distribution row is 1 minus the sum of q over the outputs of its input tuple |
| PolytopeProps.NsRowAValue | polytope_extrema.py:102-109 | an A-side row is B's marginal at A's input k minus that at k + 1 |
| PolytopeProps.NsRowBValue | polytope_extrema.py:111-118 | a B-side row is A's marginal at B's input k minus that at k + 1 |
| PolytopeProps.NsRowsAMeaning | polytope_extrema.py:217-231 | the A-side rows hold exactly when A's input is invisible in B's marginal; consecutive comparisons chain to all inputs |
| PolytopeProps.NsRowsBMeaning | polytope_extrema.py:295-309 | the B-side rows hold exactly when B's input is invisible in A's marginal |
| PolytopeProps.DistributionRowsMeaning | polytope_extrema.py:122-130 | the distribution rows hold exactly when every input pair has total probability 1 |
| PolytopeProps.TwoPlayerFeasible | polytope_extrema.py:88-138 | a point satisfies the rows of a two-player builder exactly when it is a no-signalling conditional distribution of that topology |
| PolytopeProps.DeterministicIsFeasible | polytope_extrema.py:88-138 | a deterministic strategy is a no-signalling point and satisfies every row of every two-player builder |
| ThreePlayerProps.NsRow3Value | polytope_extrema.py:31-58 | row (P, bs) is the others' marginal at P's input 0 minus that at input 1 |
| ThreePlayerProps.NsRows3Meaning | polytope_extrema.py:31-58 | the 48 no-signalling rows hold exactly when no player's input is visible in the other two's marginal |
| ThreePlayerProps.ThreePlayerFeasible | polytope_extrema.py:11-86 | a point satisfies the rows of three_players exactly when it is a no-signalling conditional distribution of three binary players |
| ThreePlayerProps.ProductIsFeasible | polytope_extrema.py:11-86 | every product of three classical functions satisfies every row of three_players |
| Lp.EvalAppend | no-signalling.py:70 | the value of two lists of terms is the sum of their values |
| NoSignallingLp.NsConstraintOf | no-signalling.py:35-54 | the spelled-out body of each of the three loops builds the equality of that party at the 4-bit string of i |
| NoSignallingLp.NormConstraintOf | no-signalling.py:61-63 | the normalisation of condition i sums the variables int('{0:03b}'.format(j) + bitstring, 2) |
| NoSignallingLp.FindMaxWinProb | no-signalling.py:12-85 | for a non-empty subset of binary combinations, find_max_win_prob returns the solver's value of the program it builds |
| NoSignallingLp.DiagonalIndexIsFlat | no-signalling.py:70 | the variable 3·str(x) + a b c is q(x, x, x∣a, b, c), at 56x + 4a + 2b + c |
| NoSignallingLp.NsConstraintIsRow | no-signalling.py:35-54 | each equality of the program uses the cells and signs of the matching row of three_players and has the same value |
| NoSignallingLp.NormConstraintIsRow | no-signalling.py:61-63 | the normalisation of condition i holds exactly where distribution row i of three_players is 0 |
| NoSignallingLp.NsProgramFeasible | no-signalling.py:25-63 | the feasible region of the program is the polytope three_players describes: the no-signalling distributions of three binary players |
| NoSignallingLp.ObjectiveCoefficients | no-signalling.py:69-70 | every element adds 1/len(subset) to its diagonal variable, duplicates accumulating, and the coefficients sum to 1 |
| NoSignallingLp.ObjectiveAtProduct | no-signalling.py:65-71 | at the product point of a classical triple, the objective is that triple's winning probability as find_win_prob computes it |
| NoSignallingLp.NoSignallingAtLeastClassical | no-signalling.py:107-110 | any bound the solver reports on the program is at least the classical optimum |
| NoSignallingLp.MaskReport | no-signalling.py:100-116 | the body of the sweep for one mask prints one report exactly when the two values differ |
| NoSignallingLp.SweepOutcome | no-signalling.py:99-116 | every printed line records the mask's subset, a no-signalling and a classical value that differ, and with a sound solver the no-signalling one is larger |
| NoSignallingLp.NoSignallingSweep | no-signalling.py:99-116 | the main loop prints exactly the reports of the masks 1 .. 2^16 - 1 whose two values differ |
| OptimalGap.TwoBinaryIndex | optimal_gap.py:18-19 | the bitstring xab names variable 4x + 2a + b, and xxab names entry 12x + 2a + b of the strategy |
| OptimalGap.ThreeBinaryIndex | optimal_gap.py:62-66 | the bitstring xabc names variable 8x + 4a + 2b + c, and xxxabc names entry 56x + 4a + 2b + c |
| OptimalGap.TwoBinarySlotIsDiagonal | optimal_gap.py:18-19 | the entry two_player_binary_LP_pulp weighs is q(x, x∣a, b) of the two_players layout |
| OptimalGap.ThreeBinarySlotIsDiagonal | optimal_gap.py:62-66 | the entry three_player_binary_LP_pulp weighs is q(x, x, x∣a, b, c) of the three_players layout |
| OptimalGap.TwoX3SlotIsDiagonal | optimal_gap.py:126-127 | the entry 16x + ab that two_player_x3_LP_pulp weighs is q(x, x∣a, b) of the two_players_x3 layout |
| OptimalGap.StrategyTerms | optimal_gap.py:125-127 | the comprehension with the source's index formulas gives the payoff terms of the strategy |
| OptimalGap.StrategyConstraints | optimal_gap.py:119-135 | the normalisation, the deterministic and the no-signalling constraints come in the source's order, with equality for strategy set_to_equality |
| OptimalGap.TwoPlayerBinaryLp | optimal_gap.py:5-47 | two_player_binary_LP_pulp returns the solver's objective for the gap program, whatever the status |
| OptimalGap.ThreePlayerBinaryLp | optimal_gap.py:49-100 | three_player_binary_LP_pulp returns the solver's objective for the gap program, whatever the status |
| OptimalGap.TwoPlayerX3Lp | optimal_gap.py:102-190 | returns (objective, count) on status 1, with count raised exactly when show is set, the objective is positive and the mode is "gap"; (0, count) otherwise |
| OptimalGap.FeasibleIff | optimal_gap.py:119-145 | a point satisfies the model exactly when P is a distribution, max_det bounds every deterministic payoff, max_ns equals the chosen payoff and bounds the others, and the mode's condition holds |
| OptimalGap.GapObjectiveBounds | optimal_gap.py:29-35 | in "gap" mode a feasible objective is at least 0 and at most the chosen payoff minus any deterministic payoff |
| OptimalGap.MaxGapTwoPlayerBinary | optimal_gap.py:192-202 | the driver returns the largest of 0 and the gaps of all choices of set_to_equality |
| OptimalGap.MaxGapThreePlayerBinary | optimal_gap.py:204-214 | the driver returns the largest of 0 and the gaps of all choices of set_to_equality |
| OptimalGap.MaxGapTwoPlayerX3 | optimal_gap.py:216-227 | the driver returns the largest of 0 and the gaps of the 24 listed strategies in "bias" mode, and the count stays 0 |
| Folds.RunningMaxIsMax | optimal_gap.py:196-200 | the running maximum from init is at least init and every element, and is init or one of them |
| Folds.StrictIsNonStrict | Classical.py:55-56 | updating on > instead of >= changes only which tied element is kept, never the value |
| Sdp.ComplexToReal | first_sdp.py:37-48 | complex_to_real stacks the rows Re m[i], -Im m[i] and then Im m[i], Re m[i] |
| Sdp.RealEmbeddingBlocks | first_sdp.py:37-48 | the embedding has the blocks Re M, -Im M over Im M, Re M |
| Sdp.RealToComplex | first_sdp.py:50-56 | real_to_complex fills entry (i, j) with r[i][j] - r[i][j + cols/2]·i |
| Sdp.ComplexOfRealEmbedding | first_sdp.py:142-145 | real_to_complex undoes complex_to_real |
| Sdp.RealEmbeddingOfComplexOf | first_sdp.py:50-56 | on embeddings, complex_to_real undoes real_to_complex |
| Sdp.Combine | first_sdp.py:58-69 | combine stacks the rows of q1 padded with zeros over the rows of q2 after zeros |
| Sdp.BlockDiagonalBlocks | first_sdp.py:58-69 | q1 sits top-left and q2 bottom-right, and the other two blocks are zero |
| Sdp.RealEmbeddingSymmetric | first_sdp.py:117-121 | the embedding of a Hermitian matrix is symmetric, like the variable X |
| Sdp.OnesMatrix | first_sdp.py:80-83 | allocating np.zeros((n, n)) and setting the listed entries to 1 gives the matrix of those ones |
| Sdp.TraceConstraints | first_sdp.py:76-104 | the two loop nests produce the 16 zero-block matrices and then the 16 POVM matrices, with their values |
| Sdp.TraceConstraintShapes | first_sdp.py:72-104 | there are 32 matrices, each 8×8, and as many values |
| Sdp.TraceOnes | first_sdp.py:120 | with distinct positions, trace(A @ X) is the sum of X over the transposed positions of the ones of A |
| Sdp.ZeroBlockMeaning | first_sdp.py:76-85 | for a symmetric X, a zero-block constraint holds exactly when the entry it selects in an off-diagonal block is 0 |
| Sdp.PovmMeaning | first_sdp.py:89-104 | a POVM constraint holds exactly when its sum of four entries equals 1 for i == j and 0 otherwise |
| Sdp.DiscriminateTwoStates | first_sdp.py:71-121 | discriminate_two_states hands the solver the objective complex_to_real(combine(q1/4, q2/4)) and the 32 constraints |
| Sdp.DiscriminationFeasible | first_sdp.py:117-120 | a matrix is feasible exactly when it is symmetric, its off-diagonal blocks vanish and every POVM condition holds |
| Sdp.WeightedCostSymmetric | first_sdp.py:112-113 | for Hermitian states the objective is a symmetric 8×8 matrix |
| OneParty.CalcConstant | clas_strat_one_party_quantum.py:5-16 | calc_constant returns the share of the subset's pairs (x, b) with f(b) = x |
| OneParty.MatchesBelowIsMatches | clas_strat_one_party_quantum.py:8-15 | summing over b first and over the pairs second counts the same pairs |
| OneParty.WeightBounds | clas_strat_one_party_quantum.py:5-16 | each constant is a probability in [0, 1] |
| OneParty.WeightsAddUp | clas_strat_one_party_quantum.py:55-56 | the two constants add up to the classical winning probability of f, at most 1 |
| OneParty.StrategySdp | clas_strat_one_party_quantum.py:18-76 | SDP returns the solver's value of the program with objective complex_to_real(combine(c0/2·q0, c1/2·q1)) and the discrimination constraints |
| OneParty.StrategyObjectiveSymmetric | clas_strat_one_party_quantum.py:59-60 | for Hermitian states the objective is symmetric, whatever f |
| OneParty.IdentityStrategyDiscriminates | clas_strat_one_party_quantum.py:90-91 | with the pairs (0,0), (1,1) and the identity strategy, the program is the one that discriminates the two states |
| OneParty.MaxClassWinProb | clas_strat_one_party_quantum.py:78-85 | max_class_win_prob returns the largest of 0 and the values of the four classical strategies of player 2 |

## Left out

- The solvers (PuLP with CBC, cvxpy) are not modelled. Their optimum is a function parameter, and `SolverSound` states what a correct optimum satisfies. The semidefinite constraint X >> 0 is part of the solver's problem and is not stated.
- pycddlib is not modelled: the canonicalisation, the polyhedron, the generator output and the printing of the vertices. A builder's result is the three lists of rows it hands to cdd, with the no-signalling and distribution rows marked linear.
- Reading and writing files, and all printing. The texts the filter writes are returned as strings. `read_strategies_from_file` is out: the drivers take the strategy lists already parsed.
- Python's `Fraction(str)` parsing is the abstract `parse`. Floating point is modelled as exact reals, so `math.isclose` becomes exact inequality, and 0.5/0.4 and 0.5/0.2 are exactly 1.25 and 2.5.
- `example()` in first_sdp.py draws random data and is left out. So are the commented-out calls in the main blocks.
- The matrix functions of first_sdp.py are modelled generally. The programs are modelled only for 2×2 states, the size the code's fixed 8×8 constraint matrices allow.
- Classical.FindWinProb: requires a non-empty subset. The source divides by len(subset) and raises ZeroDivisionError on the empty one, and every caller sweeps masks from 1, which are non-empty (`Games.MaskSubsetNonEmpty`).
- NoSignallingLp.FindMaxWinProb: requires a non-empty subset, for the same division.
- NoSignallingLp.FindMaxWinProb: also requires every combination to be binary, and so does `NsProgram`. The source builds the objective index with `int(3*str(x) + str(a) + str(b) + str(c), 2)`. Outside {0, 1} that raises ValueError when a decimal digit other than 0 or 1 appears, as for (2, 0, 0, 0). With digits 0 and 1 only it raises IndexError once the index reaches 64, as for (10, 0, 0, 0). Otherwise it reads another variable without complaint: (0, 10, 0, 0) gives "0001000", that is q[8]. None of these three behaviours is modelled. Every caller passes combinations from `possible_combinations`, which are binary (`Games.MaskSubsetNonEmpty`).
- OneParty.CalcConstant: requires a strategy of length at least 2, since the source reads f[0] and f[1]. An empty subset gives 0, as in the source, where the inner loop never divides.
- OptimalGap.TwoPlayerX3Lp: does not model the IndexError that `ns_strats[set_to_equality]` raises on the printing path when set_to_equality is out of range. The driver passes in-range strategy numbers, and in "bias" mode that path is never taken.
- The ternary builders compare consecutive inputs, 0 with 1 and 1 with 2, as the code does, rather than each input against input 0. Both give the same polytope, and `PolytopeProps.NsRowsAMeaning` proves the chained form equivalent to all inputs being invisible.

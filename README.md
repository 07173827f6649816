# A verified model of the alphageometry-ascent fact store

This project models the core of a small Euclidean-geometry prover in Dafny:

- **Relations** (`relations.dfy`, relations.py): the geometric predicates. Each predicate
  class becomes one constructor of `Pred` that holds the class's `data`. Unordered
  `frozenset`s become Dafny sets, so a predicate and its symmetric forms are the same
  value. The module also models the composite unfolding `to_sub_data`, the composite part
  of `is_valid`, and the linear rows that each predicate hands to the algebraic reasoner.
- **Problems** (`problem.dfy`, problem.py): the `Problem` fact store is a class with:
  - the derivation lists of each predicate, with their key order;
  - the deduction buffer;
  - the two validity caches.

  Its methods are proved against `Add`/`AddAll`, which specify `_add_predicate` on values.
  The same class holds the exhaustive candidate scan `search_ar` and the proof extraction
  `__str__`.
- **ProofOrder** (`proof_order.dfy`): what proof extraction computes:
  - rule priorities;
  - the best-derivation choice;
  - the reachable set as a least closed set;
  - the placement order and the printed steps.
- **ReadInRelations** (`read_in_relations.dfy`, read_in_relations.py): the problem-string
  parser, with the reflective registry written out as a fixed name → arity table.
- **Solve** (`solve.dfy`, solve.py): the manual-mode point scan of `construct_problem`, and
  the bounded loop of `prove`. The scan splits on whitespace only, so a name written after
  a comma (`col A,B,C`) is not declared. The parser does accept commas, so such a problem
  then fails with a missing point (`Solve.PointTableMeans`).
- **Ascent** (`ascent_lib.dfy`, src/lib.rs): `AscentProgram`, a name → list-of-facts
  table, and `GraphProgram`, whose `run` computes `path` as the transitive closure of
  `edge`.

Some inputs are parameters of the model:

- Floating-point geometry (the `isclose`/`atan2` comparisons inside the leaf `is_valid`
  methods) is the oracle `geometry: Pred -> bool`.
- The algebraic reasoner's answers are functions `ar: Pred -> seq<Deduction>`.
- Python's set iteration order is an explicit listing. Where it only affects the order of
  a mutation, it is a ghost out-parameter (`visit`, `visits`, `pts`).

`Deduction` has three fields (predicate, parent set, rule name). This follows how
problem.py builds and reads it (problem.py:52, 103, 114-118, 296). The dataclass in
relations.py:139-145 declares only the first two.

## Model

| member | source | states |
|---|---|---|
| `Relations.SegmentRelationsSymmetric` | relations.py:215-258 | Cong, Perp (and Para, relations.py:393-394) ignore the order inside each segment and the order of the two segments |
| `Relations.EqangleSymmetric` | relations.py:337-338 | swapping the two angles of an Eqangle gives the same predicate |
| `Relations.EqangleKeepsOrder` | relations.py:331-338 | reversing one angle A-B-C to C-B-A gives a different Eqangle: each triple keeps its order |
| `Relations.ClassesNeverEqual` | relations.py:152-155 | predicates of different classes are never equal, even with equal data |
| `Relations.ColIsAllSidePairs` | relations.py:202-209 | for distinct points, Col's data is the set of Para facts over every pair of distinct sides |
| `Relations.ColPermutationInvariant` | relations.py:208-209 | Col(a, b, c) is the same predicate under all six permutations of its points |
| `Relations.SubDataSound` | relations.py:168-181 | every sub-deduction derives a predicate nested in p from the single composite that directly holds it |
| `Relations.SubDataComplete` | relations.py:168-181 | every child of p or of a nested composite is derived, in to_sub_data, from that composite |
| `Relations.SubDataClosed` | relations.py:174-179 | the sub-data of any sub-fact is contained in the sub-data of the whole |
| `Relations.ColSubData` | relations.py:168-181 | Col unfolds into exactly its three Para facts, each with parent set {the Col} |
| `Relations.CompositeValidIffNestedValid` | relations.py:189-199 | a composite is valid iff every predicate nested in it, at any depth, is valid |
| `Relations.SubDataOfValidIsValid` | relations.py:189-199 | every sub-fact of a valid predicate is valid |
| `Relations.AsWrittenGuardAlwaysPasses` | relations.py:405-408 | as written, every Para, Sameclock and Eqratio built by the constructors passes is_valid, whatever the geometry |
| `Relations.AsWrittenAcceptsRejectedPara` | relations.py:405-416 | a concrete Para of two perpendicular segments passes the as-written check but fails the intended one |
| `Relations.LeafValidConsultsGeometry` | relations.py:405-416 | with the intended guard, a well-formed two-component Para/Sameclock/Eqratio is valid exactly when the geometric comparison accepts it |
| `Relations.Bump` | relations.py:348-352 | `data[k] = data.get(k, 0) + v` adds v at k, leaves every other key's value alone and adds k to the keys |
| `Relations.SignedRow` | relations.py:348-352 | the accumulated row gives each segment +1 per occurrence as a or d and -1 per occurrence as b or c, so coinciding segments add up |
| `Relations.SignedRowBalanced` | relations.py:340-353 | the coefficients of an Eqangle row sum to 0 |
| `Relations.PairCoeffsBalanced` | relations.py:396-403 | the Para/Cong row of two different segments is +1/-1 and sums to 0 |
| `Relations.RatioCoeffsAsWrittenUnbalanced` | relations.py:547-562 | as written, an Eqratio whose two ratios share a numerator gets a row summing to -1; the additive row sums to 0 and cancels the shared segment |
| `Relations.EqratioSharedNumerator` | relations.py:540-562 | `eqratio A B C D A B E F` over distinct points has exactly such data, so its as-written row sums to -1 |
| `Relations.AngleRowsBalanced` | relations.py:340-353 | every Para or Eqangle angle row has constant 0 and coefficients summing to 0; a composite's rows all come from Para/Eqangle predicates nested in it |
| `Relations.LeafAngleRowSingle` | relations.py:340-353 | a Para, Perp, Eqangle or Aconst with angle rows has exactly one, about itself; coinciding lines or angles give a row with no coefficients |
| `Relations.CoincidingAnglesEmptyRow` | relations.py:341-342 | `eqangle A B C A B C` gives one row with empty data |
| `Relations.CollectAngleRowsBalanced` | relations.py:125-136 | collect_rows over the Para/Col/Eqangle children yields only balanced rows of nested predicates |
| `Relations.RatioRowsBalanced` | relations.py:260-267 | every ratio row of every predicate sums to 0; a composite's ratio rows come from its Cong/Eqratio children |
| `Relations.LeafRatioRowCount` | relations.py:547-562 | a Cong has exactly one ratio row, empty when its segments coincide; an Eqratio has one row for two distinct ratios and none otherwise |
| `Relations.CoincidingRatiosNoRow` | relations.py:548-549 | `eqratio A B C D A B C D` contributes no ratio row |
| `Relations.CollectRatioRowsBalanced` | relations.py:125-136 | collect_rows over the Cong/Eqratio children yields only balanced rows of those children |
| `ProofOrder.PriorityRanks` | problem.py:188-197 | axiom < rfl < sub_deduction < any other rule (5) < AR < sym |
| `ProofOrder.PickBest` | problem.py:259-270 | no derivation is chosen iff none has all parents placed; otherwise the choice is eligible and has minimal priority |
| `ProofOrder.PickFirst` | problem.py:266-270 | among equally good eligible derivations the first in list order is chosen, as Python's min does |
| `ProofOrder.ReachUnique` | problem.py:199-215 | the reachable set is uniquely determined by the goals and the recorded derivations |
| `ProofOrder.PlacedParentsFirst` | problem.py:253-273 | in a placement, the chosen derivation belongs to the fact and each of its parents was placed earlier |
| `ProofOrder.RefsFromNumbering` | problem.py:276-293 | parent references read through the numbering name each parent exactly once, with a smaller step number |
| `Problems.PutFacts` | problem.py:102-105 | storing a derivation keeps every earlier entry, leaves the caches alone, and records that derivation and nothing else |
| `Problems.PutKeepsInv` | problem.py:102-105 | storing a derivation keeps the lists duplicate-free and the key order complete |
| `Problems.AddSubsFacts` | problem.py:109-121 | the sub-deduction loop records exactly the listed sub-facts, relabelled "sub_deduction", and extends the store |
| `Problems.CacheTransparent` | problem.py:91-100 | under the store invariant the caches never change the verdict: a predicate gets past them iff it is valid |
| `Problems.AddKeepsInv` | problem.py:75-121 | _add_predicate keeps the invariant (disjoint caches, duplicate-free lists) and every earlier entry, and p is a key afterwards |
| `Problems.AddRejected` | problem.py:88-100 | an invalid predicate is marked impossible and gains no derivation; a key inserted by this call has an empty list |
| `Problems.AddAccepted` | problem.py:102-121 | a valid predicate is marked possible; its derivation and every sub-deduction (parent set {the composite}) are recorded, and nothing else |
| `Problems.AddAllKeepsInv` | problem.py:47-54 | adding a sequence of derivations keeps the invariant and extends the store |
| `Problems.AddAllRecords` | problem.py:47-54 | after adding a sequence, every valid derivation of it is recorded |
| `Problems.PairsComplete` | problem.py:146-148 | the combinations enumeration yields every pair of positions i < j |
| `Problems.ProductComplete` | problem.py:146-148 | the product enumeration yields every ordered pair |
| `Problems.PermsComplete` | problem.py:170-172 | the 3-permutations enumeration yields every triple of distinct positions |
| `Problems.CandidatesCoverSegments` | problem.py:145-167 | the Cong, Para and Perp over any two segments of distinct problem points are scanned |
| `Problems.CandidatesCoverAngles` | problem.py:169-175 | the Eqangle over any two angles of three distinct problem points each is scanned |
| `Problems.SweepBuffer` | problem.py:145-175 | a scan queues exactly the reasoner's proposals for the valid, not yet known candidates, in scan order |
| `Problems.SweepCaches` | problem.py:132-143 | a scan adds each candidate to the cache of its validity |
| `Problems.QueueSound` | problem.py:145-175 | every queued derivation was proposed for a valid candidate that was not yet a key |
| `Problems.PushParents` | problem.py:210-213 | the worklist gains exactly the parents of the derivations that are not yet reachable |
| `Problems.ParentRefs` | problem.py:290-294 | the printed references list each parent once, by its number |
| `Problems.Numbering` | problem.py:276-278 | the i-th placed predicate gets number i + 1 |
| `Problems.Problem.constructor` | problem.py:25-35 | a new problem has no predicates, an empty buffer and empty caches, and keeps its goals and points |
| `Problems.Problem.AddPredicate` | problem.py:75-121 | the new state is Add(old state, ...), visiting exactly the sub-data; the buffer is untouched; the invariant is kept |
| `Problems.Problem.RecordSubs` | problem.py:109-121 | the loop over to_sub_data stores each sub-deduction once, in some iteration order |
| `Problems.Problem.Seed` | problem.py:37-41 | initial predicates become "axiom" derivations with no parents; the first invalid one is reported and stops the loop; validity uses the corrected Para/Sameclock/Eqratio guard |
| `Problems.Problem.AddDeduction` | problem.py:43-45 | add_deduction only appends to the buffer |
| `Problems.Problem.Flush` | problem.py:47-54 | flush adds the buffered derivations in order, then empties the buffer |
| `Problems.Problem.CanDeduce` | problem.py:56-73 | true iff the predicate is already a key; otherwise only caches its validity and, if it is valid, queues the proposals; validity uses the corrected Para/Sameclock/Eqratio guard |
| `Problems.Problem.CheckPossible` | problem.py:132-143 | returns the predicate's validity and caches it in the matching set, changing nothing else; validity uses the corrected Para/Sameclock/Eqratio guard |
| `Problems.Problem.Visit` | problem.py:149-151 | one scanned candidate updates buffer and caches as SweepStep says |
| `Problems.Problem.ScanCandidates` | problem.py:145-175 | the scan loop leaves the predicates alone and updates buffer and caches as Sweep says |
| `Problems.Problem.SearchAr` | problem.py:127-175 | search_ar caches every candidate's validity and queues the proposals for the valid unknown ones; validity uses the corrected Para/Sameclock/Eqratio guard |
| `Problems.Problem.Reachable` | problem.py:199-215 | the worklist yields the least set holding the goals and closed under taking parents |
| `Problems.Problem.AxiomPass` | problem.py:229-238 | every reachable predicate with a parentless derivation is placed, with its best such derivation |
| `Problems.Problem.Round` | problem.py:253-273 | a round extends the placement legally; a round that places nothing leaves every unplaced reachable predicate blocked |
| `Problems.Problem.Rounds` | problem.py:240-273 | the round loop stops stuck iff some goal is unplaced, and then every unplaced reachable predicate is blocked |
| `Problems.Problem.Render` | problem.py:275-301 | steps are numbered from 1 and reference each parent by an earlier step number |
| `Problems.Problem.Line` | problem.py:282-297 | one output line: number, predicate, rule caption (blank for "unknown"), parent numbers, goal highlight |
| `Problems.Problem.IsSolved` | problem.py:123-125 | solved exactly when every goal is a key of `predicates`; under the store invariant, when every goal has been inserted |
| `Problems.Problem.Extract` | problem.py:177-301 | empty when unsolved, "No goals" without goals, else a topologically ordered, duplicate-free proof placing every goal, or Stuck with the unplaced goals |
| `ReadInRelations.Build` | read_in_relations.py:49-65 | the registered class's constructor is applied; only an aconst clause fails |
| `ReadInRelations.BuildClass` | read_in_relations.py:8-32 | each registry name builds a predicate of the class of that name |
| `ReadInRelations.RegistryWord` | read_in_relations.py:25-27 | registry keys are plain lower-case words that normalize to themselves |
| `ReadInRelations.NormalizeCaseless` | read_in_relations.py:35-37 | predicate names that differ only in ASCII case normalize alike |
| `ReadInRelations.NormalizePadding` | read_in_relations.py:35-37 | whitespace around a predicate name does not change its normal form |
| `ReadInRelations.StripBlank` | read_in_relations.py:73 | stripping leaves nothing exactly when the string is all whitespace |
| `ReadInRelations.FilledKeeps` | read_in_relations.py:50 | dropping empty tokens keeps a list of non-empty tokens unchanged |
| `ReadInRelations.LookupOutcome` | read_in_relations.py:57-63 | the points are found iff every name is in the table; each becomes the point with that name and its coordinates; else the first missing name is the error |
| `ReadInRelations.InstantiateOutcome` | read_in_relations.py:40-65 | a clause succeeds iff its normalized name is registered (not aconst), it has the registered number of non-empty arguments, and all are in the table; the result is of that class |
| `ReadInRelations.InstantiateErrors` | read_in_relations.py:43-65 | the checks run in source order: unknown name, then wrong point count, then the first point missing from the table, then the aconst clause |
| `ReadInRelations.SplitAtJoin` | read_in_relations.py:73 | joining the `;`-pieces back with the separator gives the text |
| `ReadInRelations.PiecesJoin` | read_in_relations.py:73 | the `;`-pieces of a problem re-join to the problem and contain no `;` |
| `ReadInRelations.SplitRunsPieces` | read_in_relations.py:85 | tokens contain no comma or whitespace, and only the first and last can be empty |
| `ReadInRelations.SplitRunsInterleave` | read_in_relations.py:85 | any run of commas and/or whitespace separates tokens the same way |
| `ReadInRelations.ParseSegmentTokens` | read_in_relations.py:80-90 | a clause's layout between tokens does not matter; a `?` prefix makes it a goal |
| `ReadInRelations.NamesInterleave` | relations.py:160-166 | the string form joins the point names with single spaces |
| `ReadInRelations.ShowRoundTrip` | read_in_relations.py:80-90 | parsing a predicate's printed form (with or without `?`) gives back the predicate its class builds from those points |
| `ReadInRelations.NonBlankOutcome` | read_in_relations.py:73 | the clauses are stripped and non-blank; there are none iff every piece is blank |
| `ReadInRelations.NoSegmentsExactly` | read_in_relations.py:73-75 | parsing fails with "no segments" exactly when every `;`-piece is blank |
| `ReadInRelations.ClauseErrors` | read_in_relations.py:80-90 | a clause never fails with "no segments" |
| `ReadInRelations.CollectOutcome` | read_in_relations.py:80-97 | all clauses parse iff each does; each yields one premise or goal; otherwise the first failing clause's error is raised |
| `ReadInRelations.CollectAppend` | read_in_relations.py:80-97 | gathering distributes over concatenation, so input order is preserved in both lists |
| `ReadInRelations.ParseAllAppend` | read_in_relations.py:80-97 | parsing distributes over concatenation of clause lists |
| `ReadInRelations.ParseAllSingle` | read_in_relations.py:81-95 | a single clause is a goal iff it starts with `?`, otherwise a premise |
| `ReadInRelations.ParseString` | read_in_relations.py:68-97 | the loop of parse_string computes ParseProblem |
| `Solve.ScanSection` | solve.py:27-30 | every alphabetic token after the first is set to (0.0, 0.0); no other entry changes |
| `Solve.ScanSectionOf` | solve.py:23-30 | a blank section adds nothing; any other adds its alphabetic non-first tokens |
| `Solve.ScanPoints` | solve.py:21-30 | the manual-mode loop builds PointTable(text) |
| `Solve.BlankHasNoWords` | solve.py:24-27 | a blank section has no tokens |
| `Solve.AlphaTailMeans` | solve.py:27-30 | a section contributes exactly its alphabetic tokens after the first |
| `Solve.DeclaredMeans` | solve.py:22-30 | a name is declared iff it is an alphabetic non-first token of some section |
| `Solve.PointTableMeans` | solve.py:21-30 | a name gets a point iff it is an alphabetic non-first token of a `;`-section, and every point is at (0.0, 0.0) |
| `Solve.NewProblem` | solve.py:43-45 | the Problem holds the goal set and point set; every premise is recorded as an axiom, or the invalid premise is reported; validity uses the corrected Para/Sameclock/Eqratio guard |
| `Solve.ConstructProblem` | solve.py:10-45 | manual mode: a parse error is propagated unchanged; otherwise the problem is built from the parsed premises and goals over the scanned points; validity uses the corrected Para/Sameclock/Eqratio guard |
| `Solve.TraceGrowth` | solve.py:64-85 | every iteration but the last added a predicate, so the count grew by at least the number of such iterations |
| `Solve.Iterate` | solve.py:75-83 | AR runs only while unsolved, the buffer is always flushed, and the store only grows |
| `Solve.Loop` | solve.py:53-85 | at most 3 iterations; the loop continues only while the last iteration grew the count and some goal is unmet |
| `Solve.Prove` | solve.py:48-99 | an already-solved problem is left unchanged; otherwise the loop then extraction; exit status 0 iff solved and extraction did not raise |
| `Ascent.Register` | src/lib.rs:19-21 | add_relation maps the name to an empty list, discarding earlier facts; other names are unchanged |
| `Ascent.Append` | src/lib.rs:23-27 | add_fact appends at the end of a registered relation; an unregistered name leaves the table unchanged |
| `Ascent.RegisterThenAppend` | src/lib.rs:19-27 | registering then adding facts stores exactly those facts, in order |
| `Ascent.AppendUnregistered` | src/lib.rs:23-27 | facts added under an unregistered name are dropped |
| `Ascent.AscentProgram.constructor` | src/lib.rs:12-17 | a new program has no relations |
| `Ascent.AscentProgram.AddRelation` | src/lib.rs:19-21 | the table becomes Register(old table, name) |
| `Ascent.AscentProgram.AddFact` | src/lib.rs:23-27 | the table becomes Append(old table, relation, fact) |
| `Ascent.AscentProgram.GetRelation` | src/lib.rs:29-31 | returns the stored list, or an empty list for an unknown name, without changing the table |
| `Ascent.ClosedHasWalks` | src/lib.rs:61-62 | every set closed under the two rules holds every pair joined by an edge walk |
| `Ascent.WalksClosed` | src/lib.rs:57-63 | the walk-connected pairs are closed under both rules and contained in every closed set: the least fixpoint |
| `Ascent.ComposeSound` | src/lib.rs:62 | one application of the recursive rule keeps only walk-connected pairs |
| `Ascent.Saturate` | src/lib.rs:57-67 | saturation yields exactly the pairs joined by a non-empty edge walk |
| `Ascent.GraphProgram.constructor` | src/lib.rs:43-49 | a new graph has no edges and no paths |
| `Ascent.GraphProgram.AddEdge` | src/lib.rs:51-53 | appends exactly one edge and leaves paths unchanged |
| `Ascent.GraphProgram.Run` | src/lib.rs:55-69 | edges unchanged; paths replaced by the transitive closure of the edges, each pair once |
| `Ascent.GraphProgram.GetPaths` | src/lib.rs:71-73 | returns the paths, changing nothing |
| `Ascent.GraphProgram.GetEdges` | src/lib.rs:75-77 | returns the edges, changing nothing |

## Left out

- Floating-point geometry: the leaf `is_valid` comparisons and their helpers (`distance`, `angle_of_line`, `angle_between`, `same_orientation`) are the oracle `geometry`. Only the structural guards are modelled, with the corrected guard for Para, Sameclock and Eqratio (see Relations.IsValid below).
- Relations.LeafValid: Python raises an exception from some leaf checks, where the model has only the oracle's answer. Examples: a Cong with a one-point segment (`distance` receives one point), and an Aconst with n = 0. The model does not distinguish an exception from "invalid".
- Relations.AngleRows: the Perp and Aconst constants (1/2 and m/(2n)) are reals, not floats. The rows are ghost functions because `list(frozenset)[0]` depends on hash order. They hold for every listing and are returned as multisets. The loop of `collect_rows` is a recursive function over the child set, not a method.
- Predicate string form: only the `_init_args` form (class name, then the point names separated by single spaces) is modelled. The `predicate(data)` fallback and the ANSI colours and padding of the printed proof are left out.
- ReadInRelations.Build: an `aconst` clause is reported as a parse error, because the model's Aconst holds integers and the source passes Point objects as m and n. For a premise the source fails later, inside `is_valid`. A goal, however, is only ever compared by membership (problem.py:123-125 and `__str__`), so the source accepts an aconst goal and runs the problem to completion, while the model rejects it at parse time.
- ReadInRelations.Lower and Solve.IsAlpha: only ASCII letters are case-folded or counted as letters. Python's `str.lower` and `str.isalpha` cover all of Unicode.
- Relations.IsValid: the store and the search run on the corrected leaf guard of the first finding below (`< 2`, LeafValid), not on the `<= 2` guard as written (LeafValidAsWritten). As written, every Para, Sameclock and Eqratio is valid, including a degenerate `para A A B C` and a pair the geometry rejects. The members below therefore state the intended behaviour, not the behaviour as written, for those three classes.
- Problems.Problem.Seed: a premise Para, Sameclock or Eqratio that is degenerate or that the geometry rejects (`para A A B C`) is reported invalid; the source records it as an axiom.
- Problems.Problem.CanDeduce: such a Para, Sameclock or Eqratio is cached as impossible and queues nothing; the source caches it as possible and queues its proposals.
- Problems.Problem.CheckPossible: returns the corrected validity; as written the source returns True for every Para, Sameclock and Eqratio.
- Problems.Problem.SearchAr: Para candidates the geometry rejects are cached as impossible and not passed to the algebraic reasoner; as written every Para candidate is possible and queued. The same holds for Para, Sameclock and Eqratio proposals added later through AddPredicate and Flush.
- Solve.NewProblem: reports InvalidInitial for such a premise (for example `para A A B C`), which the source accepts.
- Solve.ConstructProblem: fails on such a premise, where the source builds the problem.
- Problem's side channels are not modelled: the `dd`/`ar` objects it feeds (`dd.add_predicate`, `ar.add_predicate`) and its progress messages. The algebraic reasoner's `try_deduce` is a parameter.
- Problems.Problem.Extract: the "Unreachable goals" branch of `__str__` (problem.py:219-222) is dead, because the reachable set always holds the goals. Extract has no case for it.
- Solve.Iterate: the Datalog step `dd.functions` runs, but `prove` discards its result (solve.py:77-78), so the step does not change the problem. The model leaves it out.
- File mode of `construct_problem` (GeoGebra reading, plotting) and `main`'s argument handling are left out. So are ar.py, dd.py and the Python binding modules: they are external collaborators or printing demos.
- Ascent.GraphProgram.Run: the evaluation strategy of the `ascent!` macro is not modelled, only its declared rules. The order of the resulting `paths` vector is unspecified in the model.
- Python's hash iteration order of sets and dicts is never fixed. Where it matters, a method returns the order it used as a ghost listing, and its contract holds for every such listing.

## Findings

| source | as written | input that shows it | evidently intended | confidence | as-written member | corrected member |
|---|---|---|---|---|---|---|
| relations.py:405-408 | `Para.is_valid` returns True when the data has `<= 2` segments, and a Para never has more than 2, so the parallelism check never runs. Sameclock (relations.py:500) and Eqratio (relations.py:566) have the same guard | Para(O, P, O, Q) with O = (0, 0), P = (1, 0), Q = (0, 1): two perpendicular segments, accepted as parallel | `< 2`: only a degenerate one-segment Para is trivially valid, and two segments reach the geometric check (the next line unpacks exactly two) | high (not executed) | `Relations.AsWrittenAcceptsRejectedPara` | `Relations.LeafValidConsultsGeometry` |
| relations.py:547-562 | `Eqratio.to_ratio_rows` builds its row with a dict literal, so a segment that appears twice keeps only its last coefficient | `eqratio A B C D A B E F` over distinct points: in either listing order AB ends with -1, e.g. {AB: -1, CD: -1, EF: 1}, so the row sums to -1 and does not state CD = EF | accumulate the coefficients as `Eqangle.to_angle_rows` does (relations.py:348-352), giving {AB: 0, CD: -1, EF: 1} | medium (not executed) | `Relations.EqratioSharedNumerator` | `Relations.RatioRowsBalanced` |

# Factory and warehouse siting: a Dafny model of the formulation and its decoding

The repository picks the towns in which to build factories and warehouses. It writes a 0/1
program over one binary variable per town for a factory (`x_U`) and one for a warehouse (`y`).
The program maximises total profitability. It has:

- a budget row;
- one linkage row `y[t] <= x_U[t]` per town;
- one separation row `x_U[i] + x_U[j] <= 1` per pair of towns that are too close;
- in the `/optimize` flow, one capacity row per region centre;
- in the `/solve` flow, a `sum(y) >= 1` row when there is more than one town.

A MILP engine (Gurobi) picks the values. The code then reads them back: a site is built when
its value exceeds 0.5.

This project models that code as written:

- `api.py` `optimize`: the `/optimize` handler.
- `ROOOOOOOO.py` class `Solver`.
- `app.py` `solve_optimization`: the `/solve` handler.

It proves the following:

- Which rows are emitted, and in what order.
- Over 0/1 values, the rows hold exactly when the business rules hold.
- What every report contains.

Modules, in dependency order:

- `Common` (`common.dfy`): `Option`, `Result`.
- `Keys` (`keys.dfy`): canonical distance keys. It models:
  - Python's string order;
  - `sorted`, as an insertion sort, plus a proof that a sorted permutation is unique, so any
    correct sort gives the same key;
  - `str.split`;
  - the sorted-pair key `PairKey`.
- `Distances` (`distances.dfy`): distance tables keyed by sorted pairs.
  - A missing pair reads as infinity (`Extended`).
  - The table built from `"A-B"` string items is `FromStringKeys`.
  - The table built from `{from, to, distance}` records is `FromRecords`.
  - Both are written as a fold in which the last write of a key wins (`Override`).
- `Milp` (`milp.dfy`): what the code uses of the engine.
  - Variables, linear terms, constraints and programs.
  - Their meaning under an assignment (`Eval`, `Holds`, `AllHold`).
  - The class `MilpModel`: the model object the code mutates. Its `AddVars`, `SetObjective`,
    `AddConstr` and `Optimize` model `addVars`, `setObjective`, `addConstr` and `optimize`.
  - Gurobi's status codes: `LOADED` is 1 and `OPTIMAL` is 2.
- `Formulation` (`formulation.dfy`): the rows as functions of the data, shared by both flows.
  - `CoreRows(inst, atLeastOneWarehouse)` is the budget row, the linkage rows, the optional
    `sum(y) >= 1` row and the separation rows.
  - `RegionMembers` and `RegionRows` give the regions and their capacity rows.
  - `FirstMissing` gives the KeyError a dict lookup raises.
  - Lemmas state what the rows mean for a 0/1 assignment.
- `Decoding` (`decoding.dfy`): reading a solution back.
  - `Built` is the `> 0.5` filter, in `villes` order.
  - `SplitBudgetUsed` is the budget used, recomputed from the costs.
- `Builder` (`builder.dfy`): the loops that call `addConstr` on the mutable model. Each is
  proved to append exactly the rows the Formulation functions give.
- `Api` (`api.dfy`): the `/optimize` handler as a method.
  - Its result equals the specification function `OptimizeOutcome`.
  - Lemmas about `OptimizeOutcome` state the properties of the report.
- `SolverFlow` (`solver_flow.dfy`): the class `Solver`, with fields `data`, `villes`, `model`,
  `xU` and `y`. It has the methods `BuildModel`, `AddConstraints` and `Solve`, and the reads
  function `FormatResults`.
  - They are specified by the functions `SolverProgram`, `Formatted` and `SolveOutcome`.
- `App` (`app.dfy`): the `/solve` handler.
  - It checks the required fields.
  - It converts the records into a dict in a loop, where the last record of a pair wins.
  - It answers as the specification function `SolveSpec` says.

## The engine and the errors

The engine is a parameter `engine: Program -> SolverOutput`. It maps the assembled program to a
status, a value per variable and `objVal`. Lemmas about optimal answers assume `EngineSound`:

- on OPTIMAL, every declared variable is 0 or 1;
- every row holds;
- `objVal` is the objective's value.

The engine's optimality itself is not assumed, and nothing is proved about it.

A dict lookup that raises is modelled as `Err(KeyError(key))`. The lookups happen in this order:

1. `rentabilite_usine`;
2. `rentabilite_entrepot`;
3. `couts_usine`;
4. `couts_entrepot`;
5. in `/optimize` only, `max_entrepots_par_region[centre]` for each centre in turn.

The earlier rows stay added to the model when a later lookup raises.

## Behaviour worth knowing

- **A region's centre.** A region is `[v for v in villes if v == centre or ...]`. It contains
  its centre only when the centre is one of `villes` (`RegionCentreAndMissing`).
- **Hyphenated string keys.** A string key whose `split('-')` does not give exactly two names
  produces a key that never matches a pair lookup (`MalformedKeyUnmatched`,
  `MalformedItemIgnored`).
- **Hyphenated town names.** In `/optimize`, a town whose name contains `-` reads as
  infinitely far from every other town, whatever the distances given
  (`HyphenatedTownUnmatched`).
- **Duplicate keys.** When several string keys or records name the same pair, the last one
  wins (`StringKeyFound`, `RecordLastWins`).

## Model

| member | source | states |
|---|---|---|
| Keys.StrLe | api.py:37 | Python's string order: a prefix sorts at or below any string it begins |
| Keys.StrLeTotal | api.py:37 | Python's string order, used by `sorted`, compares any two strings |
| Keys.StrLeAntisymmetric | api.py:37 | two strings that each sort at or below the other are equal |
| Keys.StrLeTransitive | api.py:37 | the string order is transitive |
| Keys.Insert | api.py:37 | inserting into a list keeps its elements and adds exactly the new one (multiset) |
| Keys.InsertSorted | api.py:37 | inserting into a sorted list leaves it sorted |
| Keys.SortStrings | api.py:37 | `sorted` returns a permutation of its input (same multiset, same length) |
| Keys.SortStringsSorted | api.py:37 | the result of `sorted` is in ascending order |
| Keys.SortedTail | api.py:37 | dropping the head of a sorted list leaves it sorted |
| Keys.HeadIsLeast | api.py:37 | the head of a sorted list is at or below all its elements |
| Keys.SortedUnique | api.py:37 | two sorted permutations of the same strings are equal, so `tuple(sorted(...))` has one value |
| Keys.Split | api.py:37 | `split('-')` yields at least one piece and no piece contains `-` |
| Keys.JoinSplit | api.py:37 | joining the pieces of `split('-')` with `-` gives back the string |
| Keys.SplitCount | api.py:37 | `split('-')` yields one piece more than there are `-` in the string |
| Keys.SplitPrefix | api.py:37 | a `-`-free prefix glues onto the first piece of what follows |
| Keys.SplitJoin | api.py:37 | splitting a join of `-`-free names gives back the names |
| Keys.CanonKey | api.py:37 | `tuple(sorted(k.split('-')))` is in ascending order, has one name more than `k` has `-`, and no name in it contains `-` |
| Keys.PairKey | api.py:70 | the key of a pair is the two names in one order or the other, the smaller first |
| Keys.PairKeyIsSorted | api.py:70 | the pair key is `tuple(sorted((a, b)))` |
| Keys.PairKeySymmetric | ROOOOOOOO.py:59 | the key of (a, b) equals the key of (b, a) |
| Keys.PairKeyEquality | app.py:26 | a pair key has two names; two pair keys are equal iff they name the same unordered pair |
| Keys.StringKeyDirection | api.py:36-39 | for names without `-`, `"A-B"` and `"B-A"` both canonicalise to the key of the pair |
| Keys.MalformedKeyUnmatched | api.py:36-39 | a key that does not split into exactly two names matches no pair key |
| Distances.Distance | api.py:70 | a lookup with the `inf` default gives a stored value iff the two names, in sorted order, are a key of the dict |
| Distances.FromStringKeys | api.py:36-39 | the dict's keys are exactly the canonical keys of the items, each sorted and made of `-`-free names |
| Distances.FromRecords | app.py:24-27 | the dict's keys are exactly the sorted pairs of the records' endpoints, each of two names |
| Distances.OverrideKeys | api.py:36-39 | a dict built entry by entry has exactly the keys of its entries |
| Distances.OverrideLastWins | app.py:25-27 | the value stored under a key is that of the last entry with that key |
| Distances.DistanceSymmetric | api.py:70 | a lookup with the `inf` default does not depend on the order of the two towns |
| Distances.StringKeyFound | api.py:36-39 | the last `"A-B"` or `"B-A"` item naming {A, B} gives the distance of the pair, in both directions |
| Distances.StringKeyMissing | api.py:70 | a pair no item names is at infinity |
| Distances.MalformedItemIgnored | api.py:36-39 | adding an item whose key does not split into two names changes no pair distance |
| Distances.HyphenatedTownUnmatched | api.py:36-39 | a town whose name contains `-` has no stored distance to any town, so it reads as `inf` |
| Distances.RecordLastWins | app.py:25-27 | the last record naming {a, b} in either direction decides the distance of the pair |
| Distances.RecordMissing | ROOOOOOOO.py:59 | a pair that no record names is at infinity |
| Distances.RecordDirectionIrrelevant | app.py:26 | reversing the direction of a record leaves the dict unchanged |
| Milp.EvalAppend | api.py:49-50 | the value of the concatenation of two sums is the sum of their values |
| Milp.MilpModel.constructor | api.py:41 | a new model has no variables, no objective, no rows and no solution |
| Milp.MilpModel.AddVars | api.py:44-45 | `addVars` appends the variables and changes nothing else |
| Milp.MilpModel.SetObjective | api.py:48-52 | `setObjective` replaces the objective and changes nothing else |
| Milp.MilpModel.AddConstr | api.py:55-60 | `addConstr` appends one row and changes nothing else |
| Milp.MilpModel.Optimize | api.py:86 | `optimize` records the engine's answer for the program assembled so far and changes nothing else |
| Formulation.TotalCost | api.py:101-102 | the town-by-town cost of the opened sites is 0 when no site is opened |
| Formulation.FirstMissing | api.py:49-50 | the lookups over `villes` raise iff some town has no entry, and then on a town that has none |
| Formulation.FirstMissingIsFirst | api.py:49-50 | the KeyError names the first town, in `villes` order, that has no entry |
| Formulation.FirstMissingAt | api.py:82 | when the keys before position k are present and key k is not, the KeyError names key k |
| Formulation.ProfitError | api.py:48-52 | building the objective raises iff a town lacks a profit, and then names such a town |
| Formulation.CostError | api.py:55-60 | building the budget row raises iff a town lacks a cost, and then names such a town |
| Formulation.WeightedTermsValue | api.py:56-57 | the value of `quicksum(w[i]*v[i])` is the sum of weight times value over the towns |
| Formulation.TwoSumsAreTotalCost | api.py:101-102 | the two separate cost sums add up to the town-by-town cost |
| Formulation.UnitTermsCount | ROOOOOOOO.py:45 | over 0/1 values, `quicksum(y[i])` counts the warehouses opened |
| Formulation.BinaryVariables | api.py:44-45 | declaring the variables binary makes each town's two variables 0 or 1, and conversely |
| Formulation.Objective | api.py:48-52 | the objective's value is the profit sum over factories plus that over warehouses |
| Formulation.BudgetRow | api.py:55-60 | the budget row is a `<=` row that holds iff the opened sites cost at most `budget_total` |
| Formulation.LinkageRows | api.py:63-64 | the linkage rows all hold iff no town's warehouse value exceeds its factory value |
| Formulation.MinOneRow | ROOOOOOOO.py:43-47 | the minimum row is a `>=` row that, over 0/1 values, holds iff at least one warehouse is opened |
| Formulation.PairRowsMembers | api.py:68-73 | the inner loop emits exactly the rows of the close pairs (i, j) with j at or after its start |
| Formulation.SeparationRowsFromMembers | api.py:67-73 | the outer loop emits exactly the rows of the close pairs i < j with i at or after its start |
| Formulation.SeparationRowsExact | api.py:67-73 | a separation row is emitted iff it belongs to a pair i < j whose distance, `inf` when missing, is below `distance_min_usines` |
| Formulation.ClosePartnersStep | api.py:68-71 | the close partners of i from j on are those from j + 1 on, plus j exactly when (i, j) is too close |
| Formulation.PairRowsCount | api.py:68-73 | the inner loop emits one row per close partner j of i, so each pair (i, j) at most once |
| Formulation.ClosePairsStep | api.py:67-68 | the close pairs from i on split into those with first index i and those from i + 1 on, with no overlap |
| Formulation.SeparationRowsFromCount | api.py:67-73 | the two loops from i on emit one row per close pair i < j |
| Formulation.SeparationRowsCount | api.py:67-73 | there are as many separation rows as close pairs i < j, so with SeparationRowsExact each close pair gets exactly one row |
| Formulation.MissingPairUnconstrained | api.py:70-71 | a pair with no stored distance gets no separation row |
| Formulation.RegionMembers | api.py:77-80 | a region lists only towns of `villes` that are the centre or within `diametre_region` of it, and no more towns than `villes` |
| Formulation.RegionRows | api.py:76-84 | one capacity row per centre, which over 0/1 values holds iff the region opens at most the centre's cap of warehouses |
| Formulation.RegionMembership | api.py:77-80 | a town is in a region iff it is one of `villes` and either is the centre or is within `diametre_region` of it |
| Formulation.RegionCentreAndMissing | api.py:77-80 | a centre that is a town is in its region; a town with no stored distance to the centre is not |
| Formulation.AllHoldAppend | api.py:55-84 | the rows of two groups all hold iff each group's rows hold |
| Formulation.LinkageRowHolds | api.py:64 | the linkage row of a town holds iff its warehouse value is at most its factory value |
| Formulation.SeparationRowHolds | api.py:72 | the separation row of a pair holds iff the two factory values sum to at most 1 |
| Formulation.BudgetRowValue | api.py:55-60 | the left side of the budget row is the town-by-town cost of the opened sites |
| Formulation.LinkageRowsMeaning | api.py:63-64 | over 0/1 values, the linkage rows hold iff no town has a warehouse without a factory |
| Formulation.SeparationRowsMeaning | api.py:67-73 | over 0/1 values, the separation rows hold iff no two towns that are too close both get a factory |
| Formulation.OnlyGeRow | ROOOOOOOO.py:31-62 | among the core rows, a `>=` row can only be the minimum row |
| Formulation.CoreRows | ROOOOOOOO.py:31-62 | when every core row holds, the cost is within budget; the only `>=` row is the minimum row, present only when asked for |
| Formulation.CoreRowsParts | ROOOOOOOO.py:31-62 | the core rows hold iff the budget row, the linkage rows, the optional minimum row and the separation rows all hold |
| Formulation.CoreRowsMeaning | ROOOOOOOO.py:31-62 | over 0/1 values, the core rows hold iff the cost is within budget, every warehouse has a factory, a warehouse exists when the minimum row is emitted, and no two close towns get factories |
| Formulation.RegionBits | api.py:77-80 | the members of a region have 0/1 warehouse values when the towns do |
| Formulation.RegionRowsMeaning | api.py:76-84 | over 0/1 values, the capacity rows hold iff each region opens at most its centre's cap of warehouses |
| Decoding.Built | api.py:98-99 | the list has no more entries than `villes` and lists only towns of `villes` whose value exceeds 0.5 |
| Decoding.BuiltMembers | api.py:98-99 | a town is listed iff it is one of `villes` and its value exceeds 0.5 |
| Decoding.BuiltAppend | api.py:98-99 | the lists keep the order of `villes`: decoding a concatenation concatenates the decodings |
| Decoding.BuiltCountsBits | api.py:98-99 | over 0/1 values, the list is as long as the number of variables at 1 |
| Decoding.SplitBudgetUsed | api.py:101-102 | the two separate cost sums of the report equal the town-by-town cost of the opened sites |
| Decoding.BudgetUsedWithinBudget | api.py:101-102 | the reported budget used equals the budget row's left side and the per-town cost, so it is at most `budget_total` when the row holds |
| Decoding.DecodedRules | api.py:97-103 | the decoded lists of a 0/1 solution of the core rows have warehouses only in factory towns and no two close factory towns, and the cost is within budget |
| Decoding.DecodedRegions | api.py:76-84 | the decoded warehouses of each region are at most its cap |
| Decoding.FreePlanIsEmpty | api.py:101-102 | with positive costs, a 0/1 plan at cost 0 opens no site, and every plan costs at least 0 |
| Builder.SetProfitObjective | api.py:48-52 | sets the profit objective, or reports the KeyError of the first town without a profit and leaves the objective unchanged |
| Builder.AddBudgetRow | api.py:55-60 | appends the budget row, or reports the KeyError of the first town without a cost and appends nothing |
| Builder.AddLinkageRows | api.py:63-64 | appends exactly one linkage row per town, in order |
| Builder.AddPairRows | api.py:68-73 | for one i, appends the separation rows of the close pairs (i, j), j > i, in order |
| Builder.AddSeparationRows | api.py:67-73 | appends exactly the separation rows, in order: one per close pair i < j (SeparationRowsCount, SeparationRowsExact) |
| Builder.AddCoreRows | ROOOOOOOO.py:31-62 | appends budget, linkage, the optional minimum row and separation rows, or reports the cost KeyError |
| Builder.AddRegionRows | api.py:76-84 | appends one capacity row per centre with its cap, or reports the first centre that has no cap |
| Api.BuildProgram | api.py:41-84 | the program can be built iff every town has its profits and costs and every centre has a cap; otherwise the KeyError names the missing entry |
| Api.BuildCore | api.py:41-73 | a fresh model gets the variables, the objective and the budget, linkage and separation rows, or the first KeyError |
| Api.BuildModel | api.py:41-84 | the model assembled is the program `BuildProgram` describes, or the KeyError it reports |
| Api.Report | api.py:88-105 | the report carries the status; the success message, the maximal profit and the budget used appear iff the status is OPTIMAL; it lists only towns of `villes` |
| Api.OptimizeOutcome | api.py:24-107 | the handler raises iff a town lacks a profit or a cost or a centre lacks a cap, naming a town or a centre; otherwise its report carries the engine's status |
| Api.ReportOf | api.py:88-105 | the dict starts empty and is filled in only on OPTIMAL, as `Report` says |
| Api.Optimize | api.py:24-107 | the handler returns `OptimizeOutcome`: the report of the engine's answer, or the KeyError raised earlier |
| Api.FailsBeforeSolve | api.py:76-86 | a request that raises does so before `optimize`, whatever the engine, and only when an entry is missing |
| Api.OptimalSolution | api.py:86-97 | an OPTIMAL answer of a sound engine is 0/1 on every town and satisfies the core and capacity rows |
| Api.OptimalReportContents | api.py:97-103 | on OPTIMAL, the lists are the towns whose value exceeds 0.5, in order, and carry `objVal`, the budget used and the success message |
| Api.OptimalReportRules | api.py:97-103 | on OPTIMAL, every listed warehouse town is a listed factory town, no two close towns are listed factories, the budget used is within budget, and the maximal profit is the objective's value |
| Api.OptimalReportRegions | api.py:76-84 | on OPTIMAL, no region lists more warehouses than its cap |
| Api.NotOptimalReport | api.py:88-105 | any other status leaves both lists empty and both numbers `None`, and sets the failure message |
| Api.TwoCloseTowns | api.py:67-73 | two towns 5 apart with a minimum distance of 10 are never both listed as factories |
| Api.ZeroBudget | api.py:55-60 | with budget 0 and positive costs, nothing is listed and the budget used is 0 |
| Api.CentreWithoutCap | api.py:82 | a centre without a cap makes the request fail with a KeyError on a centre without a cap |
| SolverFlow.SolverProgram | ROOOOOOOO.py:13-62 | the `/solve` program can be built iff every town has its profits and costs; the KeyError names such a town |
| SolverFlow.Formatted | ROOOOOOOO.py:68-81 | results appear iff the status is OPTIMAL, and list only towns of `villes` whose value exceeds 0.5 |
| SolverFlow.SolveOutcome | ROOOOOOOO.py:13-81 | `build_model` then `solve` raises iff a town lacks a profit or a cost, and otherwise gives results iff the status is OPTIMAL |
| SolverFlow.Solver.constructor | ROOOOOOOO.py:6-11 | construction stores `data` and `villes`; `model`, `x_U` and `y` are none |
| SolverFlow.Solver.BuildModel | ROOOOOOOO.py:13-29 | a fresh model with one variable per town for each site, the objective and the constraints of `SolverProgram`, or the first KeyError |
| SolverFlow.Solver.AddConstraints | ROOOOOOOO.py:31-62 | appends budget, linkage, `sum(y) >= 1` when `len(villes) > 1`, and separation rows, or reports the cost KeyError |
| SolverFlow.Solver.Solve | ROOOOOOOO.py:64-66 | optimizes the model built and returns the formatted answer |
| SolverFlow.Solver.FormatResults | ROOOOOOOO.py:68-81 | returns results iff the status is OPTIMAL, formatted from the recorded answer |
| SolverFlow.SolverRowKinds | ROOOOOOOO.py:31-62 | every row is the budget row, a linkage row, the minimum row or a close pair's separation row: there is no capacity row |
| SolverFlow.MinOneRowIffSeveralTowns | ROOOOOOOO.py:43-47 | the `sum(y) >= 1` row, the only `>=` row, is emitted iff there is more than one town |
| SolverFlow.FormattedContents | ROOOOOOOO.py:68-81 | on OPTIMAL, the lists are the towns whose value exceeds 0.5, and the budget used is the budget row's left side |
| SolverFlow.SolvedRules | ROOOOOOOO.py:68-81 | on OPTIMAL from a sound engine, warehouses only in factory towns, no two close factory towns, a warehouse when there are several towns, and cost within budget |
| SolverFlow.NotSolved | ROOOOOOOO.py:81 | any other status gives `None` |
| App.ConvertDistances | app.py:24-28 | the loop builds the dict of `FromRecords`: sorted pairs, last record wins |
| App.SolveSpec | app.py:14-44 | a KeyError comes only from a complete payload with an unpriced town; every error answer has status 400; a results answer echoes `budget_total` and lists towns of `villes` |
| App.SolveOptimization | app.py:14-44 | the handler answers as `SolveSpec` says |
| App.MissingFieldsAnswer | app.py:14-21 | the 400 "Missing required fields" answer comes iff a required field is missing |
| App.CompletePayloadAnswer | app.py:35-44 | a complete payload gets the results iff the status is OPTIMAL, and otherwise the 400 no-optimum error; `budget_total` is echoed |
| App.SolvedAnswerRules | app.py:35-42 | a results answer from a sound engine keeps the siting rules by the converted distances, and its budget used is at most `budget_total` |

## Left out

- The MILP search (`m.optimize()`) is a parameter `engine`. `EngineSound` assumes only that an
  OPTIMAL answer is 0/1, satisfies every row and reports the objective's value. That the answer
  is maximal, and the engine's tolerances, are not modelled. It is Gurobi's code.
- `setParam('OutputFlag', 0)`, the model's name and the names given to variables and rows are
  left out. They do not change which rows exist.
- FastAPI/pydantic parsing, Flask routing, CORS, `jsonify` and `app.run` are left out. They are
  transport. The request is a datatype, and a missing JSON key is `None`.
- The blanket `except Exception` of `/solve` is left out. A KeyError from the solver is returned
  as `Err(KeyError(key))`, and the 500 response and its `str(e)` text are not modelled. A
  malformed distance record, a JSON `null` and a value of the wrong type are also not modelled.
- Floating point is not modelled. Costs, distances and values are exact reals. A threshold read
  as `float('inf')` from the input is not modelled, and JSON numbers read into
  `max_entrepots_par_region` are integers.
- A town listed twice in `villes` gets one variable per site here, and lists and counts include
  it twice. How Gurobi's `addVars` treats a repeated key is not modelled.
- SolverFlow.Solver.Solve: requires the costs of every town. The source would raise a KeyError
  while formatting an OPTIMAL answer otherwise, but `build_model` has already raised on it.
- SolverFlow.Solver.AddConstraints: requires `build_model` to have created the model. The
  source raises `AttributeError` when it has not.
- Builder.AddRegionRows: on a KeyError, the rows of earlier centres stay added. Its contract
  states the added rows only when no KeyError is raised.
- Lookups the source does through `self.data['...']`, `data['budget_total']` and the like are
  record fields here. `/solve` checks these keys first, so they cannot raise.

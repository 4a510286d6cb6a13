/**
 * The `/optimize` handler: string-keyed distances, the objective, the budget, linkage and
 * separation rows, one capacity row per region centre, the engine's answer, and the report
 * dict that starts empty and is filled in when the status is OPTIMAL.
 */
module Api {
  import opened Common
  import opened Distances
  import opened Milp
  import opened Formulation
  import opened Decoding
  import opened Builder

  /** The request body. `distances` lists the dict's items in order: "A-B" keys with their distance. */
  datatype OptimizationInput = OptimizationInput(
    villes: seq<string>,
    coutsUsine: map<string, real>,
    coutsEntrepot: map<string, real>,
    rentabiliteUsine: map<string, real>,
    rentabiliteEntrepot: map<string, real>,
    budgetTotal: real,
    distances: seq<(string, real)>,
    diametreRegion: real,
    distanceMinUsines: real,
    centresRegions: seq<string>,
    maxEntrepotsParRegion: map<string, int>)

  /** The response dict. */
  datatype OptimizeResult = OptimizeResult(
    status: int,
    usinesConstruites: seq<string>,
    entrepotsConstruits: seq<string>,
    rentabiliteMaximale: Option<real>,
    budgetUtilise: Option<real>,
    message: string)

  const FOUND: string := "Solution optimale trouvée."
  const NOT_FOUND: string := "Aucune solution optimale trouvée. Vérifiez les contraintes."

  /** The data the rows are built from, with the distances canonicalised. */
  function InstanceOf(data: OptimizationInput): Instance
  {
    Instance(data.villes, data.coutsUsine, data.coutsEntrepot, data.rentabiliteUsine,
             data.rentabiliteEntrepot, data.budgetTotal, FromStringKeys(data.distances),
             data.distanceMinUsines)
  }

  function RegionRowsOf(data: OptimizationInput): seq<Constraint>
    requires forall c :: c in data.centresRegions ==> c in data.maxEntrepotsParRegion
  {
    RegionRows(data.villes, FromStringKeys(data.distances), data.diametreRegion,
               data.centresRegions, data.maxEntrepotsParRegion)
  }

  /**
   * The program the handler hands to the engine, or the KeyError raised first while building
   * it: a missing profit or cost of a town, then a centre without a capacity entry.
   */
  function BuildProgram(data: OptimizationInput): (r: Result<Program, BuildError>)
    ensures r.Ok? <==> Priced(InstanceOf(data)) &&
                       forall c :: c in data.centresRegions ==> c in data.maxEntrepotsParRegion
    ensures r.Err? && !Priced(InstanceOf(data)) ==>
              r.error.key in data.villes &&
              (|| r.error.key !in data.rentabiliteUsine || r.error.key !in data.rentabiliteEntrepot
               || r.error.key !in data.coutsUsine || r.error.key !in data.coutsEntrepot)
    ensures r.Err? && Priced(InstanceOf(data)) ==>
              r.error.key in data.centresRegions && r.error.key !in data.maxEntrepotsParRegion
  {
    var inst := InstanceOf(data);
    match PriceError(inst)
    case Some(e) => Err(e)
    case None =>
      match FirstMissing(data.centresRegions, data.maxEntrepotsParRegion)
      case Some(c) => Err(KeyError(c))
      case None =>
        Ok(Program(Variables(data.villes), Objective(inst), CoreRows(inst, false) + RegionRowsOf(data)))
  }

  /**
   * The dict returned for the engine's answer: it carries the status, and the success
   * message, the numbers and any listed town, all from `villes`, exactly on OPTIMAL.
   */
  function Report(data: OptimizationInput, out: SolverOutput): (r: OptimizeResult)
    requires Priced(InstanceOf(data))
    ensures r.status == out.status
    ensures r.message == FOUND <==> out.status == OPTIMAL
    ensures r.rentabiliteMaximale.Some? <==> out.status == OPTIMAL
    ensures r.budgetUtilise.Some? <==> out.status == OPTIMAL
    ensures forall t :: t in r.usinesConstruites ==> t in data.villes
    ensures forall t :: t in r.entrepotsConstruits ==> t in data.villes
  {
    assert FOUND != NOT_FOUND by { assert |FOUND| != |NOT_FOUND|; }
    if out.status == OPTIMAL then
      OptimizeResult(out.status,
                     Built(data.villes, out.value, Factory),
                     Built(data.villes, out.value, Warehouse),
                     Some(out.objVal),
                     Some(SplitBudgetUsed(InstanceOf(data), out.value)),
                     FOUND)
    else
      OptimizeResult(out.status, [], [], None, None, NOT_FOUND)
  }

  /**
   * What a call of the handler returns, or the KeyError it raises: it raises exactly when a
   * town lacks a price or a centre lacks a cap, on such a town or centre, and otherwise
   * reports the engine's status.
   */
  function OptimizeOutcome(data: OptimizationInput, engine: Program -> SolverOutput): (r: Result<OptimizeResult, BuildError>)
    ensures r.Err? <==> !Priced(InstanceOf(data)) ||
                        exists c :: c in data.centresRegions && c !in data.maxEntrepotsParRegion
    ensures r.Err? ==> r.error.key in data.villes || r.error.key in data.centresRegions
    ensures r.Ok? ==> r.value.status == engine(BuildProgram(data).value).status
  {
    match BuildProgram(data)
    case Err(e) => Err(e)
    case Ok(p) => Ok(Report(data, engine(p)))
  }

  /** Lines 41-73 of the handler: a fresh model gets its variables, the objective and the core rows. */
  method BuildCore(m: MilpModel, inst: Instance) returns (err: Option<BuildError>)
    requires m.vars == [] && m.objective == [] && m.rows == []
    modifies m
    ensures err == PriceError(inst)
    ensures err.None? ==> m.Snapshot() == Program(Variables(inst.villes), Objective(inst), CoreRows(inst, false))
    ensures m.solution == old(m.solution)
  {
    m.AddVars(SiteVars(inst.villes, Factory));
    m.AddVars(SiteVars(inst.villes, Warehouse));
    err := SetProfitObjective(m, inst);
    if err.Some? { return; }
    err := AddCoreRows(m, inst, false);
  }

  /** Lines 41-84 of the handler: variables, objective and rows are added to a fresh model `m`. */
  method BuildModel(m: MilpModel, data: OptimizationInput) returns (err: Option<BuildError>)
    requires m.vars == [] && m.objective == [] && m.rows == [] && m.solution == None
    modifies m
    ensures err.None? <==> BuildProgram(data).Ok?
    ensures err.Some? ==> BuildProgram(data) == Err(err.value)
    ensures err.None? ==> m.Snapshot() == BuildProgram(data).value && m.solution == None
  {
    var inst := InstanceOf(data);
    err := BuildCore(m, inst);
    if err.Some? { return; }
    err := AddRegionRows(m, data.villes, inst.distances, data.diametreRegion,
                         data.centresRegions, data.maxEntrepotsParRegion);
  }

  /** Lines 88-105 of the handler: the dict starts empty and is filled in only when the status is OPTIMAL. */
  method ReportOf(m: MilpModel, data: OptimizationInput) returns (result: OptimizeResult)
    requires Priced(InstanceOf(data))
    ensures m.solution.Some? ==> result == Report(data, m.solution.value)
  {
    result := OptimizeResult(m.Status(), [], [], None, None, "");
    if m.Status() == OPTIMAL {
      var out := m.solution.value;
      result := result.(usinesConstruites := Built(data.villes, out.value, Factory));
      result := result.(entrepotsConstruits := Built(data.villes, out.value, Warehouse));
      result := result.(rentabiliteMaximale := Some(out.objVal));
      result := result.(budgetUtilise := Some(SplitBudgetUsed(InstanceOf(data), out.value)));
      result := result.(message := FOUND);
    } else {
      result := result.(message := NOT_FOUND);
    }
  }

  /** The handler: build the model, optimize, read the answer back. */
  method Optimize(data: OptimizationInput, engine: Program -> SolverOutput)
    returns (r: Result<OptimizeResult, BuildError>)
    ensures r == OptimizeOutcome(data, engine)
  {
    var m := new MilpModel();
    var err := BuildModel(m, data);
    if err.Some? { return Err(err.value); }
    m.Optimize(engine);
    var result := ReportOf(m, data);
    return Ok(result);
  }

  // ----- what a report says

  /** A request that raises does so before the engine is consulted: the engine does not matter. */
  lemma FailsBeforeSolve(data: OptimizationInput, engine: Program -> SolverOutput, other: Program -> SolverOutput)
    requires OptimizeOutcome(data, engine).Err?
    ensures OptimizeOutcome(data, other) == OptimizeOutcome(data, engine)
    ensures !Priced(InstanceOf(data)) || exists c :: c in data.centresRegions && c !in data.maxEntrepotsParRegion
  {
  }

  /** What an OPTIMAL answer of a sound engine gives the report to work with. */
  lemma OptimalSolution(data: OptimizationInput, engine: Program -> SolverOutput)
    requires BuildProgram(data).Ok?
    requires EngineSound(BuildProgram(data).value, engine(BuildProgram(data).value))
    requires engine(BuildProgram(data).value).status == OPTIMAL
    ensures Priced(InstanceOf(data)) && forall c :: c in data.centresRegions ==> c in data.maxEntrepotsParRegion
    ensures BinaryOn(engine(BuildProgram(data).value).value, data.villes)
    ensures AllHold(engine(BuildProgram(data).value).value, CoreRows(InstanceOf(data), false))
    ensures AllHold(engine(BuildProgram(data).value).value, RegionRowsOf(data))
  {
    var p := BuildProgram(data).value;
    var a := engine(p).value;
    BinaryVariables(a, data.villes);
    AllHoldAppend(a, CoreRows(InstanceOf(data), false), RegionRowsOf(data));
  }

  /**
   * An OPTIMAL report lists exactly the towns whose value exceeds 0.5, in the order of
   * `villes`, and carries the engine's objective value and the recomputed budget used.
   */
  lemma OptimalReportContents(data: OptimizationInput, engine: Program -> SolverOutput)
    requires BuildProgram(data).Ok?
    requires engine(BuildProgram(data).value).status == OPTIMAL
    ensures OptimizeOutcome(data, engine).Ok?
    ensures var r, a := OptimizeOutcome(data, engine).value, engine(BuildProgram(data).value).value;
      && r.status == OPTIMAL && r.message == FOUND
      && r.usinesConstruites == Built(data.villes, a, Factory)
      && r.entrepotsConstruits == Built(data.villes, a, Warehouse)
      && (forall t :: t in r.usinesConstruites <==> t in data.villes && a(Var(Factory, t)) > 0.5)
      && (forall t :: t in r.entrepotsConstruits <==> t in data.villes && a(Var(Warehouse, t)) > 0.5)
      && r.rentabiliteMaximale == Some(engine(BuildProgram(data).value).objVal)
      && r.budgetUtilise == Some(TotalCost(InstanceOf(data), data.villes, a))
  {
    var a := engine(BuildProgram(data).value).value;
    BudgetUsedWithinBudget(InstanceOf(data), a);
    forall t ensures t in Built(data.villes, a, Factory) <==> t in data.villes && a(Var(Factory, t)) > 0.5 {
      BuiltMembers(data.villes, a, Factory, t);
    }
    forall t ensures t in Built(data.villes, a, Warehouse) <==> t in data.villes && a(Var(Warehouse, t)) > 0.5 {
      BuiltMembers(data.villes, a, Warehouse, t);
    }
  }

  /**
   * When a sound engine answers OPTIMAL, the report keeps the siting rules: every reported
   * warehouse town is a reported factory town, no two towns closer than `distance_min_usines`
   * are both reported factories, the budget used is within `budget_total`, the maximal profit
   * is the objective's value, and no region reports more warehouses than its cap.
   */
  lemma OptimalReportRules(data: OptimizationInput, engine: Program -> SolverOutput)
    requires BuildProgram(data).Ok?
    requires EngineSound(BuildProgram(data).value, engine(BuildProgram(data).value))
    requires engine(BuildProgram(data).value).status == OPTIMAL
    ensures OptimizeOutcome(data, engine).Ok?
    ensures var r, a := OptimizeOutcome(data, engine).value, engine(BuildProgram(data).value).value;
      && (forall t :: t in r.entrepotsConstruits ==> t in r.usinesConstruites)
      && (forall i, j ::
            (0 <= i < j < |data.villes| &&
             TooClose(FromStringKeys(data.distances), data.distanceMinUsines, data.villes[i], data.villes[j])) ==>
            !(data.villes[i] in r.usinesConstruites && data.villes[j] in r.usinesConstruites))
      && r.budgetUtilise.Some? && r.budgetUtilise.value <= data.budgetTotal
      && r.rentabiliteMaximale == Some(Eval(a, Objective(InstanceOf(data))))
  {
    var p := BuildProgram(data).value;
    var a := engine(p).value;
    OptimalSolution(data, engine);
    DecodedRules(InstanceOf(data), false, a);
    BudgetUsedWithinBudget(InstanceOf(data), a);
  }

  /** An OPTIMAL report of a sound engine lists at most `max_entrepots_par_region[c]` warehouses in the region of `c`. */
  lemma OptimalReportRegions(data: OptimizationInput, engine: Program -> SolverOutput)
    requires BuildProgram(data).Ok?
    requires EngineSound(BuildProgram(data).value, engine(BuildProgram(data).value))
    requires engine(BuildProgram(data).value).status == OPTIMAL
    ensures forall c :: c in data.centresRegions ==> c in data.maxEntrepotsParRegion
    ensures var a := engine(BuildProgram(data).value).value;
      forall k :: 0 <= k < |data.centresRegions| ==>
        |Built(RegionMembers(data.villes, FromStringKeys(data.distances), data.diametreRegion, data.centresRegions[k]),
               a, Warehouse)| <= data.maxEntrepotsParRegion[data.centresRegions[k]]
  {
    var a := engine(BuildProgram(data).value).value;
    OptimalSolution(data, engine);
    DecodedRegions(data.villes, FromStringKeys(data.distances), data.diametreRegion,
                   data.centresRegions, data.maxEntrepotsParRegion, a);
  }

  /** Any other status leaves the dict as it started, with only the message set. */
  lemma NotOptimalReport(data: OptimizationInput, engine: Program -> SolverOutput)
    requires BuildProgram(data).Ok?
    requires engine(BuildProgram(data).value).status != OPTIMAL
    ensures OptimizeOutcome(data, engine)
         == Ok(OptimizeResult(engine(BuildProgram(data).value).status, [], [], None, None, NOT_FOUND))
  {
  }

  /**
   * Two towns 5 apart with a minimum factory distance of 10: whatever the costs, profits and
   * regions, an OPTIMAL report of a sound engine never lists both as factories.
   */
  lemma TwoCloseTowns(data: OptimizationInput, engine: Program -> SolverOutput, a: string, b: string)
    requires '-' !in a && '-' !in b
    requires data.villes == [a, b]
    requires data.distances == [(a + "-" + b, 5.0)]
    requires data.distanceMinUsines == 10.0
    requires BuildProgram(data).Ok?
    requires EngineSound(BuildProgram(data).value, engine(BuildProgram(data).value))
    requires engine(BuildProgram(data).value).status == OPTIMAL
    ensures !(a in OptimizeOutcome(data, engine).value.usinesConstruites &&
              b in OptimizeOutcome(data, engine).value.usinesConstruites)
  {
    StringKeyFound(data.distances, 0, a, b);
    assert TooClose(FromStringKeys(data.distances), data.distanceMinUsines, data.villes[0], data.villes[1]);
    OptimalReportRules(data, engine);
  }

  /**
   * With a budget of 0 and every cost positive, an OPTIMAL report of a sound engine lists no
   * factory and no warehouse, and the budget used is 0.
   */
  lemma ZeroBudget(data: OptimizationInput, engine: Program -> SolverOutput)
    requires data.budgetTotal == 0.0
    requires forall t :: t in data.villes ==> t in data.coutsUsine && data.coutsUsine[t] > 0.0
    requires forall t :: t in data.villes ==> t in data.coutsEntrepot && data.coutsEntrepot[t] > 0.0
    requires BuildProgram(data).Ok?
    requires EngineSound(BuildProgram(data).value, engine(BuildProgram(data).value))
    requires engine(BuildProgram(data).value).status == OPTIMAL
    ensures OptimizeOutcome(data, engine).Ok?
    ensures var r := OptimizeOutcome(data, engine).value;
      r.usinesConstruites == [] && r.entrepotsConstruits == [] && r.budgetUtilise == Some(0.0)
  {
    var a := engine(BuildProgram(data).value).value;
    OptimalSolution(data, engine);
    OptimalReportContents(data, engine);
    OptimalReportRules(data, engine);
    FreePlanIsEmpty(InstanceOf(data), data.villes, a);
  }

  /** A region centre without a capacity entry fails the request before the engine runs. */
  lemma CentreWithoutCap(data: OptimizationInput, engine: Program -> SolverOutput, c: string)
    requires Priced(InstanceOf(data))
    requires c in data.centresRegions && c !in data.maxEntrepotsParRegion
    ensures OptimizeOutcome(data, engine).Err?
    ensures OptimizeOutcome(data, engine).error.key in data.centresRegions
    ensures OptimizeOutcome(data, engine).error.key !in data.maxEntrepotsParRegion
  {
  }
}

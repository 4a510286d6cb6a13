/**
 * The `Solver` class of the `/solve` flow: it stores the data, builds a model with the
 * objective, the budget row, one linkage row per town, an "at least one warehouse" row when
 * there is more than one town, and the separation rows (no region rows), then optimizes and
 * formats the answer as a dict, or `None` when the status is not OPTIMAL.
 */
module SolverFlow {
  import opened Common
  import opened Milp
  import opened Formulation
  import opened Decoding
  import opened Builder

  /** The dict `_format_results` returns. */
  datatype Results = Results(usines: seq<string>, entrepots: seq<string>, profitabilite: real, budgetUtilise: real)

  /**
   * The program `build_model` hands to the engine, or the KeyError it raises first: a missing
   * profit while the objective is built, then a missing cost while the budget row is built.
   * The "at least one warehouse" row is there exactly when there is more than one town.
   */
  function SolverProgram(inst: Instance): (r: Result<Program, BuildError>)
    ensures r.Ok? <==> Priced(inst)
    ensures r.Err? ==> r.error.key in inst.villes
    ensures r.Err? && HasProfits(inst) ==> r.error.key !in inst.coutsUsine || r.error.key !in inst.coutsEntrepot
  {
    match PriceError(inst)
    case Some(e) => Err(e)
    case None => Ok(Program(Variables(inst.villes), Objective(inst), CoreRows(inst, |inst.villes| > 1)))
  }

  /**
   * `_format_results` for the engine's answer `out`: results exactly on OPTIMAL, listing towns
   * of `villes` whose value exceeds 0.5.
   */
  function Formatted(inst: Instance, out: SolverOutput): (r: Option<Results>)
    requires HasCosts(inst)
    ensures r.Some? <==> out.status == OPTIMAL
    ensures r.Some? ==> forall t :: t in r.value.usines ==> t in inst.villes && out.value(Var(Factory, t)) > 0.5
    ensures r.Some? ==> forall t :: t in r.value.entrepots ==> t in inst.villes && out.value(Var(Warehouse, t)) > 0.5
  {
    if out.status == OPTIMAL then
      Some(Results(Built(inst.villes, out.value, Factory),
                   Built(inst.villes, out.value, Warehouse),
                   out.objVal,
                   TotalCost(inst, inst.villes, out.value)))
    else None
  }

  /**
   * What `build_model()` followed by `solve()` returns, or the KeyError `build_model` raises:
   * it raises exactly when a town lacks a price, and otherwise has results exactly on OPTIMAL.
   */
  function SolveOutcome(inst: Instance, engine: Program -> SolverOutput): (r: Result<Option<Results>, BuildError>)
    ensures r.Err? <==> !Priced(inst)
    ensures r.Ok? ==> (r.value.Some? <==> engine(SolverProgram(inst).value).status == OPTIMAL)
  {
    match SolverProgram(inst)
    case Err(e) => Err(e)
    case Ok(p) => Ok(Formatted(inst, engine(p)))
  }

  class Solver {
    const data: Instance
    const villes: seq<string>
    var model: MilpModel?
    var xU: Option<seq<Var>>
    var y: Option<seq<Var>>

    /** `villes` is the data's list of towns, and the variable lists, once created, are one per town. */
    ghost predicate Valid()
      reads this
    {
      && villes == data.villes
      && (xU.Some? ==> xU.value == SiteVars(villes, Factory))
      && (y.Some? ==> y.value == SiteVars(villes, Warehouse))
    }

    /** `__init__`: only the data and the towns are stored; there is no model and no variable yet. */
    constructor (data: Instance)
      ensures this.data == data && villes == data.villes
      ensures model == null && xU == None && y == None
      ensures Valid()
    {
      this.data := data;
      villes := data.villes;
      model := null;
      xU := None;
      y := None;
    }

    /**
     * `build_model`: a fresh model, one binary variable per town for `x_U` and for `y`, the
     * profit objective, then `_add_constraints`. A KeyError leaves the model as far as it got.
     */
    method BuildModel() returns (err: Option<BuildError>)
      requires Valid()
      modifies this
      ensures Valid() && model != null && fresh(model)
      ensures xU == Some(SiteVars(villes, Factory)) && y == Some(SiteVars(villes, Warehouse))
      ensures err == PriceError(data)
      ensures err.None? ==> model.Snapshot() == SolverProgram(data).value && model.solution == None
    {
      var m := new MilpModel();
      model := m;
      var xs := SiteVars(villes, Factory);
      m.AddVars(xs);
      xU := Some(xs);
      var ys := SiteVars(villes, Warehouse);
      m.AddVars(ys);
      y := Some(ys);
      assert m.vars == Variables(villes) && m.rows == [] && m.solution == None;
      err := SetProfitObjective(m, data);
      if err.Some? { return; }
      err := AddConstraints();
    }

    /**
     * `_add_constraints`: the budget row, a linkage row per town, `sum(y) >= 1` when
     * `len(villes) > 1`, and a separation row per close pair i < j.
     */
    method AddConstraints() returns (err: Option<BuildError>)
      requires Valid() && model != null
      modifies model
      ensures err == CostError(data)
      ensures err.None? ==> model.rows == old(model.rows) + CoreRows(data, |villes| > 1)
      ensures err.Some? ==> model.rows == old(model.rows)
      ensures model.vars == old(model.vars) && model.objective == old(model.objective)
      ensures model.solution == old(model.solution)
    {
      err := AddCoreRows(model, data, |villes| > 1);
    }

    /** `solve`: optimize the model built so far, then format the answer. */
    method Solve(engine: Program -> SolverOutput) returns (res: Option<Results>)
      requires Valid() && model != null && HasCosts(data)
      modifies model
      ensures model.Snapshot() == old(model.Snapshot())
      ensures model.solution == Some(engine(old(model.Snapshot())))
      ensures res == Formatted(data, engine(old(model.Snapshot())))
    {
      model.Optimize(engine);
      res := FormatResults();
    }

    /** `_format_results`: `None` unless the model's status is OPTIMAL. */
    function FormatResults(): (r: Option<Results>)
      reads this, model
      requires Valid() && model != null && HasCosts(data)
      ensures r.Some? <==> model.Status() == OPTIMAL
      ensures model.solution.Some? ==> r == Formatted(data, model.solution.value)
    {
      match model.solution
      case None => None
      case Some(out) => Formatted(data, out)
    }
  }

  // ----- what the flow emits and reports

  /**
   * Every row of the program is the budget row, the linkage row of a town, the "at least one
   * warehouse" row, or the separation row of a close pair i < j: no capacity row is emitted.
   */
  lemma SolverRowKinds(inst: Instance, c: Constraint)
    requires SolverProgram(inst).Ok? && c in SolverProgram(inst).value.rows
    ensures || c == BudgetRow(inst)
            || (exists t :: t in inst.villes && c == LinkageRow(t))
            || c == MinOneRow(inst.villes)
            || (exists i, j :: 0 <= i < j < |inst.villes|
                  && TooClose(inst.distances, inst.distanceMinUsines, inst.villes[i], inst.villes[j])
                  && c == SeparationRow(inst.villes[i], inst.villes[j]))
  {
    var flag := |inst.villes| > 1;
    var head := [BudgetRow(inst)] + LinkageRows(inst.villes) + (if flag then [MinOneRow(inst.villes)] else []);
    var separation := SeparationRows(inst.villes, inst.distances, inst.distanceMinUsines);
    assert CoreRows(inst, flag) == head + separation;
    if c in separation {
      SeparationRowsExact(inst.villes, inst.distances, inst.distanceMinUsines, c);
    } else if c in LinkageRows(inst.villes) {
      var i :| 0 <= i < |inst.villes| && LinkageRows(inst.villes)[i] == c;
      assert inst.villes[i] in inst.villes;
    }
  }

  /** The "at least one warehouse" row, the only `>=` row, is emitted exactly when there are several towns. */
  lemma MinOneRowIffSeveralTowns(inst: Instance)
    requires SolverProgram(inst).Ok?
    ensures MinOneRow(inst.villes) in SolverProgram(inst).value.rows <==> |inst.villes| > 1
    ensures (exists c :: c in SolverProgram(inst).value.rows && c.rel == Ge) <==> |inst.villes| > 1
  {
    var rows := SolverProgram(inst).value.rows;
    if |inst.villes| > 1 {
      assert rows[1 + |inst.villes|] == MinOneRow(inst.villes);
    } else {
      var separation := SeparationRows(inst.villes, inst.distances, inst.distanceMinUsines);
      assert rows == [BudgetRow(inst)] + LinkageRows(inst.villes) + separation;
      forall c | c in rows ensures c.rel == Le {
        if c in separation {
          SeparationRowsExact(inst.villes, inst.distances, inst.distanceMinUsines, c);
        }
      }
    }
  }

  /**
   * `_format_results` on an OPTIMAL answer lists exactly the towns whose value exceeds 0.5,
   * in the order of `villes`, and its budget used is the value of the budget row's left side.
   */
  lemma FormattedContents(inst: Instance, out: SolverOutput)
    requires HasCosts(inst) && out.status == OPTIMAL
    ensures Formatted(inst, out).Some?
    ensures var r := Formatted(inst, out).value;
      && (forall t :: t in r.usines <==> t in inst.villes && out.value(Var(Factory, t)) > 0.5)
      && (forall t :: t in r.entrepots <==> t in inst.villes && out.value(Var(Warehouse, t)) > 0.5)
      && r.profitabilite == out.objVal
      && r.budgetUtilise == Eval(out.value, BudgetRow(inst).terms)
  {
    BudgetRowValue(inst, out.value);
    forall t ensures t in Built(inst.villes, out.value, Factory) <==> t in inst.villes && out.value(Var(Factory, t)) > 0.5 {
      BuiltMembers(inst.villes, out.value, Factory, t);
    }
    forall t ensures t in Built(inst.villes, out.value, Warehouse) <==> t in inst.villes && out.value(Var(Warehouse, t)) > 0.5 {
      BuiltMembers(inst.villes, out.value, Warehouse, t);
    }
  }

  /**
   * An OPTIMAL answer of a sound engine formats into results that keep the siting rules:
   * warehouses only where factories are, no two close factories, the budget used within
   * `budget_total`, at least one warehouse when there are several towns, and the profit
   * equal to the objective's value.
   */
  lemma SolvedRules(inst: Instance, engine: Program -> SolverOutput)
    requires SolverProgram(inst).Ok?
    requires EngineSound(SolverProgram(inst).value, engine(SolverProgram(inst).value))
    requires engine(SolverProgram(inst).value).status == OPTIMAL
    ensures SolveOutcome(inst, engine).Ok? && SolveOutcome(inst, engine).value.Some?
    ensures var r := SolveOutcome(inst, engine).value.value;
      && (forall t :: t in r.entrepots ==> t in r.usines)
      && (forall i, j ::
            (0 <= i < j < |inst.villes| &&
             TooClose(inst.distances, inst.distanceMinUsines, inst.villes[i], inst.villes[j])) ==>
            !(inst.villes[i] in r.usines && inst.villes[j] in r.usines))
      && r.budgetUtilise <= inst.budgetTotal
      && (|inst.villes| > 1 ==> |r.entrepots| >= 1)
      && r.profitabilite == Eval(engine(SolverProgram(inst).value).value, Objective(inst))
  {
    var a := engine(SolverProgram(inst).value).value;
    BinaryVariables(a, inst.villes);
    DecodedRules(inst, |inst.villes| > 1, a);
  }

  /** Any other status formats into `None`. */
  lemma NotSolved(inst: Instance, engine: Program -> SolverOutput)
    requires SolverProgram(inst).Ok?
    requires engine(SolverProgram(inst).value).status != OPTIMAL
    ensures SolveOutcome(inst, engine) == Ok(None)
  {
  }
}

/**
 * The part of the MILP engine's interface the code uses: binary variables, linear
 * constraints (`addConstr`), an objective (`setObjective`), `optimize`, `status`, the value
 * `.x` of each variable and `objVal`. The engine's search is not modelled: `optimize` takes
 * an `engine` function from the assembled program to a status and a value per variable.
 */
module Milp {
  import opened Common

  /** Gurobi status codes: a model not yet optimized is LOADED; OPTIMAL is the only success. */
  const LOADED: int := 1
  const OPTIMAL: int := 2

  datatype Site = Factory | Warehouse

  /** `x_U[town]` (a factory) or `y[town]` (a warehouse). */
  datatype Var = Var(site: Site, town: string)

  datatype Term = Term(coef: real, v: Var)

  datatype Rel = Le | Ge

  /** `sum(coef * v for (coef, v) in terms) <= bound` (or `>=`). */
  datatype Constraint = Constraint(terms: seq<Term>, rel: Rel, bound: real)

  /** Everything handed to the engine: the variables, the objective to maximise, the rows. */
  datatype Program = Program(vars: seq<Var>, objective: seq<Term>, rows: seq<Constraint>)

  type Assignment = Var -> real

  datatype SolverOutput = SolverOutput(status: int, value: Assignment, objVal: real)

  /** The value of a linear expression under an assignment. */
  function Eval(a: Assignment, ts: seq<Term>): real
    decreases |ts|
  {
    if |ts| == 0 then 0.0 else ts[0].coef * a(ts[0].v) + Eval(a, ts[1..])
  }

  lemma {:induction false} EvalAppend(a: Assignment, ts: seq<Term>, us: seq<Term>)
    ensures Eval(a, ts + us) == Eval(a, ts) + Eval(a, us)
    decreases |ts|
  {
    if |ts| > 0 {
      assert (ts + us)[1..] == ts[1..] + us;
      EvalAppend(a, ts[1..], us);
    } else {
      assert ts + us == us;
    }
  }

  predicate Holds(a: Assignment, c: Constraint)
  {
    match c.rel
    case Le => Eval(a, c.terms) <= c.bound
    case Ge => Eval(a, c.terms) >= c.bound
  }

  predicate AllHold(a: Assignment, rows: seq<Constraint>)
  {
    forall c :: c in rows ==> Holds(a, c)
  }

  predicate IsBit(r: real)
  {
    r == 0.0 || r == 1.0
  }

  /** Every declared variable is 0 or 1 (`vtype=GRB.BINARY`). */
  predicate Binary(a: Assignment, vars: seq<Var>)
  {
    forall v :: v in vars ==> IsBit(a(v))
  }

  /**
   * What the code relies on when it reads an OPTIMAL solution: the values are 0/1, every
   * row holds and `objVal` is the objective's value. It is an assumption about the engine;
   * the model states it so that lemmas can require it.
   */
  predicate EngineSound(p: Program, out: SolverOutput)
  {
    out.status == OPTIMAL ==>
      && Binary(out.value, p.vars)
      && AllHold(out.value, p.rows)
      && out.objVal == Eval(out.value, p.objective)
  }

  /** A `gp.Model` as the code uses it: it only grows, until `optimize` records a solution. */
  class MilpModel {
    var vars: seq<Var>
    var objective: seq<Term>
    var rows: seq<Constraint>
    var solution: Option<SolverOutput>

    constructor ()
      ensures vars == [] && objective == [] && rows == [] && solution == None
    {
      vars, objective, rows, solution := [], [], [], None;
    }

    function Snapshot(): Program
      reads this
    {
      Program(vars, objective, rows)
    }

    /** `model.status`. */
    function Status(): int
      reads this
    {
      if solution.Some? then solution.value.status else LOADED
    }

    /** `addVars(villes, vtype=GRB.BINARY)`. */
    method AddVars(vs: seq<Var>)
      modifies this
      ensures vars == old(vars) + vs
      ensures objective == old(objective) && rows == old(rows) && solution == old(solution)
    {
      vars := vars + vs;
    }

    /** `setObjective(expr, GRB.MAXIMIZE)`. */
    method SetObjective(ts: seq<Term>)
      modifies this
      ensures objective == ts
      ensures vars == old(vars) && rows == old(rows) && solution == old(solution)
    {
      objective := ts;
    }

    /** `addConstr(row)`. */
    method AddConstr(c: Constraint)
      modifies this
      ensures rows == old(rows) + [c]
      ensures vars == old(vars) && objective == old(objective) && solution == old(solution)
    {
      rows := rows + [c];
    }

    /** `optimize()`: the engine's answer for the program assembled so far. */
    method Optimize(engine: Program -> SolverOutput)
      modifies this
      ensures solution == Some(engine(old(Snapshot())))
      ensures vars == old(vars) && objective == old(objective) && rows == old(rows)
    {
      solution := Some(engine(Snapshot()));
    }
  }
}

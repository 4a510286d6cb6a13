/**
 * The `/solve` handler: it checks that the eight required fields are present, turns the list
 * of `{from, to, distance}` records into a dict keyed by sorted pairs (the last record of a
 * pair wins), hands the converted data to a `Solver`, and answers with the results and the
 * input budget, or with a 400 error when a field is missing or no optimum was found.
 */
module App {
  import opened Common
  import opened Keys
  import opened Distances
  import opened Milp
  import opened Formulation
  import opened SolverFlow

  /** The JSON body; `None` is a key absent from the body. */
  datatype Payload = Payload(
    villes: Option<seq<string>>,
    coutsUsine: Option<map<string, real>>,
    coutsEntrepot: Option<map<string, real>>,
    rentabiliteUsine: Option<map<string, real>>,
    rentabiliteEntrepot: Option<map<string, real>>,
    budgetTotal: Option<real>,
    distances: Option<seq<DistanceRecord>>,
    distanceMinUsines: Option<real>)

  /** The JSON answer with its HTTP status: the results (status 200), or an error message. */
  datatype Response =
    | Solved(usinesConstruites: seq<string>, entrepotsConstruits: seq<string>,
             profitabiliteTotale: real, budgetUtilise: real, budgetTotal: real)
    | Failed(code: int, error: string)

  const MISSING_FIELDS: string := "Missing required fields"
  const NO_OPTIMUM: string := "Aucune solution optimale trouvée"

  /** `all(field in data for field in required_fields)`. */
  predicate HasRequiredFields(p: Payload)
  {
    && p.villes.Some? && p.coutsUsine.Some? && p.coutsEntrepot.Some?
    && p.rentabiliteUsine.Some? && p.rentabiliteEntrepot.Some?
    && p.budgetTotal.Some? && p.distances.Some? && p.distanceMinUsines.Some?
  }

  /** `data` after `data['distances'] = distances`: what `Solver(data)` is given. */
  function Converted(p: Payload): Instance
    requires HasRequiredFields(p)
  {
    Instance(p.villes.value, p.coutsUsine.value, p.coutsEntrepot.value, p.rentabiliteUsine.value,
             p.rentabiliteEntrepot.value, p.budgetTotal.value, FromRecords(p.distances.value),
             p.distanceMinUsines.value)
  }

  /**
   * The handler's answer, or the KeyError the solver raises (which the handler's blanket
   * `except` turns into a 500). Only a complete payload whose towns lack a price raises;
   * every error answer has status 400; a Solved answer echoes `budget_total` and lists towns
   * of `villes`.
   */
  function SolveSpec(p: Payload, engine: Program -> SolverOutput): (r: Result<Response, BuildError>)
    ensures r.Err? ==> HasRequiredFields(p) && !Priced(Converted(p))
    ensures r.Ok? && r.value.Failed? ==> r.value.code == 400
    ensures r.Ok? && r.value.Solved? ==>
      && HasRequiredFields(p)
      && r.value.budgetTotal == p.budgetTotal.value
      && (forall t :: t in r.value.usinesConstruites ==> t in p.villes.value)
      && (forall t :: t in r.value.entrepotsConstruits ==> t in p.villes.value)
  {
    if !HasRequiredFields(p) then Ok(Failed(400, MISSING_FIELDS))
    else
      match SolveOutcome(Converted(p), engine)
      case Err(e) => Err(e)
      case Ok(None) => Ok(Failed(400, NO_OPTIMUM))
      case Ok(Some(r)) => Ok(Solved(r.usines, r.entrepots, r.profitabilite, r.budgetUtilise, p.budgetTotal.value))
  }

  /** `for d in data['distances']: distances[tuple(sorted((d['from'], d['to'])))] = d['distance']`. */
  method ConvertDistances(records: seq<DistanceRecord>) returns (table: DistanceTable)
    ensures table == FromRecords(records)
  {
    table := map[];
    var k := 0;
    while k < |records|
      invariant 0 <= k <= |records|
      invariant table == Override(RecordEntries(records)[..k])
    {
      var d := records[k];
      PairKeyIsSorted(d.from, d.to);
      var key := SortStrings([d.from, d.to]);
      assert RecordEntries(records)[..k + 1][..k] == RecordEntries(records)[..k];
      table := table[key := d.distance];
      k := k + 1;
    }
    assert RecordEntries(records)[..k] == RecordEntries(records);
  }

  /** The handler, from the field check to the response. */
  method SolveOptimization(p: Payload, engine: Program -> SolverOutput) returns (r: Result<Response, BuildError>)
    ensures r == SolveSpec(p, engine)
  {
    if !HasRequiredFields(p) {
      return Ok(Failed(400, MISSING_FIELDS));
    }
    var distances := ConvertDistances(p.distances.value);
    var data := Instance(p.villes.value, p.coutsUsine.value, p.coutsEntrepot.value, p.rentabiliteUsine.value,
                         p.rentabiliteEntrepot.value, p.budgetTotal.value, distances, p.distanceMinUsines.value);
    var solver := new Solver(data);
    var err := solver.BuildModel();
    if err.Some? {
      return Err(err.value);
    }
    var results := solver.Solve(engine);
    if results.Some? {
      var res := results.value;
      return Ok(Solved(res.usines, res.entrepots, res.profitabilite, res.budgetUtilise, p.budgetTotal.value));
    }
    return Ok(Failed(400, NO_OPTIMUM));
  }

  // ----- what the handler answers

  /** The 400 "Missing required fields" answer comes exactly from a missing field, whatever the engine. */
  lemma MissingFieldsAnswer(p: Payload, engine: Program -> SolverOutput)
    ensures SolveSpec(p, engine) == Ok(Failed(400, MISSING_FIELDS)) <==> !HasRequiredFields(p)
  {
    assert MISSING_FIELDS != NO_OPTIMUM by {
      assert |MISSING_FIELDS| != |NO_OPTIMUM|;
    }
  }

  /**
   * A complete payload is answered with the results of an OPTIMAL solve, with 400 "Aucune
   * solution optimale trouvée" for any other status, and `budget_total` is echoed unchanged.
   */
  lemma CompletePayloadAnswer(p: Payload, engine: Program -> SolverOutput)
    requires HasRequiredFields(p) && SolverProgram(Converted(p)).Ok?
    ensures SolveSpec(p, engine).Ok?
    ensures SolveSpec(p, engine).value.Solved? <==> engine(SolverProgram(Converted(p)).value).status == OPTIMAL
    ensures SolveSpec(p, engine).value.Failed? ==> SolveSpec(p, engine).value == Failed(400, NO_OPTIMUM)
    ensures SolveSpec(p, engine).value.Solved? ==> SolveSpec(p, engine).value.budgetTotal == p.budgetTotal.value
  {
  }

  /**
   * A Solved answer built from an OPTIMAL answer of a sound engine keeps the siting rules:
   * warehouses only where factories are, no two factories closer than `distance_min_usines`
   * by the last record naming the pair, at least one warehouse when there are several towns,
   * and `budget_utilise <= budget_total`.
   */
  lemma SolvedAnswerRules(p: Payload, engine: Program -> SolverOutput)
    requires HasRequiredFields(p) && SolverProgram(Converted(p)).Ok?
    requires EngineSound(SolverProgram(Converted(p)).value, engine(SolverProgram(Converted(p)).value))
    requires SolveSpec(p, engine).Ok? && SolveSpec(p, engine).value.Solved?
    ensures var r, villes := SolveSpec(p, engine).value, p.villes.value;
      && (forall t :: t in r.entrepotsConstruits ==> t in r.usinesConstruites)
      && (forall i, j ::
            (0 <= i < j < |villes| &&
             TooClose(FromRecords(p.distances.value), p.distanceMinUsines.value, villes[i], villes[j])) ==>
            !(villes[i] in r.usinesConstruites && villes[j] in r.usinesConstruites))
      && (|villes| > 1 ==> |r.entrepotsConstruits| >= 1)
      && r.budgetUtilise <= r.budgetTotal
  {
    SolvedRules(Converted(p), engine);
  }
}

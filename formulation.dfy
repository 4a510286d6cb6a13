/**
 * The formulation shared by the two model-building flows: the variables, the objective and
 * the rows each flow emits, written as functions of the input data, with lemmas that say what
 * a 0/1 assignment satisfying the rows means for the sites it opens.
 */
module Formulation {
  import opened Common
  import opened Keys
  import opened Distances
  import opened Milp

  /** A dict lookup `d[key]` that raises. */
  datatype BuildError = KeyError(key: string)

  /** The data both flows formulate from (the `/solve` payload after its distances are converted). */
  datatype Instance = Instance(
    villes: seq<string>,
    coutsUsine: map<string, real>,
    coutsEntrepot: map<string, real>,
    rentabiliteUsine: map<string, real>,
    rentabiliteEntrepot: map<string, real>,
    budgetTotal: real,
    distances: DistanceTable,
    distanceMinUsines: real)

  /** The first of `keys`, in order, that `m` has no entry for: the key `m[k]` raises on. */
  function FirstMissing<V>(keys: seq<string>, m: map<string, V>): (r: Option<string>)
    ensures r.None? <==> forall k :: k in keys ==> k in m
    ensures r.Some? ==> r.value in keys && r.value !in m
    decreases |keys|
  {
    if |keys| == 0 then None
    else if keys[0] !in m then Some(keys[0])
    else
      var r := FirstMissing(keys[1..], m);
      assert forall k :: k in keys ==> k == keys[0] || k in keys[1..];
      r
  }

  /** The key reported is the first missing one: every key before its first occurrence is present. */
  lemma {:induction false} FirstMissingIsFirst<V>(keys: seq<string>, m: map<string, V>)
    requires FirstMissing(keys, m).Some?
    ensures exists i :: 0 <= i < |keys| && keys[i] == FirstMissing(keys, m).value
                        && forall j :: 0 <= j < i ==> keys[j] in m
    decreases |keys|
  {
    if keys[0] in m {
      FirstMissingIsFirst(keys[1..], m);
      var i :| 0 <= i < |keys[1..]| && keys[1..][i] == FirstMissing(keys, m).value
               && forall j :: 0 <= j < i ==> keys[1..][j] in m;
      forall j | 0 <= j < i + 1 ensures keys[j] in m {
        if j > 0 { assert keys[j] == keys[1..][j - 1]; }
      }
      assert keys[i + 1] == FirstMissing(keys, m).value;
    } else {
      assert keys[0] == FirstMissing(keys, m).value;
    }
  }

  /** When every key before position `k` is present and `keys[k]` is not, the lookup raises on `keys[k]`. */
  lemma {:induction false} FirstMissingAt<V>(keys: seq<string>, m: map<string, V>, k: nat)
    requires k < |keys| && keys[k] !in m
    requires forall j :: 0 <= j < k ==> keys[j] in m
    ensures FirstMissing(keys, m) == Some(keys[k])
    decreases k
  {
    if k > 0 {
      FirstMissingAt(keys[1..], m, k - 1);
    }
  }

  /** Every town has both profits, so building the objective raises nothing. */
  predicate HasProfits(inst: Instance)
  {
    forall t :: t in inst.villes ==> t in inst.rentabiliteUsine && t in inst.rentabiliteEntrepot
  }

  /** Every town has both costs, so building the budget row raises nothing. */
  predicate HasCosts(inst: Instance)
  {
    forall t :: t in inst.villes ==> t in inst.coutsUsine && t in inst.coutsEntrepot
  }

  predicate Priced(inst: Instance)
  {
    HasProfits(inst) && HasCosts(inst)
  }

  /** The KeyError, if any, raised while the objective is built: profits of factories, then of warehouses. */
  function ProfitError(inst: Instance): (r: Option<BuildError>)
    ensures r.None? <==> HasProfits(inst)
    ensures r.Some? ==> r.value.key in inst.villes
    ensures r.Some? ==> r.value.key !in inst.rentabiliteUsine || r.value.key !in inst.rentabiliteEntrepot
  {
    match FirstMissing(inst.villes, inst.rentabiliteUsine)
    case Some(k) => Some(KeyError(k))
    case None =>
      match FirstMissing(inst.villes, inst.rentabiliteEntrepot)
      case Some(k) => Some(KeyError(k))
      case None => None
  }

  /** The KeyError, if any, raised while the budget row is built: costs of factories, then of warehouses. */
  function CostError(inst: Instance): (r: Option<BuildError>)
    ensures r.None? <==> HasCosts(inst)
    ensures r.Some? ==> r.value.key in inst.villes
    ensures r.Some? ==> r.value.key !in inst.coutsUsine || r.value.key !in inst.coutsEntrepot
  {
    match FirstMissing(inst.villes, inst.coutsUsine)
    case Some(k) => Some(KeyError(k))
    case None =>
      match FirstMissing(inst.villes, inst.coutsEntrepot)
      case Some(k) => Some(KeyError(k))
      case None => None
  }

  /** The objective is built before the budget row, so a missing profit is reported before a missing cost. */
  function PriceError(inst: Instance): Option<BuildError>
  {
    if ProfitError(inst).Some? then ProfitError(inst) else CostError(inst)
  }

  // ----- variables and linear expressions

  function SiteVars(towns: seq<string>, site: Site): seq<Var>
  {
    seq(|towns|, i requires 0 <= i < |towns| => Var(site, towns[i]))
  }

  /** `addVars(villes)` for `x_U`, then for `y`. */
  function Variables(towns: seq<string>): seq<Var>
  {
    SiteVars(towns, Factory) + SiteVars(towns, Warehouse)
  }

  /** `quicksum(w[i] * v[i] for i in towns)`. */
  function WeightedTerms(towns: seq<string>, w: map<string, real>, site: Site): seq<Term>
    requires forall t :: t in towns ==> t in w
  {
    seq(|towns|, i requires 0 <= i < |towns| => Term(w[towns[i]], Var(site, towns[i])))
  }

  /** `quicksum(v[i] for i in towns)`. */
  function UnitTerms(towns: seq<string>, site: Site): seq<Term>
  {
    seq(|towns|, i requires 0 <= i < |towns| => Term(1.0, Var(site, towns[i])))
  }

  /** `sum(w[i] * value(v[i]) for i in towns)`. */
  function WeightedSum(towns: seq<string>, w: map<string, real>, site: Site, a: Assignment): real
    requires forall t :: t in towns ==> t in w
    decreases |towns|
  {
    if |towns| == 0 then 0.0
    else w[towns[0]] * a(Var(site, towns[0])) + WeightedSum(towns[1..], w, site, a)
  }

  /**
   * The cost of the sites an assignment opens, town by town: nothing opened costs nothing
   * (FreePlanIsEmpty proves the cost is never negative for positive costs and 0/1 values).
   */
  function TotalCost(inst: Instance, towns: seq<string>, a: Assignment): (r: real)
    requires forall t :: t in towns ==> t in inst.coutsUsine && t in inst.coutsEntrepot
    ensures (forall t :: t in towns ==> a(Var(Factory, t)) == 0.0 && a(Var(Warehouse, t)) == 0.0) ==> r == 0.0
    decreases |towns|
  {
    if |towns| == 0 then 0.0
    else
      assert forall t :: t in towns[1..] ==> t in towns;
      inst.coutsUsine[towns[0]] * a(Var(Factory, towns[0]))
      + inst.coutsEntrepot[towns[0]] * a(Var(Warehouse, towns[0]))
      + TotalCost(inst, towns[1..], a)
  }

  /** How many of `towns` (counted with repetition) have the site's variable at 1. */
  function Count(towns: seq<string>, a: Assignment, site: Site): nat
    decreases |towns|
  {
    if |towns| == 0 then 0
    else (if a(Var(site, towns[0])) == 1.0 then 1 else 0) + Count(towns[1..], a, site)
  }

  lemma {:induction false} WeightedTermsValue(towns: seq<string>, w: map<string, real>, site: Site, a: Assignment)
    requires forall t :: t in towns ==> t in w
    ensures Eval(a, WeightedTerms(towns, w, site)) == WeightedSum(towns, w, site, a)
    decreases |towns|
  {
    if |towns| > 0 {
      assert WeightedTerms(towns, w, site)[1..] == WeightedTerms(towns[1..], w, site);
      WeightedTermsValue(towns[1..], w, site, a);
    }
  }

  /** Summing factory costs and warehouse costs separately gives the town-by-town total. */
  lemma {:induction false} TwoSumsAreTotalCost(inst: Instance, towns: seq<string>, a: Assignment)
    requires forall t :: t in towns ==> t in inst.coutsUsine && t in inst.coutsEntrepot
    ensures WeightedSum(towns, inst.coutsUsine, Factory, a) + WeightedSum(towns, inst.coutsEntrepot, Warehouse, a)
         == TotalCost(inst, towns, a)
    decreases |towns|
  {
    if |towns| > 0 { TwoSumsAreTotalCost(inst, towns[1..], a); }
  }

  predicate BitsOn(a: Assignment, towns: seq<string>, site: Site)
  {
    forall t :: t in towns ==> IsBit(a(Var(site, t)))
  }

  /** Over 0/1 values, a sum of unit terms counts the variables at 1. */
  lemma {:induction false} UnitTermsCount(towns: seq<string>, a: Assignment, site: Site)
    requires BitsOn(a, towns, site)
    ensures Eval(a, UnitTerms(towns, site)) == Count(towns, a, site) as real
    decreases |towns|
  {
    if |towns| > 0 {
      assert UnitTerms(towns, site)[1..] == UnitTerms(towns[1..], site);
      assert towns[0] in towns;
      UnitTermsCount(towns[1..], a, site);
    }
  }

  /** Every variable of `towns`, factory and warehouse, is 0 or 1. */
  predicate BinaryOn(a: Assignment, towns: seq<string>)
  {
    BitsOn(a, towns, Factory) && BitsOn(a, towns, Warehouse)
  }

  /** Declaring the variables binary is the same as requiring each town's two variables to be 0 or 1. */
  lemma BinaryVariables(a: Assignment, towns: seq<string>)
    ensures Binary(a, Variables(towns)) <==> BinaryOn(a, towns)
  {
    var vs := Variables(towns);
    if Binary(a, vs) {
      forall t | t in towns ensures IsBit(a(Var(Factory, t))) && IsBit(a(Var(Warehouse, t))) {
        var i :| 0 <= i < |towns| && towns[i] == t;
        assert vs[i] == Var(Factory, t) && vs[|towns| + i] == Var(Warehouse, t);
      }
    }
    if BinaryOn(a, towns) {
      forall v | v in vs ensures IsBit(a(v)) {
        var i :| 0 <= i < |vs| && vs[i] == v;
        if i < |towns| { assert towns[i] in towns; } else { assert towns[i - |towns|] in towns; }
      }
    }
  }

  // ----- the rows

  /**
   * The objective `sum(rentabilite_usine[i]*x_U[i]) + sum(rentabilite_entrepot[i]*y[i])`: its
   * value is the profit of the factories plus the profit of the warehouses.
   */
  function Objective(inst: Instance): (r: seq<Term>)
    requires HasProfits(inst)
    ensures forall a :: Eval(a, r) == WeightedSum(inst.villes, inst.rentabiliteUsine, Factory, a)
                                     + WeightedSum(inst.villes, inst.rentabiliteEntrepot, Warehouse, a)
  {
    var u := WeightedTerms(inst.villes, inst.rentabiliteUsine, Factory);
    var e := WeightedTerms(inst.villes, inst.rentabiliteEntrepot, Warehouse);
    assert forall a :: Eval(a, u + e) == WeightedSum(inst.villes, inst.rentabiliteUsine, Factory, a)
                                       + WeightedSum(inst.villes, inst.rentabiliteEntrepot, Warehouse, a) by {
      forall a ensures Eval(a, u + e) == WeightedSum(inst.villes, inst.rentabiliteUsine, Factory, a)
                                       + WeightedSum(inst.villes, inst.rentabiliteEntrepot, Warehouse, a) {
        EvalAppend(a, u, e);
        WeightedTermsValue(inst.villes, inst.rentabiliteUsine, Factory, a);
        WeightedTermsValue(inst.villes, inst.rentabiliteEntrepot, Warehouse, a);
      }
    }
    u + e
  }

  /**
   * `sum(couts_usine[i]*x_U[i]) + sum(couts_entrepot[i]*y[i]) <= budget_total`: it holds
   * exactly when the sites opened cost at most the budget.
   */
  function BudgetRow(inst: Instance): (r: Constraint)
    requires HasCosts(inst)
    ensures r.rel == Le
    ensures forall a :: Holds(a, r) <==> TotalCost(inst, inst.villes, a) <= inst.budgetTotal
  {
    var u := WeightedTerms(inst.villes, inst.coutsUsine, Factory);
    var e := WeightedTerms(inst.villes, inst.coutsEntrepot, Warehouse);
    assert forall a :: Eval(a, u + e) == TotalCost(inst, inst.villes, a) by {
      forall a ensures Eval(a, u + e) == TotalCost(inst, inst.villes, a) {
        EvalAppend(a, u, e);
        WeightedTermsValue(inst.villes, inst.coutsUsine, Factory, a);
        WeightedTermsValue(inst.villes, inst.coutsEntrepot, Warehouse, a);
        TwoSumsAreTotalCost(inst, inst.villes, a);
      }
    }
    Constraint(u + e, Le, inst.budgetTotal)
  }

  /** `y[t] <= x_U[t]`, which the engine reads as `y[t] - x_U[t] <= 0`. */
  function LinkageRow(t: string): Constraint
  {
    Constraint([Term(1.0, Var(Warehouse, t)), Term(-1.0, Var(Factory, t))], Le, 0.0)
  }

  /** `for i in villes: addConstr(y[i] <= x_U[i])`: they hold exactly when no town's `y` exceeds its `x_U`. */
  function LinkageRows(towns: seq<string>): (r: seq<Constraint>)
    ensures forall a :: AllHold(a, r) <==> forall t :: t in towns ==> a(Var(Warehouse, t)) <= a(Var(Factory, t))
  {
    var rows := seq(|towns|, i requires 0 <= i < |towns| => LinkageRow(towns[i]));
    assert forall a :: AllHold(a, rows) <==> forall t :: t in towns ==> a(Var(Warehouse, t)) <= a(Var(Factory, t)) by {
      forall a ensures AllHold(a, rows) <==> forall t :: t in towns ==> a(Var(Warehouse, t)) <= a(Var(Factory, t)) {
        if AllHold(a, rows) {
          forall t | t in towns ensures a(Var(Warehouse, t)) <= a(Var(Factory, t)) {
            var i :| 0 <= i < |towns| && towns[i] == t;
            assert rows[i] in rows;
            LinkageRowHolds(a, t);
          }
        }
        if forall t :: t in towns ==> a(Var(Warehouse, t)) <= a(Var(Factory, t)) {
          forall c | c in rows ensures Holds(a, c) {
            var i :| 0 <= i < |rows| && rows[i] == c;
            assert towns[i] in towns;
            LinkageRowHolds(a, towns[i]);
          }
        }
      }
    }
    rows
  }

  /** `quicksum(y[i] for i in villes) >= 1`: over 0/1 values, it holds exactly when a warehouse is opened. */
  function MinOneRow(towns: seq<string>): (r: Constraint)
    ensures r.rel == Ge
    ensures forall a :: BitsOn(a, towns, Warehouse) ==> (Holds(a, r) <==> Count(towns, a, Warehouse) >= 1)
  {
    assert forall a :: BitsOn(a, towns, Warehouse) ==> Eval(a, UnitTerms(towns, Warehouse)) == Count(towns, a, Warehouse) as real by {
      forall a | BitsOn(a, towns, Warehouse) ensures Eval(a, UnitTerms(towns, Warehouse)) == Count(towns, a, Warehouse) as real {
        UnitTermsCount(towns, a, Warehouse);
      }
    }
    Constraint(UnitTerms(towns, Warehouse), Ge, 1.0)
  }

  /** `x_U[a] + x_U[b] <= 1`. */
  function SeparationRow(a: string, b: string): Constraint
  {
    Constraint([Term(1.0, Var(Factory, a)), Term(1.0, Var(Factory, b))], Le, 1.0)
  }

  /** The distance of the pair, `inf` when missing, is strictly below the threshold. */
  predicate TooClose(table: DistanceTable, dmin: real, a: string, b: string)
  {
    Below(Distance(table, a, b), dmin)
  }

  /** The positions (i, j), with `i` fixed and `j0 <= j`, of the pairs that are too close. */
  function ClosePartners(villes: seq<string>, table: DistanceTable, dmin: real, i: nat, j0: nat): set<(int, int)>
    requires i < |villes|
  {
    set j | j0 <= j < |villes| && TooClose(table, dmin, villes[i], villes[j]) :: (i, j)
  }

  /** The positions i < j, with `i0 <= i`, of the pairs that are too close. */
  function ClosePairs(villes: seq<string>, table: DistanceTable, dmin: real, i0: nat): set<(int, int)>
  {
    set i, j | i0 <= i < j < |villes| && TooClose(table, dmin, villes[i], villes[j]) :: (i, j)
  }

  /** The inner loop: `for j in range(j0, len(villes))` with `i` fixed. */
  function PairRows(villes: seq<string>, table: DistanceTable, dmin: real, i: nat, j: nat): seq<Constraint>
    requires i < j <= |villes|
    decreases |villes| - j
  {
    if j == |villes| then []
    else
      (if TooClose(table, dmin, villes[i], villes[j]) then [SeparationRow(villes[i], villes[j])] else [])
        + PairRows(villes, table, dmin, i, j + 1)
  }

  lemma ClosePartnersMember(villes: seq<string>, table: DistanceTable, dmin: real, i: nat, j0: nat, p: (int, int))
    requires i < |villes|
    ensures p in ClosePartners(villes, table, dmin, i, j0) <==>
            p.0 == i && j0 <= p.1 < |villes| && TooClose(table, dmin, villes[i], villes[p.1])
  {
    if p.0 == i && j0 <= p.1 < |villes| && TooClose(table, dmin, villes[i], villes[p.1]) {
      assert p == (i, p.1);
    }
  }

  /** The close pairs from `j` on are the pair (i, j), when close, and those from `j + 1` on. */
  lemma ClosePartnersStep(villes: seq<string>, table: DistanceTable, dmin: real, i: nat, j: nat)
    requires i < j < |villes|
    ensures (i, j) !in ClosePartners(villes, table, dmin, i, j + 1)
    ensures |ClosePartners(villes, table, dmin, i, j)| ==
            |ClosePartners(villes, table, dmin, i, j + 1)| + (if TooClose(table, dmin, villes[i], villes[j]) then 1 else 0)
  {
    var here, later := ClosePartners(villes, table, dmin, i, j), ClosePartners(villes, table, dmin, i, j + 1);
    assert (i, j) !in later by {
      ClosePartnersMember(villes, table, dmin, i, j + 1, (i, j));
    }
    if TooClose(table, dmin, villes[i], villes[j]) {
      assert here == later + {(i, j)} by {
        forall p ensures p in here <==> p in later + {(i, j)} {
          ClosePartnersMember(villes, table, dmin, i, j, p);
          ClosePartnersMember(villes, table, dmin, i, j + 1, p);
        }
      }
    } else {
      assert here == later by {
        forall p ensures p in here <==> p in later {
          ClosePartnersMember(villes, table, dmin, i, j, p);
          ClosePartnersMember(villes, table, dmin, i, j + 1, p);
        }
      }
    }
  }

  /** The outer loop: `for i in range(i0, len(villes))`. */
  function SeparationRowsFrom(villes: seq<string>, table: DistanceTable, dmin: real, i: nat): seq<Constraint>
    requires i <= |villes|
    decreases |villes| - i
  {
    if i == |villes| then []
    else PairRows(villes, table, dmin, i, i + 1) + SeparationRowsFrom(villes, table, dmin, i + 1)
  }

  lemma ClosePairsMember(villes: seq<string>, table: DistanceTable, dmin: real, i0: nat, p: (int, int))
    ensures p in ClosePairs(villes, table, dmin, i0) <==>
            i0 <= p.0 < p.1 < |villes| && TooClose(table, dmin, villes[p.0], villes[p.1])
  {
    if i0 <= p.0 < p.1 < |villes| && TooClose(table, dmin, villes[p.0], villes[p.1]) {
      assert p == (p.0, p.1);
    }
  }

  /** The close pairs from row `i` on are those starting at `i` and, disjoint from them, those from `i + 1` on. */
  lemma ClosePairsStep(villes: seq<string>, table: DistanceTable, dmin: real, i: nat)
    requires i < |villes|
    ensures |ClosePairs(villes, table, dmin, i)| ==
            |ClosePartners(villes, table, dmin, i, i + 1)| + |ClosePairs(villes, table, dmin, i + 1)|
  {
    var all, here, later := ClosePairs(villes, table, dmin, i), ClosePartners(villes, table, dmin, i, i + 1),
                            ClosePairs(villes, table, dmin, i + 1);
    assert all == here + later by {
      forall p ensures p in all <==> p in here + later {
        ClosePairsMember(villes, table, dmin, i, p);
        ClosePairsMember(villes, table, dmin, i + 1, p);
        ClosePartnersMember(villes, table, dmin, i, i + 1, p);
      }
    }
    assert here * later == {} by {
      forall p | p in here ensures p !in later {
        ClosePairsMember(villes, table, dmin, i + 1, p);
        ClosePartnersMember(villes, table, dmin, i, i + 1, p);
      }
    }
  }

  /** The two loops of `_add_constraints`. */
  function SeparationRows(villes: seq<string>, table: DistanceTable, dmin: real): seq<Constraint>
  {
    SeparationRowsFrom(villes, table, dmin, 0)
  }

  /**
   * There are as many separation rows as pairs of positions i < j that are too close, so
   * (with SeparationRowsExact) each such pair gets its row exactly once.
   */
  lemma SeparationRowsCount(villes: seq<string>, table: DistanceTable, dmin: real)
    ensures |SeparationRows(villes, table, dmin)| ==
            |set i, j | 0 <= i < j < |villes| && TooClose(table, dmin, villes[i], villes[j]) :: (i, j)|
  {
    SeparationRowsFromCount(villes, table, dmin, 0);
  }

  /** The inner loop emits one row per close pair (i, j) with `j0 <= j`. */
  lemma {:induction false} PairRowsCount(villes: seq<string>, table: DistanceTable, dmin: real, i: nat, j0: nat)
    requires i < j0 <= |villes|
    ensures |PairRows(villes, table, dmin, i, j0)| == |ClosePartners(villes, table, dmin, i, j0)|
    decreases |villes| - j0
  {
    if j0 == |villes| {
      assert ClosePartners(villes, table, dmin, i, j0) == {} by {
        forall p ensures p !in ClosePartners(villes, table, dmin, i, j0) {
          ClosePartnersMember(villes, table, dmin, i, j0, p);
        }
      }
    } else {
      PairRowsCount(villes, table, dmin, i, j0 + 1);
      ClosePartnersStep(villes, table, dmin, i, j0);
    }
  }

  /** The two loops from row `i0` on emit one row per close pair i < j with `i0 <= i`. */
  lemma {:induction false} SeparationRowsFromCount(villes: seq<string>, table: DistanceTable, dmin: real, i0: nat)
    requires i0 <= |villes|
    ensures |SeparationRowsFrom(villes, table, dmin, i0)| == |ClosePairs(villes, table, dmin, i0)|
    decreases |villes| - i0
  {
    if i0 == |villes| {
      assert ClosePairs(villes, table, dmin, i0) == {} by {
        forall p ensures p !in ClosePairs(villes, table, dmin, i0) {
          ClosePairsMember(villes, table, dmin, i0, p);
        }
      }
    } else {
      var here, rest := PairRows(villes, table, dmin, i0, i0 + 1), SeparationRowsFrom(villes, table, dmin, i0 + 1);
      assert SeparationRowsFrom(villes, table, dmin, i0) == here + rest;
      assert |here| == |ClosePartners(villes, table, dmin, i0, i0 + 1)| by {
        PairRowsCount(villes, table, dmin, i0, i0 + 1);
      }
      assert |rest| == |ClosePairs(villes, table, dmin, i0 + 1)| by {
        SeparationRowsFromCount(villes, table, dmin, i0 + 1);
      }
      ClosePairsStep(villes, table, dmin, i0);
    }
  }

  /**
   * Budget, linkage, the optional "at least one warehouse" row, and separation, in emission
   * order: whatever the values, they keep the cost within budget, and the only `>=` row is
   * the "at least one warehouse" row.
   */
  function CoreRows(inst: Instance, atLeastOneWarehouse: bool): (r: seq<Constraint>)
    requires HasCosts(inst)
    ensures forall a :: AllHold(a, r) ==> TotalCost(inst, inst.villes, a) <= inst.budgetTotal
    ensures forall c :: c in r && c.rel == Ge ==> atLeastOneWarehouse && c == MinOneRow(inst.villes)
  {
    var linkage := LinkageRows(inst.villes);
    var minOne := if atLeastOneWarehouse then [MinOneRow(inst.villes)] else [];
    var separation := SeparationRows(inst.villes, inst.distances, inst.distanceMinUsines);
    var r := [BudgetRow(inst)] + linkage + minOne + separation;
    assert forall a :: AllHold(a, r) ==> Holds(a, BudgetRow(inst)) by {
      assert r[0] == BudgetRow(inst);
    }
    assert forall c :: c in r && c.rel == Ge ==> c in minOne by {
      forall c | c in r && c.rel == Ge ensures c in minOne {
        OnlyGeRow(inst, minOne, c);
      }
    }
    r
  }

  /** Budget, linkage and separation rows are all `<=` rows. */
  lemma OnlyGeRow(inst: Instance, minOne: seq<Constraint>, c: Constraint)
    requires HasCosts(inst)
    requires c in [BudgetRow(inst)] + LinkageRows(inst.villes) + minOne
                  + SeparationRows(inst.villes, inst.distances, inst.distanceMinUsines)
    requires c.rel == Ge
    ensures c in minOne
  {
    var separation := SeparationRows(inst.villes, inst.distances, inst.distanceMinUsines);
    if c in separation {
      SeparationRowsExact(inst.villes, inst.distances, inst.distanceMinUsines, c);
    }
  }

  /** `[v for v in villes if v == centre or distance(v, centre) <= diametre_region]`. */
  function RegionMembers(villes: seq<string>, table: DistanceTable, diametre: real, centre: string): (r: seq<string>)
    ensures |r| <= |villes|
    ensures forall v :: v in r ==> v in villes && (v == centre || AtMost(Distance(table, v, centre), diametre))
    decreases |villes|
  {
    if |villes| == 0 then []
    else
      assert forall v :: v in villes[1..] ==> v in villes;
      (if villes[0] == centre || AtMost(Distance(table, villes[0], centre), diametre) then [villes[0]] else [])
        + RegionMembers(villes[1..], table, diametre, centre)
  }

  /** `quicksum(y[v] for v in region) <= max_entrepots_par_region[centre]`. */
  function RegionRow(members: seq<string>, cap: int): Constraint
  {
    Constraint(UnitTerms(members, Warehouse), Le, cap as real)
  }

  /**
   * One capacity row per entry of `centres_regions`, in order: over 0/1 values, the k-th
   * holds exactly when the k-th region opens at most its centre's cap of warehouses.
   */
  function RegionRows(villes: seq<string>, table: DistanceTable, diametre: real,
                      centres: seq<string>, caps: map<string, int>): (r: seq<Constraint>)
    requires forall c :: c in centres ==> c in caps
    ensures |r| == |centres|
    ensures forall k, a :: 0 <= k < |centres| && BitsOn(a, villes, Warehouse) ==>
      (Holds(a, r[k]) <==> Count(RegionMembers(villes, table, diametre, centres[k]), a, Warehouse) <= caps[centres[k]])
  {
    var r := seq(|centres|, k requires 0 <= k < |centres| =>
      RegionRow(RegionMembers(villes, table, diametre, centres[k]), caps[centres[k]]));
    assert forall k, a :: 0 <= k < |centres| && BitsOn(a, villes, Warehouse) ==>
      (Holds(a, r[k]) <==> Count(RegionMembers(villes, table, diametre, centres[k]), a, Warehouse) <= caps[centres[k]]) by {
      forall k, a | 0 <= k < |centres| && BitsOn(a, villes, Warehouse)
        ensures Holds(a, r[k]) <==> Count(RegionMembers(villes, table, diametre, centres[k]), a, Warehouse) <= caps[centres[k]]
      {
        RegionBits(villes, table, diametre, centres[k], a);
        UnitTermsCount(RegionMembers(villes, table, diametre, centres[k]), a, Warehouse);
      }
    }
    r
  }

  // ----- what the rows mean

  /** Positions i < j of `villes` hold a close pair whose separation row is `c`. */
  predicate CloseAt(villes: seq<string>, table: DistanceTable, dmin: real, i: int, j: int, c: Constraint)
  {
    0 <= i < j < |villes| && TooClose(table, dmin, villes[i], villes[j]) && c == SeparationRow(villes[i], villes[j])
  }

  lemma {:induction false} PairRowsMembers(villes: seq<string>, table: DistanceTable, dmin: real, i: nat, j0: nat, c: Constraint)
    requires i < j0 <= |villes|
    ensures c in PairRows(villes, table, dmin, i, j0) <==> exists j :: j0 <= j && CloseAt(villes, table, dmin, i, j, c)
    decreases |villes| - j0
  {
    if j0 < |villes| {
      var head := if TooClose(table, dmin, villes[i], villes[j0]) then [SeparationRow(villes[i], villes[j0])] else [];
      var rest := PairRows(villes, table, dmin, i, j0 + 1);
      assert PairRows(villes, table, dmin, i, j0) == head + rest;
      PairRowsMembers(villes, table, dmin, i, j0 + 1, c);
      if c in head {
        assert CloseAt(villes, table, dmin, i, j0, c);
      }
      if exists j :: j0 <= j && CloseAt(villes, table, dmin, i, j, c) {
        var j :| j0 <= j && CloseAt(villes, table, dmin, i, j, c);
        if j == j0 { assert c in head; } else { assert c in rest; }
      }
    }
  }

  lemma {:induction false} SeparationRowsFromMembers(villes: seq<string>, table: DistanceTable, dmin: real, i0: nat, c: Constraint)
    requires i0 <= |villes|
    ensures c in SeparationRowsFrom(villes, table, dmin, i0) <==>
      exists i, j :: i0 <= i && CloseAt(villes, table, dmin, i, j, c)
    decreases |villes| - i0
  {
    if i0 < |villes| {
      var head := PairRows(villes, table, dmin, i0, i0 + 1);
      var rest := SeparationRowsFrom(villes, table, dmin, i0 + 1);
      assert SeparationRowsFrom(villes, table, dmin, i0) == head + rest;
      PairRowsMembers(villes, table, dmin, i0, i0 + 1, c);
      SeparationRowsFromMembers(villes, table, dmin, i0 + 1, c);
      if c in head {
        var j :| i0 + 1 <= j && CloseAt(villes, table, dmin, i0, j, c);
        assert i0 <= i0 && CloseAt(villes, table, dmin, i0, j, c);
      }
      if c in rest {
        var i, j :| i0 + 1 <= i && CloseAt(villes, table, dmin, i, j, c);
        assert i0 <= i && CloseAt(villes, table, dmin, i, j, c);
      }
      if exists i, j :: i0 <= i && CloseAt(villes, table, dmin, i, j, c) {
        var i, j :| i0 <= i && CloseAt(villes, table, dmin, i, j, c);
        if i == i0 { assert c in head; } else { assert c in rest; }
      }
    }
  }

  /**
   * A separation row is emitted for exactly the pairs i < j of `villes` whose distance
   * (infinite when missing) is strictly below the threshold.
   */
  lemma SeparationRowsExact(villes: seq<string>, table: DistanceTable, dmin: real, c: Constraint)
    ensures c in SeparationRows(villes, table, dmin) <==>
      exists i, j :: 0 <= i < j < |villes| && TooClose(table, dmin, villes[i], villes[j])
                     && c == SeparationRow(villes[i], villes[j])
  {
    SeparationRowsFromMembers(villes, table, dmin, 0, c);
    if c in SeparationRows(villes, table, dmin) {
      var i, j :| 0 <= i && CloseAt(villes, table, dmin, i, j, c);
    }
    if exists i, j :: 0 <= i < j < |villes| && TooClose(table, dmin, villes[i], villes[j])
                      && c == SeparationRow(villes[i], villes[j]) {
      var i, j :| 0 <= i < j < |villes| && TooClose(table, dmin, villes[i], villes[j])
                  && c == SeparationRow(villes[i], villes[j]);
      assert CloseAt(villes, table, dmin, i, j, c);
    }
  }

  /** A pair with no stored distance never gets a separation row. */
  lemma MissingPairUnconstrained(villes: seq<string>, table: DistanceTable, dmin: real, a: string, b: string)
    requires PairKey(a, b) !in table
    ensures SeparationRow(a, b) !in SeparationRows(villes, table, dmin)
  {
    SeparationRowsExact(villes, table, dmin, SeparationRow(a, b));
  }

  /** A region holds exactly the towns of `villes` that are its centre or within `diametre` of it. */
  lemma {:induction false} RegionMembership(villes: seq<string>, table: DistanceTable, diametre: real, centre: string, v: string)
    ensures v in RegionMembers(villes, table, diametre, centre) <==>
      v in villes && (v == centre || AtMost(Distance(table, v, centre), diametre))
    decreases |villes|
  {
    if |villes| > 0 {
      RegionMembership(villes[1..], table, diametre, centre, v);
      assert v in villes <==> v == villes[0] || v in villes[1..];
    }
  }

  /** A centre that is a town belongs to its own region; a town with no stored distance to it does not. */
  lemma RegionCentreAndMissing(villes: seq<string>, table: DistanceTable, diametre: real, centre: string, v: string)
    ensures centre in villes ==> centre in RegionMembers(villes, table, diametre, centre)
    ensures v != centre && PairKey(v, centre) !in table ==> v !in RegionMembers(villes, table, diametre, centre)
  {
    RegionMembership(villes, table, diametre, centre, centre);
    RegionMembership(villes, table, diametre, centre, v);
  }

  lemma AllHoldAppend(a: Assignment, xs: seq<Constraint>, ys: seq<Constraint>)
    ensures AllHold(a, xs + ys) <==> AllHold(a, xs) && AllHold(a, ys)
  {
    assert forall c :: c in xs + ys <==> c in xs || c in ys;
  }

  lemma LinkageRowHolds(a: Assignment, t: string)
    ensures Holds(a, LinkageRow(t)) <==> a(Var(Warehouse, t)) <= a(Var(Factory, t))
  {
    var ts := LinkageRow(t).terms;
    assert Eval(a, ts) == 1.0 * a(Var(Warehouse, t)) + (-1.0 * a(Var(Factory, t)) + Eval(a, ts[2..]));
  }

  lemma SeparationRowHolds(a: Assignment, u: string, v: string)
    ensures Holds(a, SeparationRow(u, v)) <==> a(Var(Factory, u)) + a(Var(Factory, v)) <= 1.0
  {
    var ts := SeparationRow(u, v).terms;
    assert Eval(a, ts) == 1.0 * a(Var(Factory, u)) + (1.0 * a(Var(Factory, v)) + Eval(a, ts[2..]));
  }

  predicate WarehouseNeedsFactory(towns: seq<string>, a: Assignment)
  {
    forall t :: t in towns && a(Var(Warehouse, t)) == 1.0 ==> a(Var(Factory, t)) == 1.0
  }

  predicate FactoriesApart(villes: seq<string>, table: DistanceTable, dmin: real, a: Assignment)
  {
    forall i, j :: 0 <= i < j < |villes| && TooClose(table, dmin, villes[i], villes[j]) ==>
      !(a(Var(Factory, villes[i])) == 1.0 && a(Var(Factory, villes[j])) == 1.0)
  }

  /** The business rules of a siting plan, stated without reference to any row. */
  predicate Rules(inst: Instance, atLeastOneWarehouse: bool, a: Assignment)
    requires HasCosts(inst)
  {
    && TotalCost(inst, inst.villes, a) <= inst.budgetTotal
    && WarehouseNeedsFactory(inst.villes, a)
    && (atLeastOneWarehouse ==> Count(inst.villes, a, Warehouse) >= 1)
    && FactoriesApart(inst.villes, inst.distances, inst.distanceMinUsines, a)
  }

  /** Whatever the values, the budget row's left-hand side is the town-by-town cost. */
  lemma BudgetRowValue(inst: Instance, a: Assignment)
    requires HasCosts(inst)
    ensures Eval(a, BudgetRow(inst).terms) == TotalCost(inst, inst.villes, a)
  {
    EvalAppend(a, WeightedTerms(inst.villes, inst.coutsUsine, Factory),
                  WeightedTerms(inst.villes, inst.coutsEntrepot, Warehouse));
    WeightedTermsValue(inst.villes, inst.coutsUsine, Factory, a);
    WeightedTermsValue(inst.villes, inst.coutsEntrepot, Warehouse, a);
    TwoSumsAreTotalCost(inst, inst.villes, a);
  }

  lemma LinkageRowsMeaning(towns: seq<string>, a: Assignment)
    requires BinaryOn(a, towns)
    ensures AllHold(a, LinkageRows(towns)) <==> WarehouseNeedsFactory(towns, a)
  {
    var rows := LinkageRows(towns);
    if AllHold(a, rows) {
      forall t | t in towns && a(Var(Warehouse, t)) == 1.0 ensures a(Var(Factory, t)) == 1.0 {
        var i :| 0 <= i < |towns| && towns[i] == t;
        assert rows[i] in rows;
        LinkageRowHolds(a, t);
      }
    }
    if WarehouseNeedsFactory(towns, a) {
      forall c | c in rows ensures Holds(a, c) {
        var i :| 0 <= i < |rows| && rows[i] == c;
        assert towns[i] in towns;
        LinkageRowHolds(a, towns[i]);
      }
    }
  }

  lemma SeparationRowsMeaning(villes: seq<string>, table: DistanceTable, dmin: real, a: Assignment)
    requires BitsOn(a, villes, Factory)
    ensures AllHold(a, SeparationRows(villes, table, dmin)) <==> FactoriesApart(villes, table, dmin, a)
  {
    var rows := SeparationRows(villes, table, dmin);
    if AllHold(a, rows) {
      forall i, j | 0 <= i < j < |villes| && TooClose(table, dmin, villes[i], villes[j])
        ensures !(a(Var(Factory, villes[i])) == 1.0 && a(Var(Factory, villes[j])) == 1.0)
      {
        SeparationRowsExact(villes, table, dmin, SeparationRow(villes[i], villes[j]));
        SeparationRowHolds(a, villes[i], villes[j]);
      }
    }
    if FactoriesApart(villes, table, dmin, a) {
      forall c | c in rows ensures Holds(a, c) {
        SeparationRowsExact(villes, table, dmin, c);
        var i, j :| 0 <= i < j < |villes| && TooClose(table, dmin, villes[i], villes[j])
                    && c == SeparationRow(villes[i], villes[j]);
        assert villes[i] in villes && villes[j] in villes;
        SeparationRowHolds(a, villes[i], villes[j]);
      }
    }
  }

  /** The core rows hold exactly when each of their four groups holds. */
  lemma CoreRowsParts(inst: Instance, atLeastOneWarehouse: bool, a: Assignment)
    requires HasCosts(inst)
    ensures AllHold(a, CoreRows(inst, atLeastOneWarehouse)) <==>
              && Holds(a, BudgetRow(inst))
              && AllHold(a, LinkageRows(inst.villes))
              && (atLeastOneWarehouse ==> Holds(a, MinOneRow(inst.villes)))
              && AllHold(a, SeparationRows(inst.villes, inst.distances, inst.distanceMinUsines))
  {
    var budget := [BudgetRow(inst)];
    var minOne := if atLeastOneWarehouse then [MinOneRow(inst.villes)] else [];
    var linkage := LinkageRows(inst.villes);
    var separation := SeparationRows(inst.villes, inst.distances, inst.distanceMinUsines);
    assert CoreRows(inst, atLeastOneWarehouse) == budget + linkage + minOne + separation;
    assert AllHold(a, budget + linkage + minOne + separation) <==>
           AllHold(a, budget + linkage + minOne) && AllHold(a, separation) by {
      AllHoldAppend(a, budget + linkage + minOne, separation);
    }
    assert AllHold(a, budget + linkage + minOne) <==> AllHold(a, budget + linkage) && AllHold(a, minOne) by {
      AllHoldAppend(a, budget + linkage, minOne);
    }
    assert AllHold(a, budget + linkage) <==> AllHold(a, budget) && AllHold(a, linkage) by {
      AllHoldAppend(a, budget, linkage);
    }
    assert AllHold(a, budget) <==> Holds(a, BudgetRow(inst));
    assert AllHold(a, minOne) <==> (atLeastOneWarehouse ==> Holds(a, MinOneRow(inst.villes)));
  }

  /**
   * Over 0/1 values, an assignment satisfies every row of `CoreRows` exactly when it keeps
   * the business rules: cost within budget, no warehouse without a factory, at least one
   * warehouse when that row is emitted, and no two factories closer than the threshold.
   */
  lemma CoreRowsMeaning(inst: Instance, atLeastOneWarehouse: bool, a: Assignment)
    requires HasCosts(inst) && BinaryOn(a, inst.villes)
    ensures AllHold(a, CoreRows(inst, atLeastOneWarehouse)) <==> Rules(inst, atLeastOneWarehouse, a)
  {
    CoreRowsParts(inst, atLeastOneWarehouse, a);
    BudgetRowValue(inst, a);
    LinkageRowsMeaning(inst.villes, a);
    SeparationRowsMeaning(inst.villes, inst.distances, inst.distanceMinUsines, a);
    UnitTermsCount(inst.villes, a, Warehouse);
  }

  /** Each region's count of warehouses stays within its centre's capacity. */
  predicate RegionCaps(villes: seq<string>, table: DistanceTable, diametre: real,
                       centres: seq<string>, caps: map<string, int>, a: Assignment)
    requires forall c :: c in centres ==> c in caps
  {
    forall k :: 0 <= k < |centres| ==>
      Count(RegionMembers(villes, table, diametre, centres[k]), a, Warehouse) <= caps[centres[k]]
  }

  lemma RegionBits(villes: seq<string>, table: DistanceTable, diametre: real, centre: string, a: Assignment)
    requires BitsOn(a, villes, Warehouse)
    ensures BitsOn(a, RegionMembers(villes, table, diametre, centre), Warehouse)
  {
    forall v | v in RegionMembers(villes, table, diametre, centre) ensures IsBit(a(Var(Warehouse, v))) {
      RegionMembership(villes, table, diametre, centre, v);
    }
  }

  /** Over 0/1 values, the capacity rows hold exactly when every region is within its cap. */
  lemma RegionRowsMeaning(villes: seq<string>, table: DistanceTable, diametre: real,
                          centres: seq<string>, caps: map<string, int>, a: Assignment)
    requires forall c :: c in centres ==> c in caps
    requires BitsOn(a, villes, Warehouse)
    ensures AllHold(a, RegionRows(villes, table, diametre, centres, caps)) <==>
            RegionCaps(villes, table, diametre, centres, caps, a)
  {
    var rows := RegionRows(villes, table, diametre, centres, caps);
    forall k | 0 <= k < |centres|
      ensures Holds(a, rows[k]) <==>
        Count(RegionMembers(villes, table, diametre, centres[k]), a, Warehouse) <= caps[centres[k]]
    {
      RegionBits(villes, table, diametre, centres[k], a);
      UnitTermsCount(RegionMembers(villes, table, diametre, centres[k]), a, Warehouse);
    }
    if AllHold(a, rows) {
      forall k | 0 <= k < |centres|
        ensures Count(RegionMembers(villes, table, diametre, centres[k]), a, Warehouse) <= caps[centres[k]]
      {
        assert rows[k] in rows;
      }
    }
    if RegionCaps(villes, table, diametre, centres, caps, a) {
      forall c | c in rows ensures Holds(a, c) {
        var k :| 0 <= k < |rows| && rows[k] == c;
      }
    }
  }
}

/**
 * Reading a solution back: a site counts as built when its variable's value exceeds 0.5,
 * the lists keep the order of `villes`, and the budget used is recomputed from the costs
 * and the values rather than read from the engine.
 */
module Decoding {
  import opened Distances
  import opened Milp
  import opened Formulation

  /** `[t for t in towns if v[t].x > 0.5]`: a sub-list of `towns`, of towns whose value exceeds 0.5. */
  function Built(towns: seq<string>, a: Assignment, site: Site): (r: seq<string>)
    ensures |r| <= |towns|
    ensures forall t :: t in r ==> t in towns && a(Var(site, t)) > 0.5
    decreases |towns|
  {
    if |towns| == 0 then []
    else
      assert forall t :: t in towns[1..] ==> t in towns;
      (if a(Var(site, towns[0])) > 0.5 then [towns[0]] else []) + Built(towns[1..], a, site)
  }

  /** A town is reported exactly when it is one of `towns` and its value exceeds 0.5. */
  lemma {:induction false} BuiltMembers(towns: seq<string>, a: Assignment, site: Site, t: string)
    ensures t in Built(towns, a, site) <==> t in towns && a(Var(site, t)) > 0.5
    decreases |towns|
  {
    if |towns| > 0 {
      BuiltMembers(towns[1..], a, site, t);
      assert t in towns <==> t == towns[0] || t in towns[1..];
    }
  }

  /** The report keeps the input order: decoding a concatenation concatenates the decodings. */
  lemma {:induction false} BuiltAppend(u: seq<string>, v: seq<string>, a: Assignment, site: Site)
    ensures Built(u + v, a, site) == Built(u, a, site) + Built(v, a, site)
    decreases |u|
  {
    if |u| > 0 {
      assert (u + v)[0] == u[0] && (u + v)[1..] == u[1..] + v;
      var head := if a(Var(site, u[0])) > 0.5 then [u[0]] else [];
      assert Built(u + v, a, site) == head + Built(u[1..] + v, a, site);
      assert Built(u, a, site) == head + Built(u[1..], a, site);
      BuiltAppend(u[1..], v, a, site);
    } else {
      assert u + v == v;
    }
  }

  /** Over 0/1 values, the report lists as many towns as there are variables at 1. */
  lemma {:induction false} BuiltCountsBits(towns: seq<string>, a: Assignment, site: Site)
    requires BitsOn(a, towns, site)
    ensures |Built(towns, a, site)| == Count(towns, a, site)
    decreases |towns|
  {
    if |towns| > 0 {
      assert towns[0] in towns;
      BuiltCountsBits(towns[1..], a, site);
    }
  }

  /**
   * `sum(couts_usine[i]*x_U[i].x for i in villes) + sum(couts_entrepot[i]*y[i].x for i in villes)`,
   * the budget used as the `/optimize` handler reports it: the town-by-town cost of the sites.
   */
  function SplitBudgetUsed(inst: Instance, a: Assignment): (r: real)
    requires HasCosts(inst)
    ensures r == TotalCost(inst, inst.villes, a)
  {
    TwoSumsAreTotalCost(inst, inst.villes, a);
    WeightedSum(inst.villes, inst.coutsUsine, Factory, a)
      + WeightedSum(inst.villes, inst.coutsEntrepot, Warehouse, a)
  }

  /**
   * Both ways the code recomputes the budget used (two sums, or one sum town by town) give
   * the value of the budget row's left-hand side, so a solution satisfying the budget row
   * reports at most `budget_total`.
   */
  lemma BudgetUsedWithinBudget(inst: Instance, a: Assignment)
    requires HasCosts(inst)
    ensures SplitBudgetUsed(inst, a) == Eval(a, BudgetRow(inst).terms) == TotalCost(inst, inst.villes, a)
    ensures Holds(a, BudgetRow(inst)) ==> SplitBudgetUsed(inst, a) <= inst.budgetTotal
  {
    BudgetRowValue(inst, a);
    TwoSumsAreTotalCost(inst, inst.villes, a);
  }

  /**
   * The lists decoded from a 0/1 solution of the core rows keep the business rules: every
   * reported warehouse town is a reported factory town, no two close towns are both
   * reported factories, the cost is within budget, and a warehouse is reported when the
   * "at least one" row was emitted.
   */
  lemma DecodedRules(inst: Instance, atLeastOneWarehouse: bool, a: Assignment)
    requires HasCosts(inst) && BinaryOn(a, inst.villes)
    requires AllHold(a, CoreRows(inst, atLeastOneWarehouse))
    ensures forall t :: t in Built(inst.villes, a, Warehouse) ==> t in Built(inst.villes, a, Factory)
    ensures forall i, j ::
              (0 <= i < j < |inst.villes| &&
               TooClose(inst.distances, inst.distanceMinUsines, inst.villes[i], inst.villes[j])) ==>
              !(inst.villes[i] in Built(inst.villes, a, Factory) && inst.villes[j] in Built(inst.villes, a, Factory))
    ensures atLeastOneWarehouse ==> |Built(inst.villes, a, Warehouse)| >= 1
    ensures TotalCost(inst, inst.villes, a) <= inst.budgetTotal
  {
    CoreRowsMeaning(inst, atLeastOneWarehouse, a);
    BuiltCountsBits(inst.villes, a, Warehouse);
    forall t | t in Built(inst.villes, a, Warehouse) ensures t in Built(inst.villes, a, Factory) {
      BuiltMembers(inst.villes, a, Warehouse, t);
      BuiltMembers(inst.villes, a, Factory, t);
    }
    forall i, j | 0 <= i < j < |inst.villes|
        && TooClose(inst.distances, inst.distanceMinUsines, inst.villes[i], inst.villes[j])
      ensures !(inst.villes[i] in Built(inst.villes, a, Factory) && inst.villes[j] in Built(inst.villes, a, Factory))
    {
      BuiltMembers(inst.villes, a, Factory, inst.villes[i]);
      BuiltMembers(inst.villes, a, Factory, inst.villes[j]);
    }
  }

  /** Over a 0/1 solution of the capacity rows, each region reports at most its cap of warehouses. */
  lemma DecodedRegions(villes: seq<string>, table: DistanceTable, diametre: real,
                       centres: seq<string>, caps: map<string, int>, a: Assignment)
    requires forall c :: c in centres ==> c in caps
    requires BitsOn(a, villes, Warehouse)
    requires AllHold(a, RegionRows(villes, table, diametre, centres, caps))
    ensures forall k :: 0 <= k < |centres| ==>
      |Built(RegionMembers(villes, table, diametre, centres[k]), a, Warehouse)| <= caps[centres[k]]
  {
    RegionRowsMeaning(villes, table, diametre, centres, caps, a);
    forall k | 0 <= k < |centres|
      ensures |Built(RegionMembers(villes, table, diametre, centres[k]), a, Warehouse)| <= caps[centres[k]]
    {
      RegionBits(villes, table, diametre, centres[k], a);
      BuiltCountsBits(RegionMembers(villes, table, diametre, centres[k]), a, Warehouse);
    }
  }

  /** With every cost positive, a 0/1 plan costs nothing only when it opens no site at all. */
  lemma {:induction false} FreePlanIsEmpty(inst: Instance, towns: seq<string>, a: Assignment)
    requires forall t :: t in towns ==> t in inst.coutsUsine && t in inst.coutsEntrepot
    requires forall t :: t in towns ==> inst.coutsUsine[t] > 0.0 && inst.coutsEntrepot[t] > 0.0
    requires BinaryOn(a, towns)
    ensures TotalCost(inst, towns, a) >= 0.0
    ensures TotalCost(inst, towns, a) <= 0.0 ==>
              Built(towns, a, Factory) == [] && Built(towns, a, Warehouse) == []
    decreases |towns|
  {
    if |towns| > 0 {
      var t := towns[0];
      assert t in towns;
      assert forall u :: u in towns[1..] ==> u in towns;
      var cf, cw := inst.coutsUsine[t] * a(Var(Factory, t)), inst.coutsEntrepot[t] * a(Var(Warehouse, t));
      var rest := TotalCost(inst, towns[1..], a);
      assert TotalCost(inst, towns, a) == cf + cw + rest;
      FreePlanIsEmpty(inst, towns[1..], a);
      assert cf >= 0.0 && cw >= 0.0 by {
        assert BitsOn(a, towns, Factory) && BitsOn(a, towns, Warehouse);
      }
      if TotalCost(inst, towns, a) <= 0.0 {
        assert cf == 0.0 && cw == 0.0 && rest <= 0.0;
        assert a(Var(Factory, t)) == 0.0 && a(Var(Warehouse, t)) == 0.0;
        assert Built(towns, a, Factory) == Built(towns[1..], a, Factory);
        assert Built(towns, a, Warehouse) == Built(towns[1..], a, Warehouse);
      }
    }
  }
}

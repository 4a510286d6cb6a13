/**
 * The loops both handlers run to emit rows into a model: one linkage row per town, one
 * separation row per close pair i < j, and (in the `/optimize` flow) one capacity row per
 * region centre.
 */
module Builder {
  import opened Common
  import opened Distances
  import opened Milp
  import opened Formulation

  /** `setObjective(sum(rentabilite_usine[i]*x_U[i]) + sum(rentabilite_entrepot[i]*y[i]), MAXIMIZE)`. */
  method SetProfitObjective(m: MilpModel, inst: Instance) returns (err: Option<BuildError>)
    modifies m
    ensures err == ProfitError(inst)
    ensures m.objective == if err.None? then Objective(inst) else old(m.objective)
    ensures m.vars == old(m.vars) && m.rows == old(m.rows) && m.solution == old(m.solution)
  {
    var missing := FirstMissing(inst.villes, inst.rentabiliteUsine);
    if missing.Some? { return Some(KeyError(missing.value)); }
    missing := FirstMissing(inst.villes, inst.rentabiliteEntrepot);
    if missing.Some? { return Some(KeyError(missing.value)); }
    m.SetObjective(Objective(inst));
    return None;
  }

  /** `addConstr(sum(couts_usine[i]*x_U[i]) + sum(couts_entrepot[i]*y[i]) <= budget_total)`. */
  method AddBudgetRow(m: MilpModel, inst: Instance) returns (err: Option<BuildError>)
    modifies m
    ensures err == CostError(inst)
    ensures m.rows == if err.None? then old(m.rows) + [BudgetRow(inst)] else old(m.rows)
    ensures m.vars == old(m.vars) && m.objective == old(m.objective) && m.solution == old(m.solution)
  {
    var missing := FirstMissing(inst.villes, inst.coutsUsine);
    if missing.Some? { return Some(KeyError(missing.value)); }
    missing := FirstMissing(inst.villes, inst.coutsEntrepot);
    if missing.Some? { return Some(KeyError(missing.value)); }
    m.AddConstr(BudgetRow(inst));
    return None;
  }

  /** `for i in villes: addConstr(y[i] <= x_U[i])`. */
  method AddLinkageRows(m: MilpModel, villes: seq<string>)
    modifies m
    ensures m.rows == old(m.rows) + LinkageRows(villes)
    ensures m.vars == old(m.vars) && m.objective == old(m.objective) && m.solution == old(m.solution)
  {
    var k := 0;
    while k < |villes|
      invariant 0 <= k <= |villes|
      invariant m.rows == old(m.rows) + LinkageRows(villes[..k])
      invariant m.vars == old(m.vars) && m.objective == old(m.objective) && m.solution == old(m.solution)
    {
      assert LinkageRows(villes[..k + 1]) == LinkageRows(villes[..k]) + [LinkageRow(villes[k])];
      m.AddConstr(LinkageRow(villes[k]));
      k := k + 1;
    }
    assert villes[..k] == villes;
  }

  /** The inner loop `for j in range(i+1, len(villes))` for one `i`. */
  method AddPairRows(m: MilpModel, villes: seq<string>, distances: DistanceTable, dmin: real, i: nat)
    requires i < |villes|
    modifies m
    ensures m.rows == old(m.rows) + PairRows(villes, distances, dmin, i, i + 1)
    ensures m.vars == old(m.vars) && m.objective == old(m.objective) && m.solution == old(m.solution)
  {
    var j := i + 1;
    while j < |villes|
      invariant i + 1 <= j <= |villes|
      invariant m.rows + PairRows(villes, distances, dmin, i, j)
             == old(m.rows) + PairRows(villes, distances, dmin, i, i + 1)
      invariant m.vars == old(m.vars) && m.objective == old(m.objective) && m.solution == old(m.solution)
    {
      var d := Distance(distances, villes[i], villes[j]);
      assert Below(d, dmin) == TooClose(distances, dmin, villes[i], villes[j]);
      if Below(d, dmin) {
        m.AddConstr(SeparationRow(villes[i], villes[j]));
        assert PairRows(villes, distances, dmin, i, j) == [SeparationRow(villes[i], villes[j])] + PairRows(villes, distances, dmin, i, j + 1);
      } else {
        assert PairRows(villes, distances, dmin, i, j) == PairRows(villes, distances, dmin, i, j + 1);
      }
      j := j + 1;
    }
  }

  /** The outer loop `for i in range(len(villes))`: each pair i < j is visited once. */
  method AddSeparationRows(m: MilpModel, villes: seq<string>, distances: DistanceTable, dmin: real)
    modifies m
    ensures m.rows == old(m.rows) + SeparationRows(villes, distances, dmin)
    ensures m.vars == old(m.vars) && m.objective == old(m.objective) && m.solution == old(m.solution)
  {
    ghost var target := old(m.rows) + SeparationRows(villes, distances, dmin);
    var i := 0;
    while i < |villes|
      invariant 0 <= i <= |villes|
      invariant m.rows + SeparationRowsFrom(villes, distances, dmin, i) == target
      invariant m.vars == old(m.vars) && m.objective == old(m.objective) && m.solution == old(m.solution)
    {
      ghost var rest := SeparationRowsFrom(villes, distances, dmin, i + 1);
      assert SeparationRowsFrom(villes, distances, dmin, i) == PairRows(villes, distances, dmin, i, i + 1) + rest;
      AddPairRows(m, villes, distances, dmin, i);
      i := i + 1;
    }
  }

  /**
   * The rows both handlers add after the objective, in their order: the budget row (whose
   * cost lookups raise for a town without a cost), one linkage row per town, the
   * "at least one warehouse" row when `atLeastOneWarehouse`, then the separation rows.
   */
  method AddCoreRows(m: MilpModel, inst: Instance, atLeastOneWarehouse: bool) returns (err: Option<BuildError>)
    modifies m
    ensures err == CostError(inst)
    ensures err.None? ==> m.rows == old(m.rows) + CoreRows(inst, atLeastOneWarehouse)
    ensures err.Some? ==> m.rows == old(m.rows)
    ensures m.vars == old(m.vars) && m.objective == old(m.objective) && m.solution == old(m.solution)
  {
    err := AddBudgetRow(m, inst);
    if err.Some? { return; }
    ghost var before := m.rows;
    AddLinkageRows(m, inst.villes);
    if atLeastOneWarehouse {
      m.AddConstr(MinOneRow(inst.villes));
    }
    ghost var middle := m.rows;
    assert middle == before + LinkageRows(inst.villes)
                    + (if atLeastOneWarehouse then [MinOneRow(inst.villes)] else []);
    AddSeparationRows(m, inst.villes, inst.distances, inst.distanceMinUsines);
  }

  /**
   * `for centre in centres_regions`: the region's members, then `max_entrepots_par_region[centre]`,
   * which raises for a centre without an entry; the rows of earlier centres stay added.
   */
  method AddRegionRows(m: MilpModel, villes: seq<string>, distances: DistanceTable, diametre: real,
                       centres: seq<string>, caps: map<string, int>)
    returns (err: Option<BuildError>)
    modifies m
    ensures err.None? <==> forall c :: c in centres ==> c in caps
    ensures err.Some? ==> FirstMissing(centres, caps) == Some(err.value.key)
    ensures err.None? ==> m.rows == old(m.rows) + RegionRows(villes, distances, diametre, centres, caps)
    ensures m.vars == old(m.vars) && m.objective == old(m.objective) && m.solution == old(m.solution)
  {
    var c := 0;
    while c < |centres|
      invariant 0 <= c <= |centres|
      invariant forall l :: 0 <= l < c ==> centres[l] in caps
      invariant m.rows == old(m.rows) + RegionRows(villes, distances, diametre, centres[..c], caps)
      invariant m.vars == old(m.vars) && m.objective == old(m.objective) && m.solution == old(m.solution)
    {
      var centre := centres[c];
      var region := RegionMembers(villes, distances, diametre, centre);
      if centre !in caps {
        FirstMissingAt(centres, caps, c);
        return Some(KeyError(centre));
      }
      assert RegionRows(villes, distances, diametre, centres[..c + 1], caps)
          == RegionRows(villes, distances, diametre, centres[..c], caps) + [RegionRow(region, caps[centre])];
      m.AddConstr(RegionRow(region, caps[centre]));
      c := c + 1;
    }
    assert centres[..c] == centres;
    return None;
  }
}

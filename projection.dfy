/**
 * The standing projection of the calculator page (renderer.js): the fixed
 * relationship matrix, the net change a farming plan causes to every
 * faction, the projected totals and their classification against the
 * in-game cap.
 *
 * Amounts are exact reals; every multiplier is one of 1, 0.5, -0.5 or -1.
 */
module Projection {
  import opened Factions

  // ------------------------------------------------ relationship matrix

  /** One entry of a matrix row: farming the row's faction moves `target` by `multiplier` per unit. */
  datatype Impact = Impact(target: Faction, multiplier: real)

  /** The row of `relationships` for a farmed faction: only the affected factions, in the source's order. */
  function Row(source: Faction): seq<Impact>
  {
    match source
    case Steel => [Impact(Steel, 1.0), Impact(Veil, 0.5), Impact(Loka, -0.5), Impact(Perrin, -1.0)]
    case Arbiters => [Impact(Arbiters, 1.0), Impact(Suda, 0.5), Impact(Perrin, -0.5), Impact(Veil, -1.0)]
    case Suda => [Impact(Suda, 1.0), Impact(Arbiters, 0.5), Impact(Veil, -0.5), Impact(Loka, -1.0)]
    case Perrin => [Impact(Perrin, 1.0), Impact(Loka, 0.5), Impact(Arbiters, -0.5), Impact(Steel, -1.0)]
    case Veil => [Impact(Veil, 1.0), Impact(Steel, 0.5), Impact(Suda, -0.5), Impact(Arbiters, -1.0)]
    case Loka => [Impact(Loka, 1.0), Impact(Perrin, 0.5), Impact(Steel, -0.5), Impact(Suda, -1.0)]
  }

  /** A row names each target at most once (it is a JavaScript object). */
  predicate ListsEachTargetOnce(row: seq<Impact>)
  {
    forall i, j :: 0 <= i < j < |row| ==> row[i].target != row[j].target
  }

  /**
   * What a run of entries adds to `t` per unit farmed: the sum of the
   * multipliers of the entries naming `t`.
   */
  function RowSum(row: seq<Impact>, t: Faction): real
  {
    if row == [] then 0.0
    else RowSum(row[..|row| - 1], t) + (if row[|row| - 1].target == t then row[|row| - 1].multiplier else 0.0)
  }

  /** `relationships[source][t]`, 0 when `t` is not listed in the row. */
  function Multiplier(source: Faction, t: Faction): real
  {
    RowSum(Row(source), t)
  }

  /** In a row naming each target once, the entry for `t` gives the multiplier of `t`. */
  lemma {:induction false} RowSumOfListed(row: seq<Impact>, k: nat)
    requires ListsEachTargetOnce(row) && k < |row|
    ensures RowSum(row, row[k].target) == row[k].multiplier
  {
    var init := row[..|row| - 1];
    if k < |row| - 1 {
      RowSumOfListed(init, k);
    } else {
      RowSumOfUnlisted(init, row[k].target);
    }
  }

  /** A target named by no entry gets nothing. */
  lemma {:induction false} RowSumOfUnlisted(row: seq<Impact>, t: Faction)
    requires forall k :: 0 <= k < |row| ==> row[k].target != t
    ensures RowSum(row, t) == 0.0
  {
    if row != [] {
      RowSumOfUnlisted(row[..|row| - 1], t);
    }
  }

  /**
   * Every row lists four distinct factions, starting with the farmed faction
   * itself at +1; the matrix entry of each listed faction is its
   * multiplier, and every unlisted faction's entry is 0.
   */
  lemma RowShape(source: Faction, t: Faction)
    ensures |Row(source)| == 4 && ListsEachTargetOnce(Row(source))
    ensures Row(source)[0] == Impact(source, 1.0)
    ensures forall k :: 0 <= k < 4 && Row(source)[k].target == t ==> Multiplier(source, t) == Row(source)[k].multiplier
    ensures (forall k :: 0 <= k < 4 ==> Row(source)[k].target != t) ==> Multiplier(source, t) == 0.0
  {
    var row := Row(source);
    forall k | 0 <= k < 4 && row[k].target == t
      ensures Multiplier(source, t) == row[k].multiplier
    {
      RowSumOfListed(row, k);
    }
    if forall k :: 0 <= k < 4 ==> row[k].target != t {
      RowSumOfUnlisted(row, t);
    }
  }

  /** The sum of a value over the six factions. */
  function Total(v: PerFaction<real>): real
  {
    v.steel + v.arbiters + v.suda + v.perrin + v.veil + v.loka
  }

  /** What a run of entries gives each of the six factions per unit farmed. */
  function Spread(row: seq<Impact>): PerFaction<real>
  {
    Tabulate(t => RowSum(row, t))
  }

  /** The sum of the multipliers of a run of entries. */
  function RowTotal(row: seq<Impact>): real
  {
    if row == [] then 0.0 else RowTotal(row[..|row| - 1]) + row[|row| - 1].multiplier
  }

  /** Summing what a run of entries gives each of the six factions adds up every multiplier once. */
  lemma {:induction false} TargetsShareRowTotal(row: seq<Impact>)
    ensures Total(Spread(row)) == RowTotal(row)
  {
    if row != [] {
      TargetsShareRowTotal(row[..|row| - 1]);
    }
  }

  /** The six matrix entries of a row (listed or not) sum to 0: farming gains exactly what it costs elsewhere. */
  lemma RowBalanced(source: Faction)
    ensures Total(Spread(Row(source))) == 0.0
  {
    var row := Row(source);
    TargetsShareRowTotal(row);
    assert RowTotal(row[..1]) == row[0].multiplier by {
      assert row[..1][..0] == [];
    }
    assert RowTotal(row[..2]) == RowTotal(row[..1]) + row[1].multiplier by {
      assert row[..2][..1] == row[..1];
    }
    assert RowTotal(row[..3]) == RowTotal(row[..2]) + row[2].multiplier by {
      assert row[..3][..2] == row[..2];
    }
    assert row[..4] == row;
  }

  // ------------------------------------------------------- net changes

  /** What farming `source` by its planned amount adds to `t`; a source planned at 0 is skipped. */
  function Contribution(source: Faction, plan: PerFaction<real>, t: Faction): real
  {
    if plan.Get(source) == 0.0 then 0.0 else plan.Get(source) * Multiplier(source, t)
  }

  /** The sum of the contributions of a run of sources to `t`. */
  function Contributions(sources: seq<Faction>, plan: PerFaction<real>, t: Faction): real
  {
    if sources == [] then 0.0
    else Contributions(sources[..|sources| - 1], plan, t) + Contribution(sources[|sources| - 1], plan, t)
  }

  /** `netChanges[t]` of `calculate`: the contributions of all six sources, in the order of `factions`. */
  function NetChange(plan: PerFaction<real>, t: Faction): real
  {
    Contributions(AllFactions, plan, t)
  }

  /** The `netChanges` object: the net change of every faction. */
  function NetChanges(plan: PerFaction<real>): PerFaction<real>
  {
    Tabulate(t => NetChange(plan, t))
  }

  /**
   * The first loop of `calculate`: start every net change at 0 and, for
   * every source with a non-zero plan, add `farm * multiplier` to each
   * target of its row.
   */
  method AccumulateNetChanges(plan: PerFaction<real>) returns (net: PerFaction<real>)
    ensures forall t :: net.Get(t) == NetChange(plan, t)
  {
    net := Uniform(0.0);
    for i := 0 to |AllFactions|
      invariant forall t :: net.Get(t) == Contributions(AllFactions[..i], plan, t)
    {
      var source := AllFactions[i];
      var farm := plan.Get(source);
      forall t
        ensures Contributions(AllFactions[..i + 1], plan, t)
                  == Contributions(AllFactions[..i], plan, t) + Contribution(source, plan, t)
      {
        ContributionsStep(AllFactions, i + 1, plan, t);
      }
      if farm != 0.0 {
        net := ApplyImpacts(net, farm, Row(source));
      }
    }
    assert AllFactions[..|AllFactions|] == AllFactions;
  }

  /** The inner loop of `calculate`: add `farm * multiplier` to each target of a row. */
  method ApplyImpacts(net0: PerFaction<real>, farm: real, impacts: seq<Impact>) returns (net: PerFaction<real>)
    ensures forall t :: net.Get(t) == net0.Get(t) + farm * RowSum(impacts, t)
  {
    net := net0;
    for j := 0 to |impacts|
      invariant forall t :: net.Get(t) == net0.Get(t) + farm * RowSum(impacts[..j], t)
    {
      var target := impacts[j].target;
      assert impacts[..j + 1][..j] == impacts[..j];
      net := net.Set(target, net.Get(target) + farm * impacts[j].multiplier);
    }
    assert impacts[..|impacts|] == impacts;
  }

  /** The contributions of the first `k` sources extend those of the first `k - 1` by the `k`-th. */
  lemma ContributionsStep(sources: seq<Faction>, k: nat, plan: PerFaction<real>, t: Faction)
    requires 0 < k <= |sources|
    ensures Contributions(sources[..k], plan, t)
              == Contributions(sources[..k - 1], plan, t) + Contribution(sources[k - 1], plan, t)
  {
    assert sources[..k][..k - 1] == sources[..k - 1];
  }

  /** Skipping a source planned at 0 changes nothing: each contribution is the plain product. */
  lemma ContributionIsProduct(source: Faction, plan: PerFaction<real>, t: Faction)
    ensures Contribution(source, plan, t) == plan.Get(source) * Multiplier(source, t)
  {
  }

  /** Six sources contribute the sum of their six contributions. */
  lemma ContributionsOfSix(sources: seq<Faction>, plan: PerFaction<real>, t: Faction)
    requires |sources| == 6
    ensures Contributions(sources, plan, t) ==
      Contribution(sources[0], plan, t) + Contribution(sources[1], plan, t) + Contribution(sources[2], plan, t)
      + Contribution(sources[3], plan, t) + Contribution(sources[4], plan, t) + Contribution(sources[5], plan, t)
  {
    ContributionsStep(sources, 6, plan, t);
    ContributionsStep(sources, 5, plan, t);
    ContributionsStep(sources, 4, plan, t);
    ContributionsStep(sources, 3, plan, t);
    ContributionsStep(sources, 2, plan, t);
    ContributionsStep(sources, 1, plan, t);
    assert sources[..6] == sources && sources[..0] == [];
  }

  /** The net change written out: every source's amount times its matrix entry for `t`. */
  lemma NetChangeExpanded(plan: PerFaction<real>, t: Faction)
    ensures NetChange(plan, t) ==
      plan.steel * Multiplier(Steel, t) + plan.arbiters * Multiplier(Arbiters, t)
      + plan.suda * Multiplier(Suda, t) + plan.perrin * Multiplier(Perrin, t)
      + plan.veil * Multiplier(Veil, t) + plan.loka * Multiplier(Loka, t)
  {
    ContributionsOfSix(AllFactions, plan, t);
  }

  /** With nothing planned every net change is 0. */
  lemma EmptyPlanChangesNothing(t: Faction)
    ensures NetChange(Uniform(0.0), t) == 0.0
  {
    NetChangeExpanded(Uniform(0.0), t);
  }

  /** Farming one source only moves each target by the amount times that source's matrix entry. */
  lemma SingleSourcePlan(source: Faction, amount: real, t: Faction)
    ensures NetChange(Uniform(0.0).Set(source, amount), t) == amount * Multiplier(source, t)
  {
    var plan := Uniform(0.0).Set(source, amount);
    NetChangeExpanded(plan, t);
    match source
    case Steel =>
    case Arbiters =>
    case Suda =>
    case Perrin =>
    case Veil =>
    case Loka =>
  }

  /** Factions missing from the farmed source's row do not move. */
  lemma UnlistedTargetUnchanged(source: Faction, amount: real, t: Faction)
    requires forall k :: 0 <= k < |Row(source)| ==> Row(source)[k].target != t
    ensures NetChange(Uniform(0.0).Set(source, amount), t) == 0.0
  {
    SingleSourcePlan(source, amount, t);
    RowSumOfUnlisted(Row(source), t);
  }

  /** Farming 1000 Steel Meridian: Steel +1000, Red Veil +500, New Loka -500, Perrin -1000, the rest 0. */
  lemma SteelThousandExample()
    ensures NetChanges(Uniform(0.0).Set(Steel, 1000.0)) == PerFaction(1000.0, 0.0, 0.0, -1000.0, 500.0, -500.0)
  {
    var plan := Uniform(0.0).Set(Steel, 1000.0);
    var row := Row(Steel);
    RowShape(Steel, Steel);
    RowSumOfListed(row, 0);
    RowSumOfListed(row, 1);
    RowSumOfListed(row, 2);
    RowSumOfListed(row, 3);
    RowSumOfUnlisted(row, Arbiters);
    RowSumOfUnlisted(row, Suda);
    SingleSourcePlan(Steel, 1000.0, Steel);
    SingleSourcePlan(Steel, 1000.0, Arbiters);
    SingleSourcePlan(Steel, 1000.0, Suda);
    SingleSourcePlan(Steel, 1000.0, Perrin);
    SingleSourcePlan(Steel, 1000.0, Veil);
    SingleSourcePlan(Steel, 1000.0, Loka);
  }

  /** Plans add up: the net change of the sum of two plans is the sum of their net changes. */
  lemma NetChangeAdditive(p: PerFaction<real>, q: PerFaction<real>, t: Faction)
    ensures NetChange(Tabulate(f => p.Get(f) + q.Get(f)), t) == NetChange(p, t) + NetChange(q, t)
  {
    NetChangeExpanded(p, t);
    NetChangeExpanded(q, t);
    NetChangeExpanded(Tabulate(f => p.Get(f) + q.Get(f)), t);
  }

  /** The sum of contributions depends only on which sources are visited, not on their order. */
  lemma {:induction false} ContributionsIgnoreOrder(a: seq<Faction>, b: seq<Faction>, plan: PerFaction<real>, t: Faction)
    requires multiset(a) == multiset(b)
    ensures Contributions(a, plan, t) == Contributions(b, plan, t)
    decreases |b|
  {
    if b != [] {
      var k := MatchLast(a, b);
      var rest := RemoveAt(a, k);
      ContributionsIgnoreOrder(rest, b[..|b| - 1], plan, t);
      ContributionsWithout(rest, k, a[k], plan, t);
    } else {
      assert |a| == |multiset(a)| == 0;
    }
  }

  /** In two orderings of the same sources, the last of `b` occurs in `a`, and the rest of both agree. */
  lemma MatchLast(a: seq<Faction>, b: seq<Faction>) returns (k: nat)
    requires multiset(a) == multiset(b) && b != []
    ensures k < |a| && a[k] == b[|b| - 1]
    ensures multiset(RemoveAt(a, k)) == multiset(b[..|b| - 1])
  {
    var init := b[..|b| - 1];
    var last := b[|b| - 1];
    assert b == init + [last];
    assert multiset(b) == multiset(init) + multiset{last};
    assert last in a by {
      assert last in multiset(a);
    }
    k :| 0 <= k < |a| && a[k] == last;
  }

  /** `a` without its `k`-th element; putting the element back restores `a`. */
  function RemoveAt(a: seq<Faction>, k: nat): (r: seq<Faction>)
    requires k < |a|
    ensures |r| == |a| - 1
    ensures a == r[..k] + [a[k]] + r[k..]
    ensures multiset(r) == multiset(a) - multiset{a[k]}
  {
    var r := a[..k] + a[k + 1..];
    assert r[..k] == a[..k] && r[k..] == a[k + 1..];
    assert a == a[..k] + [a[k]] + a[k + 1..];
    r
  }

  /** Inserting a source anywhere adds its contribution. */
  lemma {:induction false} ContributionsWithout(rest: seq<Faction>, k: nat, x: Faction, plan: PerFaction<real>, t: Faction)
    requires k <= |rest|
    ensures Contributions(rest[..k] + [x] + rest[k..], plan, t) == Contributions(rest, plan, t) + Contribution(x, plan, t)
    decreases |rest| - k
  {
    var s := rest[..k] + [x] + rest[k..];
    if k == |rest| {
      assert s[..|s| - 1] == rest;
    } else {
      var init := rest[..|rest| - 1];
      ContributionsWithout(init, k, x, plan, t);
      InsertBeforeLast(rest, k, x);
    }
  }

  /** Inserting `x` before the last element: dropping the last element of the result drops it from `rest`. */
  lemma InsertBeforeLast(rest: seq<Faction>, k: nat, x: Faction)
    requires k < |rest|
    ensures (rest[..k] + [x] + rest[k..])[..|rest|] == rest[..|rest| - 1][..k] + [x] + rest[..|rest| - 1][k..]
    ensures (rest[..k] + [x] + rest[k..])[|rest|] == rest[|rest| - 1]
  {
    var init := rest[..|rest| - 1];
    assert init[..k] == rest[..k] && init[k..] + [rest[|rest| - 1]] == rest[k..];
  }

  /** The net change does not depend on the order in which `calculate` visits the sources. */
  lemma NetChangeOrderIndependent(order: seq<Faction>, plan: PerFaction<real>, t: Faction)
    requires multiset(order) == multiset(AllFactions)
    ensures Contributions(order, plan, t) == NetChange(plan, t)
  {
    ContributionsIgnoreOrder(order, AllFactions, plan, t);
  }

  /** What one source contributes to the six factions together is 0. */
  lemma ContributionBalanced(source: Faction, plan: PerFaction<real>)
    ensures Total(Tabulate(t => Contribution(source, plan, t))) == 0.0
  {
    RowBalanced(source);
  }

  /** Any run of sources contributes 0 to the six factions together. */
  lemma {:induction false} ContributionsBalanced(sources: seq<Faction>, plan: PerFaction<real>)
    ensures Total(Tabulate(t => Contributions(sources, plan, t))) == 0.0
  {
    if sources != [] {
      ContributionsBalanced(sources[..|sources| - 1], plan);
      ContributionBalanced(sources[|sources| - 1], plan);
    }
  }

  /** Since every row is balanced, the six net changes of any plan sum to 0. */
  lemma NetChangesSumToZero(plan: PerFaction<real>)
    ensures Total(NetChanges(plan)) == 0.0
  {
    ContributionsBalanced(AllFactions, plan);
  }

  // ---------------------------------------------------- classification

  /** The standing cap above which a total is flagged. */
  const Cap: real := 132000.0

  /** The class given to a projected total cell. */
  datatype Status = Negative | Warning | Safe

  /** Each total gets exactly one class: below 0, above the cap, or in between. */
  function Classify(total: real): (r: Status)
    ensures r == Negative <==> total < 0.0
    ensures r == Warning <==> total > Cap
    ensures r == Safe <==> 0.0 <= total <= Cap
  {
    if total < 0.0 then Negative
    else if total > Cap then Warning
    else Safe
  }

  /** One projected row of the table: the net change, the final total and its class. */
  datatype Projected = Projected(net: real, total: real, status: Status)

  /** The final total is the current balance plus the net change, classified. */
  function Project(current: real, net: real): (r: Projected)
    ensures r.net == net && r.total - net == current
    ensures r.status == Negative <==> current + net < 0.0
    ensures r.status == Warning <==> current + net > Cap
  {
    Projected(net, current + net, Classify(current + net))
  }
}

/** The instant dock statistics of the statistics page
    (`backendInstantStats` in src/pages/Stats.jsx): dock totals over all
    dock groups, the overall occupation rate, and the most active group. */
module StatsDocks {
  import opened Common

  /** A dock group as the public endpoint returns it; either count may be
      missing. */
  datatype DockGroup = DockGroup(id: string, name: string, totalDocks: Option<int>, availableDocks: Option<int>)

  /** `g.total_docks || 0`. */
  function TotalOf(g: DockGroup): int {
    if g.totalDocks.Some? then g.totalDocks.value else 0
  }

  /** `g.available_docks || 0`. */
  function AvailableOf(g: DockGroup): int {
    if g.availableDocks.Some? then g.availableDocks.value else 0
  }

  function SumTotal(groups: seq<DockGroup>): int {
    if groups == [] then 0 else SumTotal(groups[..|groups| - 1]) + TotalOf(groups[|groups| - 1])
  }

  function SumAvailable(groups: seq<DockGroup>): int {
    if groups == [] then 0 else SumAvailable(groups[..|groups| - 1]) + AvailableOf(groups[|groups| - 1])
  }

  /** The occupied share of a group in percent; 0 for a group without docks. */
  function GroupRate(g: DockGroup): real {
    if TotalOf(g) != 0 then ((TotalOf(g) - AvailableOf(g)) as real / TotalOf(g) as real) * 100.0 else 0.0
  }

  /** A group with no more available docks than docks has a rate in [0, 100]. */
  lemma GroupRateWithin(g: DockGroup)
    requires 0 <= AvailableOf(g) <= TotalOf(g)
    ensures 0.0 <= GroupRate(g) <= 100.0
  {
    if TotalOf(g) != 0 {
      var t := TotalOf(g) as real;
      var occ := (TotalOf(g) - AvailableOf(g)) as real;
      DivWithinUnit(occ, t);
    }
  }

  lemma DivWithinUnit(a: real, t: real)
    requires t > 0.0 && 0.0 <= a <= t
    ensures 0.0 <= a / t <= 1.0
  {
    DivWithin(a, t, 0.0, 1.0);
  }

  datatype MostActive = MostActive(group: DockGroup, rate: int)

  datatype InstantStats = InstantStats(
    totalDocks: int,
    availableDocks: int,
    occupiedDocks: int,
    occupationRate: int,
    mostActiveParking: Option<MostActive>)

  /** `totalDocks ? Math.round((occupied / totalDocks) * 100) : 0`. */
  function OverallRate(total: int, available: int): int {
    if total != 0 then Round(((total - available) as real / total as real) * 100.0) else 0
  }

  // ---------------------------------------------------------------------------
  // As written: a group's exact rate is compared with the ROUNDED best rate

  /** The selection loop of `backendInstantStats`, group by group. */
  function MostActiveFold(groups: seq<DockGroup>): (r: Option<MostActive>)
    ensures groups == [] <==> r.None?
  {
    if groups == [] then None
    else
      var best := MostActiveFold(groups[..|groups| - 1]);
      var g := groups[|groups| - 1];
      var rate := GroupRate(g);
      if best.None? || rate > best.value.rate as real then Some(MostActive(g, Round(rate)))
      else best
  }

  /** The group the selection shows is a listed one, shown with its rounded
      rate, and that rate is the largest rounded rate. */
  lemma {:induction false} MostActiveFoldIsBest(groups: seq<DockGroup>)
    requires groups != []
    ensures var r := MostActiveFold(groups).value;
      r.group in groups && r.rate == Round(GroupRate(r.group))
      && forall g :: g in groups ==> Round(GroupRate(g)) <= r.rate
  {
    var init, last := groups[..|groups| - 1], groups[|groups| - 1];
    assert groups == init + [last];
    if init != [] {
      MostActiveFoldIsBest(init);
    }
  }

  method BackendInstantStats(groups: seq<DockGroup>) returns (st: InstantStats)
    ensures groups == [] ==> st == InstantStats(0, 0, 0, 0, None)
    ensures groups != [] ==>
      && st.totalDocks == SumTotal(groups)
      && st.availableDocks == SumAvailable(groups)
      && st.occupiedDocks == st.totalDocks - st.availableDocks
      && st.occupationRate == OverallRate(st.totalDocks, st.availableDocks)
      && st.mostActiveParking == MostActiveFold(groups)
    ensures st.totalDocks == 0 ==> st.occupationRate == 0
  {
    if |groups| == 0 {
      return InstantStats(0, 0, 0, 0, None);
    }
    var total := SumTotal(groups);
    var available := SumAvailable(groups);
    var mostActive := SelectMostActive(groups);
    st := InstantStats(total, available, total - available, OverallRate(total, available), mostActive);
  }

  /** The selection loop of `backendInstantStats`. */
  method SelectMostActive(groups: seq<DockGroup>) returns (mostActive: Option<MostActive>)
    ensures mostActive == MostActiveFold(groups)
  {
    mostActive := None;
    var i := 0;
    while i < |groups|
      invariant 0 <= i <= |groups|
      invariant mostActive == MostActiveFold(groups[..i])
    {
      var g := groups[i];
      var rate := GroupRate(g);
      MostActiveFoldSnoc(groups, i);
      if mostActive.None? || rate > mostActive.value.rate as real {
        mostActive := Some(MostActive(g, Round(rate)));
      }
      i := i + 1;
    }
    assert groups[..i] == groups;
  }

  lemma MostActiveFoldSnoc(groups: seq<DockGroup>, i: nat)
    requires i < |groups|
    ensures var best := MostActiveFold(groups[..i]);
      MostActiveFold(groups[..i + 1])
        == if best.None? || GroupRate(groups[i]) > best.value.rate as real
           then Some(MostActive(groups[i], Round(GroupRate(groups[i])))) else best
  {
    assert groups[..i + 1][..i] == groups[..i];
  }

  /** Two groups of three docks with two free each: the second one is shown
      as most active although they tie. */
  lemma MostActiveNotFirstOnTie()
    ensures var g1 := DockGroup("1", "P1", Some(3), Some(2));
      var g2 := DockGroup("2", "P2", Some(3), Some(2));
      GroupRate(g1) == GroupRate(g2)
      && MostActiveFold([g1, g2]) == Some(MostActive(g2, 33))
  {
    var g1 := DockGroup("1", "P1", Some(3), Some(2));
    var g2 := DockGroup("2", "P2", Some(3), Some(2));
    assert GroupRate(g1) == 100.0 / 3.0;
    assert [g1, g2][..1] == [g1];
    assert [g1][..0] == [];
  }

  // ---------------------------------------------------------------------------
  // Corrected: the first group with the highest rate

  function FirstMaxGroup(groups: seq<DockGroup>): (i: nat)
    requires groups != []
    ensures i < |groups|
    ensures forall t :: 0 <= t < |groups| ==> GroupRate(groups[t]) <= GroupRate(groups[i])
    ensures forall t :: 0 <= t < i ==> GroupRate(groups[t]) < GroupRate(groups[i])
  {
    if |groups| == 1 then 0
    else
      var init := groups[..|groups| - 1];
      assert forall t :: 0 <= t < |init| ==> init[t] == groups[t];
      var b := FirstMaxGroup(init);
      if GroupRate(groups[|groups| - 1]) > GroupRate(groups[b]) then |groups| - 1 else b
  }

  lemma FirstMaxGroupSnoc(groups: seq<DockGroup>, j: nat)
    requires 0 < j < |groups|
    ensures var b := FirstMaxGroup(groups[..j]);
      FirstMaxGroup(groups[..j + 1]) == if GroupRate(groups[j]) > GroupRate(groups[b]) then j else b
  {
    assert groups[..j + 1][..j] == groups[..j];
  }

  /** The selection keeping the exact best rate: the first group with the
      highest rate, shown with that rate rounded. */
  method MostActiveIntended(groups: seq<DockGroup>) returns (r: Option<MostActive>)
    ensures groups == [] ==> r.None?
    ensures groups != [] ==>
      r == Some(MostActive(groups[FirstMaxGroup(groups)], Round(GroupRate(groups[FirstMaxGroup(groups)]))))
  {
    if |groups| == 0 {
      return None;
    }
    var bestIdx := 0;
    var bestRate := GroupRate(groups[0]);
    assert groups[..1] == [groups[0]];
    var j := 1;
    while j < |groups|
      invariant 1 <= j <= |groups|
      invariant bestIdx == FirstMaxGroup(groups[..j])
      invariant bestRate == GroupRate(groups[bestIdx])
    {
      var rate := GroupRate(groups[j]);
      FirstMaxGroupSnoc(groups, j);
      if rate > bestRate {
        bestIdx, bestRate := j, rate;
      }
      j := j + 1;
    }
    assert groups[..j] == groups;
    r := Some(MostActive(groups[bestIdx], Round(bestRate)));
  }

  /** On the tie above the corrected selection keeps the first group. */
  lemma MostActiveIntendedOnTie()
    ensures var g1 := DockGroup("1", "P1", Some(3), Some(2));
      var g2 := DockGroup("2", "P2", Some(3), Some(2));
      FirstMaxGroup([g1, g2]) == 0
  {
    var g1 := DockGroup("1", "P1", Some(3), Some(2));
    var g2 := DockGroup("2", "P2", Some(3), Some(2));
    assert [g1, g2][..1] == [g1];
  }

  // ---------------------------------------------------------------------------
  // Totals

  lemma {:induction false} SumsWithin(groups: seq<DockGroup>)
    requires forall g :: g in groups ==> 0 <= AvailableOf(g) <= TotalOf(g)
    ensures 0 <= SumAvailable(groups) <= SumTotal(groups)
  {
    if groups != [] {
      var init := groups[..|groups| - 1];
      assert forall g :: g in init ==> g in groups;
      SumsWithin(init);
    }
  }

  /** With every group holding no more available docks than docks, the
      occupied count is not negative and every rate shown is a percentage. */
  lemma InstantStatsWithin(groups: seq<DockGroup>)
    requires forall g :: g in groups ==> 0 <= AvailableOf(g) <= TotalOf(g)
    ensures 0 <= SumTotal(groups) - SumAvailable(groups) <= SumTotal(groups)
    ensures 0 <= OverallRate(SumTotal(groups), SumAvailable(groups)) <= 100
    ensures MostActiveFold(groups).Some? ==> 0 <= MostActiveFold(groups).value.rate <= 100
  {
    SumsWithin(groups);
    var t := SumTotal(groups);
    var a := SumAvailable(groups);
    if t != 0 {
      DivWithinUnit((t - a) as real, t as real);
      RoundWithin(((t - a) as real / t as real) * 100.0, 0, 100);
    }
    var m := MostActiveFold(groups);
    if m.Some? {
      MostActiveFoldIsBest(groups);
      GroupRateWithin(m.value.group);
      RoundWithin(GroupRate(m.value.group), 0, 100);
    }
  }
}

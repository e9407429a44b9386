/** Zone ranking of the statistics page (`computeActiveZone`,
    `activeZoneLevel` and `activeZoneName` in src/pages/Stats.jsx): sessions
    are grouped by one geographic field, one level below the narrowest
    selected filter, and the zone with the best mean occupancy is shown. */
module StatsZone {
  import opened Common
  import opened Buckets
  import opened StatsTime

  /** The session field a level groups by. */
  datatype GeoField = ParkingField | VilleField | DepartementField

  /** `departement` for "Région", `ville` for "Département", `parking`
      for any other level. */
  function KeyField(level: string): (f: GeoField)
    ensures f == DepartementField <==> level == "Région"
    ensures f == VilleField <==> level == "Département"
  {
    if level == "Région" then DepartementField
    else if level == "Département" then VilleField
    else ParkingField
  }

  function FieldOf(s: Session, f: GeoField): Option<string> {
    match f
    case ParkingField => s.parking
    case VilleField => s.ville
    case DepartementField => s.departement
  }

  /** `s[keyField] || 'Inconnu'`: a missing or empty field falls into the
      "Inconnu" zone. */
  function ZoneKey(s: Session, level: string): (k: string)
    ensures k != ""
    ensures var v := FieldOf(s, KeyField(level));
      (v.Some? && v.value != "" ==> k == v.value)
      && (v.None? || v.value == "" ==> k == "Inconnu")
  {
    var v := FieldOf(s, KeyField(level));
    if v.Some? && v.value != "" then v.value else "Inconnu"
  }

  function ZoneSamples(sessions: seq<Session>, level: string): (ps: seq<Sample>)
    ensures |ps| == |sessions|
    ensures forall i :: 0 <= i < |ps| ==> ps[i] == (ZoneKey(sessions[i], level), sessions[i].occupancyRate)
  {
    seq(|sessions|, i requires 0 <= i < |sessions| => (ZoneKey(sessions[i], level), sessions[i].occupancyRate))
  }

  lemma ZoneSamplesSnoc(sessions: seq<Session>, level: string, i: nat)
    requires i < |sessions|
    ensures ZoneSamples(sessions[..i + 1], level)
         == ZoneSamples(sessions[..i], level) + [(ZoneKey(sessions[i], level), sessions[i].occupancyRate)]
  {
  }

  /** The `{ label, value }` the page shows. */
  datatype Zone = Zone(name: string, value: int)

  predicate AllHaveSamples(ps: seq<Sample>, ks: seq<string>) {
    forall k :: k in ks ==> Count(ps, k) > 0
  }

  /** The first pass of `computeActiveZone`: one bucket per zone key. */
  method BucketByZone(sessions: seq<Session>, level: string) returns (acc: Acc)
    ensures Tracks(ZoneSamples(sessions, level), acc)
  {
    acc := EmptyAcc;
    EmptyTracks();
    var i := 0;
    while i < |sessions|
      invariant 0 <= i <= |sessions|
      invariant Tracks(ZoneSamples(sessions[..i], level), acc)
    {
      var key := ZoneKey(sessions[i], level);
      AddSampleTracks(ZoneSamples(sessions[..i], level), acc, key, sessions[i].occupancyRate);
      ZoneSamplesSnoc(sessions, level, i);
      acc := AddSample(acc, key, sessions[i].occupancyRate);
      i := i + 1;
    }
    assert sessions[..i] == sessions;
  }

  // ---------------------------------------------------------------------------
  // As written: the running mean is compared with the ROUNDED best

  /** The selection loop of `computeActiveZone` over the buckets `ks` in
      order: a bucket replaces the best when its exact mean exceeds the
      best's rounded value. The value it shows is always the largest rounded
      mean. */
  function ActiveZoneFold(ps: seq<Sample>, ks: seq<string>): (r: Option<Zone>)
    requires AllHaveSamples(ps, ks)
    ensures ks == [] <==> r.None?
    ensures r.Some? ==> r.value.name in ks && r.value.value == Round(Mean(ps, r.value.name))
    ensures r.Some? ==> forall k :: k in ks ==> Round(Mean(ps, k)) <= r.value.value
  {
    if ks == [] then None
    else
      var best := ActiveZoneFold(ps, ks[..|ks| - 1]);
      var k := ks[|ks| - 1];
      assert ks == ks[..|ks| - 1] + [k];
      var avg := Mean(ps, k);
      if best.None? || avg > best.value.value as real then Some(Zone(k, Round(avg)))
      else best
  }

  method ComputeActiveZone(sessions: seq<Session>, level: string) returns (zone: Zone)
    ensures var ps := ZoneSamples(sessions, level);
      AllHaveSamples(ps, DistinctKeys(ps))
      && (sessions == [] ==> zone == Zone("-", 0))
      && (sessions != [] ==> ActiveZoneFold(ps, DistinctKeys(ps)) == Some(zone))
  {
    var acc := BucketByZone(sessions, level);
    ghost var ps := ZoneSamples(sessions, level);
    KeysHaveSamples(ps);
    if |acc.order| == 0 {
      return Zone("-", 0);
    }
    BucketsOfTracked(ps, acc, acc.order);
    var best := SelectZone(ps, acc.order, acc.totals, acc.counts);
    zone := best.value;
  }

  /** The selection loop of `computeActiveZone`, reading each mean from the
      running totals and counts. */
  method SelectZone(ghost ps: seq<Sample>, ks: seq<string>, totals: map<string, real>, counts: map<string, nat>)
    returns (best: Option<Zone>)
    requires AllHaveSamples(ps, ks)
    requires forall k | k in ks ::
      k in totals && k in counts && Count(ps, k) > 0 && counts[k] == Count(ps, k) && totals[k] == Total(ps, k)
    ensures best == ActiveZoneFold(ps, ks)
  {
    best := None;
    var j := 0;
    assert ks[..0] == [];
    while j < |ks|
      invariant 0 <= j <= |ks|
      invariant AllHaveSamples(ps, ks[..j])
      invariant best == ActiveZoneFold(ps, ks[..j])
    {
      var k := ks[j];
      var avg := totals[k] / (counts[k] as real);
      ActiveZoneFoldSnoc(ps, ks, j);
      if best.None? || avg > best.value.value as real {
        best := Some(Zone(k, Round(avg)));
      }
      j := j + 1;
    }
    assert ks[..j] == ks;
  }

  /** One more bucket in the selection as written. */
  lemma ActiveZoneFoldSnoc(ps: seq<Sample>, ks: seq<string>, j: nat)
    requires j < |ks| && AllHaveSamples(ps, ks)
    ensures AllHaveSamples(ps, ks[..j]) && AllHaveSamples(ps, ks[..j + 1])
    ensures var best := ActiveZoneFold(ps, ks[..j]);
      var avg := Mean(ps, ks[j]);
      ActiveZoneFold(ps, ks[..j + 1])
        == if best.None? || avg > best.value.value as real then Some(Zone(ks[j], Round(avg))) else best
  {
    assert ks[..j + 1][..j] == ks[..j];
  }

  /** Two zones with one session each, whose means round to the same value. */
  const TwoZones: seq<Sample> := [("A", 10.4), ("B", 10.2)]

  lemma TwoZonesKeys()
    ensures DistinctKeys(TwoZones) == ["A", "B"]
  {
    var a, b := ("A", 10.4), ("B", 10.2);
    DistinctKeysSnoc([], a);
    assert [] + [a] == [a];
    DistinctKeysSnoc([a], b);
    assert [a] + [b] == TwoZones;
  }

  lemma TwoZonesMeans()
    ensures Count(TwoZones, "A") == 1 && Count(TwoZones, "B") == 1
    ensures Mean(TwoZones, "A") == 10.4 && Mean(TwoZones, "B") == 10.2
  {
    assert TwoZones[..1] == [("A", 10.4)];
    assert [("A", 10.4)][..0] == [];
  }

  /** Two zones whose means round to the same value: the second one is
      chosen although the first has the higher mean. */
  lemma ActiveZoneNotArgMax()
    ensures DistinctKeys(TwoZones) == ["A", "B"]
    ensures Mean(TwoZones, "A") > Mean(TwoZones, "B")
    ensures ActiveZoneFold(TwoZones, ["A", "B"]) == Some(Zone("B", 10))
  {
    TwoZonesKeys();
    TwoZonesMeans();
    assert ["A", "B"][..1] == ["A"];
    assert ["A"][..0] == [];
    assert Round(10.4) == 10;
    assert ActiveZoneFold(TwoZones, ["A"]) == Some(Zone("A", 10));
    assert Round(10.2) == 10;
  }

  // ---------------------------------------------------------------------------
  // Corrected: the first bucket with the highest mean

  /** Index of the first key with the highest mean. */
  function FirstArgMax(ps: seq<Sample>, ks: seq<string>): (i: nat)
    requires ks != [] && AllHaveSamples(ps, ks)
    ensures i < |ks|
    ensures forall t :: 0 <= t < |ks| ==> Mean(ps, ks[t]) <= Mean(ps, ks[i])
    ensures forall t :: 0 <= t < i ==> Mean(ps, ks[t]) < Mean(ps, ks[i])
  {
    if |ks| == 1 then 0
    else
      var init := ks[..|ks| - 1];
      assert forall t :: 0 <= t < |init| ==> init[t] == ks[t];
      var b := FirstArgMax(ps, init);
      if Mean(ps, ks[|ks| - 1]) > Mean(ps, ks[b]) then |ks| - 1 else b
  }

  lemma FirstArgMaxSnoc(ps: seq<Sample>, ks: seq<string>, j: nat)
    requires 0 < j < |ks| && AllHaveSamples(ps, ks)
    ensures AllHaveSamples(ps, ks[..j]) && AllHaveSamples(ps, ks[..j + 1])
    ensures var b := FirstArgMax(ps, ks[..j]);
      FirstArgMax(ps, ks[..j + 1]) == if Mean(ps, ks[j]) > Mean(ps, ks[b]) then j else b
  {
    assert ks[..j + 1][..j] == ks[..j];
  }

  /** `computeActiveZone` comparing the exact means, as the ranking intends. */
  method ComputeActiveZoneIntended(sessions: seq<Session>, level: string) returns (zone: Zone)
    ensures var ps := ZoneSamples(sessions, level);
      var ks := DistinctKeys(ps);
      AllHaveSamples(ps, ks)
      && (sessions == [] ==> zone == Zone("-", 0))
      && (sessions != [] ==> ks != [] && zone == Zone(ks[FirstArgMax(ps, ks)], Round(Mean(ps, ks[FirstArgMax(ps, ks)]))))
  {
    var acc := BucketByZone(sessions, level);
    ghost var ps := ZoneSamples(sessions, level);
    KeysHaveSamples(ps);
    if |acc.order| == 0 {
      return Zone("-", 0);
    }
    zone := FirstBestZone(ps, acc);
  }

  /** The corrected selection loop over the buckets of `acc`. */
  method FirstBestZone(ghost ps: seq<Sample>, acc: Acc) returns (zone: Zone)
    requires Tracks(ps, acc) && acc.order != [] && AllHaveSamples(ps, acc.order)
    ensures zone == Zone(acc.order[FirstArgMax(ps, acc.order)], Round(Mean(ps, acc.order[FirstArgMax(ps, acc.order)])))
  {
    BucketsOfTracked(ps, acc, acc.order);
    var bestIdx, bestAvg := FirstBestIndex(ps, acc.order, acc.totals, acc.counts);
    zone := Zone(acc.order[bestIdx], Round(bestAvg));
  }

  /** The loop of the corrected selection, reading each mean from the
      running totals and counts. */
  method FirstBestIndex(ghost ps: seq<Sample>, ks: seq<string>, totals: map<string, real>, counts: map<string, nat>)
    returns (bestIdx: nat, bestAvg: real)
    requires ks != [] && AllHaveSamples(ps, ks)
    requires forall k | k in ks ::
      k in totals && k in counts && Count(ps, k) > 0 && counts[k] == Count(ps, k) && totals[k] == Total(ps, k)
    ensures bestIdx == FirstArgMax(ps, ks) && bestAvg == Mean(ps, ks[bestIdx])
  {
    bestIdx := 0;
    bestAvg := totals[ks[0]] / (counts[ks[0]] as real);
    assert ks[..1] == [ks[0]];
    var j := 1;
    while j < |ks|
      invariant 1 <= j <= |ks|
      invariant bestIdx == FirstArgMax(ps, ks[..j])
      invariant bestAvg == Mean(ps, ks[bestIdx])
    {
      var avg := totals[ks[j]] / (counts[ks[j]] as real);
      FirstArgMaxSnoc(ps, ks, j);
      if avg > bestAvg {
        bestIdx, bestAvg := j, avg;
      }
      j := j + 1;
    }
    assert ks[..j] == ks;
  }

  /** On the example above the corrected ranking keeps the first zone. */
  lemma ActiveZoneIntendedExample()
    ensures FirstArgMax(TwoZones, ["A", "B"]) == 0
  {
    TwoZonesMeans();
    assert ["A", "B"][..1] == ["A"];
  }

  // ---------------------------------------------------------------------------
  // Level and name of the ranking

  /** The level handed to `computeActiveZone`: "Ville" once a city is
      selected, else "Département" once a department is, else "Région". */
  function ActiveZoneLevel(region: string, departement: string, ville: string): (level: string)
    ensures level == "Ville" <==> ville != "Tous"
    ensures level == "Département" <==> ville == "Tous" && departement != "Tous"
    ensures level == "Région" <==> ville == "Tous" && departement == "Tous"
  {
    if ville != "Tous" then "Ville"
    else if departement != "Tous" then "Département"
    else if region != "Tous" then "Région"
    else "Région"
  }

  /** The title of the ranking: the narrowest selected zone, or
      "Toutes les régions" when nothing is selected. */
  function ActiveZoneName(region: string, departement: string, ville: string): (name: string)
    ensures ville != "Tous" ==> name == ville
    ensures ville == "Tous" && departement != "Tous" ==> name == departement
    ensures ville == "Tous" && departement == "Tous" && region != "Tous" ==> name == region
    ensures ville == "Tous" && departement == "Tous" && region == "Tous" ==> name == "Toutes les régions"
  {
    if ville != "Tous" then ville
    else if departement != "Tous" then departement
    else if region != "Tous" then region
    else "Toutes les régions"
  }

  /** The title names the selection at the level the ranking reports: the
      city at "Ville", the department at "Département", and at "Région" the
      region, or "Toutes les régions" when none is selected. The title is
      never the placeholder "Tous". */
  lemma ActiveZoneNameAtLevel(region: string, departement: string, ville: string)
    ensures ActiveZoneLevel(region, departement, ville) == "Ville"
      ==> ActiveZoneName(region, departement, ville) == ville
    ensures ActiveZoneLevel(region, departement, ville) == "Département"
      ==> ActiveZoneName(region, departement, ville) == departement
    ensures ActiveZoneLevel(region, departement, ville) == "Région"
      ==> ActiveZoneName(region, departement, ville)
          == if region != "Tous" then region else "Toutes les régions"
    ensures ActiveZoneName(region, departement, ville) != "Tous"
  {
    assert "Toutes les régions" != "Tous" by {
      assert |"Toutes les régions"| != |"Tous"|;
    }
  }

  /** The ranking groups one level below the narrowest selection: parkings
      inside a city, cities inside a department, departments otherwise. */
  lemma RankingGroupsOneLevelDown(region: string, departement: string, ville: string)
    ensures KeyField(ActiveZoneLevel(region, departement, ville))
         == if ville != "Tous" then ParkingField
            else if departement != "Tous" then VilleField
            else DepartementField
  {
  }
}

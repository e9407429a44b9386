/** The demonstration data of src/data/mockData.js: three parkings and their
    bornes, the flat borne list sorted with the most recent stamp first
    (`getAllBornesList`) and the status counts (`calculateRealTimeStats`). */
module MockData {
  import opened Common
  import opened Calendar

  datatype Borne = Borne(id: string, numeroPlace: int, statut: string, date: string)

  datatype Parking = Parking(id: int, nom: string, ville: string, latitude: real, longitude: real, bornes: seq<Borne>)

  /** A borne with its parking's name, city and coordinates added; the
      coordinates are kept as the (latitude, longitude) pair that the page
      prints with four decimals. */
  datatype BorneRow = BorneRow(
    id: string,
    numeroPlace: int,
    statut: string,
    date: string,
    parkingNom: string,
    ville: string,
    coordonnees: (real, real))

  const ParkingsData: seq<Parking> := [
    Parking(1, "Gare de VA", "Valenciennes", 50.3562, 3.5241, [
      Borne("B001", 1, "libre", "10/01 10:30"),
      Borne("B002", 2, "occupée", "10/01 11:00"),
      Borne("B003", 3, "libre", "09/01 18:00"),
      Borne("B004", 4, "anomalie", "09/01 17:45")]),
    Parking(2, "Place de la République", "Valenciennes", 50.3585, 3.5238, [
      Borne("B005", 1, "libre", "10/01 12:30"),
      Borne("B006", 2, "libre", "10/01 09:15")]),
    Parking(3, "Campus Mont Houy", "Famars", 50.3220, 3.5110, [
      Borne("B007", 1, "occupée", "10/01 12:30"),
      Borne("B008", 2, "libre", "10/01 14:00")])
  ]

  // ---------------------------------------------------------------------------
  // Flattening

  /** `{ ...borne, parkingNom: parking.nom, ville: parking.ville, coordonnees }`. */
  function RowOf(p: Parking, b: Borne): BorneRow {
    BorneRow(b.id, b.numeroPlace, b.statut, b.date, p.nom, p.ville, (p.latitude, p.longitude))
  }

  function ParkingRows(p: Parking): (rows: seq<BorneRow>)
    ensures |rows| == |p.bornes|
    ensures forall j :: 0 <= j < |rows| ==> rows[j] == RowOf(p, p.bornes[j])
  {
    seq(|p.bornes|, j requires 0 <= j < |p.bornes| => RowOf(p, p.bornes[j]))
  }

  /** The pushes of the nested `forEach`: parking by parking, borne by borne. */
  function Flatten(parkings: seq<Parking>): seq<BorneRow> {
    if parkings == [] then []
    else Flatten(parkings[..|parkings| - 1]) + ParkingRows(parkings[|parkings| - 1])
  }

  function BorneCount(parkings: seq<Parking>): nat {
    if parkings == [] then 0
    else BorneCount(parkings[..|parkings| - 1]) + |parkings[|parkings| - 1].bornes|
  }

  /** One row per borne: as many rows as bornes, every row made from a
      borne of one of the parkings, and every borne's row present. */
  lemma {:induction false} FlattenRows(parkings: seq<Parking>)
    ensures |Flatten(parkings)| == BorneCount(parkings)
    ensures forall r :: r in Flatten(parkings) ==>
      exists i, j :: 0 <= i < |parkings| && 0 <= j < |parkings[i].bornes| && r == RowOf(parkings[i], parkings[i].bornes[j])
    ensures forall i, j :: 0 <= i < |parkings| && 0 <= j < |parkings[i].bornes| ==>
      RowOf(parkings[i], parkings[i].bornes[j]) in Flatten(parkings)
  {
    if parkings != [] {
      var n := |parkings|;
      var init := parkings[..n - 1];
      var last := parkings[n - 1];
      FlattenRows(init);
      forall r | r in Flatten(parkings)
        ensures exists i, j :: 0 <= i < n && 0 <= j < |parkings[i].bornes| && r == RowOf(parkings[i], parkings[i].bornes[j])
      {
        if r in Flatten(init) {
          var i, j :| 0 <= i < |init| && 0 <= j < |init[i].bornes| && r == RowOf(init[i], init[i].bornes[j]);
          assert init[i] == parkings[i];
        } else {
          var j :| 0 <= j < |last.bornes| && ParkingRows(last)[j] == r;
          assert r == RowOf(parkings[n - 1], parkings[n - 1].bornes[j]);
        }
      }
      forall i, j | 0 <= i < n && 0 <= j < |parkings[i].bornes|
        ensures RowOf(parkings[i], parkings[i].bornes[j]) in Flatten(parkings)
      {
        if i < n - 1 {
          assert init[i] == parkings[i];
          assert RowOf(init[i], init[i].bornes[j]) in Flatten(init);
        } else {
          assert ParkingRows(last)[j] == RowOf(parkings[i], parkings[i].bornes[j]);
        }
      }
    }
  }

  // ---------------------------------------------------------------------------
  // The "DD/MM HH:MM" stamp

  function DigitAt(s: string, i: nat): int
    requires i < |s|
  {
    (s[i] as int) - ('0' as int)
  }

  function TwoDigits(s: string, i: nat): int
    requires i + 1 < |s|
  {
    DigitAt(s, i) * 10 + DigitAt(s, i + 1)
  }

  /** Day, month, hour and minute of a stamp, as `split(' ')`, `split('/')`
      and `split(':')` cut it. */
  function StampDay(s: string): int requires |s| == 11 { TwoDigits(s, 0) }
  function StampMonth(s: string): int requires |s| == 11 { TwoDigits(s, 3) }
  function StampHour(s: string): int requires |s| == 11 { TwoDigits(s, 6) }
  function StampMinute(s: string): int requires |s| == 11 { TwoDigits(s, 9) }

  /** "DD/MM HH:MM" naming a real day of 2025 and a time of day, the form
      every stamp of the demonstration data has. */
  predicate WellFormedStamp(s: string) {
    && |s| == 11 && s[2] == '/' && s[5] == ' ' && s[8] == ':'
    && IsDigit(s[0]) && IsDigit(s[1]) && IsDigit(s[3]) && IsDigit(s[4])
    && IsDigit(s[6]) && IsDigit(s[7]) && IsDigit(s[9]) && IsDigit(s[10])
    && 1 <= StampMonth(s) <= 12
    && ValidDate(Date(2025, StampMonth(s) - 1, StampDay(s)))
    && StampHour(s) < 24 && StampMinute(s) < 60
  }

  /** Minutes from 1 January 2025 to the stamp, year fixed to 2025. The
      comparator `parseDate(b.date) - parseDate(a.date)` is 60000 times the
      difference of these. */
  function StampKey(s: string): int {
    if WellFormedStamp(s) then
      (DayOfYear(Date(2025, StampMonth(s) - 1, StampDay(s))) * 24 + StampHour(s)) * 60 + StampMinute(s)
    else 0
  }

  predicate TupleLess(a: (int, int, int, int), b: (int, int, int, int)) {
    a.0 < b.0 || (a.0 == b.0 && (a.1 < b.1 || (a.1 == b.1 && (a.2 < b.2 || (a.2 == b.2 && a.3 < b.3)))))
  }

  function StampFields(s: string): (int, int, int, int)
    requires |s| == 11
  {
    (StampMonth(s), StampDay(s), StampHour(s), StampMinute(s))
  }

  lemma DayOfYearOrder(m: int, d: int, m': int, d': int)
    requires ValidDate(Date(2025, m, d)) && ValidDate(Date(2025, m', d'))
    requires m < m' || (m == m' && d < d')
    ensures DayOfYear(Date(2025, m, d)) < DayOfYear(Date(2025, m', d'))
  {
    if m < m' {
      DaysBeforeMonthMonotone(2025, m, m');
    }
  }

  /** The stamp order is the calendar order of (month, day, hour, minute). */
  lemma StampKeyOrder(a: string, b: string)
    requires WellFormedStamp(a) && WellFormedStamp(b)
    ensures StampKey(a) < StampKey(b) <==> TupleLess(StampFields(a), StampFields(b))
  {
    var ma, da, mb, db := StampMonth(a) - 1, StampDay(a), StampMonth(b) - 1, StampDay(b);
    if ma < mb || (ma == mb && da < db) {
      DayOfYearOrder(ma, da, mb, db);
    } else if mb < ma || (ma == mb && db < da) {
      DayOfYearOrder(mb, db, ma, da);
    }
  }

  // ---------------------------------------------------------------------------
  // The sort: most recent first, stable

  /** The sort key of a row: its stamp. */
  function RowKey(r: BorneRow): int {
    StampKey(r.date)
  }

  predicate NonIncreasing(rows: seq<BorneRow>, key: BorneRow -> int) {
    forall i, j :: 0 <= i < j < |rows| ==> key(rows[j]) <= key(rows[i])
  }

  /** Puts `x` after every row with a key at least as large, scanning from
      the end. */
  function InsertDesc(sorted: seq<BorneRow>, x: BorneRow, key: BorneRow -> int): (r: seq<BorneRow>)
    ensures |r| == |sorted| + 1
    ensures multiset(r) == multiset(sorted) + multiset{x}
  {
    if sorted == [] || key(x) <= key(sorted[|sorted| - 1]) then sorted + [x]
    else
      var init := sorted[..|sorted| - 1];
      assert sorted == init + [sorted[|sorted| - 1]];
      InsertDesc(init, x, key) + [sorted[|sorted| - 1]]
  }

  /** `Array.prototype.sort`, which is stable, with `(a, b) => key(b) - key(a)`. */
  function SortDesc(rows: seq<BorneRow>, key: BorneRow -> int): (r: seq<BorneRow>)
    ensures |r| == |rows|
    ensures multiset(r) == multiset(rows)
  {
    if rows == [] then []
    else
      assert rows == rows[..|rows| - 1] + [rows[|rows| - 1]];
      InsertDesc(SortDesc(rows[..|rows| - 1], key), rows[|rows| - 1], key)
  }

  lemma {:induction false} InsertDescNonIncreasing(sorted: seq<BorneRow>, x: BorneRow, key: BorneRow -> int)
    requires NonIncreasing(sorted, key)
    ensures NonIncreasing(InsertDesc(sorted, x, key), key)
    decreases |sorted|
  {
    if sorted != [] && key(x) > key(sorted[|sorted| - 1]) {
      var init := sorted[..|sorted| - 1];
      var last := sorted[|sorted| - 1];
      InsertDescNonIncreasing(init, x, key);
      var r := InsertDesc(init, x, key);
      forall i | 0 <= i < |r| ensures key(last) <= key(r[i]) {
        assert r[i] in multiset(init) + multiset{x};
        if r[i] != x {
          assert r[i] in init;
        }
      }
      assert InsertDesc(sorted, x, key) == r + [last];
    }
  }

  lemma {:induction false} SortDescNonIncreasing(rows: seq<BorneRow>, key: BorneRow -> int)
    ensures NonIncreasing(SortDesc(rows, key), key)
  {
    if rows != [] {
      SortDescNonIncreasing(rows[..|rows| - 1], key);
      InsertDescNonIncreasing(SortDesc(rows[..|rows| - 1], key), rows[|rows| - 1], key);
    }
  }

  /** The rows with key `k`, in order. */
  function WithKey(rows: seq<BorneRow>, key: BorneRow -> int, k: int): seq<BorneRow> {
    if rows == [] then []
    else WithKey(rows[..|rows| - 1], key, k) + (if key(rows[|rows| - 1]) == k then [rows[|rows| - 1]] else [])
  }

  lemma {:induction false} InsertDescWithKey(sorted: seq<BorneRow>, x: BorneRow, key: BorneRow -> int, k: int)
    ensures WithKey(InsertDesc(sorted, x, key), key, k) == WithKey(sorted, key, k) + (if key(x) == k then [x] else [])
    decreases |sorted|
  {
    var ins := InsertDesc(sorted, x, key);
    if sorted == [] || key(x) <= key(sorted[|sorted| - 1]) {
      assert ins[..|ins| - 1] == sorted;
    } else {
      var init := sorted[..|sorted| - 1];
      InsertDescWithKey(init, x, key, k);
      assert ins[..|ins| - 1] == InsertDesc(init, x, key);
    }
  }

  /** Rows with equal keys keep their order: the sort is stable. */
  lemma {:induction false} SortDescStable(rows: seq<BorneRow>, key: BorneRow -> int, k: int)
    ensures WithKey(SortDesc(rows, key), key, k) == WithKey(rows, key, k)
  {
    if rows != [] {
      var init := rows[..|rows| - 1];
      SortDescStable(init, key, k);
      InsertDescWithKey(SortDesc(init, key), rows[|rows| - 1], key, k);
    }
  }

  // ---------------------------------------------------------------------------
  // getAllBornesList

  predicate StampsWellFormed(parkings: seq<Parking>) {
    forall i, j :: 0 <= i < |parkings| && 0 <= j < |parkings[i].bornes| ==> WellFormedStamp(parkings[i].bornes[j].date)
  }

  method GetAllBornesList(parkings: seq<Parking>) returns (list: seq<BorneRow>)
    requires StampsWellFormed(parkings)
    ensures list == SortDesc(Flatten(parkings), RowKey)
    ensures |list| == BorneCount(parkings)
    ensures multiset(list) == multiset(Flatten(parkings))
    ensures NonIncreasing(list, RowKey)
    ensures forall k :: WithKey(list, RowKey, k) == WithKey(Flatten(parkings), RowKey, k)
  {
    list := [];
    var i := 0;
    while i < |parkings|
      invariant 0 <= i <= |parkings|
      invariant list == Flatten(parkings[..i])
    {
      var p := parkings[i];
      var j := 0;
      while j < |p.bornes|
        invariant 0 <= j <= |p.bornes|
        invariant list == Flatten(parkings[..i]) + ParkingRows(p)[..j]
      {
        list := list + [RowOf(p, p.bornes[j])];
        assert ParkingRows(p)[..j + 1] == ParkingRows(p)[..j] + [RowOf(p, p.bornes[j])];
        j := j + 1;
      }
      assert ParkingRows(p)[..j] == ParkingRows(p);
      assert parkings[..i + 1][..i] == parkings[..i];
      i := i + 1;
    }
    assert parkings[..i] == parkings;
    FlattenRows(parkings);
    SortDescNonIncreasing(list, RowKey);
    forall k ensures WithKey(SortDesc(list, RowKey), RowKey, k) == WithKey(list, RowKey, k) {
      SortDescStable(list, RowKey, k);
    }
    list := SortDesc(list, RowKey);
  }

  // ---------------------------------------------------------------------------
  // calculateRealTimeStats

  function CountStatut(rows: seq<BorneRow>, statut: string): nat {
    if rows == [] then 0
    else CountStatut(rows[..|rows| - 1], statut) + (if rows[|rows| - 1].statut == statut then 1 else 0)
  }

  lemma {:induction false} InsertDescCount(sorted: seq<BorneRow>, x: BorneRow, key: BorneRow -> int, statut: string)
    ensures CountStatut(InsertDesc(sorted, x, key), statut) == CountStatut(sorted, statut) + (if x.statut == statut then 1 else 0)
    decreases |sorted|
  {
    var ins := InsertDesc(sorted, x, key);
    if sorted == [] || key(x) <= key(sorted[|sorted| - 1]) {
      assert ins[..|ins| - 1] == sorted;
    } else {
      InsertDescCount(sorted[..|sorted| - 1], x, key, statut);
      assert ins[..|ins| - 1] == InsertDesc(sorted[..|sorted| - 1], x, key);
    }
  }

  /** Sorting does not change how many rows have a given status. */
  lemma {:induction false} SortDescCount(rows: seq<BorneRow>, key: BorneRow -> int, statut: string)
    ensures CountStatut(SortDesc(rows, key), statut) == CountStatut(rows, statut)
  {
    if rows != [] {
      SortDescCount(rows[..|rows| - 1], key, statut);
      InsertDescCount(SortDesc(rows[..|rows| - 1], key), rows[|rows| - 1], key, statut);
    }
  }

  /** When every status is one of the three the page knows, the three counts
      add up to the total. */
  lemma {:induction false} CountsPartition(rows: seq<BorneRow>)
    requires forall r :: r in rows ==> r.statut == "libre" || r.statut == "occupée" || r.statut == "anomalie"
    ensures CountStatut(rows, "libre") + CountStatut(rows, "occupée") + CountStatut(rows, "anomalie") == |rows|
  {
    if rows != [] {
      var init := rows[..|rows| - 1];
      assert forall r :: r in init ==> r in rows;
      assert rows[|rows| - 1] in rows;
      CountsPartition(init);
    }
  }

  datatype RealTimeStats = RealTimeStats(total: nat, libres: nat, occupees: nat, pannes: nat)

  function StatsOf(rows: seq<BorneRow>): (st: RealTimeStats)
    ensures st.total == |rows|
  {
    RealTimeStats(|rows|, CountStatut(rows, "libre"), CountStatut(rows, "occupée"), CountStatut(rows, "anomalie"))
  }

  /** Every borne of parking `i` of the demonstration data carries a
      well-formed stamp. */
  predicate ParkingStampsWellFormed(i: nat)
    requires i < |ParkingsData|
  {
    forall j :: 0 <= j < |ParkingsData[i].bornes| ==> WellFormedStamp(ParkingsData[i].bornes[j].date)
  }

  lemma GareStamps()
    ensures ParkingStampsWellFormed(0)
  {
    assert WellFormedStamp("10/01 10:30");
    assert WellFormedStamp("10/01 11:00");
    assert WellFormedStamp("09/01 18:00");
    assert WellFormedStamp("09/01 17:45");
  }

  lemma RepubliqueStamps()
    ensures ParkingStampsWellFormed(1)
  {
    assert WellFormedStamp("10/01 12:30");
    assert WellFormedStamp("10/01 09:15");
  }

  lemma CampusStamps()
    ensures ParkingStampsWellFormed(2)
  {
    assert WellFormedStamp("10/01 12:30");
    assert WellFormedStamp("10/01 14:00");
  }

  lemma ParkingsDataStamps()
    ensures StampsWellFormed(ParkingsData)
  {
    GareStamps();
    RepubliqueStamps();
    CampusStamps();
    assert forall i :: 0 <= i < |ParkingsData| ==> ParkingStampsWellFormed(i);
  }

  lemma ParkingsDataRows()
    ensures Flatten(ParkingsData) == ParkingRows(ParkingsData[0]) + ParkingRows(ParkingsData[1]) + ParkingRows(ParkingsData[2])
  {
    var P := ParkingsData;
    assert Flatten(P[..1]) == ParkingRows(P[0]) by { assert P[..1][..0] == []; }
    assert Flatten(P[..2]) == ParkingRows(P[0]) + ParkingRows(P[1]) by { assert P[..2][..1] == P[..1]; }
    assert Flatten(P[..3]) == Flatten(P[..2]) + ParkingRows(P[2]) by { assert P[..3][..2] == P[..2]; }
    assert P[..3] == P;
  }

  lemma {:induction false} CountStatutConcat(a: seq<BorneRow>, b: seq<BorneRow>, statut: string)
    ensures CountStatut(a + b, statut) == CountStatut(a, statut) + CountStatut(b, statut)
    decreases |b|
  {
    if b != [] {
      CountStatutConcat(a, b[..|b| - 1], statut);
      assert (a + b)[..|a + b| - 1] == a + b[..|b| - 1];
      assert (a + b)[|a + b| - 1] == b[|b| - 1];
    } else {
      assert a + b == a;
    }
  }

  lemma CountStatutCons(rows: seq<BorneRow>, statut: string)
    requires rows != []
    ensures CountStatut(rows, statut) == (if rows[0].statut == statut then 1 else 0) + CountStatut(rows[1..], statut)
  {
    CountStatutConcat([rows[0]], rows[1..], statut);
    assert [rows[0]] + rows[1..] == rows;
    assert [rows[0]][..0] == [];
  }

  /** On the demonstration data: 8 bornes, 5 free, 2 occupied, 1 faulty. */
  method CalculateRealTimeStats() returns (st: RealTimeStats)
    ensures st == RealTimeStats(8, 5, 2, 1)
  {
    ParkingsDataStamps();
    var all := GetAllBornesList(ParkingsData);
    st := StatsOf(all);
    ghost var flat := Flatten(ParkingsData);
    SortDescCount(flat, RowKey, "libre");
    SortDescCount(flat, RowKey, "occupée");
    SortDescCount(flat, RowKey, "anomalie");
    ParkingsDataRows();
    assert CountStatut(flat, "libre") == 5 && CountStatut(flat, "occupée") == 2 && CountStatut(flat, "anomalie") == 1 by {
      DataCounts();
    }
  }

  /** The statuses of parking `i`'s bornes, counted. */
  predicate ParkingCounts(i: nat, libres: nat, occupees: nat, pannes: nat)
    requires i < |ParkingsData|
  {
    var rows := ParkingRows(ParkingsData[i]);
    CountStatut(rows, "libre") == libres && CountStatut(rows, "occupée") == occupees
    && CountStatut(rows, "anomalie") == pannes
  }

  lemma GareCounts()
    ensures ParkingCounts(0, 2, 1, 1)
  {
    var rows := ParkingRows(ParkingsData[0]);
    forall st | st in {"libre", "occupée", "anomalie"}
      ensures CountStatut(rows, st) == (if "libre" == st then 1 else 0) + (if "occupée" == st then 1 else 0)
        + (if "libre" == st then 1 else 0) + (if "anomalie" == st then 1 else 0)
    {
      CountStatutCons(rows, st);
      CountStatutCons(rows[1..], st);
      CountStatutCons(rows[2..], st);
      CountStatutCons(rows[3..], st);
      assert rows[1..][1..] == rows[2..] && rows[2..][1..] == rows[3..] && rows[3..][1..] == [];
    }
  }

  lemma RepubliqueCounts()
    ensures ParkingCounts(1, 2, 0, 0)
  {
    var rows := ParkingRows(ParkingsData[1]);
    forall st | st in {"libre", "occupée", "anomalie"}
      ensures CountStatut(rows, st) == (if "libre" == st then 2 else 0)
    {
      CountStatutCons(rows, st);
      CountStatutCons(rows[1..], st);
      assert rows[1..][1..] == [];
    }
  }

  lemma CampusCounts()
    ensures ParkingCounts(2, 1, 1, 0)
  {
    var rows := ParkingRows(ParkingsData[2]);
    forall st | st in {"libre", "occupée", "anomalie"}
      ensures CountStatut(rows, st) == (if "occupée" == st then 1 else 0) + (if "libre" == st then 1 else 0)
    {
      CountStatutCons(rows, st);
      CountStatutCons(rows[1..], st);
      assert rows[1..][1..] == [];
    }
  }

  lemma DataCounts()
    ensures var flat := ParkingRows(ParkingsData[0]) + ParkingRows(ParkingsData[1]) + ParkingRows(ParkingsData[2]);
      |flat| == 8
      && CountStatut(flat, "libre") == 5 && CountStatut(flat, "occupée") == 2 && CountStatut(flat, "anomalie") == 1
  {
    var r0, r1, r2 := ParkingRows(ParkingsData[0]), ParkingRows(ParkingsData[1]), ParkingRows(ParkingsData[2]);
    GareCounts();
    RepubliqueCounts();
    CampusCounts();
    forall st | st in {"libre", "occupée", "anomalie"}
      ensures CountStatut(r0 + r1 + r2, st) == CountStatut(r0, st) + CountStatut(r1, st) + CountStatut(r2, st)
    {
      CountStatutConcat(r0, r1, st);
      CountStatutConcat(r0 + r1, r2, st);
    }
  }

}

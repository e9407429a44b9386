/** The map page (src/pages/Map.jsx): the translation of dock statuses
    between the backend and the page, the mapping of the parkings the
    backend returns into the page's parkings, the colour of a parking's
    marker and the removal of a deleted parking from the list. */
module MapPage {
  import opened Common

  // ---------------------------------------------------------------------------
  // Dock statuses

  /** The statuses the page shows. */
  predicate IsUiStatus(s: string) {
    s == "libre" || s == "occupée" || s == "anomalie"
  }

  /** The statuses the backend stores. */
  predicate IsApiStatus(s: string) {
    s == "available" || s == "occupied" || s == "out_of_service"
  }

  /** Backend status to page status, as `loadParkings` maps every dock: any
      status other than available and occupied is shown as a fault. */
  function ApiToUiStatus(status: string): (statut: string)
    ensures IsUiStatus(statut)
  {
    if status == "available" then "libre"
    else if status == "occupied" then "occupée"
    else if status == "out_of_service" then "anomalie"
    else "anomalie"
  }

  /** Page status to backend status, as `updateBorneStatus` sends it: any
      status other than libre and occupée is sent as out of service. */
  function UiToApiStatus(statut: string): (status: string)
    ensures IsApiStatus(status)
  {
    if statut == "libre" then "available"
    else if statut == "occupée" then "occupied"
    else "out_of_service"
  }

  /** A page status survives the trip to the backend and back exactly when
      it is one of the three the page knows. */
  lemma UiStatusRoundTrip(statut: string)
    ensures ApiToUiStatus(UiToApiStatus(statut)) == statut <==> IsUiStatus(statut)
  {
  }

  /** A backend status survives the trip to the page and back exactly when
      it is one of the three the backend knows. */
  lemma ApiStatusRoundTrip(status: string)
    ensures UiToApiStatus(ApiToUiStatus(status)) == status <==> IsApiStatus(status)
  {
  }

  /** On the known statuses the two translations are each other's inverse:
      distinct statuses stay distinct. */
  lemma StatusTranslationsInjective(a: string, b: string)
    ensures IsApiStatus(a) && IsApiStatus(b) && ApiToUiStatus(a) == ApiToUiStatus(b) ==> a == b
    ensures IsUiStatus(a) && IsUiStatus(b) && UiToApiStatus(a) == UiToApiStatus(b) ==> a == b
  {
    ApiStatusRoundTrip(a);
    ApiStatusRoundTrip(b);
    UiStatusRoundTrip(a);
    UiStatusRoundTrip(b);
  }

  // ---------------------------------------------------------------------------
  // Parkings from the backend

  datatype ApiDock = ApiDock(id: int, name: Option<string>, sensorId: Option<string>, status: string)

  datatype ApiParking = ApiParking(
    id: int,
    name: string,
    description: Option<string>,
    latitude: real,
    longitude: real,
    docks: Option<seq<ApiDock>>,
    imageUrl: Option<string>)

  datatype MapBorne = MapBorne(dbId: int, id: string, sensorId: Option<string>, statut: string)

  datatype MapParking = MapParking(
    id: int,
    nom: string,
    ville: string,
    latitude: real,
    longitude: real,
    bornes: seq<MapBorne>,
    photo: Option<string>)

  /** `s || fallback`: a missing or empty string falls back. */
  function OrElse(s: Option<string>, fallback: string): (r: string)
    ensures s.Some? && s.value != "" ==> r == s.value
    ensures s.None? || s.value == "" ==> r == fallback
  {
    if s.Some? && s.value != "" then s.value else fallback
  }

  function ToBorne(d: ApiDock): MapBorne {
    MapBorne(d.id, OrElse(d.name, "unknown"), d.sensorId, ApiToUiStatus(d.status))
  }

  /** `p.docks || []`. */
  function DocksOf(p: ApiParking): seq<ApiDock> {
    if p.docks.Some? then p.docks.value else []
  }

  function ToParking(p: ApiParking): MapParking {
    var docks := DocksOf(p);
    MapParking(p.id, p.name, OrElse(p.description, "Non spécifiée"), p.latitude, p.longitude,
      seq(|docks|, j requires 0 <= j < |docks| => ToBorne(docks[j])), p.imageUrl)
  }

  /** `data.map(...)` of `loadParkings`. */
  function MapParkings(data: seq<ApiParking>): (r: seq<MapParking>)
    ensures |r| == |data|
    ensures forall i :: 0 <= i < |r| ==> r[i] == ToParking(data[i])
  {
    seq(|data|, i requires 0 <= i < |data| => ToParking(data[i]))
  }

  /** What the page relies on after mapping: every parking keeps its id,
      name and position and has a non-empty city; it has one borne per dock,
      in order, each with a non-empty name, the dock's id and sensor, and a
      status the page knows. */
  lemma MapParkingsShape(data: seq<ApiParking>)
    ensures var r := MapParkings(data);
      forall i :: 0 <= i < |data| ==>
        && r[i].id == data[i].id && r[i].nom == data[i].name
        && r[i].latitude == data[i].latitude && r[i].longitude == data[i].longitude
        && r[i].ville != ""
        && |r[i].bornes| == |DocksOf(data[i])|
        && (data[i].docks.None? ==> r[i].bornes == [])
        && forall j :: 0 <= j < |r[i].bornes| ==>
          && r[i].bornes[j].id != ""
          && r[i].bornes[j].dbId == DocksOf(data[i])[j].id
          && r[i].bornes[j].sensorId == DocksOf(data[i])[j].sensorId
          && IsUiStatus(r[i].bornes[j].statut)
          && r[i].bornes[j].statut == ApiToUiStatus(DocksOf(data[i])[j].status)
  {
  }

  /** Mapping a list is mapping its parts. */
  lemma MapParkingsConcat(a: seq<ApiParking>, b: seq<ApiParking>)
    ensures MapParkings(a + b) == MapParkings(a) + MapParkings(b)
  {
  }

  // ---------------------------------------------------------------------------
  // Marker colour

  datatype Colour = Red | Green | Blue

  predicate IsLibre(b: MapBorne) { b.statut == "libre" }

  predicate IsAnomalie(b: MapBorne) { b.statut == "anomalie" }

  /** The marker of a parking: the number of free bornes and of bornes it
      shows, and its colour, red when some borne is faulty, otherwise green
      when some borne is free, otherwise blue. */
  method Marker(p: MapParking) returns (libres: nat, total: nat, colour: Colour)
    ensures libres == |Filter(p.bornes, IsLibre)| && total == |p.bornes|
    ensures libres <= total
    ensures libres > 0 <==> exists b :: b in p.bornes && IsLibre(b)
    ensures colour == Red <==> exists b :: b in p.bornes && IsAnomalie(b)
    ensures colour == Green <==> (forall b :: b in p.bornes ==> !IsAnomalie(b)) && exists b :: b in p.bornes && IsLibre(b)
    ensures colour == Blue <==> forall b :: b in p.bornes ==> !IsAnomalie(b) && !IsLibre(b)
  {
    var free := Filter(p.bornes, IsLibre);
    libres := |free|;
    total := |p.bornes|;
    if libres > 0 {
      assert free[0] in free;
    }
    var hasAnomalie := exists b :: b in p.bornes && IsAnomalie(b);
    colour := Blue;
    if hasAnomalie {
      colour := Red;
    } else if libres > 0 {
      colour := Green;
    }
  }

  // ---------------------------------------------------------------------------
  // Deleting a parking

  function OtherParking(id: int): MapParking -> bool {
    (p: MapParking) => p.id != id
  }

  /** `prev.filter(p => p.id !== id)`. */
  function RemoveParking(parkings: seq<MapParking>, id: int): (r: seq<MapParking>)
    ensures forall p :: p in r <==> p in parkings && p.id != id
  {
    Filter(parkings, OtherParking(id))
  }

  /** Removal keeps the other parkings in their order, and changes nothing
      when no parking has that id. */
  lemma RemoveParkingKeepsOrder(a: seq<MapParking>, b: seq<MapParking>, id: int)
    ensures RemoveParking(a + b, id) == RemoveParking(a, id) + RemoveParking(b, id)
    ensures (forall p :: p in a ==> p.id != id) ==> RemoveParking(a, id) == a
  {
    FilterConcat(a, b, OtherParking(id));
    if forall p :: p in a ==> p.id != id {
      FilterKeepsAll(a, OtherParking(id));
    }
  }
}

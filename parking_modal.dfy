/** The form for a new parking on the map page (`AddParkingModal` in
    src/pages/Map.jsx): its fields, the list of docks ("socles") being
    prepared with their add, delete and edit handlers, and the validation
    that hands the new parking over. */
module ParkingModal {
  import opened Common
  import opened JsText

  /** A dock of the form, with its sensor and its backend status. */
  datatype Socle = Socle(socleId: string, capteurId: string, statut: string)

  /** The field an edit of a listed dock changes. */
  datatype SocleField = SocleIdField | CapteurIdField | StatutField

  /** What `handleAddSocle` does: add the dock or say which check refused it. */
  datatype AddOutcome = SocleAdded | MissingSocleId | MissingCapteurId | DuplicateSocleId

  /** What `onAdd` receives. */
  datatype NewParking = NewParking(
    nom: string,
    latitude: JsNumber,
    longitude: JsNumber,
    ville: string,
    socles: seq<Socle>,
    photo: Option<string>)

  /** What `handleValidate` does: refuse, naming the problem, or submit. */
  datatype ValidateOutcome = MissingName | InvalidCoordinates | Submitted(parking: NewParking)

  /** No two listed docks share an id. */
  predicate DistinctSocleIds(socles: seq<Socle>) {
    forall i, j :: 0 <= i < j < |socles| ==> socles[i].socleId != socles[j].socleId
  }

  predicate HasSocleId(socles: seq<Socle>, socleId: string) {
    exists s :: s in socles && s.socleId == socleId
  }

  /** `!coordX || !coordY || isNaN(parseFloat(coordX)) || isNaN(parseFloat(coordY))`
      negated: both coordinates are non-empty and start with a number. */
  predicate CoordinatesValid(coordX: string, coordY: string) {
    coordX != "" && coordY != "" && ParseFloat(coordX).Some? && ParseFloat(coordY).Some?
  }

  /** Appending a dock whose id is not listed keeps the ids distinct. */
  lemma AppendKeepsDistinct(socles: seq<Socle>, s: Socle)
    requires DistinctSocleIds(socles) && !HasSocleId(socles, s.socleId)
    ensures DistinctSocleIds(socles + [s])
  {
    var r := socles + [s];
    forall i, j | 0 <= i < j < |r| ensures r[i].socleId != r[j].socleId {
      if j == |socles| {
        assert r[i] in socles;
      }
    }
  }

  // ---------------------------------------------------------------------------
  // Deleting and editing listed docks

  function OtherSocle(socleId: string): Socle -> bool {
    (s: Socle) => s.socleId != socleId
  }

  /** `socles.filter(s => s.socleId !== socleId)`. */
  function WithoutSocle(socles: seq<Socle>, socleId: string): (r: seq<Socle>)
    ensures forall s :: s in r <==> s in socles && s.socleId != socleId
  {
    Filter(socles, OtherSocle(socleId))
  }

  /** With distinct ids, the last dock's id is not among the others. */
  lemma LastIdIsNew(socles: seq<Socle>)
    requires socles != [] && DistinctSocleIds(socles)
    ensures DistinctSocleIds(socles[..|socles| - 1])
    ensures !HasSocleId(socles[..|socles| - 1], socles[|socles| - 1].socleId)
  {
    var init := socles[..|socles| - 1];
    forall s | s in init ensures s.socleId != socles[|socles| - 1].socleId {
      var k :| 0 <= k < |init| && init[k] == s;
      assert socles[k] == s;
    }
  }

  /** One step of the filter: the last dock is kept exactly when its id
      differs. */
  lemma WithoutSocleSnoc(socles: seq<Socle>, socleId: string)
    requires socles != []
    ensures var last := socles[|socles| - 1];
      WithoutSocle(socles, socleId)
        == WithoutSocle(socles[..|socles| - 1], socleId) + (if last.socleId != socleId then [last] else [])
  {
  }

  /** Deleting keeps ids distinct. */
  lemma {:induction false} WithoutSocleDistinct(socles: seq<Socle>, socleId: string)
    requires DistinctSocleIds(socles)
    ensures DistinctSocleIds(WithoutSocle(socles, socleId))
  {
    if socles != [] {
      var init := socles[..|socles| - 1];
      var last := socles[|socles| - 1];
      LastIdIsNew(socles);
      WithoutSocleDistinct(init, socleId);
      WithoutSocleSnoc(socles, socleId);
      if last.socleId != socleId {
        AppendKeepsDistinct(WithoutSocle(init, socleId), last);
      } else {
        assert WithoutSocle(init, socleId) + [] == WithoutSocle(init, socleId);
      }
    }
  }

  /** With distinct ids, deleting removes exactly one dock when the id is
      listed and none otherwise. */
  lemma {:induction false} WithoutSocleLength(socles: seq<Socle>, socleId: string)
    requires DistinctSocleIds(socles)
    ensures |WithoutSocle(socles, socleId)| == if HasSocleId(socles, socleId) then |socles| - 1 else |socles|
  {
    if socles != [] {
      var init := socles[..|socles| - 1];
      var last := socles[|socles| - 1];
      LastIdIsNew(socles);
      WithoutSocleLength(init, socleId);
      WithoutSocleSnoc(socles, socleId);
      assert socles == init + [last];
      if last.socleId != socleId {
        assert HasSocleId(socles, socleId) ==> HasSocleId(init, socleId) by {
          if HasSocleId(socles, socleId) {
            var s :| s in socles && s.socleId == socleId;
            assert s in init;
          }
        }
        assert HasSocleId(init, socleId) ==> HasSocleId(socles, socleId) by {
          if HasSocleId(init, socleId) {
            var s :| s in init && s.socleId == socleId;
            assert s in socles;
          }
        }
      } else {
        assert last in socles;
      }
    }
  }

  /** `{ ...s, [field]: value }`. */
  function SetField(s: Socle, field: SocleField, value: string): Socle {
    match field
    case SocleIdField => s.(socleId := value)
    case CapteurIdField => s.(capteurId := value)
    case StatutField => s.(statut := value)
  }

  /** `socles.map(s => s.socleId === socleId ? { ...s, [field]: value } : s)`. */
  function UpdatedSocles(socles: seq<Socle>, socleId: string, field: SocleField, value: string): (r: seq<Socle>)
    ensures |r| == |socles|
    ensures forall i :: 0 <= i < |r| ==>
      r[i] == if socles[i].socleId == socleId then SetField(socles[i], field, value) else socles[i]
  {
    seq(|socles|, i requires 0 <= i < |socles| =>
      if socles[i].socleId == socleId then SetField(socles[i], field, value) else socles[i])
  }

  /** An edit changes only the named field of the matching docks; it keeps
      the ids distinct unless it renames a dock to an id another dock has. */
  lemma UpdatedSoclesSpec(socles: seq<Socle>, socleId: string, field: SocleField, value: string)
    ensures var r := UpdatedSocles(socles, socleId, field, value);
      forall i :: 0 <= i < |r| ==>
        && (socles[i].socleId != socleId ==> r[i] == socles[i])
        && (field != SocleIdField ==> r[i].socleId == socles[i].socleId)
        && (field != CapteurIdField ==> r[i].capteurId == socles[i].capteurId)
        && (field != StatutField ==> r[i].statut == socles[i].statut)
    ensures DistinctSocleIds(socles) && (field != SocleIdField || value == socleId || !HasSocleId(socles, value))
      ==> DistinctSocleIds(UpdatedSocles(socles, socleId, field, value))
  {
    var r := UpdatedSocles(socles, socleId, field, value);
    if DistinctSocleIds(socles) && (field != SocleIdField || value == socleId || !HasSocleId(socles, value)) {
      forall i, j | 0 <= i < j < |r| ensures r[i].socleId != r[j].socleId {
        if field == SocleIdField && value != socleId {
          assert socles[i] in socles && socles[j] in socles;
        }
      }
    }
  }

  /** Renaming a dock to the id of another dock, which the add handler
      refuses, is accepted by the edit handler. */
  lemma RenameCanDuplicate()
    ensures var socles := [Socle("S1", "C1", "available"), Socle("S2", "C2", "available")];
      DistinctSocleIds(socles) && !DistinctSocleIds(UpdatedSocles(socles, "S1", SocleIdField, "S2"))
  {
    var socles := [Socle("S1", "C1", "available"), Socle("S2", "C2", "available")];
    var r := UpdatedSocles(socles, "S1", SocleIdField, "S2");
    assert r[0].socleId == r[1].socleId;
  }

  // ---------------------------------------------------------------------------
  // The form

  class AddParkingModal {
    var nom: string
    var coordX: string
    var coordY: string
    var ville: string
    var socles: seq<Socle>
    var newSocleId: string
    var newCapteurId: string
    var newSocleStatut: string
    var photo: Option<string>

    /** The form as it opens; `position` holds the clicked point's
        coordinates already written with six decimals. */
    constructor(position: Option<(string, string)>)
      ensures position.Some? ==> coordX == position.value.0 && coordY == position.value.1
      ensures position.None? ==> coordX == "50.357000" && coordY == "3.523000"
      ensures nom == "" && ville == "Chargement..." && socles == []
      ensures newSocleId == "" && newCapteurId == "" && newSocleStatut == "available" && photo == None
      ensures Valid()
    {
      nom := "";
      if position.Some? {
        coordX, coordY := position.value.0, position.value.1;
      } else {
        coordX, coordY := "50.357000", "3.523000";
      }
      ville := "Chargement...";
      socles := [];
      newSocleId, newCapteurId, newSocleStatut := "", "", "available";
      photo := None;
    }

    ghost predicate Valid()
      reads this
    {
      DistinctSocleIds(socles)
    }

    /** The text inputs of the form. */
    method SetNom(v: string)
      modifies this
      ensures nom == v
      ensures coordX == old(coordX) && coordY == old(coordY) && ville == old(ville) && socles == old(socles)
      ensures newSocleId == old(newSocleId) && newCapteurId == old(newCapteurId)
      ensures newSocleStatut == old(newSocleStatut) && photo == old(photo)
    {
      nom := v;
    }

    method SetCoordinates(x: string, y: string)
      modifies this
      ensures coordX == x && coordY == y
      ensures nom == old(nom) && ville == old(ville) && socles == old(socles)
      ensures newSocleId == old(newSocleId) && newCapteurId == old(newCapteurId)
      ensures newSocleStatut == old(newSocleStatut) && photo == old(photo)
    {
      coordX, coordY := x, y;
    }

    method SetNewSocle(socleId: string, capteurId: string, statut: string)
      modifies this
      ensures newSocleId == socleId && newCapteurId == capteurId && newSocleStatut == statut
      ensures nom == old(nom) && coordX == old(coordX) && coordY == old(coordY)
      ensures ville == old(ville) && socles == old(socles) && photo == old(photo)
    {
      newSocleId, newCapteurId, newSocleStatut := socleId, capteurId, statut;
    }

    /** The city shown once the coordinates have been looked up: empty for
        unusable coordinates, otherwise the place the lookup found, or
        "Non spécifiée" when it found none or failed. */
    method ResolveVille(found: Option<string>)
      modifies this
      ensures !CoordinatesValid(old(coordX), old(coordY)) ==> ville == ""
      ensures CoordinatesValid(old(coordX), old(coordY)) && found.Some? && found.value != "" ==> ville == found.value
      ensures CoordinatesValid(old(coordX), old(coordY)) && (found.None? || found.value == "") ==> ville == "Non spécifiée"
      ensures nom == old(nom) && coordX == old(coordX) && coordY == old(coordY) && socles == old(socles)
      ensures newSocleId == old(newSocleId) && newCapteurId == old(newCapteurId)
      ensures newSocleStatut == old(newSocleStatut) && photo == old(photo)
    {
      if !CoordinatesValid(coordX, coordY) {
        ville := "";
      } else if found.Some? && found.value != "" {
        ville := found.value;
      } else {
        ville := "Non spécifiée";
      }
    }

    /** `handleAddSocle`: a blank dock id, a blank sensor id or an id already
        listed leaves everything as it was; otherwise the dock is appended
        and the inputs are reset. Distinct ids stay distinct; the
        handler also runs on a list that renaming left with a shared id. */
    method AddSocle() returns (outcome: AddOutcome)
      modifies this
      ensures old(Valid()) ==> Valid()
      ensures outcome == MissingSocleId <==> IsBlank(old(newSocleId))
      ensures outcome == MissingCapteurId <==> !IsBlank(old(newSocleId)) && IsBlank(old(newCapteurId))
      ensures outcome == DuplicateSocleId <==>
        !IsBlank(old(newSocleId)) && !IsBlank(old(newCapteurId)) && HasSocleId(old(socles), old(newSocleId))
      ensures outcome != SocleAdded ==> unchanged(this)
      ensures outcome == SocleAdded ==>
        && socles == old(socles) + [Socle(old(newSocleId), old(newCapteurId), old(newSocleStatut))]
        && newSocleId == "" && newCapteurId == "" && newSocleStatut == "available"
        && nom == old(nom) && coordX == old(coordX) && coordY == old(coordY)
        && ville == old(ville) && photo == old(photo)
    {
      var id, capteur, statut, current := newSocleId, newCapteurId, newSocleStatut, socles;
      if IsBlank(id) {
        return MissingSocleId;
      }
      if IsBlank(capteur) {
        return MissingCapteurId;
      }
      if exists s :: s in current && s.socleId == id {
        return DuplicateSocleId;
      }
      var added := Socle(id, capteur, statut);
      if DistinctSocleIds(current) {
        AppendKeepsDistinct(current, added);
      }
      var next := current + [added];
      socles := next;
      newSocleId, newCapteurId, newSocleStatut := "", "", "available";
      outcome := SocleAdded;
    }

    /** `handleDeleteSocle`: every dock with that id goes (both of them when
        renaming left the id shared), the others stay in order. */
    method DeleteSocle(socleId: string)
      modifies this
      ensures old(Valid()) ==> Valid()
      ensures socles == WithoutSocle(old(socles), socleId)
      ensures old(Valid()) ==> |socles| == if HasSocleId(old(socles), socleId) then |old(socles)| - 1 else |old(socles)|
      ensures nom == old(nom) && coordX == old(coordX) && coordY == old(coordY) && ville == old(ville)
      ensures newSocleId == old(newSocleId) && newCapteurId == old(newCapteurId)
      ensures newSocleStatut == old(newSocleStatut) && photo == old(photo)
    {
      if DistinctSocleIds(socles) {
        WithoutSocleDistinct(socles, socleId);
        WithoutSocleLength(socles, socleId);
      }
      socles := WithoutSocle(socles, socleId);
    }

    /** `handleUpdateSocle`: the named field of the docks with that id takes
        the new value. */
    method UpdateSocle(socleId: string, field: SocleField, value: string)
      modifies this
      ensures socles == UpdatedSocles(old(socles), socleId, field, value)
      ensures old(Valid()) && (field != SocleIdField || value == socleId || !HasSocleId(old(socles), value)) ==> Valid()
      ensures nom == old(nom) && coordX == old(coordX) && coordY == old(coordY) && ville == old(ville)
      ensures newSocleId == old(newSocleId) && newCapteurId == old(newCapteurId)
      ensures newSocleStatut == old(newSocleStatut) && photo == old(photo)
    {
      UpdatedSoclesSpec(socles, socleId, field, value);
      socles := UpdatedSocles(socles, socleId, field, value);
    }

    /** `handleValidate`: a blank name or unusable coordinates refuse the
        form; otherwise the parking is handed over with the coordinates as
        numbers. */
    method Validate() returns (outcome: ValidateOutcome)
      ensures outcome == MissingName <==> IsBlank(nom)
      ensures outcome == InvalidCoordinates <==> !IsBlank(nom) && !CoordinatesValid(coordX, coordY)
      ensures outcome.Submitted? <==> !IsBlank(nom) && CoordinatesValid(coordX, coordY)
      ensures outcome.Submitted? ==>
        outcome.parking == NewParking(nom, ParseFloat(coordX).value, ParseFloat(coordY).value, ville, socles, photo)
    {
      if IsBlank(nom) {
        return MissingName;
      }
      if coordX == "" || coordY == "" || ParseFloat(coordX).None? || ParseFloat(coordY).None? {
        return InvalidCoordinates;
      }
      outcome := Submitted(NewParking(nom, ParseFloat(coordX).value, ParseFloat(coordY).value, ville, socles, photo));
    }
  }
}

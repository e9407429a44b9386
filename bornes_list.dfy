/** The borne list page (src/pages/BornesList.jsx): the bornes that match the
    search text, the status filter and the city filter, and the list of
    cities offered by the city filter. */
module BornesList {
  import opened Common
  import opened JsText
  import opened MockData

  /** The search text occurs, ignoring case, in the borne's id or in its
      parking's name. */
  predicate MatchesSearch(b: BorneRow, searchTerm: string) {
    Includes(ToLower(b.id), ToLower(searchTerm)) || Includes(ToLower(b.parkingNom), ToLower(searchTerm))
  }

  /** The three criteria of the list; "all" switches a filter off. */
  predicate Matches(b: BorneRow, searchTerm: string, statusFilter: string, cityFilter: string) {
    && MatchesSearch(b, searchTerm)
    && (statusFilter == "all" || b.statut == statusFilter)
    && (cityFilter == "all" || b.ville == cityFilter)
  }

  function Criteria(searchTerm: string, statusFilter: string, cityFilter: string): BorneRow -> bool {
    (b: BorneRow) => Matches(b, searchTerm, statusFilter, cityFilter)
  }

  /** `allBornes.filter(...)`: the bornes matching all three criteria. */
  function FilteredBornes(allBornes: seq<BorneRow>, searchTerm: string, statusFilter: string, cityFilter: string)
    : (r: seq<BorneRow>)
    ensures |r| <= |allBornes|
    ensures forall b :: b in r <==> b in allBornes && Matches(b, searchTerm, statusFilter, cityFilter)
  {
    Filter(allBornes, Criteria(searchTerm, statusFilter, cityFilter))
  }

  /** The shown bornes keep the list's order: filtering a list is filtering
      its parts. */
  lemma FilteredKeepsOrder(a: seq<BorneRow>, b: seq<BorneRow>, searchTerm: string, statusFilter: string, cityFilter: string)
    ensures FilteredBornes(a + b, searchTerm, statusFilter, cityFilter)
      == FilteredBornes(a, searchTerm, statusFilter, cityFilter) + FilteredBornes(b, searchTerm, statusFilter, cityFilter)
  {
    FilterConcat(a, b, Criteria(searchTerm, statusFilter, cityFilter));
  }

  /** With no search text and both filters on "all", every borne is shown. */
  lemma NoCriteriaShowsAll(allBornes: seq<BorneRow>)
    ensures FilteredBornes(allBornes, "", "all", "all") == allBornes
  {
    forall b | b in allBornes ensures Matches(b, "", "all", "all") {
      IncludesEmptyAndSelf(ToLower(b.id));
    }
    FilterKeepsAll(allBornes, Criteria("", "all", "all"));
  }

  /** A status or city filter other than "all" shows only bornes with exactly
      that status or city, and every such borne that matches the search. */
  lemma FiltersAreExact(allBornes: seq<BorneRow>, searchTerm: string, statusFilter: string, cityFilter: string)
    ensures var r := FilteredBornes(allBornes, searchTerm, statusFilter, cityFilter);
      && (statusFilter != "all" ==> forall b :: b in r ==> b.statut == statusFilter)
      && (cityFilter != "all" ==> forall b :: b in r ==> b.ville == cityFilter)
      && forall b ::
           (b in allBornes && MatchesSearch(b, searchTerm)
            && (statusFilter == "all" || b.statut == statusFilter)
            && (cityFilter == "all" || b.ville == cityFilter)) ==> b in r
  {
  }

  /** The search ignores case: a term and its lower-cased form select the
      same bornes. */
  lemma SearchIgnoresCase(b: BorneRow, searchTerm: string)
    ensures MatchesSearch(b, searchTerm) <==> MatchesSearch(b, ToLower(searchTerm))
  {
    ToLowerIdempotent(searchTerm);
  }

  function Villes(allBornes: seq<BorneRow>): (r: seq<string>)
    ensures |r| == |allBornes|
    ensures forall i :: 0 <= i < |r| ==> r[i] == allBornes[i].ville
  {
    seq(|allBornes|, i requires 0 <= i < |allBornes| => allBornes[i].ville)
  }

  /** `[...new Set(allBornes.map(b => b.ville))]`. */
  function AvailableCities(allBornes: seq<BorneRow>): (r: seq<string>)
    ensures Distinct(r)
    ensures forall c :: c in r <==> exists b :: b in allBornes && b.ville == c
    ensures forall c :: c in r <==> c in Villes(allBornes)
    ensures forall i, j :: 0 <= i < j < |r| ==>
      FirstIndex(Villes(allBornes), r[i]) < FirstIndex(Villes(allBornes), r[j])
  {
    var vs := Villes(allBornes);
    assert forall c :: c in vs <==> exists b :: b in allBornes && b.ville == c by {
      forall c ensures c in vs <==> exists b :: b in allBornes && b.ville == c {
        if exists b :: b in allBornes && b.ville == c {
          var b :| b in allBornes && b.ville == c;
          var i :| 0 <= i < |allBornes| && allBornes[i] == b;
          assert vs[i] == c;
        }
      }
    }
    DedupFirstSeen(vs);
    Dedup(vs)
  }

  /** Every shown borne's city is one the city filter offers. */
  lemma ShownCitiesAreOffered(allBornes: seq<BorneRow>, searchTerm: string, statusFilter: string, cityFilter: string)
    ensures forall b :: b in FilteredBornes(allBornes, searchTerm, statusFilter, cityFilter) ==> b.ville in AvailableCities(allBornes)
  {
  }
}

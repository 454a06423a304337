/**
 * The Parking Spots page (client/src/pages/dashboard/ParkingSpots.js): a
 * searchable, paginated table of spots with an add/edit dialog.
 */
module ParkingSpots {
  import opened Wrappers
  import opened Text
  import opened Listing

  /** A spot as the table reads it from the server. */
  datatype Spot = Spot(id: string, spotNumber: string, floor: string, status: string, spotType: string, vehicle: string)

  /** The search test of `filteredSpots`: folded spot number or folded floor contains the folded term. */
  predicate SpotMatches(spot: Spot, term: string): (b: bool)
    ensures b <==> Occurs(Lower(spot.spotNumber), Lower(term)) || Occurs(Lower(spot.floor), Lower(term))
  {
    Includes(Lower(spot.spotNumber), Lower(term)) || Includes(Lower(spot.floor), Lower(term))
  }

  /** `filteredSpots`. */
  function FilteredSpots(spots: seq<Spot>, term: string): (r: seq<Spot>)
    ensures |r| <= |spots|
    ensures forall i :: 0 <= i < |r| ==> SpotMatches(r[i], term)
  {
    Filter(spots, (s: Spot) => SpotMatches(s, term))
  }

  /** A spot is listed after filtering iff it is listed before and passes the search. */
  lemma FilteredSpotsMembers(spots: seq<Spot>, term: string)
    ensures forall s :: s in FilteredSpots(spots, term) <==> s in spots && SpotMatches(s, term)
  {
    FilterMembers(spots, (s: Spot) => SpotMatches(s, term));
  }

  /**
   * A spot is kept iff the folded search term occurs in its folded spot
   * number or its folded floor; it is kept as many times as it is listed,
   * and the kept spots stay in their order.
   */
  lemma FilteredSpotsSpec(spots: seq<Spot>, term: string, s: Spot)
    ensures IsSubsequence(FilteredSpots(spots, term), spots)
    ensures SpotMatches(s, term) <==> Occurs(Lower(s.spotNumber), Lower(term)) || Occurs(Lower(s.floor), Lower(term))
    ensures multiset(FilteredSpots(spots, term))[s] == if SpotMatches(s, term) then multiset(spots)[s] else 0
  {
    FilterIsSubsequence(spots, (s: Spot) => SpotMatches(s, term));
    FilterCounts(spots, (s: Spot) => SpotMatches(s, term), s);
  }

  /** An empty search box shows every spot. */
  lemma EmptySearchKeepsAllSpots(spots: seq<Spot>)
    ensures FilteredSpots(spots, "") == spots
  {
    forall i | 0 <= i < |spots|
      ensures SpotMatches(spots[i], "")
    {
      EmptyIncluded(Lower(spots[i].spotNumber));
    }
    FilterKeepsAll(spots, (s: Spot) => SpotMatches(s, ""));
  }

  const Statuses: set<string> := {"available", "occupied", "reserved", "maintenance"}
  const SpotTypes: set<string> := {"regular", "disabled", "electric", "vip"}

  /** `getStatusColor`: one colour per spot status, `default` for anything else. */
  function StatusColor(status: string): (c: Color)
    ensures c == Success <==> status == "available"
    ensures c == Error <==> status == "occupied"
    ensures c == Warning <==> status == "reserved"
    ensures c == Info <==> status == "maintenance"
    ensures c == Default <==> status !in Statuses
  {
    if status == "available" then Success
    else if status == "occupied" then Error
    else if status == "reserved" then Warning
    else if status == "maintenance" then Info
    else Default
  }

  /**
   * `getTypeColor`: one colour per spot type, `default` for anything else.
   * ParkingHistory.js has the identical table for a record's `spotType`.
   */
  function TypeColor(spotType: string): (c: Color)
    ensures c == Primary <==> spotType == "regular"
    ensures c == Secondary <==> spotType == "disabled"
    ensures c == Success <==> spotType == "electric"
    ensures c == Warning <==> spotType == "vip"
    ensures c == Default <==> spotType !in SpotTypes
  {
    if spotType == "regular" then Primary
    else if spotType == "disabled" then Secondary
    else if spotType == "electric" then Success
    else if spotType == "vip" then Warning
    else Default
  }

  /** The empty form `handleOpenDialog()` opens for a new spot. */
  function NewSpotForm(): (f: Form)
    ensures f.Keys == {"spotNumber", "floor", "status", "type"}
    ensures f["spotNumber"] == "" && f["floor"] == ""
    ensures f["status"] == "available" && f["type"] == "regular"
    ensures !HasId(f)
  {
    map["spotNumber" := "", "floor" := "", "status" := "available", "type" := "regular"]
  }

  /** The form `handleOpenDialog(spot)` opens for an existing spot: the spot's own fields. */
  function SpotForm(spot: Spot): (f: Form)
    ensures f.Keys == {"_id", "spotNumber", "floor", "status", "type", "vehicle"}
    ensures f["_id"] == spot.id && f["spotNumber"] == spot.spotNumber && f["floor"] == spot.floor
    ensures f["status"] == spot.status && f["type"] == spot.spotType && f["vehicle"] == spot.vehicle
  {
    map["_id" := spot.id, "spotNumber" := spot.spotNumber, "floor" := spot.floor,
        "status" := spot.status, "type" := spot.spotType, "vehicle" := spot.vehicle]
  }

  /** Submitting a freshly opened dialog adds a spot; an edited spot with an id is updated. */
  lemma SubmitAfterOpen(spot: Option<Spot>)
    ensures spot.None? ==> SubmitChoice(Some(NewSpotForm())) == AddRecord(NewSpotForm())
    ensures spot.Some? && spot.value.id != "" ==>
      SubmitChoice(Some(SpotForm(spot.value))) == UpdateRecord(spot.value.id, SpotForm(spot.value))
  {
  }

  /** Every row of any page of the filtered list is a listed spot that passes the search. */
  lemma VisibleSpots(spots: seq<Spot>, term: string, page: nat, rowsPerPage: nat)
    ensures forall s :: s in Page(FilteredSpots(spots, term), page, rowsPerPage) ==> s in spots && SpotMatches(s, term)
  {
    PageRowsAreRows(FilteredSpots(spots, term), page, rowsPerPage);
    FilteredSpotsMembers(spots, term);
  }

  /** The page's `useState` fields. */
  class SpotsPage {
    var spots: seq<Spot>
    var openDialog: bool
    var currentSpot: Option<Form>
    var searchTerm: string
    var page: nat
    var rowsPerPage: nat

    constructor ()
      ensures spots == [] && !openDialog && currentSpot == None
      ensures searchTerm == "" && page == 0 && rowsPerPage == 5
    {
      spots := [];
      openDialog := false;
      currentSpot := None;
      searchTerm := "";
      page := 0;
      rowsPerPage := 5;
    }

    /** The spots the search keeps. */
    function Filtered(): seq<Spot>
      reads this
    {
      FilteredSpots(spots, searchTerm)
    }

    /** The rows the table body shows: at most `rowsPerPage` of them, each a listed spot that passes the search. */
    function Visible(): (r: seq<Spot>)
      reads this
      ensures |r| <= rowsPerPage
      ensures forall s :: s in r ==> s in spots && SpotMatches(s, searchTerm)
    {
      VisibleSpots(spots, searchTerm, page, rowsPerPage);
      Page(Filtered(), page, rowsPerPage)
    }

    /** `handleOpenDialog(spot)`: the spot's fields, or the defaults for a new spot. */
    method HandleOpenDialog(spot: Option<Spot>)
      modifies this`currentSpot, this`openDialog
      ensures currentSpot == Some(if spot.Some? then SpotForm(spot.value) else NewSpotForm())
      ensures openDialog
    {
      match spot {
        case Some(s) => currentSpot := Some(SpotForm(s));
        case None => currentSpot := Some(NewSpotForm());
      }
      openDialog := true;
    }

    /** `handleCloseDialog`. */
    method HandleCloseDialog()
      modifies this`openDialog
      ensures !openDialog
    {
      openDialog := false;
    }

    /** `handleChange`: only the named field of the current spot changes. */
    method HandleChange(name: string, value: string)
      modifies this`currentSpot
      ensures currentSpot == Some(SetFieldOf(old(currentSpot), name, value))
    {
      currentSpot := Some(SetFieldOf(currentSpot, name, value));
    }

    /**
     * `handleSubmit`: returns the service call it makes; when that call
     * succeeds (`saved`) the dialog closes. Reloading the list is not modelled.
     */
    method HandleSubmit(saved: bool) returns (call: Save)
      modifies this`openDialog
      ensures call == SubmitChoice(old(currentSpot))
      ensures openDialog == (old(openDialog) && !(saved && !call.NoRecord?))
    {
      match currentSpot {
        case None => call := NoRecord;
        case Some(f) =>
          if HasId(f) {
            call := UpdateRecord(f["_id"], f);
          } else {
            call := AddRecord(f);
          }
          if saved {
            openDialog := false;
          }
      }
    }

    /** `handleSearchChange`: a new term always starts from the first page. */
    method HandleSearchChange(term: string)
      modifies this`searchTerm, this`page
      ensures searchTerm == term && page == 0
    {
      searchTerm := term;
      page := 0;
    }

    /** `handleChangePage`. */
    method HandleChangePage(newPage: nat)
      modifies this`page
      ensures page == newPage
    {
      page := newPage;
    }

    /** `handleChangeRowsPerPage`, with the value already parsed as a base-10 integer. */
    method HandleChangeRowsPerPage(value: nat)
      modifies this`rowsPerPage, this`page
      ensures rowsPerPage == value && page == 0
    {
      rowsPerPage := value;
      page := 0;
    }
  }
}

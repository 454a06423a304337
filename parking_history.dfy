/**
 * The Parking History page (client/src/pages/dashboard/ParkingHistory.js): a
 * searchable, filterable, paginated table of past and ongoing parkings.
 */
module ParkingHistory {
  import opened Wrappers
  import opened Text
  import opened Listing

  /** A history record as the table reads it (times, duration and amount are only displayed). */
  datatype HistoryRecord = HistoryRecord(id: string, vehiclePlate: string, spotNumber: string, spotType: string, status: string)

  /** The `filters` state: keys `status`, `type` and `dateRange`, each `'all'` at first. */
  function InitialFilters(): (f: Form)
    ensures f.Keys == {"status", "type", "dateRange"}
    ensures forall k :: k in f ==> f[k] == "all"
  {
    map["status" := "all", "type" := "all", "dateRange" := "all"]
  }

  /** `matchesSearch`: folded vehicle plate or folded spot number contains the folded term. */
  predicate MatchesSearch(record: HistoryRecord, term: string): (b: bool)
    ensures b <==> Occurs(Lower(record.vehiclePlate), Lower(term)) || Occurs(Lower(record.spotNumber), Lower(term))
  {
    Includes(Lower(record.vehiclePlate), Lower(term)) || Includes(Lower(record.spotNumber), Lower(term))
  }

  /** `filters[key] === 'all' || field === filters[key]`; a missing key reads `undefined` and matches nothing. */
  predicate MatchesChoice(filters: Form, key: string, field: string): (b: bool)
    ensures b <==> key in filters && (filters[key] == "all" || filters[key] == field)
  {
    Get(filters, key) == Some("all") || Get(filters, key) == Some(field)
  }

  /** The test of `filteredHistory`; `matchesDateRange` is the constant `true`. */
  predicate HistoryMatches(record: HistoryRecord, term: string, filters: Form): (b: bool)
    ensures b <==>
      && (Occurs(Lower(record.vehiclePlate), Lower(term)) || Occurs(Lower(record.spotNumber), Lower(term)))
      && "status" in filters && (filters["status"] == "all" || filters["status"] == record.status)
      && "type" in filters && (filters["type"] == "all" || filters["type"] == record.spotType)
  {
    && MatchesSearch(record, term)
    && MatchesChoice(filters, "status", record.status)
    && MatchesChoice(filters, "type", record.spotType)
  }

  /** `filteredHistory`. */
  function FilteredHistory(history: seq<HistoryRecord>, term: string, filters: Form): (r: seq<HistoryRecord>)
    ensures |r| <= |history|
    ensures forall i :: 0 <= i < |r| ==> HistoryMatches(r[i], term, filters)
    ensures "status" !in filters || "type" !in filters ==> r == []
  {
    var kept := Filter(history, (r: HistoryRecord) => HistoryMatches(r, term, filters));
    assert kept != [] ==> HistoryMatches(kept[0], term, filters);
    kept
  }

  /**
   * A record is kept iff the folded term occurs in its folded plate or spot
   * number, its status equals the status filter unless that is `'all'`, and
   * its spot type equals the type filter unless that is `'all'`; it is kept
   * as often as it is listed, and the kept records stay in order.
   */
  lemma FilteredHistorySpec(history: seq<HistoryRecord>, term: string, filters: Form, r: HistoryRecord)
    requires "status" in filters && "type" in filters
    ensures IsSubsequence(FilteredHistory(history, term, filters), history)
    ensures HistoryMatches(r, term, filters) <==>
      && (Occurs(Lower(r.vehiclePlate), Lower(term)) || Occurs(Lower(r.spotNumber), Lower(term)))
      && (filters["status"] == "all" || r.status == filters["status"])
      && (filters["type"] == "all" || r.spotType == filters["type"])
    ensures multiset(FilteredHistory(history, term, filters))[r] ==
      if HistoryMatches(r, term, filters) then multiset(history)[r] else 0
  {
    var keep := (x: HistoryRecord) => HistoryMatches(x, term, filters);
    FilterIsSubsequence(history, keep);
    FilterCounts(history, keep, r);
  }

  /** With both choice filters at `'all'`, the list is filtered by the search alone. */
  lemma AllImposesNothing(history: seq<HistoryRecord>, term: string, filters: Form)
    requires Get(filters, "status") == Some("all") && Get(filters, "type") == Some("all")
    ensures FilteredHistory(history, term, filters) == Filter(history, (r: HistoryRecord) => MatchesSearch(r, term))
  {
    FilterCongruent(history, (r: HistoryRecord) => HistoryMatches(r, term, filters), (r: HistoryRecord) => MatchesSearch(r, term));
  }

  /** The `dateRange` filter never changes which records are shown. */
  lemma DateRangeIgnored(history: seq<HistoryRecord>, term: string, filters: Form, range: string)
    ensures FilteredHistory(history, term, SetField(filters, "dateRange", range)) == FilteredHistory(history, term, filters)
  {
    var g := SetField(filters, "dateRange", range);
    assert Get(g, "status") == Get(filters, "status") && Get(g, "type") == Get(filters, "type");
    FilterCongruent(history, (r: HistoryRecord) => HistoryMatches(r, term, g), (r: HistoryRecord) => HistoryMatches(r, term, filters));
  }

  /** A record is listed after filtering iff it is listed before and passes the test. */
  lemma FilteredHistoryMembers(history: seq<HistoryRecord>, term: string, filters: Form)
    ensures forall r :: r in FilteredHistory(history, term, filters) <==> r in history && HistoryMatches(r, term, filters)
  {
    FilterMembers(history, (r: HistoryRecord) => HistoryMatches(r, term, filters));
  }

  /** Every row of any page of the filtered list is a listed record that passes the test. */
  lemma VisibleHistory(history: seq<HistoryRecord>, term: string, filters: Form, page: nat, rowsPerPage: nat)
    ensures forall r :: r in Page(FilteredHistory(history, term, filters), page, rowsPerPage) ==>
      r in history && HistoryMatches(r, term, filters)
  {
    PageRowsAreRows(FilteredHistory(history, term, filters), page, rowsPerPage);
    FilteredHistoryMembers(history, term, filters);
  }

  const Statuses: set<string> := {"completed", "ongoing", "cancelled"}

  /**
   * `getStatusColor` of a history record. The page's `getTypeColor` is the
   * same table as the spot page's, modelled once as `ParkingSpots.TypeColor`.
   */
  function StatusColor(status: string): (c: Color)
    ensures c == Success <==> status == "completed"
    ensures c == Primary <==> status == "ongoing"
    ensures c == Error <==> status == "cancelled"
    ensures c == Default <==> status !in Statuses
    ensures c != Secondary && c != Info && c != Warning
  {
    if status == "completed" then Success
    else if status == "ongoing" then Primary
    else if status == "cancelled" then Error
    else Default
  }

  /** The page's `useState` fields. */
  class HistoryPage {
    var history: seq<HistoryRecord>
    var searchTerm: string
    var page: nat
    var rowsPerPage: nat
    var filterMenuOpen: bool
    var filters: Form

    constructor ()
      ensures history == [] && searchTerm == "" && page == 0 && rowsPerPage == 10
      ensures !filterMenuOpen && filters == InitialFilters()
      ensures Valid()
    {
      history := [];
      searchTerm := "";
      page := 0;
      rowsPerPage := 10;
      filterMenuOpen := false;
      filters := InitialFilters();
    }

    /** The filters always hold the `status` and `type` keys the table tests. */
    ghost predicate Valid()
      reads this`filters
    {
      "status" in filters && "type" in filters
    }

    /** `FilteredHistorySpec` for the page's own state: the shown list is the search-and-filter selection. */
    lemma FilteredSpec(r: HistoryRecord)
      requires Valid()
      ensures IsSubsequence(Filtered(), history)
      ensures r in Filtered() <==>
        && r in history
        && (Occurs(Lower(r.vehiclePlate), Lower(searchTerm)) || Occurs(Lower(r.spotNumber), Lower(searchTerm)))
        && (filters["status"] == "all" || r.status == filters["status"])
        && (filters["type"] == "all" || r.spotType == filters["type"])
      ensures multiset(Filtered())[r] ==
        if HistoryMatches(r, searchTerm, filters) then multiset(history)[r] else 0
    {
      FilteredHistorySpec(history, searchTerm, filters, r);
      FilteredHistoryMembers(history, searchTerm, filters);
    }

    function Filtered(): seq<HistoryRecord>
      reads this
    {
      FilteredHistory(history, searchTerm, filters)
    }

    /** The rows the table body shows: at most `rowsPerPage`, each a listed record that passes every filter. */
    function Visible(): (r: seq<HistoryRecord>)
      reads this
      ensures |r| <= rowsPerPage
      ensures forall x :: x in r ==> x in history && HistoryMatches(x, searchTerm, filters)
    {
      VisibleHistory(history, searchTerm, filters, page, rowsPerPage);
      Page(Filtered(), page, rowsPerPage)
    }

    /** `handleSearchChange`. */
    method HandleSearchChange(term: string)
      modifies this`searchTerm, this`page
      ensures searchTerm == term && page == 0
    {
      searchTerm := term;
      page := 0;
    }

    /** `handleChangePage`. */
    method HandleChangePage(newPage: nat)
      modifies this`page
      ensures page == newPage
    {
      page := newPage;
    }

    /** `handleChangeRowsPerPage`, with the value already parsed as a base-10 integer. */
    method HandleChangeRowsPerPage(value: nat)
      modifies this`rowsPerPage, this`page
      ensures rowsPerPage == value && page == 0
    {
      rowsPerPage := value;
      page := 0;
    }

    /** `handleFilterClick` / `handleFilterClose`: whether the filter menu has an anchor. */
    method HandleFilterMenu(open: bool)
      modifies this`filterMenuOpen
      ensures filterMenuOpen == open
    {
      filterMenuOpen := open;
    }

    /** `handleFilterChange`: only the named filter changes, and the table returns to the first page. */
    method HandleFilterChange(name: string, value: string)
      requires Valid()
      modifies this`filters, this`page
      ensures filters == SetField(old(filters), name, value)
      ensures page == 0
      ensures Valid()
    {
      filters := SetField(filters, name, value);
      page := 0;
    }
  }
}

/**
 * What the three dashboard tables share: `Array.prototype.filter`, the
 * `slice(page * rowsPerPage, page * rowsPerPage + rowsPerPage)` that picks the
 * visible page, the MUI chip colours, form records updated with
 * `{...form, [name]: value}`, and the add-or-update choice made on submit.
 */
module Listing {
  import opened Wrappers

  // ---------------------------------------------------------------- filter

  /** `s.filter(keep)`: the elements that pass, in their original order. */
  function Filter<T>(s: seq<T>, keep: T -> bool): (r: seq<T>)
    ensures |r| <= |s|
    ensures forall i :: 0 <= i < |r| ==> keep(r[i])
  {
    if s == [] then []
    else (if keep(s[0]) then [s[0]] else []) + Filter(s[1..], keep)
  }

  /** `idx` lists, in strictly increasing order, positions of `s` that spell out `r`. */
  ghost predicate Embeds<T>(idx: seq<nat>, r: seq<T>, s: seq<T>) {
    && |idx| == |r|
    && (forall k :: 0 <= k < |idx| ==> idx[k] < |s| && r[k] == s[idx[k]])
    && (forall k, l :: 0 <= k < l < |idx| ==> idx[k] < idx[l])
  }

  /** `r` is an order-preserving subsequence of `s`. */
  ghost predicate IsSubsequence<T>(r: seq<T>, s: seq<T>) {
    exists idx :: Embeds(idx, r, s)
  }

  /** Every position moved one place to the right. */
  function Shift(idx: seq<nat>): (r: seq<nat>)
    ensures |r| == |idx|
    ensures forall k :: 0 <= k < |idx| ==> r[k] == idx[k] + 1
  {
    seq(|idx|, k requires 0 <= k < |idx| => idx[k] + 1)
  }

  /** Positions in the tail of `s` are positions in `s`, one further on. */
  lemma EmbedsInTail<T>(idx: seq<nat>, r: seq<T>, s: seq<T>)
    requires s != [] && Embeds(idx, r, s[1..])
    ensures Embeds(Shift(idx), r, s)
  {
  }

  /** Taking the head of `s` as well puts position 0 in front. */
  lemma EmbedsWithHead<T>(idx: seq<nat>, r: seq<T>, s: seq<T>)
    requires s != [] && Embeds(idx, r, s[1..])
    ensures Embeds([0] + Shift(idx), [s[0]] + r, s)
  {
    EmbedsInTail(idx, r, s);
  }

  /** The positions of `s` that `Filter` keeps. */
  lemma {:induction false} FilterPositions<T>(s: seq<T>, keep: T -> bool) returns (idx: seq<nat>)
    ensures Embeds(idx, Filter(s, keep), s)
  {
    if s == [] {
      idx := [];
    } else {
      var rest := FilterPositions(s[1..], keep);
      var tail := Filter(s[1..], keep);
      if keep(s[0]) {
        EmbedsWithHead(rest, tail, s);
        idx := [0] + Shift(rest);
        assert Filter(s, keep) == [s[0]] + tail;
      } else {
        EmbedsInTail(rest, tail, s);
        idx := Shift(rest);
        assert Filter(s, keep) == tail;
      }
    }
  }

  /** The filtered list is an order-preserving subsequence of the list. */
  lemma FilterIsSubsequence<T>(s: seq<T>, keep: T -> bool)
    ensures IsSubsequence(Filter(s, keep), s)
  {
    var idx := FilterPositions(s, keep);
  }

  /** Each value occurs in the filtered list as often as in the list if it passes, and not at all otherwise. */
  lemma {:induction false} FilterCounts<T>(s: seq<T>, keep: T -> bool, x: T)
    ensures multiset(Filter(s, keep))[x] == if keep(x) then multiset(s)[x] else 0
  {
    if s != [] {
      FilterCounts(s[1..], keep, x);
      assert s == [s[0]] + s[1..];
      assert multiset(s) == multiset([s[0]]) + multiset(s[1..]);
    }
  }

  /** Membership: a value is in the filtered list iff it is in the list and passes. */
  lemma FilterMembers<T>(s: seq<T>, keep: T -> bool)
    ensures forall x :: x in Filter(s, keep) <==> x in s && keep(x)
  {
    forall x
      ensures x in Filter(s, keep) <==> x in s && keep(x)
    {
      FilterCounts(s, keep, x);
    }
  }

  /** When every element passes, filtering changes nothing. */
  lemma {:induction false} FilterKeepsAll<T>(s: seq<T>, keep: T -> bool)
    requires forall i :: 0 <= i < |s| ==> keep(s[i])
    ensures Filter(s, keep) == s
  {
    if s != [] {
      FilterKeepsAll(s[1..], keep);
      assert s == [s[0]] + s[1..];
    }
  }

  /** Two tests that agree on every element select the same list. */
  lemma {:induction false} FilterCongruent<T>(s: seq<T>, p: T -> bool, q: T -> bool)
    requires forall i :: 0 <= i < |s| ==> p(s[i]) == q(s[i])
    ensures Filter(s, p) == Filter(s, q)
  {
    if s != [] {
      FilterCongruent(s[1..], p, q);
    }
  }

  // ---------------------------------------------------------------- paging

  function Min(a: int, b: int): int {
    if a <= b then a else b
  }

  /** `rows.slice(start, start + len)`, with JavaScript's clamping of both ends to the length. */
  function Window<T>(rows: seq<T>, start: nat, len: nat): (r: seq<T>)
    ensures |r| <= len
    ensures |r| == if start < |rows| then Min(len, |rows| - start) else 0
    ensures forall i :: 0 <= i < |r| ==> start + i < |rows| && r[i] == rows[start + i]
  {
    rows[Min(start, |rows|)..Min(start + len, |rows|)]
  }

  /** `rows.slice(page * rowsPerPage, page * rowsPerPage + rowsPerPage)`. */
  function Page<T>(rows: seq<T>, page: nat, rowsPerPage: nat): (r: seq<T>)
    ensures |r| <= rowsPerPage
    ensures |r| == if page * rowsPerPage < |rows| then Min(rowsPerPage, |rows| - page * rowsPerPage) else 0
    ensures forall i :: 0 <= i < |r| ==> page * rowsPerPage + i < |rows| && r[i] == rows[page * rowsPerPage + i]
  {
    Window(rows, page * rowsPerPage, rowsPerPage)
  }

  /** Every row shown on a page is one of the rows. */
  lemma PageRowsAreRows<T>(rows: seq<T>, page: nat, rowsPerPage: nat)
    ensures forall x :: x in Page(rows, page, rowsPerPage) ==> x in rows
  {
    var r := Page(rows, page, rowsPerPage);
    forall x | x in r
      ensures x in rows
    {
      var i :| 0 <= i < |r| && r[i] == x;
      assert rows[page * rowsPerPage + i] == x;
    }
  }

  /** Row `k` is shown on page `k / rowsPerPage`, at position `k % rowsPerPage`. */
  lemma RowOnItsPage<T>(rows: seq<T>, rowsPerPage: nat, k: nat)
    requires rowsPerPage > 0 && k < |rows|
    ensures var p := Page(rows, k / rowsPerPage, rowsPerPage);
            k % rowsPerPage < |p| && p[k % rowsPerPage] == rows[k]
  {
    var q, m := k / rowsPerPage, k % rowsPerPage;
    assert q * rowsPerPage + m == k;
  }

  /** The first `n` pages, one after another (page `p` is `Page(rows, p, rowsPerPage)`). */
  function Pages<T>(rows: seq<T>, rowsPerPage: nat, n: nat): seq<T> {
    if n == 0 then [] else Pages(rows, rowsPerPage, n - 1) + Page(rows, n - 1, rowsPerPage)
  }

  /** One more page starts where the previous pages end. */
  lemma NextPageStart(n: nat, rowsPerPage: nat)
    requires n > 0
    ensures n * rowsPerPage == (n - 1) * rowsPerPage + rowsPerPage
  {
  }

  /** Pages 0 .. n-1 together show exactly the first `n * rowsPerPage` rows: no row twice, none skipped. */
  lemma {:induction false} PagesArePrefix<T>(rows: seq<T>, rowsPerPage: nat, n: nat)
    ensures Pages(rows, rowsPerPage, n) == rows[..Min(n * rowsPerPage, |rows|)]
  {
    if n == 0 {
      assert n * rowsPerPage == 0;
    } else {
      var m := n - 1;
      var first, next := m * rowsPerPage, n * rowsPerPage;
      PagesArePrefix(rows, rowsPerPage, m);
      NextPageStart(n, rowsPerPage);
      assert Page(rows, m, rowsPerPage) == Window(rows, first, rowsPerPage);
      ExtendByWindow(rows, Pages(rows, rowsPerPage, m), first, rowsPerPage, next);
    }
  }

  /** A prefix that ends where a window starts, extended by that window, is the prefix up to the window's end. */
  lemma ExtendByWindow<T>(rows: seq<T>, shown: seq<T>, start: nat, len: nat, end: nat)
    requires shown == rows[..Min(start, |rows|)] && end == start + len
    ensures shown + Window(rows, start, len) == rows[..Min(end, |rows|)]
  {
    var a, b := Min(start, |rows|), Min(end, |rows|);
    assert rows[..a] + rows[a..b] == rows[..b];
  }

  // ---------------------------------------------------------------- chips

  /** The `color` values of the MUI `Chip`s the tables draw. */
  datatype Color = Default | Primary | Secondary | Success | Error | Info | Warning

  // ---------------------------------------------------------------- forms

  /** A dialog's form object: field name to field value. */
  type Form = map<string, string>

  /** `form[name]`, `None` where JavaScript reads `undefined`. */
  function Get(form: Form, name: string): (v: Option<string>)
    ensures v.Some? <==> name in form
    ensures v.Some? ==> v.value == form[name]
  {
    if name in form then Some(form[name]) else None
  }

  /** `{...form, [name]: value}`: the named field is set, every other field is kept. */
  function SetField(form: Form, name: string, value: string): (r: Form)
    ensures r.Keys == form.Keys + {name}
    ensures r[name] == value
    ensures forall k :: k in form && k != name ==> r[k] == form[k]
  {
    form[name := value]
  }

  /** `{...null, [name]: value}` when the form is still `null`. */
  function SetFieldOf(form: Option<Form>, name: string, value: string): (r: Form)
    ensures form.None? ==> r == map[name := value]
    ensures form.Some? ==> r.Keys == form.value.Keys + {name}
    ensures r[name] == value
    ensures forall k :: form.Some? && k in form.value && k != name ==> r[k] == form.value[k]
  {
    SetField(form.GetOr(map[]), name, value)
  }

  /** What a dialog's `handleSubmit` sends to the service. */
  datatype Save =
    | UpdateRecord(id: string, record: Form)   // `update…(current._id, current)`
    | AddRecord(record: Form)                  // `add…(current)`
    | NoRecord                                 // `current` is `null`: reading `._id` throws and the handler logs it

  /** `if (current._id)`: the id is present and not the empty string. */
  predicate HasId(form: Form): (b: bool)
    ensures b <==> Get(form, "_id").Some? && |Get(form, "_id").value| > 0
  {
    match Get(form, "_id")
    case None => false
    case Some(id) => id != ""
  }

  /** Editing any field but `_id` keeps the add-or-update choice the form will make. */
  lemma EditKeepsId(form: Option<Form>, name: string, value: string)
    requires name != "_id"
    ensures HasId(SetFieldOf(form, name, value)) <==> form.Some? && HasId(form.value)
  {
  }

  /** The add-or-update choice of `handleSubmit`. */
  function SubmitChoice(current: Option<Form>): (s: Save)
    ensures s.UpdateRecord? <==> current.Some? && HasId(current.value)
    ensures s.AddRecord? <==> current.Some? && !HasId(current.value)
    ensures s.UpdateRecord? ==> s.id == current.value["_id"] && s.record == current.value
    ensures s.AddRecord? ==> s.record == current.value
  {
    match current
    case None => NoRecord
    case Some(f) => if HasId(f) then UpdateRecord(f["_id"], f) else AddRecord(f)
  }
}

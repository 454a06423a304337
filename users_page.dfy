/**
 * The Users page (client/src/pages/dashboard/Users.js): a searchable,
 * paginated table of accounts with an add/edit dialog.
 */
module Users {
  import opened Wrappers
  import opened Text
  import opened Listing

  /** A user row as the table reads it from the server. */
  datatype UserRow = UserRow(id: string, name: string, email: string, role: string, active: bool)

  /** The search test of `filteredUsers`: folded name or folded email contains the folded term. */
  predicate UserMatches(user: UserRow, term: string): (b: bool)
    ensures b <==> Occurs(Lower(user.name), Lower(term)) || Occurs(Lower(user.email), Lower(term))
  {
    Includes(Lower(user.name), Lower(term)) || Includes(Lower(user.email), Lower(term))
  }

  /** `filteredUsers`. */
  function FilteredUsers(users: seq<UserRow>, term: string): (r: seq<UserRow>)
    ensures |r| <= |users|
    ensures forall i :: 0 <= i < |r| ==> UserMatches(r[i], term)
  {
    Filter(users, (u: UserRow) => UserMatches(u, term))
  }

  /** A user is listed after filtering iff listed before and passing the search. */
  lemma FilteredUsersMembers(users: seq<UserRow>, term: string)
    ensures forall u :: u in FilteredUsers(users, term) <==> u in users && UserMatches(u, term)
  {
    FilterMembers(users, (u: UserRow) => UserMatches(u, term));
  }

  /**
   * A user is kept iff the folded term occurs in the folded name or the
   * folded email, as often as listed, and the kept users stay in order.
   */
  lemma FilteredUsersSpec(users: seq<UserRow>, term: string, u: UserRow)
    ensures IsSubsequence(FilteredUsers(users, term), users)
    ensures UserMatches(u, term) <==> Occurs(Lower(u.name), Lower(term)) || Occurs(Lower(u.email), Lower(term))
    ensures multiset(FilteredUsers(users, term))[u] == if UserMatches(u, term) then multiset(users)[u] else 0
  {
    FilterIsSubsequence(users, (x: UserRow) => UserMatches(x, term));
    FilterCounts(users, (x: UserRow) => UserMatches(x, term), u);
  }

  /** An empty search box shows every user. */
  lemma EmptySearchKeepsAllUsers(users: seq<UserRow>)
    ensures FilteredUsers(users, "") == users
  {
    forall i | 0 <= i < |users|
      ensures UserMatches(users[i], "")
    {
      EmptyIncluded(Lower(users[i].name));
    }
    FilterKeepsAll(users, (u: UserRow) => UserMatches(u, ""));
  }

  /** Every row of any page of the filtered list is a listed user that passes the search. */
  lemma VisibleUsers(users: seq<UserRow>, term: string, page: nat, rowsPerPage: nat)
    ensures forall u :: u in Page(FilteredUsers(users, term), page, rowsPerPage) ==> u in users && UserMatches(u, term)
  {
    PageRowsAreRows(FilteredUsers(users, term), page, rowsPerPage);
    FilteredUsersMembers(users, term);
  }

  /** `getRoleColor`: admins and managers stand out, `'user'` and unknown roles do not. */
  function RoleColor(role: string): (c: Color)
    ensures c == Primary <==> role == "admin"
    ensures c == Secondary <==> role == "manager"
    ensures c == Default <==> role != "admin" && role != "manager"
  {
    if role == "admin" then Primary
    else if role == "manager" then Secondary
    else Default
  }

  /** The empty form `handleOpenDialog()` opens for a new user. */
  function NewUserForm(): (f: Form)
    ensures f.Keys == {"name", "email", "role", "password"}
    ensures f["name"] == "" && f["email"] == "" && f["password"] == ""
    ensures f["role"] == "user"
    ensures !HasId(f)
  {
    map["name" := "", "email" := "", "role" := "user", "password" := ""]
  }

  /** A boolean row field as form text: `"true"` or `"false"`. */
  function FlagText(flag: bool): string {
    if flag then "true" else "false"
  }

  /**
   * The form `handleOpenDialog(user)` opens for an existing user: the row
   * itself, so every field of it, `active` included, goes back in `updateUser`.
   */
  function UserForm(user: UserRow): (f: Form)
    ensures f.Keys == {"_id", "name", "email", "role", "active"}
    ensures f["_id"] == user.id && f["name"] == user.name && f["email"] == user.email && f["role"] == user.role
    ensures f["active"] == "true" <==> user.active
    ensures f["active"] == "false" <==> !user.active
  {
    map["_id" := user.id, "name" := user.name, "email" := user.email, "role" := user.role, "active" := FlagText(user.active)]
  }

  /** Two rows open the same form only if they are the same row: the form carries the whole row. */
  lemma UserFormKeepsRow(a: UserRow, b: UserRow)
    requires UserForm(a) == UserForm(b)
    ensures a == b
  {
    var fa, fb := UserForm(a), UserForm(b);
    assert fa["active"] == fb["active"];
    assert fa["_id"] == fb["_id"] && fa["name"] == fb["name"] && fa["email"] == fb["email"] && fa["role"] == fb["role"];
  }

  /** The status chip of a row: `Active` in `success`, or `Inactive` in `error`. */
  function ActiveChip(active: bool): (chip: (string, Color))
    ensures chip.0 == "Active" <==> active
    ensures chip.0 == "Inactive" <==> !active
    ensures chip.1 == Success <==> active
    ensures chip.1 == Error <==> !active
  {
    if active then ("Active", Success) else ("Inactive", Error)
  }

  /** The page's `useState` fields. */
  class UsersPage {
    var users: seq<UserRow>
    var searchTerm: string
    var page: nat
    var rowsPerPage: nat
    var openDialog: bool
    var currentUser: Option<Form>

    constructor ()
      ensures users == [] && searchTerm == "" && page == 0 && rowsPerPage == 10
      ensures !openDialog && currentUser == None
    {
      users := [];
      searchTerm := "";
      page := 0;
      rowsPerPage := 10;
      openDialog := false;
      currentUser := None;
    }

    function Filtered(): seq<UserRow>
      reads this
    {
      FilteredUsers(users, searchTerm)
    }

    /** The rows the table body shows: at most `rowsPerPage`, each a listed user that passes the search. */
    function Visible(): (r: seq<UserRow>)
      reads this
      ensures |r| <= rowsPerPage
      ensures forall u :: u in r ==> u in users && UserMatches(u, searchTerm)
    {
      VisibleUsers(users, searchTerm, page, rowsPerPage);
      Page(Filtered(), page, rowsPerPage)
    }

    /** `handleOpenDialog(user)`: the user's fields, or the defaults for a new user. */
    method HandleOpenDialog(user: Option<UserRow>)
      modifies this`currentUser, this`openDialog
      ensures currentUser == Some(if user.Some? then UserForm(user.value) else NewUserForm())
      ensures openDialog
    {
      match user {
        case Some(u) => currentUser := Some(UserForm(u));
        case None => currentUser := Some(NewUserForm());
      }
      openDialog := true;
    }

    /** `handleCloseDialog`. */
    method HandleCloseDialog()
      modifies this`openDialog
      ensures !openDialog
    {
      openDialog := false;
    }

    /** `handleChange`: only the named field of the current user changes. */
    method HandleChange(name: string, value: string)
      modifies this`currentUser
      ensures currentUser == Some(SetFieldOf(old(currentUser), name, value))
    {
      currentUser := Some(SetFieldOf(currentUser, name, value));
    }

    /**
     * `handleSubmit`: returns the service call it makes; when that call
     * succeeds (`saved`) the dialog closes. Reloading the list is not modelled.
     */
    method HandleSubmit(saved: bool) returns (call: Save)
      modifies this`openDialog
      ensures call == SubmitChoice(old(currentUser))
      ensures openDialog == (old(openDialog) && !(saved && !call.NoRecord?))
    {
      match currentUser {
        case None => call := NoRecord;
        case Some(f) =>
          if HasId(f) {
            call := UpdateRecord(f["_id"], f);
          } else {
            call := AddRecord(f);
          }
          if saved {
            openDialog := false;
          }
      }
    }

    /** `handleSearchChange`. */
    method HandleSearchChange(term: string)
      modifies this`searchTerm, this`page
      ensures searchTerm == term && page == 0
    {
      searchTerm := term;
      page := 0;
    }

    /** `handleChangePage`. */
    method HandleChangePage(newPage: nat)
      modifies this`page
      ensures page == newPage
    {
      page := newPage;
    }

    /** `handleChangeRowsPerPage`, with the value already parsed as a base-10 integer. */
    method HandleChangeRowsPerPage(value: nat)
      modifies this`rowsPerPage, this`page
      ensures rowsPerPage == value && page == 0
    {
      rowsPerPage := value;
      page := 0;
    }
  }
}

# Parking management: authentication and dashboard tables

This project models two parts of a parking-management web application in Dafny.

- **The server's registration and login controller**, with the `User` table it works on. `register` looks the email up and refuses a duplicate with 400. Otherwise it hashes the password with bcrypt, creates the row (with `role` defaulting to `'user'`), signs a JSON Web Token over `{id, role}` that expires after one day, and answers 201. `login` answers 404 for an unknown email and 401 for a password bcrypt rejects. Otherwise it answers 200 with a token. Every success response carries a user summary of `id`, `name`, `email` and `role`. Any exception becomes a 500.
- **The client's dashboard tables and sign-up form.** The Parking Spots, Parking History and Users pages filter their lists with a case-insensitive substring search. The history page adds `'all'`-wildcard status and type filters. Each page shows one `slice` of the filtered list, colours status/type/role chips from fixed tables, and keeps its form and paging state in React `useState` fields. The sign-up form refuses to submit when the two passwords differ and shows the server's error message, or a fallback.

Layout:

- `wrappers.dfy` holds `Option`.
- `text.dfy` holds the ASCII case fold and `includes`.
- `listing.dfy` holds what the three tables share:
  - `filter`, with its subsequence, count and membership lemmas;
  - the page `slice`, with lemmas that pages neither overlap nor skip rows;
  - chip colours;
  - form records updated by `{...form, [name]: value}`;
  - the add-or-update choice on submit.
- `parking_spots.dfy`, `parking_history.dfy` and `users_page.dfy` each hold one page's pure functions plus a class for its `useState` fields.
- `register_page.dfy` holds the sign-up form.
- `user_model.dfy` holds the `User` record and the table invariant.
- `auth.dfy` holds the controller. It has pure functions `RegisterOutcome` and `LoginOutcome` that state each branch, lemmas relating them, and a `Controller` class whose methods are proved equal to them.

bcrypt and jsonwebtoken are library calls. They are modelled as a `Crypto` value of three functions that the controller is built with: `hash(plaintext, rounds, salt)`, `compare` and `sign(claims)`. The one assumption about them is `Sound`: `compare(p, hash(p, 10, salt))` always holds. It is a requirement of the constructor and part of the controller's invariant. The salt bcrypt draws and the clock jwt reads are method parameters. A parameter `failAt` names the call that throws, if any. The user table is a map from email to user, so email uniqueness is structural. The `id` is Sequelize's default auto-incremented key, modelled by a `nextId` counter.

Where the code departs from what one would commonly expect of such a service, the model follows the code:

- One might expect a failed registration to persist nothing. In the code, `jwt.sign` runs after `User.create`. A sign failure, for example an unset `JWT_SECRET`, therefore answers 500 with the new row already stored. `Auth.RegisterOutcome` states this: `failAt == Some(SignToken)` adds the row and answers 500.
- The client pages treat `role` as one of `admin`, `manager` and `user`. The schema declares a plain string with default `'user'`, and the model stores any string.
- A password check is commonly taken to reject every other password. bcrypt reads only the first 72 bytes of a password, so the model does not assume this in general. The lemma that needs it (`Auth.WrongPasswordRejected`) takes it as the explicit hypothesis `Discerning`.
- Emails are compared exactly. The code does not normalise case, and the database dialect is configured at run time.

## Model

| member | source | states |
|---|---|---|
| `Auth.RegisterOutcome` | server/controllers/authController.js:9-34 | Status is 201, 400 or 500. 400 "User already exists" exactly when the email is taken, with the store unchanged. Otherwise exactly one row is added under the email, and every old row is kept, when no lookup/hash/create fault occurs. That row has the next id, the given name and email, password `hash(password, 10, salt)` and role `'user'`. 201 "User registered successfully" carries a token signed over that row's id and role, expiring one day after issue, and that row's summary. Every 500 is "Registration failed" with no token or user. |
| `Auth.LoginOutcome` | server/controllers/authController.js:37-61 | 404 "User not found" exactly when the email is absent. 401 "Invalid credentials" exactly when bcrypt rejects the password against the stored hash. 200 "Login successful" exactly when it accepts it and signing succeeds; the token is signed over the stored user's id and role, and the summary is that user's. Non-200 responses carry no token or user. The table is only read. |
| `Auth.RegisterKeepsValid` | server/controllers/authController.js:12-17 | Every outcome of `register` keeps the table invariant: emails are keys, ids are positive, distinct and below the counter. |
| `Auth.RegisterThenLogin` | server/controllers/authController.js:15-17 | Given `compare(p, hash(p))`, registering a fresh email and then logging in with the same password succeeds. It returns the same user summary, with the registered id and role `'user'`. |
| `Auth.RegisterTwice` | server/controllers/authController.js:12-13 | After a successful registration, a second registration of the same email is answered 400 "User already exists" and leaves the store as the first left it. |
| `Auth.WrongPasswordRejected` | server/controllers/authController.js:43-44 | If the hash accepts no other password, logging in with any password but the registered one is answered 401 with no token. |
| `Auth.TokenClaims` | server/controllers/authController.js:19 | The signed claims carry the user's id and role and expire 86400 seconds (one day) after issue. |
| `Auth.SummaryOf` | server/controllers/authController.js:24-29 | The summary holds exactly the user's id, name, email and role. |
| `Auth.SummaryHidesPassword` | server/controllers/authController.js:50-55 | Changing the stored password does not change the summary, so nothing of the password reaches a response. |
| `Auth.Controller.constructor` | server/controllers/authController.js:1-6 | The controller starts with an empty table, id counter 1 and sound library functions. |
| `Auth.Controller.Register` | server/controllers/authController.js:9-34 | The step-by-step handler keeps the invariant. Its response and new table and counter are those of `RegisterOutcome`. |
| `Auth.Controller.Login` | server/controllers/authController.js:37-61 | The step-by-step handler changes nothing and answers `LoginOutcome`. |
| `UserModel.Create` | server/models/User.js:9-12 | A created row has the given name, email and password, and role `'user'` when no role is given. |
| `UserModel.EmailIsKey` | server/models/User.js:10 | In a valid table two rows share an email, or an id, only if they are the same row. |
| `UserModel.InsertKeepsValid` | server/models/User.js:10 | Adding a row under a fresh email with the next id keeps the table valid. |
| `UserModel.OnlyEmailIsUnique` | server/models/User.js:9-11 | Two rows with different emails may share name, password and role and still form a valid table. |
| `Text.Lower` | client/src/pages/dashboard/ParkingSpots.js:120-121 | Folding keeps the length and folds each character; no upper-case letter remains. |
| `Text.LowerIdempotent` | client/src/pages/dashboard/ParkingSpots.js:120-121 | Folding a folded string changes nothing. |
| `Text.Includes` | client/src/pages/dashboard/ParkingSpots.js:120 | `includes` holds exactly when the term occurs at some position of the string. |
| `Text.EmptyIncluded` | client/src/pages/dashboard/ParkingSpots.js:120 | The empty term is included in every string. |
| `Listing.Filter` | client/src/pages/dashboard/ParkingSpots.js:119 | The filtered list is no longer than the list, and every element of it passes the test. |
| `Listing.FilterIsSubsequence` | client/src/pages/dashboard/ParkingSpots.js:119 | The filtered list is an order-preserving subsequence of the list. |
| `Listing.FilterPositions` | client/src/pages/dashboard/ParkingSpots.js:119 | It gives the strictly increasing positions of the list that the filtered list is made of. |
| `Listing.FilterCounts` | client/src/pages/dashboard/ParkingSpots.js:119 | Each value occurs in the filtered list as often as in the list when it passes, and never otherwise. |
| `Listing.FilterMembers` | client/src/pages/dashboard/Users.js:116 | A value is in the filtered list iff it is in the list and passes. |
| `Listing.FilterKeepsAll` | client/src/pages/dashboard/Users.js:116-119 | When every element passes, the filtered list is the list. |
| `Listing.FilterCongruent` | client/src/pages/dashboard/ParkingHistory.js:92 | Two tests that agree on every element select the same list. |
| `Listing.Page` | client/src/pages/dashboard/ParkingSpots.js:215-216 | The slice has at most `rowsPerPage` rows. Its length is `min(rowsPerPage, n - page*rowsPerPage)`, or 0 past the end. Row `i` of it is row `page*rowsPerPage + i` of the list. |
| `Listing.PageRowsAreRows` | client/src/pages/dashboard/Users.js:192-193 | Every row on a page is a row of the list. |
| `Listing.RowOnItsPage` | client/src/pages/dashboard/ParkingHistory.js:249-250 | With `rowsPerPage > 0`, row `k` is shown on page `k / rowsPerPage` at position `k % rowsPerPage`. |
| `Listing.PagesArePrefix` | client/src/pages/dashboard/ParkingSpots.js:215-216 | Pages `0..n-1` side by side are exactly the first `n*rowsPerPage` rows: no row twice, none skipped. |
| `Listing.Get` | client/src/pages/dashboard/ParkingHistory.js:97-100 | Reading a form field gives its value when present and `undefined` (None) otherwise. |
| `Listing.SetField` | client/src/pages/dashboard/ParkingSpots.js:76-79 | `{...form, [name]: value}` sets the named field and keeps every other field and value. |
| `Listing.SetFieldOf` | client/src/pages/dashboard/ParkingSpots.js:74-80 | `{...currentSpot, [name]: value}` on a `null` form gives the one-field form; on a form it sets the named field and keeps every other field. |
| `Listing.HasId` | client/src/pages/dashboard/ParkingSpots.js:84 | `if (current._id)` holds exactly when `_id` is present and is a non-empty string. |
| `Listing.EditKeepsId` | client/src/pages/dashboard/ParkingSpots.js:74-88 | Editing any field but `_id` keeps the add-or-update choice submit will make. |
| `Listing.SubmitChoice` | client/src/pages/dashboard/ParkingSpots.js:84-88 | Submit updates (with the form's `_id`) exactly when the form has a non-empty `_id`, and adds otherwise. The form is sent unchanged, and a `null` form sends nothing. |
| `ParkingSpots.SpotMatches` | client/src/pages/dashboard/ParkingSpots.js:120-121 | A spot matches iff the folded term occurs in its folded spot number or folded floor. |
| `ParkingSpots.FilteredSpots` | client/src/pages/dashboard/ParkingSpots.js:119-122 | `filteredSpots` is no longer than `spots`, and every spot in it matches the search. |
| `ParkingSpots.FilteredSpotsMembers` | client/src/pages/dashboard/ParkingSpots.js:119-122 | A spot is in `filteredSpots` iff it is listed and passes the search. |
| `ParkingSpots.FilteredSpotsSpec` | client/src/pages/dashboard/ParkingSpots.js:119-122 | A spot passes iff the folded term occurs in its folded spot number or folded floor. Passing spots keep their multiplicity and order. |
| `ParkingSpots.EmptySearchKeepsAllSpots` | client/src/pages/dashboard/ParkingSpots.js:119-122 | The empty search term keeps every spot. |
| `ParkingSpots.VisibleSpots` | client/src/pages/dashboard/ParkingSpots.js:215-216 | Every row of any page is a listed spot that passes the search. |
| `ParkingSpots.StatusColor` | client/src/pages/dashboard/ParkingSpots.js:124-137 | available, occupied, reserved and maintenance map to success, error, warning and info, each iff. Every other status maps to `default`. |
| `ParkingSpots.TypeColor` | client/src/pages/dashboard/ParkingSpots.js:139-152 | regular, disabled, electric and vip map to primary, secondary, success and warning, each iff. Every other type maps to `default`. ParkingHistory.js uses the same table at lines 121-134. |
| `ParkingSpots.NewSpotForm` | client/src/pages/dashboard/ParkingSpots.js:66 | A new spot's form has an empty number and floor, status `'available'`, type `'regular'`, and no id. |
| `ParkingSpots.SpotForm` | client/src/pages/dashboard/ParkingSpots.js:66 | Editing a spot opens a form holding exactly that spot's fields. |
| `ParkingSpots.SubmitAfterOpen` | client/src/pages/dashboard/ParkingSpots.js:82-94 | Submitting a new-spot form adds it. Submitting an opened spot that has an id updates that id. |
| `ParkingSpots.SpotsPage.constructor` | client/src/pages/dashboard/ParkingSpots.js:41-47 | The page starts with no spots, a closed dialog, a `null` spot, empty search, page 0 and 5 rows per page. |
| `ParkingSpots.SpotsPage.Visible` | client/src/pages/dashboard/ParkingSpots.js:215-216 | The shown rows number at most `rowsPerPage`, and each is a listed spot matching the current search. |
| `ParkingSpots.SpotsPage.HandleOpenDialog` | client/src/pages/dashboard/ParkingSpots.js:65-68 | The dialog opens on the spot's form, or on the new-spot defaults. |
| `ParkingSpots.SpotsPage.HandleCloseDialog` | client/src/pages/dashboard/ParkingSpots.js:70-72 | Only the dialog flag changes, to closed. |
| `ParkingSpots.SpotsPage.HandleChange` | client/src/pages/dashboard/ParkingSpots.js:74-80 | Only the named field of the current spot changes; no other page field changes. |
| `ParkingSpots.SpotsPage.HandleSubmit` | client/src/pages/dashboard/ParkingSpots.js:82-94 | It makes the add-or-update call of `SubmitChoice`. The dialog closes only when that call succeeds. |
| `ParkingSpots.SpotsPage.HandleSearchChange` | client/src/pages/dashboard/ParkingSpots.js:105-108 | The term is replaced and the page resets to 0; nothing else changes. |
| `ParkingSpots.SpotsPage.HandleChangePage` | client/src/pages/dashboard/ParkingSpots.js:110-112 | Only the page changes. |
| `ParkingSpots.SpotsPage.HandleChangeRowsPerPage` | client/src/pages/dashboard/ParkingSpots.js:114-117 | Rows per page are replaced and the page resets to 0. |
| `ParkingHistory.InitialFilters` | client/src/pages/dashboard/ParkingHistory.js:40-44 | The filters start as exactly `status`, `type` and `dateRange`, all `'all'`. |
| `ParkingHistory.MatchesSearch` | client/src/pages/dashboard/ParkingHistory.js:93-95 | A record matches iff the folded term occurs in its folded vehicle plate or folded spot number. |
| `ParkingHistory.MatchesChoice` | client/src/pages/dashboard/ParkingHistory.js:97-100 | A choice filter passes iff its key is present and its value is `'all'` or the record's field; a missing key (`undefined`) passes nothing. |
| `ParkingHistory.HistoryMatches` | client/src/pages/dashboard/ParkingHistory.js:92-106 | A record passes iff the search matches, the status filter is `'all'` or its status, and the type filter is `'all'` or its spot type. |
| `ParkingHistory.FilteredHistory` | client/src/pages/dashboard/ParkingHistory.js:92-106 | `filteredHistory` is no longer than `history`, every record in it passes, and it is empty when a filter key is missing. |
| `ParkingHistory.FilteredHistorySpec` | client/src/pages/dashboard/ParkingHistory.js:92-106 | A record passes iff all three hold: the folded term occurs in its folded plate or spot number; its status equals the status filter unless that is `'all'`; its spot type equals the type filter unless that is `'all'`. Passing records keep their multiplicity and order. |
| `ParkingHistory.AllImposesNothing` | client/src/pages/dashboard/ParkingHistory.js:97-100 | With both filters `'all'`, the list is filtered by the search alone. |
| `ParkingHistory.DateRangeIgnored` | client/src/pages/dashboard/ParkingHistory.js:102-105 | Changing the `dateRange` filter never changes the filtered list. |
| `ParkingHistory.FilteredHistoryMembers` | client/src/pages/dashboard/ParkingHistory.js:92-106 | A record is in `filteredHistory` iff it is listed and passes every filter. |
| `ParkingHistory.VisibleHistory` | client/src/pages/dashboard/ParkingHistory.js:249-250 | Every row of any page is a listed record that passes every filter. |
| `ParkingHistory.StatusColor` | client/src/pages/dashboard/ParkingHistory.js:108-119 | completed, ongoing and cancelled map to success, primary and error, each iff. Every other status maps to `default`. |
| `ParkingHistory.HistoryPage.constructor` | client/src/pages/dashboard/ParkingHistory.js:34-44 | The page starts with no records, empty search, page 0, 10 rows per page, a closed filter menu and all filters `'all'`. |
| `ParkingHistory.HistoryPage.FilteredSpec` | client/src/pages/dashboard/ParkingHistory.js:92-106 | On a page whose filters hold `status` and `type`, a record is shown-eligible iff it is listed, matches the search and passes both filters; order and multiplicity are kept. |
| `ParkingHistory.HistoryPage.Visible` | client/src/pages/dashboard/ParkingHistory.js:249-250 | The shown rows number at most `rowsPerPage`, and each is a listed record passing the search and filters. |
| `ParkingHistory.HistoryPage.HandleSearchChange` | client/src/pages/dashboard/ParkingHistory.js:62-65 | The term is replaced and the page resets to 0. |
| `ParkingHistory.HistoryPage.HandleChangePage` | client/src/pages/dashboard/ParkingHistory.js:67-69 | Only the page changes. |
| `ParkingHistory.HistoryPage.HandleChangeRowsPerPage` | client/src/pages/dashboard/ParkingHistory.js:71-74 | Rows per page are replaced and the page resets to 0. |
| `ParkingHistory.HistoryPage.HandleFilterMenu` | client/src/pages/dashboard/ParkingHistory.js:76-82 | Only the filter menu's open flag changes. |
| `ParkingHistory.HistoryPage.HandleFilterChange` | client/src/pages/dashboard/ParkingHistory.js:84-90 | Only the named filter key changes, the page resets to 0, and the filters keep their `status` and `type` keys. |
| `Users.UserMatches` | client/src/pages/dashboard/Users.js:117-118 | A user matches iff the folded term occurs in the folded name or folded email. |
| `Users.FilteredUsers` | client/src/pages/dashboard/Users.js:116-119 | `filteredUsers` is no longer than `users`, and every user in it matches the search. |
| `Users.FilteredUsersMembers` | client/src/pages/dashboard/Users.js:116-119 | A user is in `filteredUsers` iff listed and passing the search. |
| `Users.FilteredUsersSpec` | client/src/pages/dashboard/Users.js:116-119 | A user passes iff the folded term occurs in the folded name or folded email. Passing users keep their multiplicity and order. |
| `Users.EmptySearchKeepsAllUsers` | client/src/pages/dashboard/Users.js:116-119 | The empty search term keeps every user. |
| `Users.VisibleUsers` | client/src/pages/dashboard/Users.js:192-193 | Every row of any page is a listed user that passes the search. |
| `Users.RoleColor` | client/src/pages/dashboard/Users.js:121-132 | admin maps to primary and manager to secondary, each iff. `'user'` and every other role map to `default`. |
| `Users.NewUserForm` | client/src/pages/dashboard/Users.js:63 | A new user's form is `{name:'', email:'', role:'user', password:''}`, with no id. |
| `Users.UserForm` | client/src/pages/dashboard/Users.js:63 | Editing a user opens a form holding that user's id, name, email, role and `active` flag, so `updateUser` sends them all back. |
| `Users.UserFormKeepsRow` | client/src/pages/dashboard/Users.js:63 | Different rows open different forms: the form determines the whole row. |
| `Users.ActiveChip` | client/src/pages/dashboard/Users.js:215-219 | The status chip reads `Active` in `success` iff the user is active, and `Inactive` in `error` otherwise. |
| `Users.UsersPage.constructor` | client/src/pages/dashboard/Users.js:38-44 | The page starts with no users, empty search, page 0, 10 rows per page, a closed dialog and a `null` user. |
| `Users.UsersPage.Visible` | client/src/pages/dashboard/Users.js:192-193 | The shown rows number at most `rowsPerPage`, and each is a listed user matching the current search. |
| `Users.UsersPage.HandleOpenDialog` | client/src/pages/dashboard/Users.js:62-65 | The dialog opens on the user's form, or on the new-user defaults. |
| `Users.UsersPage.HandleCloseDialog` | client/src/pages/dashboard/Users.js:67-69 | Only the dialog flag changes, to closed. |
| `Users.UsersPage.HandleChange` | client/src/pages/dashboard/Users.js:71-77 | Only the named field of the current user changes. |
| `Users.UsersPage.HandleSubmit` | client/src/pages/dashboard/Users.js:79-91 | It updates when the form has an id and adds otherwise. The dialog closes only when that call succeeds. |
| `Users.UsersPage.HandleSearchChange` | client/src/pages/dashboard/Users.js:102-105 | The term is replaced and the page resets to 0. |
| `Users.UsersPage.HandleChangePage` | client/src/pages/dashboard/Users.js:107-109 | Only the page changes. |
| `Users.UsersPage.HandleChangeRowsPerPage` | client/src/pages/dashboard/Users.js:111-114 | Rows per page are replaced and the page resets to 0. |
| `RegisterPage.InitialUserData` | client/src/pages/auth/Register.js:8-13 | The form starts with exactly name, email, password and confirmPassword, all empty. |
| `RegisterPage.FailureMessage` | client/src/pages/auth/Register.js:34 | The error is the server's message when present and non-empty, and "Registration failed" otherwise. It is never empty. |
| `RegisterPage.PasswordsDiffer` | client/src/pages/auth/Register.js:27 | With both fields present, the check fails iff they differ; with one missing (`undefined`) it fails, with both missing it passes. |
| `RegisterPage.ConfirmationDecides` | client/src/pages/auth/Register.js:27 | After the password fields are set to `p` and `q`, the form passes the check iff `p == q`. |
| `RegisterPage.RegisterForm.constructor` | client/src/pages/auth/Register.js:8-14 | The form starts with the empty fields and no error. |
| `RegisterPage.RegisterForm.HandleChange` | client/src/pages/auth/Register.js:18-23 | Only the named field of `userData` changes. |
| `RegisterPage.RegisterForm.HandleSubmit` | client/src/pages/auth/Register.js:25-36 | If the passwords differ, the error becomes "Passwords do not match" and `register` is not called. Otherwise `register` gets `userData` unchanged. On failure the error becomes `FailureMessage` of the server's message; on success the error is left as it was. |

## Left out

- Network and database I/O are left out: the axios services, `fetchSpots`, `fetchHistory` and `fetchUsers`, `handleDelete`, and the reload after a save. A page's list is a field that the model never refills.
- The `loading` flags and all JSX rendering are left out. This includes date formatting with date-fns and the `toFixed` amounts in the history table.
- The `catch` branches are modelled only through the `failAt` parameter, which chooses which of the calls that can throw does so. The `error: err.message` detail of a 500 body is not modelled.
- Time-based token expiry is not checked, and token verification (`/api/auth/me`) is not part of this model. Only the signed claims, including `exp = iat + 86400`, are modelled.
- The check-then-create race between concurrent registrations of one email is left out. Each call runs to completion.
- `Text.Lower`: folds ASCII letters only, whereas JavaScript's `toLowerCase` folds all of Unicode.
- `Auth.RegisterOutcome`: bcrypt's salt and jwt's clock are parameters. Inputs are strings, so a missing `name`, `email` or `password` in the request body is not modelled; `bcrypt.hash(undefined)` would throw into the 500 branch.
- `Auth.RegisterOutcome`: the stored password is stated to be `hash(password, 10, salt)`. That this differs from the plaintext is bcrypt's property, not stated here.
- `Auth.WrongPasswordRejected`: it assumes a hash that accepts no other password. Real bcrypt ignores bytes past the 72nd.
- `ParkingSpots.SpotsPage.HandleChangeRowsPerPage`: `parseInt(value, 10)` is taken as already done. The menu only offers 5, 10 and 25 (10, 25 and 50 on the other pages), so a `NaN` is not modelled.
- `Users.UserForm`: the form is string-valued, so the row's boolean `active` travels as the text `"true"` or `"false"`.
- `Listing.SubmitChoice`: `_id` is modelled as a string, truthy when non-empty. The rows' `avatar` field and the numeric and date fields of history records are not part of the form records.
- Slot.js, Booking.js, Dashboard.js, Settings.js, Login.js, AuthContext.js, the routing layouts and the socket hook are not part of this model.

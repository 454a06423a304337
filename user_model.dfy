/**
 * The `User` table (server/models/User.js): four columns, a unique `email`
 * and a `role` that defaults to `'user'`. Sequelize adds the usual
 * auto-incremented integer primary key `id`, starting at 1.
 */
module UserModel {
  import opened Wrappers

  /** A stored user; `password` holds whatever the caller stored (the controller stores a hash). */
  datatype User = User(id: nat, name: string, email: string, password: string, role: string)

  const DefaultRole: string := "user"

  /** A row as `User.create` builds it: the given fields, and `role` defaulting to `'user'`. */
  function Create(id: nat, name: string, email: string, password: string, role: Option<string>): (u: User)
    ensures u.id == id && u.name == name && u.email == email && u.password == password
    ensures role.None? ==> u.role == DefaultRole
    ensures role.Some? ==> u.role == role.value
  {
    User(id, name, email, password, role.GetOr(DefaultRole))
  }

  /** The table, keyed by the unique `email` column. */
  type Table = map<string, User>

  /**
   * Each row is filed under its own email, ids are positive, below the next
   * id to hand out, and no two rows share an id.
   */
  predicate Valid(users: Table, nextId: nat) {
    && (forall e :: e in users ==> users[e].email == e && 0 < users[e].id < nextId)
    && (forall e, f :: e in users && f in users && users[e].id == users[f].id ==> e == f)
  }

  /** Rows with different emails are different rows, with different ids. */
  lemma EmailIsKey(users: Table, nextId: nat, e: string, f: string)
    requires Valid(users, nextId) && e in users && f in users
    ensures users[e].email == users[f].email <==> e == f
    ensures users[e].id == users[f].id <==> e == f
  {
  }

  /** Adding a row under a fresh email with the next id keeps the table valid. */
  lemma InsertKeepsValid(users: Table, nextId: nat, u: User)
    requires Valid(users, nextId) && u.email !in users && u.id == nextId && nextId > 0
    ensures Valid(users[u.email := u], nextId + 1)
  {
  }

  /** Email is the only unique column: two rows may share name, password and role. */
  lemma OnlyEmailIsUnique(name: string, password: string, e1: string, e2: string)
    requires e1 != e2
    ensures Valid(map[e1 := Create(1, name, e1, password, None), e2 := Create(2, name, e2, password, None)], 3)
  {
  }
}

/**
 * The authentication controller (server/controllers/authController.js):
 * `register` and `login` over the `User` table, with bcrypt and jsonwebtoken
 * given as functions the controller is configured with.
 */
module Auth {
  import opened Wrappers
  import opened UserModel

  /** `bcrypt.hash(password, 10)`. */
  const SaltRounds: nat := 10
  /** `expiresIn: "1d"`, in seconds. */
  const TokenLifetime: nat := 86400

  const AlreadyExists: string := "User already exists"
  const Registered: string := "User registered successfully"
  const RegistrationFailed: string := "Registration failed"
  const NotFound: string := "User not found"
  const InvalidCredentials: string := "Invalid credentials"
  const LoggedIn: string := "Login successful"
  const LoginFailed: string := "Login failed"

  /** The token payload `{ id, role }` with the `iat` / `exp` that `jwt.sign` adds. */
  datatype Claims = Claims(id: nat, role: string, issuedAt: int, expiresAt: int)

  /**
   * The library calls: `hash(plaintext, rounds, salt)` is `bcrypt.hash` with
   * the salt it draws, `compare` is `bcrypt.compare`, `sign` is `jwt.sign`
   * with the process-wide `JWT_SECRET`.
   */
  datatype Crypto = Crypto(hash: (string, nat, nat) -> string, compare: (string, string) -> bool, sign: Claims -> string)

  /** bcrypt accepts a password against any hash made from it. */
  ghost predicate Sound(c: Crypto) {
    forall p, salt :: c.compare(p, c.hash(p, SaltRounds, salt))
  }

  /** An idealised bcrypt that accepts no other password against a hash (bcrypt itself reads only 72 bytes). */
  ghost predicate Discerning(c: Crypto) {
    forall p, q, salt :: c.compare(p, c.hash(q, SaltRounds, salt)) ==> p == q
  }

  /** The claims signed for a user at time `now`. */
  function TokenClaims(u: User, now: int): (t: Claims)
    ensures t.id == u.id && t.role == u.role
    ensures t.expiresAt - t.issuedAt == TokenLifetime && t.issuedAt == now
  {
    Claims(u.id, u.role, now, now + TokenLifetime)
  }

  /** The `user` object of a success response: there is no password field to fill. */
  datatype Summary = Summary(id: nat, name: string, email: string, role: string)

  function SummaryOf(u: User): (s: Summary)
    ensures s.id == u.id && s.name == u.name && s.email == u.email && s.role == u.role
  {
    Summary(u.id, u.name, u.email, u.role)
  }

  /** Nothing of the stored password reaches the summary. */
  lemma SummaryHidesPassword(u: User, other: string)
    ensures SummaryOf(u.(password := other)) == SummaryOf(u)
  {
  }

  /** `res.status(status).json({ message, token, user })`. */
  datatype Response = Response(status: nat, message: string, token: Option<string>, user: Option<Summary>)

  function Failure(status: nat, message: string): Response {
    Response(status, message, None, None)
  }

  /** The calls that can throw into the `catch` that answers 500. */
  datatype Step = FindUser | HashPassword | CreateUser | ComparePassword | SignToken

  datatype Store = Store(users: Table, nextId: nat)

  /** The table gained exactly the row under `email`; every old row is as it was. */
  ghost predicate AddsOne(before: Store, after: Store, email: string) {
    && email !in before.users
    && after.users.Keys == before.users.Keys + {email}
    && (forall e :: e in before.users ==> after.users[e] == before.users[e])
    && after.nextId == before.nextId + 1
  }

  /**
   * `register(name, email, password)` against store `st`; `failAt` names the
   * call that throws, if any.
   */
  function RegisterOutcome(st: Store, c: Crypto, name: string, email: string, password: string,
                           salt: nat, now: int, failAt: Option<Step>): (out: (Store, Response))
    ensures var (st', r) := out;
      && r.status in {201, 400, 500}
      && (r.status == 400 <==> failAt != Some(FindUser) && email in st.users)
      && (r.status == 201 <==> email !in st.users && failAt !in {Some(FindUser), Some(HashPassword), Some(CreateUser), Some(SignToken)})
      && (r.status == 400 ==> r == Failure(400, AlreadyExists) && st' == st)
      && (r.status == 500 ==> r == Failure(500, RegistrationFailed))
      && (st' == st || AddsOne(st, st', email))
      && (AddsOne(st, st', email) <==> email !in st.users && failAt !in {Some(FindUser), Some(HashPassword), Some(CreateUser)})
      && (AddsOne(st, st', email) ==>
            st'.users[email] == User(st.nextId, name, email, c.hash(password, SaltRounds, salt), DefaultRole))
      && (r.status == 201 ==>
            && r.message == Registered
            && r.token == Some(c.sign(TokenClaims(st'.users[email], now)))
            && r.user == Some(SummaryOf(st'.users[email])))
  {
    if failAt == Some(FindUser) then (st, Failure(500, RegistrationFailed))
    else if email in st.users then (st, Failure(400, AlreadyExists))
    else if failAt == Some(HashPassword) || failAt == Some(CreateUser) then (st, Failure(500, RegistrationFailed))
    else
      var user := Create(st.nextId, name, email, c.hash(password, SaltRounds, salt), None);
      var st' := Store(st.users[email := user], st.nextId + 1);
      if failAt == Some(SignToken) then (st', Failure(500, RegistrationFailed))
      else (st', Response(201, Registered, Some(c.sign(TokenClaims(user, now))), Some(SummaryOf(user))))
  }

  /** `login(email, password)` against `users`; `failAt` names the call that throws, if any. */
  function LoginOutcome(users: Table, c: Crypto, email: string, password: string, now: int, failAt: Option<Step>): (r: Response)
    ensures r.status in {200, 401, 404, 500}
    ensures r.status == 404 <==> failAt != Some(FindUser) && email !in users
    ensures r.status == 401 <==>
      failAt !in {Some(FindUser), Some(ComparePassword)} && email in users && !c.compare(password, users[email].password)
    ensures r.status == 200 <==>
      failAt !in {Some(FindUser), Some(ComparePassword), Some(SignToken)} && email in users && c.compare(password, users[email].password)
    ensures r.status == 404 ==> r == Failure(404, NotFound)
    ensures r.status == 401 ==> r == Failure(401, InvalidCredentials)
    ensures r.status == 500 ==> r == Failure(500, LoginFailed)
    ensures r.status == 200 ==>
      && r.message == LoggedIn
      && r.token == Some(c.sign(TokenClaims(users[email], now)))
      && r.user == Some(SummaryOf(users[email]))
  {
    if failAt == Some(FindUser) then Failure(500, LoginFailed)
    else if email !in users then Failure(404, NotFound)
    else if failAt == Some(ComparePassword) then Failure(500, LoginFailed)
    else if !c.compare(password, users[email].password) then Failure(401, InvalidCredentials)
    else if failAt == Some(SignToken) then Failure(500, LoginFailed)
    else
      var user := users[email];
      Response(200, LoggedIn, Some(c.sign(TokenClaims(user, now))), Some(SummaryOf(user)))
  }

  /** Registration keeps the table valid: emails stay keys, ids stay distinct. */
  lemma RegisterKeepsValid(st: Store, c: Crypto, name: string, email: string, password: string,
                           salt: nat, now: int, failAt: Option<Step>)
    requires UserModel.Valid(st.users, st.nextId) && st.nextId > 0
    ensures var st' := RegisterOutcome(st, c, name, email, password, salt, now, failAt).0;
      UserModel.Valid(st'.users, st'.nextId) && st'.nextId > 0
  {
    var st' := RegisterOutcome(st, c, name, email, password, salt, now, failAt).0;
    if st' != st {
      InsertKeepsValid(st.users, st.nextId, st'.users[email]);
      assert st'.users == st.users[email := st'.users[email]];
    }
  }

  /**
   * Registering a fresh email and then logging in with the same password
   * succeeds, for the same user id, with a token for role `'user'`.
   */
  lemma RegisterThenLogin(st: Store, c: Crypto, name: string, email: string, password: string,
                          salt: nat, now: int, later: int)
    requires Sound(c) && email !in st.users
    ensures var (st', r) := RegisterOutcome(st, c, name, email, password, salt, now, None);
      var l := LoginOutcome(st'.users, c, email, password, later, None);
      && r.status == 201 && l.status == 200
      && l.user == r.user && r.user.value.id == st.nextId && r.user.value.role == DefaultRole
  {
    var (st', r) := RegisterOutcome(st, c, name, email, password, salt, now, None);
    assert c.compare(password, c.hash(password, SaltRounds, salt));
  }

  /** Once an email is registered, registering it again is refused and changes nothing. */
  lemma RegisterTwice(st: Store, c: Crypto, name: string, email: string, password: string,
                      name2: string, password2: string, salt: nat, salt2: nat, now: int, now2: int, failAt: Option<Step>)
    requires email !in st.users && failAt != Some(FindUser)
    ensures var (st1, r1) := RegisterOutcome(st, c, name, email, password, salt, now, None);
      var (st2, r2) := RegisterOutcome(st1, c, name2, email, password2, salt2, now2, failAt);
      && r1.status == 201 && r2 == Failure(400, AlreadyExists) && st2 == st1
  {
    var (st1, r1) := RegisterOutcome(st, c, name, email, password, salt, now, None);
    assert email in st1.users;
  }

  /** With a discerning hash, any other password is refused with 401. */
  lemma WrongPasswordRejected(users: Table, c: Crypto, email: string, registered: string, password: string,
                              salt: nat, now: int)
    requires Discerning(c) && email in users
    requires users[email].password == c.hash(registered, SaltRounds, salt) && password != registered
    ensures LoginOutcome(users, c, email, password, now, None) == Failure(401, InvalidCredentials)
  {
  }

  /** The controller with its table; the library functions are fixed at start-up. */
  class Controller {
    var users: Table
    var nextId: nat
    const crypto: Crypto

    ghost predicate Valid()
      reads this
    {
      UserModel.Valid(users, nextId) && nextId > 0 && Sound(crypto)
    }

    /** The table and the id counter as one value. */
    function State(): Store
      reads this
    {
      Store(users, nextId)
    }

    constructor (crypto: Crypto)
      requires Sound(crypto)
      ensures Valid() && users == map[] && nextId == 1 && this.crypto == crypto
    {
      users := map[];
      nextId := 1;
      this.crypto := crypto;
    }

    /** `register`: look the email up, refuse a duplicate, hash, create, sign. */
    method Register(name: string, email: string, password: string, salt: nat, now: int, failAt: Option<Step>)
      returns (r: Response)
      requires Valid()
      modifies this
      ensures Valid()
      ensures (State(), r) == RegisterOutcome(old(State()), crypto, name, email, password, salt, now, failAt)
    {
      if failAt == Some(FindUser) {
        return Failure(500, RegistrationFailed);
      }
      if email in users {
        return Failure(400, AlreadyExists);
      }
      if failAt == Some(HashPassword) {
        return Failure(500, RegistrationFailed);
      }
      var hashed := crypto.hash(password, SaltRounds, salt);
      if failAt == Some(CreateUser) {
        return Failure(500, RegistrationFailed);
      }
      var user := Create(nextId, name, email, hashed, None);
      InsertKeepsValid(users, nextId, user);
      users := users[email := user];
      nextId := nextId + 1;
      if failAt == Some(SignToken) {
        return Failure(500, RegistrationFailed);
      }
      var token := crypto.sign(TokenClaims(user, now));
      r := Response(201, Registered, Some(token), Some(SummaryOf(user)));
    }

    /** `login`: look the email up, compare the password, sign. The table is only read. */
    method Login(email: string, password: string, now: int, failAt: Option<Step>) returns (r: Response)
      ensures r == LoginOutcome(users, crypto, email, password, now, failAt)
    {
      if failAt == Some(FindUser) {
        return Failure(500, LoginFailed);
      }
      if email !in users {
        return Failure(404, NotFound);
      }
      var user := users[email];
      if failAt == Some(ComparePassword) {
        return Failure(500, LoginFailed);
      }
      var isMatch := crypto.compare(password, user.password);
      if !isMatch {
        return Failure(401, InvalidCredentials);
      }
      if failAt == Some(SignToken) {
        return Failure(500, LoginFailed);
      }
      var token := crypto.sign(TokenClaims(user, now));
      r := Response(200, LoggedIn, Some(token), Some(SummaryOf(user)));
    }
  }
}

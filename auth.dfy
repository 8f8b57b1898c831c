/**
 * The handlers of routes/auth.js. The user-management routes test
 * `req.user.role !== 'admin'` themselves and answer with their own 403
 * messages. bcrypt is not modelled: `hash` stands for `bcrypt.hash` and
 * `matches(password, hashed)` for `bcrypt.compare`; the JWT that login signs
 * is not part of the reply modelled here.
 */
module AuthRoutes {
  import opened Wrappers
  import opened Seqs
  import opened Http
  import opened Db

  const ONLY_ADMIN_VIEW := "Only admins can view all users"
  const ONLY_ADMIN_REGISTER := "Only admins can register users"
  const ONLY_ADMIN_UPDATE := "Only admins can update users"
  const ONLY_ADMIN_DELETE := "Only admins can delete users"
  const REGISTER_FIELDS := "Name, role, email, and password are required"
  const INVALID_ROLE := "Invalid role"
  const EMAIL_TAKEN := "Email already registered"
  const LOGIN_FIELDS := "Email and password are required"
  const INVALID_CREDENTIALS := "Invalid credentials"
  const USER_NOT_FOUND := "User not found"
  const SELF_DELETE := "Cannot delete your own account"
  const HAS_TRIPS := "Cannot delete user with existing trips. Please reassign trips first."
  const SERVER_ERROR := "Server error"
  const DELETED := "User deleted successfully"

  /** The columns of `GET /users` and of the user `PUT /users/:id` answers with. */
  datatype Profile = Profile(id: int, name: string, role: string, email: string, mobile: Option<string>, createdAt: int)

  /** The user `POST /register` and `GET /me` answer with. */
  datatype Account = Account(id: int, name: string, role: string, email: string, mobile: Option<string>)

  /** The user `POST /login` answers with beside the token. */
  datatype Identity = Identity(id: int, name: string, role: string, email: string)

  function ProfileOf(u: User): Profile {
    Profile(u.id, u.name, u.role, u.email, u.mobile, u.createdAt)
  }

  predicate NewerProfile(a: Profile, b: Profile) { a.createdAt >= b.createdAt }

  /** `GET /users`: admins only; every user without the password, newest first. */
  function ListUsers(t: Tables, p: Principal): (r: Reply<seq<Profile>>)
    ensures p.role != ADMIN ==> r == Failure(Forbidden, ONLY_ADMIN_VIEW)
    ensures p.role == ADMIN ==>
      && r.Success? && r.status == Ok
      && |r.body| == |t.users|
      && (forall x :: x in r.body <==> exists u :: u in t.users && ProfileOf(u) == x)
      && Pairwise(r.body, NewerProfile)
  {
    if p.role != ADMIN then Failure(Forbidden, ONLY_ADMIN_VIEW)
    else
      var profiles := Map(t.users, ProfileOf);
      assert forall x :: x in profiles <==> exists u :: u in t.users && ProfileOf(u) == x by {
        forall x ensures x in profiles <==> exists u :: u in t.users && ProfileOf(u) == x {
          if x in profiles {
            var i :| 0 <= i < |profiles| && profiles[i] == x;
            assert t.users[i] in t.users;
          }
          if exists u :: u in t.users && ProfileOf(u) == x {
            var u :| u in t.users && ProfileOf(u) == x;
            var i :| 0 <= i < |t.users| && t.users[i] == u;
            assert profiles[i] == x;
          }
        }
      }
      Success(Ok, SortBy(profiles, NewerProfile))
  }

  /**
   * `POST /register`: admins only; the four required fields, a listed
   * role and a free e-mail, then one new user whose password is stored
   * hashed and whose mobile number defaults to null.
   */
  method Register(db: Database, p: Principal, name: Field<string>, role: Field<string>, email: Field<string>,
                  password: Field<string>, mobile: Field<string>, hash: string -> string, now: int)
    returns (r: Reply<Account>)
    requires db.Valid()
    modifies db
    ensures db.Valid()
    ensures p.role != ADMIN ==> r == Failure(Forbidden, ONLY_ADMIN_REGISTER) && unchanged(db)
    ensures p.role == ADMIN && !(TruthyText(name) && TruthyText(role) && TruthyText(email) && TruthyText(password)) ==>
      r == Failure(BadRequest, REGISTER_FIELDS) && unchanged(db)
    ensures p.role == ADMIN && TruthyText(name) && TruthyText(role) && TruthyText(email) && TruthyText(password) ==>
      if !IsRole(role.v) then
        r == Failure(BadRequest, INVALID_ROLE) && unchanged(db)
      else if FindUserByEmail(old(db.users), email.v).Some? then
        r == Failure(BadRequest, EMAIL_TAKEN) && unchanged(db)
      else
        var id := old(db.sequence.user);
        && r == Success(Created, Account(id, name.v, role.v, email.v, TruthyOrNull(mobile)))
        && db.Snapshot() == old(db.Snapshot()).(users := old(db.users) +
             [User(id, name.v, role.v, email.v, hash(password.v), TruthyOrNull(mobile), now)])
        && db.sequence == old(db.sequence).(user := id + 1)
  {
    if p.role != ADMIN {
      return Failure(Forbidden, ONLY_ADMIN_REGISTER);
    }
    if !TruthyText(name) || !TruthyText(role) || !TruthyText(email) || !TruthyText(password) {
      return Failure(BadRequest, REGISTER_FIELDS);
    }
    if !(role.v in [ADMIN, MANAGER, DRIVER]) {
      return Failure(BadRequest, INVALID_ROLE);
    }
    if FindUserByEmail(db.users, email.v).Some? {
      return Failure(BadRequest, EMAIL_TAKEN);
    }
    var hashed := hash(password.v);
    var res := db.InsertUser(name.v, role.v, email.v, hashed, TruthyOrNull(mobile), now);
    assert res.Done?;
    r := Success(Created, Account(res.lastId, name.v, role.v, email.v, TruthyOrNull(mobile)));
  }

  /**
   * `POST /login`: 400 without both fields; an unknown e-mail and a wrong
   * password get the same 401.
   */
  function Login(t: Tables, email: Field<string>, password: Field<string>, matches: (string, string) -> bool)
    : (r: Reply<Identity>)
    ensures !(TruthyText(email) && TruthyText(password)) ==> r == Failure(BadRequest, LOGIN_FIELDS)
    ensures TruthyText(email) && TruthyText(password) ==>
      && (r.Success? <==> exists u :: u in t.users && u.email == email.v && u == FindUserByEmail(t.users, email.v).value
                                      && matches(password.v, u.password))
      && (!r.Success? ==> r == Failure(Unauthorized, INVALID_CREDENTIALS))
    ensures r.Success? ==> exists u :: u in t.users && u.email == email.v && r.body == Identity(u.id, u.name, u.role, u.email)
  {
    if !TruthyText(email) || !TruthyText(password) then Failure(BadRequest, LOGIN_FIELDS)
    else
      match FindUserByEmail(t.users, email.v)
      case None => Failure(Unauthorized, INVALID_CREDENTIALS)
      case Some(u) =>
        if !matches(password.v, u.password) then Failure(Unauthorized, INVALID_CREDENTIALS)
        else Success(Ok, Identity(u.id, u.name, u.role, u.email))
  }

  /** With e-mails unique, login succeeds exactly for the stored user whose hash the password matches. */
  lemma LoginSucceedsIff(t: Tables, next: int, email: string, password: string, matches: (string, string) -> bool)
    requires UsersValid(t.users, next) && email != "" && password != ""
    ensures Login(t, Value(email), Value(password), matches).Success? <==>
      exists u :: u in t.users && u.email == email && matches(password, u.password)
  {
    if exists u :: u in t.users && u.email == email && matches(password, u.password) {
      var u :| u in t.users && u.email == email && matches(password, u.password);
      UserEmailUnique(t.users, next, u, FindUserByEmail(t.users, email).value);
    }
  }

  lemma {:induction false} FindUserByEmailAppended(us: seq<User>, u: User)
    requires forall w :: w in us ==> w.email != u.email
    ensures FindUserByEmail(us + [u], u.email) == Some(u)
  {
    if us != [] {
      assert (us + [u])[1..] == us[1..] + [u];
      FindUserByEmailAppended(us[1..], u);
    }
  }

  /**
   * Register then login: once a user is registered with a password, logging
   * in with that e-mail and password succeeds as that user, provided the
   * password matches its own hash.
   */
  lemma RegisterThenLogin(t: Tables, u: User, password: string, hash: string -> string,
                          matches: (string, string) -> bool)
    requires forall w :: w in t.users ==> w.email != u.email
    requires u.email != "" && password != "" && u.password == hash(password)
    requires matches(password, hash(password))
    ensures Login(t.(users := t.users + [u]), Value(u.email), Value(password), matches)
            == Success(Ok, Identity(u.id, u.name, u.role, u.email))
  {
    FindUserByEmailAppended(t.users, u);
  }

  /** `GET /me`: the caller's own row, or 404 once it is gone. */
  function Me(t: Tables, p: Principal): (r: Reply<Account>)
    ensures r.Success? <==> exists u :: u in t.users && u.id == p.userId
    ensures r.Success? ==>
      (r.status == Ok && r.body.id == p.userId &&
       exists u :: u in t.users && r.body == Account(u.id, u.name, u.role, u.email, u.mobile))
    ensures !r.Success? ==> r == Failure(NotFound, USER_NOT_FOUND)
  {
    match FindUser(t.users, p.userId)
    case None => Failure(NotFound, USER_NOT_FOUND)
    case Some(u) => Success(Ok, Account(u.id, u.name, u.role, u.email, u.mobile))
  }

  /**
   * The row `PUT /users/:id` writes: name, role and e-mail keep their values
   * when the new ones are falsy, the mobile number is replaced whenever one
   * is sent (`null` included), and the password changes only when a truthy
   * one is sent.
   */
  function MergeUser(existing: User, name: Field<string>, role: Field<string>, email: Field<string>,
                     mobile: Field<string>, password: Field<string>, hash: string -> string): (r: User)
    ensures r.id == existing.id && r.createdAt == existing.createdAt
    ensures r.name == (if TruthyText(name) then name.v else existing.name)
    ensures r.role == (if TruthyText(role) then role.v else existing.role)
    ensures r.email == (if TruthyText(email) then email.v else existing.email)
    ensures mobile.Undefined? ==> r.mobile == existing.mobile
    ensures mobile.Null? ==> r.mobile.None?
    ensures mobile.Value? ==> r.mobile == Some(mobile.v)
    ensures r.password == (if TruthyText(password) then hash(password.v) else existing.password)
  {
    existing.(name := TextOr(name, existing.name), role := TextOr(role, existing.role),
              email := TextOr(email, existing.email), mobile := DefinedOr(mobile, existing.mobile),
              password := if TruthyText(password) then hash(password.v) else existing.password)
  }

  /** A truthy e-mail that differs from the user's own and that some user already holds. */
  predicate EmailClash(us: seq<User>, id: int, email: Field<string>)
    requires FindUser(us, id).Some?
  {
    TruthyText(email) && email.v != FindUser(us, id).value.email && FindUserByEmail(us, email.v).Some?
  }

  /**
   * `PUT /users/:id`: admins only; 404 for an absent user; 400 for an
   * e-mail another user holds. The role is not checked here: a role outside
   * the CHECK list makes the UPDATE fail, which answers 500.
   */
  method UpdateUser(db: Database, p: Principal, id: int, name: Field<string>, role: Field<string>,
                    email: Field<string>, mobile: Field<string>, password: Field<string>, hash: string -> string)
    returns (r: Reply<Profile>)
    requires db.Valid()
    modifies db
    ensures db.Valid()
    ensures p.role != ADMIN ==> r == Failure(Forbidden, ONLY_ADMIN_UPDATE) && unchanged(db)
    ensures p.role == ADMIN && FindUser(old(db.users), id).None? ==> r == Failure(NotFound, USER_NOT_FOUND) && unchanged(db)
    ensures p.role == ADMIN && FindUser(old(db.users), id).Some? && EmailClash(old(db.users), id, email) ==>
      r == Failure(BadRequest, EMAIL_TAKEN) && unchanged(db)
    ensures p.role == ADMIN && FindUser(old(db.users), id).Some? && !EmailClash(old(db.users), id, email) ==>
      var u := MergeUser(FindUser(old(db.users), id).value, name, role, email, mobile, password, hash);
      if !IsRole(u.role) then
        r == Failure(ServerError, SERVER_ERROR) && unchanged(db)
      else
        && r == Success(Ok, ProfileOf(u))
        && db.Snapshot() == old(db.Snapshot()).(users := ReplaceUser(old(db.users), u))
        && db.sequence == old(db.sequence)
  {
    if p.role != ADMIN {
      return Failure(Forbidden, ONLY_ADMIN_UPDATE);
    }
    var found := FindUser(db.users, id);
    if found.None? {
      return Failure(NotFound, USER_NOT_FOUND);
    }
    if EmailClash(db.users, id, email) {
      return Failure(BadRequest, EMAIL_TAKEN);
    }
    r := WriteUser(db, found.value, name, role, email, mobile, password, hash);
  }

  /** The statements of `PUT /users/:id` once the guards pass: write the merged row, read it back. */
  method WriteUser(db: Database, existing: User, name: Field<string>, role: Field<string>,
                   email: Field<string>, mobile: Field<string>, password: Field<string>, hash: string -> string)
    returns (r: Reply<Profile>)
    requires db.Valid() && FindUser(db.users, existing.id) == Some(existing)
    requires !EmailClash(db.users, existing.id, email)
    modifies db
    ensures db.Valid()
    ensures var u := MergeUser(existing, name, role, email, mobile, password, hash);
      if !IsRole(u.role) then
        r == Failure(ServerError, SERVER_ERROR) && unchanged(db)
      else
        && r == Success(Ok, ProfileOf(u))
        && db.Snapshot() == old(db.Snapshot()).(users := ReplaceUser(old(db.users), u))
        && db.sequence == old(db.sequence)
  {
    var u := MergeUser(existing, name, role, email, mobile, password, hash);
    MergedEmailFree(db.users, db.sequence.user, existing, u);
    var newPassword := if TruthyText(password) then Some(hash(password.v)) else None;
    assert u == existing.(name := u.name, role := u.role, email := u.email, mobile := u.mobile,
                          password := newPassword.GetOr(existing.password));
    ghost var us0 := db.users;
    var res := db.UpdateUser(existing.id, u.name, u.role, u.email, u.mobile, newPassword);
    if res.Rejected? {
      return Failure(ServerError, SERVER_ERROR);
    }
    FindUserReplaced(us0, u);
    r := Success(Ok, ProfileOf(FindUser(db.users, existing.id).value));
  }

  /** An e-mail that passed the clash check is held by no other user. */
  lemma MergedEmailFree(us: seq<User>, next: int, existing: User, u: User)
    requires UsersValid(us, next) && FindUser(us, existing.id) == Some(existing)
    requires u.email == existing.email || FindUserByEmail(us, u.email).None?
    ensures forall w :: w in us && w.id != existing.id ==> w.email != u.email
  {
    forall w | w in us && w.id != existing.id
      ensures w.email != u.email
    {
      UserEmailUnique(us, next, w, existing);
    }
  }

  /**
   * `DELETE /users/:id`: admins only; self-deletion is refused before the
   * user is even looked up; then 404 for an absent user and 400 while the
   * user has trips; otherwise the user's assignments go first, then the user.
   */
  method DeleteUser(db: Database, p: Principal, id: int) returns (r: Reply<string>)
    requires db.Valid()
    modifies db
    ensures db.Valid()
    ensures p.role != ADMIN ==> r == Failure(Forbidden, ONLY_ADMIN_DELETE) && unchanged(db)
    ensures p.role == ADMIN && id == p.userId ==> r == Failure(BadRequest, SELF_DELETE) && unchanged(db)
    ensures p.role == ADMIN && id != p.userId && FindUser(old(db.users), id).None? ==>
      r == Failure(NotFound, USER_NOT_FOUND) && unchanged(db)
    ensures p.role == ADMIN && id != p.userId && FindUser(old(db.users), id).Some? ==>
      if TripsOfDriver(old(db.trips), id) != [] then
        r == Failure(BadRequest, HAS_TRIPS) && unchanged(db)
      else
        && r == Success(Ok, DELETED)
        && db.Snapshot() == old(db.Snapshot()).(users := UsersWithout(old(db.users), id),
                                                 links := LinksWithoutDriver(old(db.links), id))
        && db.sequence == old(db.sequence)
  {
    if p.role != ADMIN {
      return Failure(Forbidden, ONLY_ADMIN_DELETE);
    }
    if id == p.userId {
      return Failure(BadRequest, SELF_DELETE);
    }
    if FindUser(db.users, id).None? {
      return Failure(NotFound, USER_NOT_FOUND);
    }
    if |TripsOfDriver(db.trips, id)| > 0 {
      return Failure(BadRequest, HAS_TRIPS);
    }
    var _ := db.DeleteLinksOfDriver(id);
    var _ := db.DeleteUser(id);
    r := Success(Ok, DELETED);
  }
}

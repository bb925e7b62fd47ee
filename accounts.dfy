/** The account lifecycle: registration, login, token refresh and the current-user
    reply, and the users routes (listing, own profile, own password, role change).
    Both route files work on one users table; the token ledger records every token
    the portal has signed. */
module Accounts {
  import opened Foundation
  import opened Text
  import opened Paging
  import opened Credentials
  import opened AuthGate

  /** A simplified address shape: one '@' with a non-empty local part before it
      and, after it, at least two dot-separated labels, none of them empty. */
  predicate EmailShape(s: string)
  {
    var parts := Split(s, '@');
    |parts| == 2 && parts[0] != "" &&
    var labels := Split(parts[1], '.');
    |labels| >= 2 && forall i :: 0 <= i < |labels| ==> labels[i] != ""
  }

  /** An email field: a required non-empty string of address shape. */
  predicate EmailOk(v: Option<string>)
  {
    TextOk(v, true, 0, None) && EmailShape(v.value)
  }

  datatype RegisterBody = RegisterBody(
    email: Option<string>, password: Option<string>, fullName: Option<string>,
    phone: Option<string>, address: Option<string>)

  function RegisterRules(b: RegisterBody): (rules: seq<Rule>)
    ensures Passes(rules) <==>
              EmailOk(b.email) && b.password.Some? && Utf16Length(b.password.value) >= 8 &&
              b.fullName.Some? && Utf16Length(b.fullName.value) >= 2 &&
              (b.phone.None? || b.phone.value != "") && (b.address.None? || b.address.value != "")
  {
    var rules := [Rule("email", EmailOk(b.email)),
     Rule("password", TextOk(b.password, true, 8, None)),
     Rule("fullName", TextOk(b.fullName, true, 2, None)),
     Rule("phone", TextOk(b.phone, false, 0, None)),
     Rule("address", TextOk(b.address, false, 0, None))];
    assert Passes(rules) <==> rules[0].ok && rules[1].ok && rules[2].ok && rules[3].ok && rules[4].ok;
    rules
  }

  datatype LoginBody = LoginBody(email: Option<string>, password: Option<string>)

  function LoginRules(b: LoginBody): (rules: seq<Rule>)
    ensures Passes(rules) <==> EmailOk(b.email) && b.password.Some? && b.password.value != ""
  {
    var rules := [Rule("email", EmailOk(b.email)),
     Rule("password", TextOk(b.password, true, 0, None))];
    assert Passes(rules) <==> rules[0].ok && rules[1].ok;
    rules
  }

  datatype ProfileBody = ProfileBody(fullName: Option<string>, phone: Option<string>, address: Option<string>)

  function ProfileRules(b: ProfileBody): (rules: seq<Rule>)
    ensures Passes(rules) <==>
              b.fullName.Some? && 2 <= Utf16Length(b.fullName.value) <= 255 &&
              (b.phone.None? || b.phone.value != "") && (b.address.None? || b.address.value != "")
  {
    var rules := [Rule("fullName", TextOk(b.fullName, true, 2, Some(255))),
     Rule("phone", TextOk(b.phone, false, 0, None)),
     Rule("address", TextOk(b.address, false, 0, None))];
    assert Passes(rules) <==> rules[0].ok && rules[1].ok && rules[2].ok;
    rules
  }

  datatype PasswordBody = PasswordBody(currentPassword: Option<string>, newPassword: Option<string>)

  function PasswordRules(b: PasswordBody): (rules: seq<Rule>)
    ensures Passes(rules) <==>
              b.currentPassword.Some? && b.currentPassword.value != "" &&
              b.newPassword.Some? && Utf16Length(b.newPassword.value) >= 8
  {
    var rules := [Rule("currentPassword", TextOk(b.currentPassword, true, 0, None)),
     Rule("newPassword", TextOk(b.newPassword, true, 8, None))];
    assert Passes(rules) <==> rules[0].ok && rules[1].ok;
    rules
  }

  /** The user object of the register and login replies: no password. */
  datatype Summary = Summary(id: Id, email: string, fullName: string, role: Role)

  function SummaryOf(u: User): Summary
  {
    Summary(u.id, u.email, u.fullName, u.role)
  }

  datatype Session = Session(user: Summary, accessToken: string, refreshToken: string)

  /** The row a registration inserts: the column defaults give role `warga` and an
      active account, and the password column holds the digest. */
  function NewUser(b: RegisterBody, id: Id, salt: nat, now: int): (u: User)
    requires b.email.Some? && b.password.Some? && b.fullName.Some?
    ensures u.id == id && u.email == b.email.value && u.fullName == b.fullName.value
    ensures u.role == Warga && u.isActive
    ensures Matches(b.password.value, u.password)
    ensures forall other :: Matches(other, u.password) <==> BcryptKey(other) == BcryptKey(b.password.value)
    ensures u.phone == b.phone && u.address == b.address && u.createdAt == now && u.updatedAt == now
  {
    User(id, b.email.value, Hash(b.password.value, salt), b.fullName.value, Warga, true, b.phone, b.address, now, now)
  }

  predicate EmailTaken(users: map<Id, User>, email: string)
  {
    exists id :: id in users && users[id].email == email
  }

  /** A token text as it travels in a header: non-empty and without spaces. */
  predicate TokenText(t: string)
  {
    t != "" && ' ' !in t
  }

  /** The columns the user listing selects: everything but the password. */
  datatype UserView = UserView(
    id: Id, email: string, fullName: string, role: Role, isActive: bool,
    phone: Option<string>, address: Option<string>, createdAt: int)

  function ViewOf(u: User): UserView
  {
    UserView(u.id, u.email, u.fullName, u.role, u.isActive, u.phone, u.address, u.createdAt)
  }

  /** Query string of the user listing; an absent or empty filter is not applied. */
  datatype UserQuery = UserQuery(page: Option<int>, limit: Option<int>, search: Option<string>, role: Option<string>)

  predicate UserMatches(u: User, search: Option<string>, role: Option<string>): (m: bool)
    ensures (search.None? || search.value == "") && (role.None? || role.value == "") ==> m
    ensures m && role.Some? && role.value != "" ==> RoleName(u.role) == role.value
    ensures m && search.Some? && search.value != "" ==>
              ILikeSubstring(u.fullName, search.value) || ILikeSubstring(u.email, search.value)
    ensures ((search.None? || search.value == "" ||
              ILikeSubstring(u.fullName, search.value) || ILikeSubstring(u.email, search.value)) &&
             (role.None? || role.value == "" || RoleName(u.role) == role.value)) ==> m
  {
    (search.None? || search.value == "" ||
     ILikeSubstring(u.fullName, search.value) || ILikeSubstring(u.email, search.value)) &&
    (role.None? || role.value == "" || RoleName(u.role) == role.value)
  }

  /** Searching for a piece of a user's full name or email, in its own letter
      case, finds that user among all roles. */
  lemma SearchFindsExactPiece(u: User, search: string)
    requires Contains(u.fullName, search) || Contains(u.email, search)
    ensures UserMatches(u, Some(search), None)
  {
    if Contains(u.fullName, search) {
      ILikeFindsExact(u.fullName, search);
    } else {
      ILikeFindsExact(u.email, search);
    }
  }

  /** Filtering by a user's own role name finds that user. */
  lemma RoleFilterFindsRole(u: User)
    ensures UserMatches(u, None, Some(RoleName(u.role)))
  {
  }

  /** Two searches that differ only in letter case find the same users. */
  lemma SearchIgnoresCase(u: User, s: string, t: string, role: Option<string>)
    requires |s| == |t| && forall i :: 0 <= i < |s| ==> LowerChar(s[i]) == LowerChar(t[i])
    ensures UserMatches(u, Some(s), role) <==> UserMatches(u, Some(t), role)
  {
    assert Lower(s) == Lower(t);
  }

  /** The candidate rows of a user listing, ordered by creation time alone. */
  function UserEntries(users: map<Id, User>, search: Option<string>, role: Option<string>): set<Entry<UserView>>
  {
    set id | id in users && UserMatches(users[id], search, role) :: Entry(id, SortKey(0, users[id].createdAt), ViewOf(users[id]))
  }

  /** `v` is the password-free view of a user row that passes both filters. */
  ghost predicate MatchingView(users: map<Id, User>, q: UserQuery, v: UserView)
  {
    exists id :: id in users && UserMatches(users[id], q.search, q.role) && v == ViewOf(users[id])
  }

  /** Every listed user is a row that matches both filters, shown without its
      password; a page holds at most `limit` of them. */
  lemma {:induction false} ListedUsersMatch(users: map<Id, User>, q: UserQuery, offset: nat, limit: nat, page: seq<UserView>)
    requires IsPage(UserEntries(users, q.search, q.role), offset, limit, page)
    ensures |page| <= limit
    ensures forall i :: 0 <= i < |page| ==> MatchingView(users, q, page[i])
  {
    var entries := UserEntries(users, q.search, q.role);
    PageRows(entries, offset, limit, page);
    forall i | 0 <= i < |page|
      ensures MatchingView(users, q, page[i])
    {
      assert RowOf(entries, page[i]);
      var e :| e in entries && e.row == page[i];
      var id :| id in users && UserMatches(users[id], q.search, q.role) &&
                e == Entry(id, SortKey(0, users[id].createdAt), ViewOf(users[id]));
      assert page[i] == ViewOf(users[id]);
    }
  }

  /** The columns the profile update returns. */
  datatype ProfileRow = ProfileRow(id: Id, email: string, fullName: string, role: Role,
                                   phone: Option<string>, address: Option<string>)

  /** The columns the role update returns. */
  datatype RoleRow = RoleRow(id: Id, fullName: string, role: Role)

  const EmailRegistered := Failure(400, Text("Email already registered"))
  const BadCredentials := Failure(401, Text("Invalid credentials"))
  const Deactivated := Failure(401, Text("Account is deactivated"))
  const RefreshRequired := Failure(401, Text("Refresh token required"))
  const RefreshRefused := Failure(403, Text("Invalid refresh token"))
  const RefreshUserGone := Failure(401, Text("Invalid refresh token"))
  const WrongPassword := Failure(400, Text("Current password is incorrect"))
  const BadRole := Failure(400, Text("Invalid role"))
  const NoSuchUser := Failure(404, Text("User not found"))

  /** `/auth/me`: the identity the gate attached, read from the live row. */
  function Me(header: Option<string>, users: map<Id, User>, ledger: Ledger, now: int): (r: Result<Identity>)
    requires forall id :: id in users ==> users[id].id == id
    ensures r.Ok? ==> r.value.id in users && users[r.value.id].isActive && r.value == IdentityOf(users[r.value.id])
    ensures r.Err? ==> r.failure.status in {401, 403}
    ensures r.Ok? <==> Authenticate(header, users, ledger, now).Proceed?
    ensures r.Ok? ==> r.value == Authenticate(header, users, ledger, now).user
    ensures r.Err? ==> r.failure == Authenticate(header, users, ledger, now).failure
  {
    match Authenticate(header, users, ledger, now)
    case Proceed(who) => Ok(who)
    case Deny(failure) => Err(failure)
  }

  /** The users table and the ledger of signed tokens. */
  class UserStore {
    var users: map<Id, User>
    var ledger: Ledger

    /** Rows are keyed by their id, emails are unique (the column's UNIQUE
        constraint), and every signed token names a user of the table. */
    ghost predicate Valid()
      reads this
    {
      (forall id :: id in users ==> users[id].id == id) &&
      (forall a, b :: a in users && b in users && users[a].email == users[b].email ==> a == b) &&
      (forall t :: t in ledger ==> ledger[t].claims.userId in users)
    }

    constructor ()
      ensures Valid() && users == map[] && ledger == map[]
    {
      users := map[];
      ledger := map[];
    }

    /** POST /auth/register. `newId` is the id the store generates, `salt` the salt
        bcrypt draws, and the two token texts the signatures of the new user's
        grants, which no earlier token can share. */
    method Register(body: RegisterBody, newId: Id, salt: nat, now: int, accessToken: string, refreshToken: string)
      returns (r: Result<Session>)
      requires Valid()
      requires newId !in users
      requires accessToken !in ledger && refreshToken !in ledger && accessToken != refreshToken
      modifies this
      ensures Valid()
      ensures Validate(RegisterRules(body)).Some? ==>
                r == Err(Validate(RegisterRules(body)).value) && users == old(users) && ledger == old(ledger)
      ensures Validate(RegisterRules(body)).None? && EmailTaken(old(users), body.email.value) ==>
                r == Err(EmailRegistered) && users == old(users) && ledger == old(ledger)
      ensures r.Ok? <==> Validate(RegisterRules(body)).None? && !EmailTaken(old(users), body.email.value)
      ensures r.Ok? ==>
                var u := NewUser(body, newId, salt, now);
                users == old(users)[newId := u] &&
                ledger == SignPair(old(ledger), u, now, accessToken, refreshToken) &&
                r.value == Session(SummaryOf(u), accessToken, refreshToken)
    {
      var invalid := Validate(RegisterRules(body));
      if invalid.Some? {
        return Err(invalid.value);
      }
      if exists id :: id in users && users[id].email == body.email.value {
        return Err(EmailRegistered);
      }
      var u := NewUser(body, newId, salt, now);
      users := users[newId := u];
      ledger := SignPair(ledger, u, now, accessToken, refreshToken);
      r := Ok(Session(SummaryOf(u), accessToken, refreshToken));
    }

    /** POST /auth/login. The token texts are the signatures of the grants of
        whichever user logs in. */
    method Login(body: LoginBody, now: int, accessToken: string, refreshToken: string)
      returns (r: Result<Session>)
      requires Valid()
      requires accessToken != refreshToken
      requires forall id :: id in users ==>
                 Fresh(ledger, accessToken, AccessGrant(users[id], now)) &&
                 Fresh(ledger, refreshToken, RefreshGrant(users[id], now))
      modifies this
      ensures Valid() && users == old(users)
      ensures r.Err? ==> ledger == old(ledger)
      ensures Validate(LoginRules(body)).Some? ==> r == Err(Validate(LoginRules(body)).value)
      ensures Validate(LoginRules(body)).None? ==>
                (r == Err(BadCredentials) <==>
                   !EmailTaken(users, body.email.value) ||
                   exists id :: id in users && users[id].email == body.email.value &&
                                users[id].isActive && !Matches(body.password.value, users[id].password))
      ensures Validate(LoginRules(body)).None? && r.Err? ==> r == Err(BadCredentials) || r == Err(Deactivated)
      ensures Validate(LoginRules(body)).None? ==>
                (r == Err(Deactivated) <==>
                   exists id :: id in users && users[id].email == body.email.value && !users[id].isActive)
      ensures r.Ok? ==>
                Validate(LoginRules(body)).None? &&
                exists id :: id in users && users[id].email == body.email.value && users[id].isActive &&
                             Matches(body.password.value, users[id].password) &&
                             r.value == Session(SummaryOf(users[id]), accessToken, refreshToken) &&
                             ledger == SignPair(old(ledger), old(users)[id], now, accessToken, refreshToken)
    {
      var invalid := Validate(LoginRules(body));
      if invalid.Some? {
        return Err(invalid.value);
      }
      var email, password := body.email.value, body.password.value;
      if !exists id :: id in users && users[id].email == email {
        return Err(BadCredentials);
      }
      var id :| id in users && users[id].email == email;
      var u := users[id];
      if !u.isActive {
        return Err(Deactivated);
      }
      if !Matches(password, u.password) {
        return Err(BadCredentials);
      }
      ledger := SignPair(ledger, u, now, accessToken, refreshToken);
      r := Ok(Session(SummaryOf(u), accessToken, refreshToken));
    }

    /** POST /auth/refresh: a new access token, and only that, for the live row of the
        refresh token's user. The new token then passes the auth gate. */
    method Refresh(refreshToken: Option<string>, now: int, accessToken: string) returns (r: Result<string>)
      requires Valid()
      requires TokenText(accessToken)
      requires forall id :: id in users ==> Fresh(ledger, accessToken, AccessGrant(users[id], now))
      modifies this
      ensures Valid() && users == old(users)
      ensures r.Err? ==> ledger == old(ledger)
      ensures r == Err(RefreshRequired) <==> refreshToken.None? || refreshToken.value == ""
      ensures r == Err(RefreshRefused) <==>
                refreshToken.Some? && refreshToken.value != "" &&
                Verify(old(ledger), refreshToken.value, RefreshSecret, now).None?
      ensures r.Ok? <==>
                refreshToken.Some? && refreshToken.value != "" &&
                Verify(old(ledger), refreshToken.value, RefreshSecret, now).Some? &&
                var uid := Verify(old(ledger), refreshToken.value, RefreshSecret, now).value.userId;
                uid in users && users[uid].isActive
      ensures r.Ok? ==>
                var uid := Verify(old(ledger), refreshToken.value, RefreshSecret, now).value.userId;
                r.value == accessToken &&
                ledger == Sign(old(ledger), accessToken, AccessGrant(users[uid], now)) &&
                Authenticate(Some("Bearer " + accessToken), users, ledger, now) == Proceed(IdentityOf(users[uid]))
      ensures r.Err? ==> r.failure in {RefreshRequired, RefreshRefused, RefreshUserGone}
    {
      if refreshToken.None? || refreshToken.value == "" {
        return Err(RefreshRequired);
      }
      var claims := Verify(ledger, refreshToken.value, RefreshSecret, now);
      if claims.None? {
        return Err(RefreshRefused);
      }
      var uid := claims.value.userId;
      if uid !in users || !users[uid].isActive {
        return Err(RefreshUserGone);
      }
      ledger := Sign(ledger, accessToken, AccessGrant(users[uid], now));
      BearerTokenOfHeader("Bearer", accessToken);
      assert "Bearer" + " " + accessToken == "Bearer " + accessToken;
      r := Ok(accessToken);
    }

    /** GET /users, behind `authorizeRoles('admin', 'super_admin')`. Page 1 and 20
        rows per page when the query does not say otherwise. */
    method ListUsers(caller: Identity, q: UserQuery) returns (r: Result<seq<UserView>>)
      requires Valid()
      ensures r == Err(Forbidden) <==> caller.role !in {Admin, SuperAdmin}
      ensures caller.role in {Admin, SuperAdmin} ==>
                var page := if q.page.Some? then q.page.value else 1;
                var limit := if q.limit.Some? then q.limit.value else 20;
                match Bounds(page, limit)
                case Err(f) => r == Err(f)
                case Ok(window) =>
                  r.Ok? && IsPage(UserEntries(users, q.search, q.role), window.0, window.1, r.value)
    {
      var denied := RoleGate(caller, {Admin, SuperAdmin});
      if denied.Some? {
        return Err(denied.value);
      }
      var page := if q.page.Some? then q.page.value else 1;
      var limit := if q.limit.Some? then q.limit.value else 20;
      var bounds := Bounds(page, limit);
      if bounds.Err? {
        return Err(bounds.failure);
      }
      var order := Arrange(UserEntries(users, q.search, q.role));
      r := Ok(Rows(Window(order, bounds.value.0, bounds.value.1)));
    }

    /** PUT /users/profile: rewrites name, phone and address of the caller's own row
        (an absent phone or address is stored as NULL); no other row and no other
        column changes. A caller without a row gets a reply without a user. */
    method UpdateProfile(caller: Identity, body: ProfileBody, now: int) returns (r: Result<Option<ProfileRow>>)
      requires Valid()
      modifies this
      ensures Valid() && ledger == old(ledger)
      ensures Validate(ProfileRules(body)).Some? ==>
                r == Err(Validate(ProfileRules(body)).value) && users == old(users)
      ensures Validate(ProfileRules(body)).None? && caller.id !in old(users) ==>
                r == Ok(None) && users == old(users)
      ensures Validate(ProfileRules(body)).None? && caller.id in old(users) ==>
                var u := old(users)[caller.id];
                var v := u.(fullName := body.fullName.value, phone := body.phone, address := body.address, updatedAt := now);
                users == old(users)[caller.id := v] &&
                r == Ok(Some(ProfileRow(v.id, v.email, v.fullName, v.role, v.phone, v.address)))
    {
      var invalid := Validate(ProfileRules(body));
      if invalid.Some? {
        return Err(invalid.value);
      }
      if caller.id !in users {
        return Ok(None);
      }
      var v := users[caller.id].(fullName := body.fullName.value, phone := body.phone, address := body.address, updatedAt := now);
      users := users[caller.id := v];
      r := Ok(Some(ProfileRow(v.id, v.email, v.fullName, v.role, v.phone, v.address)));
    }

    /** PUT /users/password: the caller's digest is replaced by one of the new
        password once the current one matches; nothing else changes. A caller
        without a row makes the handler fail. */
    method ChangePassword(caller: Identity, body: PasswordBody, salt: nat, now: int) returns (r: Result<()>)
      requires Valid()
      modifies this
      ensures Valid() && ledger == old(ledger)
      ensures r.Err? ==> users == old(users)
      ensures Validate(PasswordRules(body)).Some? ==> r == Err(Validate(PasswordRules(body)).value)
      ensures Validate(PasswordRules(body)).None? && caller.id !in old(users) ==> r == Err(StoreError())
      ensures Validate(PasswordRules(body)).None? && caller.id in old(users) ==>
                (r == Err(WrongPassword) <==> !Matches(body.currentPassword.value, old(users)[caller.id].password))
      ensures r.Ok? <==>
                Validate(PasswordRules(body)).None? && caller.id in old(users) &&
                Matches(body.currentPassword.value, old(users)[caller.id].password)
      ensures r.Ok? ==>
                Validate(PasswordRules(body)).None? && caller.id in old(users) &&
                Matches(body.currentPassword.value, old(users)[caller.id].password) &&
                users == old(users)[caller.id := old(users)[caller.id].(password := Hash(body.newPassword.value, salt), updatedAt := now)]
    {
      var invalid := Validate(PasswordRules(body));
      if invalid.Some? {
        return Err(invalid.value);
      }
      if caller.id !in users {
        return Err(StoreError());
      }
      if !Matches(body.currentPassword.value, users[caller.id].password) {
        return Err(WrongPassword);
      }
      users := users[caller.id := users[caller.id].(password := Hash(body.newPassword.value, salt), updatedAt := now)];
      r := Ok(());
    }

    /** PATCH /users/:id/role, behind `authorizeRoles('super_admin')`. */
    method UpdateRole(caller: Identity, id: Id, role: Option<string>, now: int) returns (r: Result<RoleRow>)
      requires Valid()
      modifies this
      ensures Valid() && ledger == old(ledger)
      ensures r.Err? ==> users == old(users)
      ensures r == Err(Forbidden) <==> caller.role != SuperAdmin
      ensures caller.role == SuperAdmin ==>
                (r == Err(BadRole) <==> role.None? || ParseRole(role.value).None?)
      ensures caller.role == SuperAdmin && role.Some? && ParseRole(role.value).Some? ==>
                (r == Err(NoSuchUser) <==> id !in old(users))
      ensures r.Ok? <==>
                caller.role == SuperAdmin && role.Some? && ParseRole(role.value).Some? && id in old(users)
      ensures r.Ok? ==>
                caller.role == SuperAdmin && role.Some? && ParseRole(role.value).Some? && id in old(users) &&
                var v := old(users)[id].(role := ParseRole(role.value).value, updatedAt := now);
                users == old(users)[id := v] && r.value == RoleRow(id, v.fullName, v.role)
    {
      var denied := RoleGate(caller, {SuperAdmin});
      if denied.Some? {
        return Err(denied.value);
      }
      if role.None? || ParseRole(role.value).None? {
        return Err(BadRole);
      }
      if id !in users {
        return Err(NoSuchUser);
      }
      var v := users[id].(role := ParseRole(role.value).value, updatedAt := now);
      users := users[id := v];
      r := Ok(RoleRow(id, v.fullName, v.role));
    }
  }

  /** A resident who has just registered can log in at once with the same email
      and password, as a `warga`, and receives the tokens of the login. */
  method RegisterThenLogin(store: UserStore, body: RegisterBody, newId: Id, salt: nat, now: int,
                           t1: string, t2: string, t3: string, t4: string)
    returns (session: Result<Session>)
    requires store.Valid() && newId !in store.users
    requires Passes(RegisterRules(body)) && !EmailTaken(store.users, body.email.value)
    requires t1 !in store.ledger && t2 !in store.ledger && t3 !in store.ledger && t4 !in store.ledger
    requires t1 != t2 && t3 != t4 && t3 != t1 && t3 != t2 && t4 != t1 && t4 != t2
    modifies store
    ensures store.Valid() && newId in store.users
    ensures store.users[newId].role == Warga && store.users[newId].email == body.email.value
    ensures session == Ok(Session(SummaryOf(store.users[newId]), t3, t4))
  {
    var registered := store.Register(body, newId, salt, now, t1, t2);
    assert registered.Ok?;
    var login := LoginBody(body.email, body.password);
    assert Passes(LoginRules(login));
    assert t3 !in store.ledger && t4 !in store.ledger;
    session := store.Login(login, now, t3, t4);
    assert forall id :: id in store.users && store.users[id].email == body.email.value ==> id == newId;
    assert EmailTaken(store.users, body.email.value);
  }
}

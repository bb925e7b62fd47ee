/** The two request gates every protected route is built from: `authenticateToken`,
    which turns the Authorization header into the identity of a live, active user
    row, and `authorizeRoles`, which admits only the listed roles. */
module AuthGate {
  import opened Foundation
  import opened Text
  import opened Credentials

  /** `authHeader && authHeader.split(' ')[1]`: the second space-separated field of
      the header, whatever the first one says; absent or empty means no token. */
  function BearerToken(header: Option<string>): (token: Option<string>)
    ensures token.Some? <==>
              header.Some? && |Split(header.value, ' ')| >= 2 && Split(header.value, ' ')[1] != ""
    ensures token.Some? ==> token.value == Split(header.value, ' ')[1] && token.value != "" && ' ' !in token.value
  {
    if header.None? || header.value == "" then None
    else
      var fields := Split(header.value, ' ');
      if |fields| < 2 || fields[1] == "" then None else Some(fields[1])
  }

  /** Any scheme word followed by one space and the token yields the token: the
      scheme is never checked. */
  lemma {:induction false} BearerTokenOfHeader(scheme: string, token: string)
    requires ' ' !in scheme && ' ' !in token && token != ""
    ensures BearerToken(Some(scheme + " " + token)) == Some(token)
  {
    SplitAfterWord(scheme, ' ', token);
    SplitWord(token, ' ');
    assert scheme + " " + token == scheme + [' '] + token;
  }

  /** A header that is a single word carries no token. */
  lemma {:induction false} OneWordHeaderHasNoToken(word: string)
    requires ' ' !in word
    ensures BearerToken(Some(word)).None?
  {
    SplitWord(word, ' ');
  }

  datatype GateOutcome = Proceed(user: Identity) | Deny(failure: Failure)

  const TokenRequired := Failure(401, Text("Access token required"))
  const TokenRefused := Failure(403, Text("Invalid token"))
  const TokenUserGone := Failure(401, Text("Invalid token"))

  /** `authenticateToken`: no token gives 401, a token that does not verify with
      the access key (bad signature, expired, wrong kind) gives 403, a verified token
      whose user is missing or inactive gives 401; otherwise the request proceeds
      with the identity read from the current users row. */
  function Authenticate(header: Option<string>, users: map<Id, User>, ledger: Ledger, now: int)
    : (o: GateOutcome)
    ensures o == Deny(TokenRequired) <==> BearerToken(header).None?
    ensures o == Deny(TokenRefused) <==>
              BearerToken(header).Some? && Verify(ledger, BearerToken(header).value, AccessSecret, now).None?
    ensures o.Proceed? <==>
              BearerToken(header).Some? && Verify(ledger, BearerToken(header).value, AccessSecret, now).Some? &&
              var uid := Verify(ledger, BearerToken(header).value, AccessSecret, now).value.userId;
              uid in users && users[uid].isActive
    ensures o.Proceed? ==>
              var uid := Verify(ledger, BearerToken(header).value, AccessSecret, now).value.userId;
              o.user == IdentityOf(users[uid])
    ensures o.Deny? ==> o.failure in {TokenRequired, TokenRefused, TokenUserGone}
  {
    match BearerToken(header)
    case None => Deny(TokenRequired)
    case Some(token) =>
      match Verify(ledger, token, AccessSecret, now)
      case None => Deny(TokenRefused)
      case Some(claims) =>
        if claims.userId !in users || !users[claims.userId].isActive then Deny(TokenUserGone)
        else Proceed(IdentityOf(users[claims.userId]))
  }

  /** The identity comes from the row, not from the token: a user whose role was
      changed after the token was issued proceeds with the new role. */
  lemma IdentityFromCurrentRow(header: Option<string>, users: map<Id, User>, ledger: Ledger, now: int, u: User, issued: int)
    requires BearerToken(header).Some? && BearerToken(header).value in ledger
    requires ledger[BearerToken(header).value] == AccessGrant(u, issued)
    requires now < issued + 3600
    requires u.id in users && users[u.id].isActive
    ensures Authenticate(header, users, ledger, now) == Proceed(IdentityOf(users[u.id]))
    ensures users[u.id].role != u.role ==> Authenticate(header, users, ledger, now).user.role != u.role
  {
  }

  /** A deactivated account is turned away with 401 even while its token is valid. */
  lemma DeactivatedUserRejected(header: Option<string>, users: map<Id, User>, ledger: Ledger, now: int, u: User, issued: int)
    requires BearerToken(header).Some? && BearerToken(header).value in ledger
    requires ledger[BearerToken(header).value] == AccessGrant(u, issued)
    requires now < issued + 3600
    requires u.id in users && !users[u.id].isActive
    ensures Authenticate(header, users, ledger, now) == Deny(TokenUserGone)
  {
  }

  /** A refresh token presented as an access token is refused with 403. */
  lemma RefreshTokenRefused(header: Option<string>, users: map<Id, User>, ledger: Ledger, now: int, u: User, issued: int)
    requires BearerToken(header).Some? && BearerToken(header).value in ledger
    requires ledger[BearerToken(header).value] == RefreshGrant(u, issued)
    ensures Authenticate(header, users, ledger, now) == Deny(TokenRefused)
  {
  }

  /** `authorizeRoles(...roles)`: an identity is attached and its role is listed. */
  predicate Authorized(user: Option<Identity>, roles: set<Role>)
  {
    user.Some? && user.value.role in roles
  }

  const Forbidden := Failure(403, Text("Insufficient permissions"))

  /** Listing more roles never turns an admitted request away. */
  lemma AuthorizedMonotone(user: Option<Identity>, roles: set<Role>, more: set<Role>)
    requires roles <= more
    ensures Authorized(user, roles) ==> Authorized(user, more)
    ensures !Authorized(user, more) ==> !Authorized(user, roles)
  {
  }

  /** The gate for handlers that follow `authenticateToken`: the 403 reply, if any. */
  function RoleGate(caller: Identity, roles: set<Role>): (denied: Option<Failure>)
    ensures denied.None? <==> caller.role in roles
    ensures denied.Some? ==> denied.value == Forbidden
  {
    if Authorized(Some(caller), roles) then None else Some(Forbidden)
  }

  /** The request as the gates see it: the header they read, the identity the first
      gate attaches, how often `next` was called, and the error reply sent, if any. */
  class Request {
    var authorization: Option<string>
    var user: Option<Identity>
    var nextCalls: nat
    var reply: Option<Failure>

    constructor (authorization: Option<string>)
      ensures this.authorization == authorization && user.None? && nextCalls == 0 && reply.None?
    {
      this.authorization := authorization;
      user := None;
      nextCalls := 0;
      reply := None;
    }

    /** `authenticateToken`: attaches the identity and calls `next` once, or replies
        with the gate's error and leaves the identity alone. */
    method AuthenticateToken(users: map<Id, User>, ledger: Ledger, now: int)
      modifies this
      ensures authorization == old(authorization)
      ensures Authenticate(old(authorization), users, ledger, now).Proceed? ==>
                user == Some(Authenticate(old(authorization), users, ledger, now).user) &&
                nextCalls == old(nextCalls) + 1 && reply == old(reply)
      ensures Authenticate(old(authorization), users, ledger, now).Deny? ==>
                user == old(user) && nextCalls == old(nextCalls) &&
                reply == Some(Authenticate(old(authorization), users, ledger, now).failure)
    {
      var outcome := Authenticate(authorization, users, ledger, now);
      match outcome {
        case Proceed(who) =>
          user := Some(who);
          nextCalls := nextCalls + 1;
        case Deny(failure) =>
          reply := Some(failure);
      }
    }

    /** `authorizeRoles(...roles)`: never changes the request beyond its reply and
        the `next` call. */
    method AuthorizeRoles(roles: set<Role>)
      modifies this
      ensures authorization == old(authorization) && user == old(user)
      ensures Authorized(user, roles) ==> nextCalls == old(nextCalls) + 1 && reply == old(reply)
      ensures !Authorized(user, roles) ==> nextCalls == old(nextCalls) && reply == Some(Forbidden)
    {
      if Authorized(user, roles) {
        nextCalls := nextCalls + 1;
      } else {
        reply := Some(Forbidden);
      }
    }
  }

  /** A request that passes both gates in turn reaches its handler with the
      identity of an active user whose role is listed. */
  method Guard(r: Request, users: map<Id, User>, ledger: Ledger, now: int, roles: set<Role>)
    requires r.user.None? && r.nextCalls == 0 && r.reply.None?
    requires forall id :: id in users ==> users[id].id == id
    modifies r
    ensures r.nextCalls == 2 <==>
              Authenticate(r.authorization, users, ledger, now).Proceed? &&
              Authenticate(r.authorization, users, ledger, now).user.role in roles
    ensures r.nextCalls == 2 ==>
              r.user.Some? && r.user.value.id in users && users[r.user.value.id].isActive &&
              r.user.value.role in roles && r.reply.None?
  {
    r.AuthenticateToken(users, ledger, now);
    if r.reply.None? {
      r.AuthorizeRoles(roles);
    }
  }
}

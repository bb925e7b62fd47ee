/** Users and the two foreign services that guard them: password hashing (bcrypt)
    and signed tokens (JSON Web Tokens). Both services are modelled ideally: a digest
    matches exactly the plaintexts whose bcrypt key (the first 72 bytes) equals that
    of the plaintext it was made from, and a token verifies exactly when
    it was signed with the secret it is checked against and has not yet expired. */
module Credentials {
  import opened Foundation

  /** A bcrypt digest. `salt` stands for the random salt of each hashing call, so two
      digests of one password need not be equal; the plaintext itself is never
      stored anywhere else. */
  datatype Digest = Digest(salt: nat, plain: string)

  /** The UTF-8 bytes of one character. */
  function Utf8Char(c: char): (b: seq<int>)
    ensures 1 <= |b| <= 4
    ensures forall i :: 0 <= i < |b| ==> 0 <= b[i] < 256
  {
    var n := c as int;
    if n < 0x80 then [n]
    else if n < 0x800 then [0xC0 + n / 0x40, 0x80 + n % 0x40]
    else if n < 0x1_0000 then [0xE0 + n / 0x1000, 0x80 + n / 0x40 % 0x40, 0x80 + n % 0x40]
    else [0xF0 + n / 0x4_0000, 0x80 + n / 0x1000 % 0x40, 0x80 + n / 0x40 % 0x40, 0x80 + n % 0x40]
  }

  /** The UTF-8 encoding of a text, the bytes bcrypt reads. */
  function Utf8(s: string): (b: seq<int>)
    ensures |s| <= |b| <= 4 * |s|
  {
    if |s| == 0 then [] else Utf8Char(s[0]) + Utf8(s[1..])
  }

  /** Encoding distributes over concatenation. */
  lemma {:induction false} Utf8Append(a: string, b: string)
    ensures Utf8(a + b) == Utf8(a) + Utf8(b)
    decreases |a|
  {
    if |a| == 0 {
      assert a + b == b;
    } else {
      assert (a + b)[0] == a[0] && (a + b)[1..] == a[1..] + b;
      Utf8Append(a[1..], b);
      assert Utf8Char(a[0]) + (Utf8(a[1..]) + Utf8(b)) == (Utf8Char(a[0]) + Utf8(a[1..])) + Utf8(b);
    }
  }

  /** The first `n` bytes of `bytes` repeated without end. */
  function Cycle(bytes: seq<int>, n: nat): (c: seq<int>)
    requires |bytes| > 0
    ensures |c| == n
    decreases n
  {
    if n <= |bytes| then bytes[..n] else bytes + Cycle(bytes, n - |bytes|)
  }

  /** bcrypt's key: the password's bytes and a closing zero byte, repeated as often
      as needed, of which the first 72 bytes are used. */
  function BcryptKey(plain: string): (k: seq<int>)
    ensures |k| == 72
  {
    Cycle(Utf8(plain) + [0], 72)
  }

  /** `bcrypt.hash(plain, 12)` with the salt the call drew. */
  function Hash(plain: string, salt: nat): (d: Digest)
    ensures Matches(plain, d)
    ensures forall other :: Matches(other, d) <==> BcryptKey(other) == BcryptKey(plain)
  {
    Digest(salt, plain)
  }

  /** `bcrypt.compare(plain, digest)`: the blowfish keys of the two agree. */
  predicate Matches(plain: string, d: Digest): (m: bool)
    ensures plain == d.plain ==> m
  {
    BcryptKey(plain) == BcryptKey(d.plain)
  }

  /** Only the first 72 bytes of a password count: what follows them leaves the
      key unchanged. */
  lemma KeyOfLongPassword(prefix: string, rest: string)
    requires |Utf8(prefix)| >= 72
    ensures BcryptKey(prefix + rest) == BcryptKey(prefix)
  {
    Utf8Append(prefix, rest);
    assert (Utf8(prefix + rest) + [0])[..72] == Utf8(prefix)[..72] == (Utf8(prefix) + [0])[..72];
  }

  /** A password shorter than 72 bytes is wholly in its key, followed by the zero
      byte. */
  lemma KeyOfShortPassword(plain: string)
    requires |Utf8(plain)| < 72
    ensures BcryptKey(plain)[..|Utf8(plain)| + 1] == Utf8(plain) + [0]
  {
    var bytes := Utf8(plain) + [0];
    if |bytes| < 72 {
      assert BcryptKey(plain) == bytes + Cycle(bytes, 72 - |bytes|);
    }
  }

  /** Two passwords that share a prefix of at least 72 bytes match each other's
      digest, whatever follows. */
  lemma LongPasswordsCollide(prefix: string, x: string, y: string, salt: nat)
    requires |Utf8(prefix)| >= 72
    ensures Matches(prefix + x, Hash(prefix + y, salt))
  {
    KeyOfLongPassword(prefix, x);
    KeyOfLongPassword(prefix, y);
  }

  /** A row of the users table. */
  datatype User = User(
    id: Id, email: string, password: Digest, fullName: string, role: Role,
    isActive: bool, phone: Option<string>, address: Option<string>,
    createdAt: int, updatedAt: int)

  /** What the auth gate attaches to a request. */
  datatype Identity = Identity(id: Id, email: string, role: Role, fullName: string)

  function IdentityOf(u: User): (who: Identity)
    ensures who.id == u.id && who.email == u.email && who.role == u.role && who.fullName == u.fullName
  {
    Identity(u.id, u.email, u.role, u.fullName)
  }

  /** The two signing keys: JWT_SECRET for access tokens and REFRESH_TOKEN_SECRET
      for refresh tokens. They are taken to be different keys. */
  datatype Secret = AccessSecret | RefreshSecret

  /** Token payload: a refresh token carries only the user id. */
  datatype Claims = Claims(userId: Id, email: Option<string>, role: Option<Role>)

  /** A signed token: its payload, its key, the second it was issued and its lifetime. */
  datatype Grant = Grant(claims: Claims, secret: Secret, issuedAt: int, lifetime: nat)

  const AccessLifetime: nat := 60 * 60            // '1h'
  const RefreshLifetime: nat := 7 * 24 * 60 * 60  // '7d'

  /** The access token of a user row, issued at `now`. */
  function AccessGrant(u: User, now: int): (g: Grant)
    ensures g.claims == Claims(u.id, Some(u.email), Some(u.role))
    ensures g.secret == AccessSecret && g.issuedAt == now && g.lifetime == 3600
  {
    Grant(Claims(u.id, Some(u.email), Some(u.role)), AccessSecret, now, AccessLifetime)
  }

  /** The refresh token of a user row, issued at `now`: the id and nothing else. */
  function RefreshGrant(u: User, now: int): (g: Grant)
    ensures g.claims == Claims(u.id, None, None)
    ensures g.secret == RefreshSecret && g.issuedAt == now && g.lifetime == 604800
  {
    Grant(Claims(u.id, None, None), RefreshSecret, now, RefreshLifetime)
  }

  /** Every token ever signed, by its text. Signing is deterministic, so one text
      never stands for two different grants. */
  type Ledger = map<string, Grant>

  /** `token` may be the text of signing `g`: it is new, or already stands for `g`. */
  predicate Fresh(ledger: Ledger, token: string, g: Grant)
  {
    token !in ledger || ledger[token] == g
  }

  /** `jwt.sign`: records the token text of grant `g`. */
  function Sign(ledger: Ledger, token: string, g: Grant): (after: Ledger)
    requires Fresh(ledger, token, g)
    ensures token in after && after[token] == g
    ensures forall t :: t != token ==> (t in after <==> t in ledger)
    ensures forall t :: t in ledger ==> t in after && after[t] == ledger[t]
  {
    ledger[token := g]
  }

  /** Signs the access token and then the refresh token of one user row. */
  function SignPair(ledger: Ledger, u: User, now: int, accessToken: string, refreshToken: string): (after: Ledger)
    requires accessToken != refreshToken
    requires Fresh(ledger, accessToken, AccessGrant(u, now)) && Fresh(ledger, refreshToken, RefreshGrant(u, now))
    ensures accessToken in after && after[accessToken] == AccessGrant(u, now)
    ensures refreshToken in after && after[refreshToken] == RefreshGrant(u, now)
    ensures forall t :: t != accessToken && t != refreshToken ==> (t in after <==> t in ledger)
    ensures forall t :: t in ledger ==> t in after && after[t] == ledger[t]
  {
    Sign(Sign(ledger, accessToken, AccessGrant(u, now)), refreshToken, RefreshGrant(u, now))
  }

  /** `jwt.verify(token, secret)` at second `now`: the payload when the token was
      signed with that secret and has not expired, nothing otherwise. */
  function Verify(ledger: Ledger, token: string, secret: Secret, now: int): (c: Option<Claims>)
    ensures c.Some? ==> token in ledger && c.value == ledger[token].claims
    ensures c.Some? <==>
              token in ledger && ledger[token].secret == secret && now < ledger[token].issuedAt + ledger[token].lifetime
  {
    if token in ledger && ledger[token].secret == secret && now < ledger[token].issuedAt + ledger[token].lifetime
    then Some(ledger[token].claims)
    else None
  }

  /** A freshly signed token verifies with its own key until its lifetime is over,
      and never with the other key; every other token verifies as before. */
  lemma SignThenVerify(ledger: Ledger, token: string, g: Grant, now: int, other: string, s: Secret)
    requires Fresh(ledger, token, g)
    ensures Verify(Sign(ledger, token, g), token, g.secret, now) ==
              (if now < g.issuedAt + g.lifetime then Some(g.claims) else None)
    ensures s != g.secret ==> Verify(Sign(ledger, token, g), token, s, now).None?
    ensures other != token ==> Verify(Sign(ledger, token, g), other, s, now) == Verify(ledger, other, s, now)
  {
  }

  /** A refresh token is never accepted where an access token is expected, and an
      access token is never accepted where a refresh token is expected. */
  lemma KindsDoNotMix(ledger: Ledger, token: string, u: User, issued: int, now: int)
    ensures token in ledger && ledger[token] == RefreshGrant(u, issued) ==>
              Verify(ledger, token, AccessSecret, now).None?
    ensures token in ledger && ledger[token] == AccessGrant(u, issued) ==>
              Verify(ledger, token, RefreshSecret, now).None?
  {
  }

  /** An access token is accepted for one hour after it is issued and never after. */
  lemma AccessTokenLifetime(ledger: Ledger, token: string, u: User, issued: int, now: int)
    requires token in ledger && ledger[token] == AccessGrant(u, issued)
    ensures Verify(ledger, token, AccessSecret, now).Some? <==> now < issued + 3600
  {
  }
}

/**
 * manage.py: issuing and checking access tokens, and checking a login.
 *
 * The secret key, the signing algorithm and the token lifetime come from the
 * environment; here they are the fields of `Settings`. The current time is a
 * parameter, in whole seconds since the epoch (the resolution of a
 * NumericDate).
 */
module Manage {
  import opened Wrappers
  import opened Models
  import opened Jwt
  import Passwords
  import Db

  datatype Settings = Settings(secretKey: string, algorithm: string, accessTokenExpireMinutes: int)

  /** The instant a token issued at `now` expires: `now` plus the configured number of minutes. */
  function ExpiryOf(now: int, cfg: Settings): int
  {
    now + 60 * cfg.accessTokenExpireMinutes
  }

  /**
   * `create_access_token`: sign a copy of `data` to which the "exp" claim has
   * been added (replacing any "exp" already in `data`). `data` is a value, so
   * the caller's dictionary is untouched.
   */
  function CreateAccessToken(data: Claims, now: int, cfg: Settings): (token: Token)
    ensures token.Signed? && token.key == cfg.secretKey && token.alg == cfg.algorithm
    ensures token.claims.Keys == data.Keys + {Exp}
    ensures token.claims[Exp] == Num(ExpiryOf(now, cfg))
    ensures forall name :: name in data && name != Exp ==> token.claims[name] == data[name]
  {
    Encode(data[Exp := Num(ExpiryOf(now, cfg))], cfg.secretKey, cfg.algorithm)
  }

  /**
   * `verify_token`: the "sub" claim of a token that decodes under the
   * configured key and algorithm at `now`; `None` where the credentials
   * exception is raised (any decoding failure, or no "sub" claim).
   */
  function VerifyToken(token: Token, now: int, cfg: Settings): (subject: Option<string>)
    ensures subject.Some? <==>
      Decode(token, cfg.secretKey, cfg.algorithm, now).Some? && Sub in token.claims
    ensures subject.Some? ==> token.claims[Sub] == Str(subject.value)
  {
    match Decode(token, cfg.secretKey, cfg.algorithm, now)
    case None => None
    case Some(claims) =>
      if Sub !in claims then None else Some(claims[Sub].s)
  }

  /**
   * What `authenticate_user` does: return the user, return `False`, or let
   * the password context's exception through.
   */
  datatype Authentication = Authenticated(user: User) | Refused | Raised

  /**
   * `authenticate_user`: the user registered under `username` (an email), if
   * the password verifies against that user's stored digest. An unknown email
   * is refused before the password is looked at; for a known one, verifying a
   * password the context refuses raises.
   */
  function AuthenticateUser(t: Db.Tables, username: string, password: string): (a: Authentication)
    requires Db.WellFormed(t)
    ensures a.Authenticated? <==>
      exists id :: id in t.users && t.users[id].email == username && Passwords.Verify(password, t.users[id].hashedPassword) == Some(true)
    ensures a.Raised? <==> Db.EmailTaken(t, username) && !Passwords.Hashable(password)
    ensures a.Authenticated? ==> a.user.id in t.users && t.users[a.user.id] == a.user && a.user.email == username
  {
    match Db.UserByEmail(t, username)
    case None => Refused
    case Some(u) =>
      match Passwords.Verify(password, u.hashedPassword)
      case None => Raised
      case Some(ok) => if !ok then Refused else Authenticated(u)
  }

  /**
   * A token issued for a subject verifies, and yields that subject unchanged,
   * exactly up to and including its expiry instant.
   */
  lemma TokenRoundTrip(subject: string, issuedAt: int, now: int, cfg: Settings)
    ensures VerifyToken(CreateAccessToken(map[Sub := Str(subject)], issuedAt, cfg), now, cfg)
      == if now <= ExpiryOf(issuedAt, cfg) then Some(subject) else None
  {
    var token := CreateAccessToken(map[Sub := Str(subject)], issuedAt, cfg);
    assert Sub != Exp;
    assert token.claims[Sub] == Str(subject);
  }

  /** A token that carries no "sub" claim is refused whatever else it holds. */
  lemma NoSubjectRefused(token: Token, now: int, cfg: Settings)
    requires token.Signed? && Sub !in token.claims
    ensures VerifyToken(token, now, cfg) == None
  {
  }

  /** A token not signed with the configured key under the configured algorithm is refused. */
  lemma ForeignTokenRefused(token: Token, now: int, cfg: Settings)
    requires token.Signed? && (token.key != cfg.secretKey || token.alg != cfg.algorithm)
    ensures VerifyToken(token, now, cfg) == None
  {
  }

  /**
   * For a password the context accepts, a failed login looks the same whether
   * the email is unknown or the password is wrong, and a login succeeds for
   * the stored user whenever the password verifies against that user's
   * digest. For a password the context refuses, only a known email raises.
   */
  lemma AuthenticateOutcomes(t: Db.Tables, username: string, password: string)
    requires Db.WellFormed(t)
    ensures Db.UserByEmail(t, username).None? ==> AuthenticateUser(t, username, password) == Refused
    ensures Db.UserByEmail(t, username).Some? && Passwords.Hashable(password) ==>
      var u := Db.UserByEmail(t, username).value;
      AuthenticateUser(t, username, password) == if Passwords.Verify(password, u.hashedPassword) == Some(true) then Authenticated(u) else Refused
    ensures Db.UserByEmail(t, username).Some? && !Passwords.Hashable(password) ==> AuthenticateUser(t, username, password) == Raised
  {
  }
}

/**
 * The session-revocation map and the request gate of middleware/auth.js.
 *
 * The signature check (`jwt.verify`) and the unverified decoding
 * (`jwt.decode`) are cryptographic calls outside the model; they are
 * parameters: `verify(t)` is the decoded payload of a correctly signed,
 * unexpired token `t` and `None` otherwise, and `decode(k)` is what
 * `jwt.decode` returns (or that it threw) for the key `k`. The clock
 * `Date.now()` is the parameter `now`, in milliseconds.
 *
 * A middleware's outcome is a `Gatekeep`: `Next(u)` means that it set
 * `req.user` to `u` (or left it as `u`) and called `next()` exactly once;
 * `Reject(s, why)` means that it answered with HTTP status `s`, did not call
 * `next()` and did not touch `req.user`.
 */
module Auth {
  import opened Wrappers
  import opened JsString

  /** The claims of a decoded token that the server reads. */
  datatype Payload = Payload(id: int, email: string, role: string, exp: Option<int>)

  /** A blacklist key: the token text, or `undefined` when logout finds no second header part. */
  datatype TokenKey = Token(text: string) | Undefined

  /** Which message the middleware answers with. */
  datatype Reason = MissingToken | MalformedHeader | Revoked | InvalidToken | NotAuthenticated | Forbidden

  datatype Gatekeep = Next(user: Payload) | Reject(status: int, reason: Reason)

  /** What `jwt.decode` did: returned a payload or `null`, or threw. */
  datatype Decoded = Decoded(payload: Option<Payload>) | DecodeThrew

  datatype LogoutResponse = LoggedOut | LogoutMissingToken | LogoutError

  const BearerPrefix: string := "Bearer "

  /** One hour in milliseconds: the expiry given to a revoked token without an `exp` claim. */
  const DefaultRevocationMs: int := 60 * 60 * 1000

  /** Reference definition of a well-formed header: `Bearer `, then a token without spaces. */
  predicate IsBearerHeader(h: string)
  {
    |h| >= |BearerPrefix| && h[..|BearerPrefix|] == BearerPrefix && ' ' !in h[|BearerPrefix|..]
  }

  /** `parts = h.split(' ')`; accept exactly two parts whose first is `"Bearer"`. */
  function ParseBearer(h: string): (r: Option<string>)
    ensures r.Some? ==> h == BearerPrefix + r.value && ' ' !in r.value
  {
    var parts := Split(h, ' ');
    if |parts| != 2 || parts[0] != "Bearer" then None
    else
      SplitTwoIff(h, "Bearer", parts[1], ' ');
      Some(parts[1])
  }

  /** The split on single spaces accepts exactly the headers of the reference definition. */
  lemma ParseBearerCorrect(h: string)
    ensures ParseBearer(h) == if IsBearerHeader(h) then Some(h[|BearerPrefix|..]) else None
  {
    var parts := Split(h, ' ');
    if |parts| == 2 && parts[0] == "Bearer" {
      SplitTwoIff(h, "Bearer", parts[1], ' ');
      assert h[..|BearerPrefix|] == BearerPrefix;
      assert h[|BearerPrefix|..] == parts[1];
    } else if IsBearerHeader(h) {
      var t := h[|BearerPrefix|..];
      assert h == "Bearer" + [' '] + t by {
        assert h == h[..|BearerPrefix|] + t;
      }
      SplitTwoIff(h, "Bearer", t, ' ');
      assert false;
    }
  }

  /** A doubled space yields three parts, so the header is refused. */
  lemma DoubleSpaceRefused(t: string)
    ensures ParseBearer("Bearer  " + t) == None
  {
    ParseBearerCorrect("Bearer  " + t);
    assert ("Bearer  " + t)[|BearerPrefix|] == ' ';
  }

  lemma BearerHeaderOf(t: string)
    requires ' ' !in t
    ensures IsBearerHeader(BearerPrefix + t) && (BearerPrefix + t)[|BearerPrefix|..] == t
  {
    assert (BearerPrefix + t)[..|BearerPrefix|] == BearerPrefix;
    assert (BearerPrefix + t)[|BearerPrefix|..] == t;
  }

  /** The entries that survive `cleanupBlacklist`: those whose expiry is still in the future. */
  function Unexpired(m: map<TokenKey, int>, now: int): (r: map<TokenKey, int>)
    ensures r.Keys <= m.Keys
    ensures forall k :: k in r ==> r[k] == m[k] && r[k] > now
    ensures forall k :: k in m && m[k] > now ==> k in r
    ensures Unexpired(r, now) == r
  {
    map k | k in m && m[k] > now :: m[k]
  }

  /**
   * The checks of `verifyToken` after the cleanup, in their order: header
   * present, header well-formed, token not revoked, signature valid.
   */
  function Gate(entries: map<TokenKey, int>, header: Option<string>, verify: string -> Option<Payload>): (r: Gatekeep)
    ensures !Truthy(header) ==> r == Reject(401, MissingToken)
    ensures Truthy(header) && !IsBearerHeader(header.value) ==> r == Reject(401, MalformedHeader)
    ensures Truthy(header) && IsBearerHeader(header.value) && Token(header.value[|BearerPrefix|..]) in entries
            ==> r == Reject(401, Revoked)
    ensures Truthy(header) && IsBearerHeader(header.value) && Token(header.value[|BearerPrefix|..]) !in entries
            && verify(header.value[|BearerPrefix|..]).None?
            ==> r == Reject(401, InvalidToken)
    ensures r.Next? <==>
              Truthy(header) && IsBearerHeader(header.value)
              && Token(header.value[|BearerPrefix|..]) !in entries
              && verify(header.value[|BearerPrefix|..]).Some?
    ensures r.Next? ==> Some(r.user) == verify(header.value[|BearerPrefix|..])
    ensures r.Reject? ==> r.status == 401
  {
    if !Truthy(header) then Reject(401, MissingToken)
    else
      ParseBearerCorrect(header.value);
      match ParseBearer(header.value)
      case None => Reject(401, MalformedHeader)
      case Some(token) =>
        if Token(token) in entries then Reject(401, Revoked)
        else match verify(token)
          case None => Reject(401, InvalidToken)
          case Some(decoded) => Next(decoded)
  }

  /** `requireRole(role)`: an exact comparison with the authenticated user's role. */
  function RequireRole(user: Option<Payload>, role: string): (r: Gatekeep)
    ensures r.Next? <==> user.Some? && user.value.role == role
    ensures r.Next? ==> r.user == user.value
    ensures r.Reject? ==> r.status == (if user.None? then 401 else 403)
  {
    if user.None? then Reject(401, NotAuthenticated)
    else if user.value.role != role then Reject(403, Forbidden)
    else Next(user.value)
  }

  /** `verifyToken` followed by `requireRole(role)` on an entry map that was already cleaned. */
  function Guarded(entries: map<TokenKey, int>, header: Option<string>, verify: string -> Option<Payload>, role: string): (r: Gatekeep)
    ensures Gate(entries, header, verify).Reject? ==> r == Gate(entries, header, verify)
    ensures r.Next? <==> Gate(entries, header, verify).Next? && Gate(entries, header, verify).user.role == role
    ensures r.Next? ==> r.user == Gate(entries, header, verify).user
    ensures Gate(entries, header, verify).Next? && Gate(entries, header, verify).user.role != role ==> r == Reject(403, Forbidden)
  {
    match Gate(entries, header, verify)
    case Reject(s, why) => Reject(s, why)
    case Next(u) => RequireRole(Some(u), role)
  }

  /** Behind both middlewares a handler runs exactly for a well-formed, unrevoked, validly signed token of that role. */
  lemma GuardedPassesIff(entries: map<TokenKey, int>, t: string, verify: string -> Option<Payload>, role: string)
    requires ' ' !in t
    ensures Guarded(entries, Some(BearerPrefix + t), verify, role).Next?
            <==> Token(t) !in entries && verify(t).Some? && verify(t).value.role == role
    ensures Guarded(entries, Some(BearerPrefix + t), verify, role).Next?
            ==> Guarded(entries, Some(BearerPrefix + t), verify, role).user == verify(t).value
    ensures Token(t) !in entries && verify(t).Some? && verify(t).value.role != role
            ==> Guarded(entries, Some(BearerPrefix + t), verify, role) == Reject(403, Forbidden)
  {
    BearerHeaderOf(t);
  }

  /** The value `logoutToken` gives to `authHeader.split(' ')[1]`. */
  function LogoutKey(h: string): (k: TokenKey)
    ensures k == Undefined <==> ' ' !in h
    ensures k.Token? ==> ' ' !in k.text
    ensures k.Token? ==> exists a, rest :: SecondPartOf(h, a, k.text, rest)
  {
    var parts := Split(h, ' ');
    JoinSplit(h, ' ');
    SplitPartsFree(h, ' ');
    assert ' ' !in h ==> |parts| == 1 by {
      if ' ' !in h {
        SplitFree(h, ' ');
      }
    }
    if |parts| >= 2 then
      SecondPartAfterFirstSpace(h);
      Token(parts[1])
    else Undefined
  }

  /** `split(' ')[1]` is what lies between the first space and the next one (or the end). */
  lemma SecondPartAfterFirstSpace(h: string)
    requires |Split(h, ' ')| >= 2
    ensures exists a, rest :: SecondPartOf(h, a, Split(h, ' ')[1], rest)
  {
    var parts := Split(h, ' ');
    JoinSplit(h, ' ');
    SplitPartsFree(h, ' ');
    JoinTwoParts(parts, ' ');
    var rest := if |parts| == 2 then "" else [' '] + Join(parts[2..], ' ');
    assert ' ' !in parts[0];
    assert h == parts[0] + " " + parts[1] + rest;
    assert SecondPartOf(h, parts[0], parts[1], rest);
  }

  /** `h` is a space-free `a`, one space, `t`, and then nothing or a space followed by the rest. */
  predicate SecondPartOf(h: string, a: string, t: string, rest: string)
  {
    ' ' !in a && h == a + " " + t + rest && (rest == "" || rest[0] == ' ')
  }

  /** The join of at least two parts: the first, the separator, the second, then the rest behind a separator. */
  lemma JoinTwoParts(parts: seq<string>, sep: char)
    requires |parts| >= 2
    ensures Join(parts, sep) == parts[0] + [sep] + parts[1] + (if |parts| == 2 then "" else [sep] + Join(parts[2..], sep))
  {
    var tail := parts[1..];
    assert tail[0] == parts[1];
    if |parts| > 2 {
      assert tail[1..] == parts[2..];
    }
  }

  /** On a header the gate accepts, logout revokes exactly the token the gate checked. */
  lemma LogoutKeyOfBearer(t: string)
    requires ' ' !in t
    ensures LogoutKey(BearerPrefix + t) == Token(t)
  {
    BearerHeaderOf(t);
    ParseBearerCorrect(BearerPrefix + t);
  }

  /** `payload && payload.exp ? payload.exp * 1000 : Date.now() + 3600000`: a zero `exp` is falsy. */
  function ExpiryMs(payload: Option<Payload>, now: int): (r: int)
    ensures r <= now <==> payload.Some? && payload.value.exp.Some? && payload.value.exp.value != 0
                          && payload.value.exp.value * 1000 <= now
    ensures !(payload.Some? && payload.value.exp.Some? && payload.value.exp.value != 0) ==> r == now + DefaultRevocationMs
    ensures payload.Some? && payload.value.exp.Some? && payload.value.exp.value != 0 ==> r == payload.value.exp.value * 1000
  {
    if payload.Some? && payload.value.exp.Some? && payload.value.exp.value != 0
    then payload.value.exp.value * 1000
    else now + DefaultRevocationMs
  }

  /** The blacklist after `logoutToken`. */
  function AfterLogout(m: map<TokenKey, int>, header: Option<string>, now: int, decode: TokenKey -> Decoded): (r: map<TokenKey, int>)
    ensures m.Keys <= r.Keys
    ensures forall k :: k in r ==> k in m || (Truthy(header) && k == LogoutKey(header.value))
    ensures Truthy(header) && decode(LogoutKey(header.value)).Decoded? ==> LogoutKey(header.value) in r
  {
    if !Truthy(header) then m
    else
      var key := LogoutKey(header.value);
      match decode(key)
      case DecodeThrew => m
      case Decoded(p) => m[key := ExpiryMs(p, now)]
  }

  /** Logout changes at most the one key taken from the header. */
  lemma LogoutTouchesOneKey(m: map<TokenKey, int>, h: string, now: int, decode: TokenKey -> Decoded, k: TokenKey)
    requires k != LogoutKey(h)
    ensures k in AfterLogout(m, Some(h), now, decode) <==> k in m
    ensures k in m ==> AfterLogout(m, Some(h), now, decode)[k] == m[k]
  {
  }

  /** Logging out the same token twice leaves the map as once, when the expiry comes from the token's `exp`. */
  lemma LogoutIdempotent(m: map<TokenKey, int>, header: Option<string>, now1: int, now2: int, decode: TokenKey -> Decoded)
    requires Truthy(header) && decode(LogoutKey(header.value)).Decoded?
    requires ExpiryMs(decode(LogoutKey(header.value)).payload, now1) == ExpiryMs(decode(LogoutKey(header.value)).payload, now2)
    ensures AfterLogout(AfterLogout(m, header, now1, decode), header, now2, decode) == AfterLogout(m, header, now1, decode)
  {
  }

  /** A truthy `exp` claim makes the stored expiry independent of the clock. */
  lemma ExpClaimFixesExpiry(p: Payload, now1: int, now2: int)
    requires p.exp.Some? && p.exp.value != 0
    ensures ExpiryMs(Some(p), now1) == ExpiryMs(Some(p), now2) == p.exp.value * 1000
  {
  }

  /**
   * A token logged out with an expiry still in the future is refused as
   * revoked by a later `verifyToken`, whatever its signature check says.
   */
  lemma RevokedTokenRefused(m: map<TokenKey, int>, t: string, now: int, decode: TokenKey -> Decoded,
                            later: int, verify: string -> Option<Payload>)
    requires ' ' !in t
    requires decode(Token(t)).Decoded?
    requires ExpiryMs(decode(Token(t)).payload, now) > later
    ensures Gate(Unexpired(AfterLogout(m, Some(BearerPrefix + t), now, decode), later), Some(BearerPrefix + t), verify)
            == Reject(401, Revoked)
  {
    LogoutKeyOfBearer(t);
    BearerHeaderOf(t);
  }

  /**
   * Cleanup runs before the blacklist check: a revoked token whose stored
   * expiry has passed is judged by its signature alone.
   */
  lemma ExpiredRevocationForgotten(m: map<TokenKey, int>, t: string, now: int, verify: string -> Option<Payload>)
    requires ' ' !in t
    requires Token(t) in m && m[Token(t)] <= now
    ensures Gate(Unexpired(m, now), Some(BearerPrefix + t), verify)
            == if verify(t).Some? then Next(verify(t).value) else Reject(401, InvalidToken)
  {
    BearerHeaderOf(t);
  }

  /** The process-wide `tokenBlacklist` map (token -> expiry in milliseconds). */
  class TokenBlacklist {
    var entries: map<TokenKey, int>

    constructor ()
      ensures entries == map[]
    {
      entries := map[];
    }

    /** `cleanupBlacklist`: delete every entry whose expiry is at or before `now`. */
    method Cleanup(now: int)
      modifies this
      ensures forall k :: k in entries <==> k in old(entries) && old(entries)[k] > now
      ensures forall k :: k in entries ==> entries[k] == old(entries)[k]
      ensures entries == Unexpired(old(entries), now)
    {
      var pending := entries.Keys;
      while pending != {}
        invariant pending <= old(entries).Keys
        invariant forall k :: k in entries <==> k in old(entries) && (k in pending || old(entries)[k] > now)
        invariant forall k :: k in entries ==> entries[k] == old(entries)[k]
        decreases pending
      {
        var k :| k in pending;
        if entries[k] <= now {
          entries := entries - {k};
        }
        pending := pending - {k};
      }
      assert entries == Unexpired(old(entries), now);
    }

    /** `verifyToken`: cleanup first, then the checks of `Gate`. */
    method VerifyToken(header: Option<string>, now: int, verify: string -> Option<Payload>) returns (r: Gatekeep)
      modifies this
      ensures entries == Unexpired(old(entries), now)
      ensures r == Gate(entries, header, verify)
    {
      Cleanup(now);
      if !Truthy(header) {
        return Reject(401, MissingToken);
      }
      var parts := Split(header.value, ' ');
      if |parts| != 2 || parts[0] != "Bearer" {
        return Reject(401, MalformedHeader);
      }
      var token := parts[1];
      if Token(token) in entries {
        return Reject(401, Revoked);
      }
      var decoded := verify(token);
      if decoded.None? {
        return Reject(401, InvalidToken);
      }
      r := Next(decoded.value);
    }

    /** `logoutToken`: store the header's second part with the token's expiry. */
    method Logout(header: Option<string>, now: int, decode: TokenKey -> Decoded) returns (r: LogoutResponse)
      modifies this
      ensures !Truthy(header) ==> r == LogoutMissingToken && entries == old(entries)
      ensures Truthy(header) && decode(LogoutKey(header.value)).DecodeThrew?
              ==> r == LogoutError && entries == old(entries)
      ensures Truthy(header) && decode(LogoutKey(header.value)).Decoded?
              ==> r == LoggedOut
                  && entries == old(entries)[LogoutKey(header.value) := ExpiryMs(decode(LogoutKey(header.value)).payload, now)]
      ensures entries == AfterLogout(old(entries), header, now, decode)
    {
      if !Truthy(header) {
        return LogoutMissingToken;
      }
      var parts := Split(header.value, ' ');
      var key := if |parts| >= 2 then Token(parts[1]) else Undefined;
      var d := decode(key);
      if d.DecodeThrew? {
        return LogoutError;
      }
      entries := entries[key := ExpiryMs(d.payload, now)];
      r := LoggedOut;
    }
  }
}

/**
 * Reading the claims of the access token on the client. A token is a JWS in
 * compact serialisation (section 7.1 of RFC 7515): the payload is its second
 * `.`-separated segment, written in the base64url alphabet (section 5 of
 * RFC 4648), which is mapped back to the base64 alphabet (section 4) before
 * it is decoded. Decoding (`atob`, `decodeURIComponent`, `JSON.parse`) is a
 * parameter; a missing token is the empty string; instants are milliseconds
 * and `exp` is a NumericDate in seconds (section 4.1.4 of RFC 7519).
 */
module TokenUtils {
  import opened Wrappers
  import opened Text

  /**
   * The claims read from the payload; a claim the payload lacks is `None`.
   * `isAdmin` is the `is_admin` claim.
   */
  datatype Claims = Claims(sub: Option<string>, exp: Option<int>, isAdmin: Option<bool>)

  /**
   * Base64 text to claims: `None` when `atob` or `JSON.parse` throws, or the
   * JSON value is falsy (`null`, `0`, `""`, `false`).
   */
  type Decoder = string -> Option<Claims>

  /** The base64url character `c` in the base64 alphabet. */
  function ToBase64Char(c: char): char {
    if c == '-' then '+' else if c == '_' then '/' else c
  }

  function FromBase64Char(c: char): char {
    if c == '+' then '-' else if c == '/' then '_' else c
  }

  /** `.replace(/-/g, '+').replace(/_/g, '/')`. */
  function ToBase64(s: string): (r: string)
    ensures |r| == |s|
    ensures forall i :: 0 <= i < |s| ==> r[i] == ToBase64Char(s[i])
  {
    seq(|s|, i requires 0 <= i < |s| => ToBase64Char(s[i]))
  }

  /** The base64 to base64url mapping, the inverse direction. */
  function FromBase64(s: string): (r: string)
    ensures |r| == |s|
    ensures forall i :: 0 <= i < |s| ==> r[i] == FromBase64Char(s[i])
  {
    seq(|s|, i requires 0 <= i < |s| => FromBase64Char(s[i]))
  }

  /** Base64url text has neither `+` nor `/`. */
  predicate IsBase64Url(s: string) {
    forall i :: 0 <= i < |s| ==> s[i] != '+' && s[i] != '/'
  }

  /** Base64 text has neither `-` nor `_`. */
  predicate IsBase64(s: string) {
    forall i :: 0 <= i < |s| ==> s[i] != '-' && s[i] != '_'
  }

  /** The mapping leaves base64 text and loses nothing of base64url text. */
  lemma AlphabetRoundTrip(s: string)
    ensures IsBase64(ToBase64(s))
    ensures IsBase64Url(s) ==> FromBase64(ToBase64(s)) == s
    ensures IsBase64(s) ==> ToBase64(FromBase64(s)) == s
  {
  }

  /**
   * `parseJwt(token)`: a token with no second segment makes `.replace` throw
   * on `undefined`, and every failure is caught as `null`.
   */
  function ParseJwt(token: string, decode: Decoder): Option<Claims> {
    var segments := Split(token, '.');
    if |segments| < 2 then None else decode(ToBase64(segments[1]))
  }

  /** A compact serialisation `header.payload.signature` yields the decoded payload, whatever the other two segments. */
  lemma ParseCompact(header: string, payload: string, signature: string, decode: Decoder)
    requires '.' !in header && '.' !in payload && '.' !in signature
    ensures ParseJwt(header + "." + payload + "." + signature, decode) == decode(ToBase64(payload))
  {
    var parts := [header, payload, signature];
    assert Join(parts[1..], '.') == payload + "." + signature by {
      assert parts[1..][1..] == [signature];
    }
    assert Join(parts, '.') == header + "." + payload + "." + signature;
    SplitJoin(parts, '.');
  }

  /** A token with no `.` has no payload segment. */
  lemma NoSegmentNoClaims(token: string, decode: Decoder)
    requires '.' !in token
    ensures ParseJwt(token, decode) == None
  {
    assert Join([token], '.') == token;
    SplitJoin([token], '.');
  }

  /** `isTokenExpired(token)` at instant `now`: `exp < now / 1000`, a missing `exp` never being less. */
  function IsTokenExpired(token: string, now: int, decode: Decoder): (expired: bool)
    ensures token == "" || ParseJwt(token, decode).None? ==> expired
  {
    if token == "" then true
    else
      match ParseJwt(token, decode)
      case None => true
      case Some(claims) => claims.exp.Some? && claims.exp.value * 1000 < now
  }

  /** `getTokenExpirationTime(token)`: `exp` in milliseconds, or 0 when there is none (or it is 0). */
  function GetTokenExpirationTime(token: string, decode: Decoder): (ms: int)
    ensures token == "" || ParseJwt(token, decode).None? ==> ms == 0
  {
    if token == "" then 0
    else
      match ParseJwt(token, decode)
      case None => 0
      case Some(claims) => if claims.exp.None? || claims.exp.value == 0 then 0 else claims.exp.value * 1000
  }

  /** `getTimeUntilExpiration(token)` at instant `now`. */
  function GetTimeUntilExpiration(token: string, now: int, decode: Decoder): (ms: int)
    ensures ms >= 0
    ensures ms > 0 ==> ms == GetTokenExpirationTime(token, decode) - now
  {
    if token == "" then 0
    else
      var expirationTime := GetTokenExpirationTime(token, decode);
      if expirationTime - now > 0 then expirationTime - now else 0
  }

  /**
   * With a non-zero `exp`, the token is expired exactly when no time is left,
   * except at the expiry instant itself; with time left it is not expired.
   */
  lemma ExpiryAgreesWithTimeLeft(token: string, now: int, decode: Decoder)
    requires token != "" && ParseJwt(token, decode).Some?
    requires ParseJwt(token, decode).value.exp.Some? && ParseJwt(token, decode).value.exp.value != 0
    ensures IsTokenExpired(token, now, decode)
            <==> GetTimeUntilExpiration(token, now, decode) == 0 && now != ParseJwt(token, decode).value.exp.value * 1000
    ensures GetTimeUntilExpiration(token, now, decode) > 0 ==> !IsTokenExpired(token, now, decode)
  {
  }

  /** A token without `exp` never expires, yet has no time left before expiry (at any instant after 1970). */
  lemma NoExpNeverExpires(token: string, now: int, decode: Decoder)
    requires token != "" && ParseJwt(token, decode).Some? && ParseJwt(token, decode).value.exp.None?
    requires now >= 0
    ensures !IsTokenExpired(token, now, decode)
    ensures GetTimeUntilExpiration(token, now, decode) == 0
  {
  }

  /** The user `getUserFromToken` reads: the subject as the email, and whether the artist is an admin. */
  datatype TokenUser = TokenUser(email: Option<string>, isAdmin: bool, exp: Option<int>)

  /** `getUserFromToken(token)`. */
  function GetUserFromToken(token: string, decode: Decoder): (user: Option<TokenUser>)
    ensures user.None? <==> token == "" || ParseJwt(token, decode).None?
    ensures user.Some? ==> (user.value.isAdmin <==> ParseJwt(token, decode).value.isAdmin == Some(true))
    ensures user.Some? ==> user.value.email == ParseJwt(token, decode).value.sub
                           && user.value.exp == ParseJwt(token, decode).value.exp
  {
    if token == "" then None
    else
      match ParseJwt(token, decode)
      case None => None
      case Some(claims) => Some(TokenUser(claims.sub, claims.isAdmin == Some(true), claims.exp))
  }

  /** The user read from a compact token depends on its payload segment only. */
  lemma UserFromPayload(header: string, payload: string, signature: string, decode: Decoder)
    requires '.' !in header && '.' !in payload && '.' !in signature
    requires decode(ToBase64(payload)).Some?
    ensures var user := GetUserFromToken(header + "." + payload + "." + signature, decode);
      && user.Some?
      && user.value.email == decode(ToBase64(payload)).value.sub
      && (user.value.isAdmin <==> decode(ToBase64(payload)).value.isAdmin == Some(true))
  {
    ParseCompact(header, payload, signature, decode);
  }
}

/**
 * The route guard that runs whenever the path changes: with no stored token it sends the user
 * to the login page, an expired token (its JWT `exp` claim, a NumericDate in seconds as in
 * section 4.1.4 of RFC 7519, compared with the clock in milliseconds) is removed, a valid token
 * keeps the user off the login and register pages, and a token that cannot be decoded ends the
 * session.
 *
 * Decoding is a parameter: it either fails or yields the `exp` claim, which may be missing.
 */
module AuthWrapper {
  import opened Wrappers
  import opened Text

  datatype DecodeResult = Undecodable | Decoded(exp: Option<int>)

  datatype Effect = Replace(path: string) | RemoveToken | Logout

  const LoginPath: string := "/login"
  const RegisterPath: string := "/register"
  const VerifyEmailPath: string := "/auth/verify-email"
  const DashboardPath: string := "/dashboard"

  /** The pages a visitor without a valid token may stay on. */
  predicate IsPublic(path: string) {
    path == LoginPath || path == RegisterPath || path == VerifyEmailPath
  }

  /**
   * `Date.now() >= exp * 1000`. A missing claim makes the product NaN, and a comparison
   * with NaN is false: such a token never expires. A claim that is `null` multiplies to 0,
   * so the decoder is expected to report it as `Some(0)`: such a token is already expired.
   */
  predicate Expired(exp: Option<int>, nowMs: int) {
    exp.Some? && nowMs >= exp.value * 1000
  }

  /** The effects of one run of the guard, in the order they happen. */
  function Guard(token: Option<string>, decode: string -> DecodeResult, nowMs: int, path: string): (r: seq<Effect>)
    ensures |r| <= 2
    ensures forall i :: 0 <= i < |r| && r[i].Replace? ==> i == |r| - 1
    ensures forall i :: 0 <= i < |r| && r[i].Replace? ==> r[i].path == LoginPath || r[i].path == DashboardPath
    ensures !Truthy(token) ==> forall i :: 0 <= i < |r| ==> r[i] == Replace(LoginPath)
  {
    if !Truthy(token) then
      if !IsPublic(path) then [Replace(LoginPath)] else []
    else
      match decode(token.value)
      case Undecodable => [Logout]
      case Decoded(exp) =>
        if Expired(exp, nowMs) then
          [RemoveToken] + (if !IsPublic(path) then [Replace(LoginPath)] else [])
        else if path == LoginPath || path == RegisterPath then [Replace(DashboardPath)]
        else []
  }

  /** The token is present and its claims could be read. */
  predicate Decodes(token: Option<string>, decode: string -> DecodeResult) {
    Truthy(token) && decode(token.value).Decoded?
  }

  /** The token is present, readable and past its expiry. */
  predicate IsExpiredToken(token: Option<string>, decode: string -> DecodeResult, nowMs: int) {
    Decodes(token, decode) && Expired(decode(token.value).exp, nowMs)
  }

  /** Without a token: to the login page unless already on a public page. */
  lemma NoTokenGuard(token: Option<string>, decode: string -> DecodeResult, nowMs: int, path: string)
    requires !Truthy(token)
    ensures Guard(token, decode, nowMs, path) == (if IsPublic(path) then [] else [Replace(LoginPath)])
  {
  }

  /** Expiry is inclusive: the millisecond `exp * 1000` is already expired, the one before is not. */
  lemma ExpiryBoundary(exp: int)
    ensures Expired(Some(exp), exp * 1000)
    ensures !Expired(Some(exp), exp * 1000 - 1)
    ensures forall nowMs :: !Expired(None, nowMs)
  {
  }

  /** The stored token is removed exactly when it is expired, whatever the page. */
  lemma RemovedIffExpired(token: Option<string>, decode: string -> DecodeResult, nowMs: int, path: string)
    ensures RemoveToken in Guard(token, decode, nowMs, path) <==> IsExpiredToken(token, decode, nowMs)
  {
  }

  /** The guard goes to the login page exactly off the public pages, with no token or an expired one. */
  lemma ToLoginIff(token: Option<string>, decode: string -> DecodeResult, nowMs: int, path: string)
    ensures Replace(LoginPath) in Guard(token, decode, nowMs, path) <==>
            !IsPublic(path) && (!Truthy(token) || IsExpiredToken(token, decode, nowMs))
  {
  }

  /** The guard goes to the dashboard exactly from login or register, with a valid token. */
  lemma ToDashboardIff(token: Option<string>, decode: string -> DecodeResult, nowMs: int, path: string)
    ensures Replace(DashboardPath) in Guard(token, decode, nowMs, path) <==>
            (path == LoginPath || path == RegisterPath) && Decodes(token, decode) &&
            !IsExpiredToken(token, decode, nowMs)
  {
  }

  /** A token that does not decode ends the session, and nothing else happens. */
  lemma LogoutIffUndecodable(token: Option<string>, decode: string -> DecodeResult, nowMs: int, path: string)
    ensures Logout in Guard(token, decode, nowMs, path) <==> Truthy(token) && decode(token.value).Undecodable?
    ensures Logout in Guard(token, decode, nowMs, path) ==> Guard(token, decode, nowMs, path) == [Logout]
  {
  }

  /** One run of the guard navigates at most once. */
  lemma AtMostOneReplace(token: Option<string>, decode: string -> DecodeResult, nowMs: int, path: string)
    ensures var effects := Guard(token, decode, nowMs, path);
            forall i, j :: 0 <= i < j < |effects| ==> !(effects[i].Replace? && effects[j].Replace?)
  {
  }

  /** The storage the guard leaves behind. */
  function TokenAfter(token: Option<string>, effects: seq<Effect>): Option<string> {
    if RemoveToken in effects then None else token
  }

  /**
   * Following the guard's redirect and running it again at the new page, with the storage it left
   * and at the same instant, navigates no further: the guard never bounces between pages.
   */
  lemma RedirectSettles(token: Option<string>, decode: string -> DecodeResult, nowMs: int, path: string, target: string)
    requires Replace(target) in Guard(token, decode, nowMs, path)
    ensures var again := Guard(TokenAfter(token, Guard(token, decode, nowMs, path)), decode, nowMs, target);
            forall i :: 0 <= i < |again| ==> !again[i].Replace?
  {
    var effects := Guard(token, decode, nowMs, path);
    if !Truthy(token) {
      assert target == LoginPath;
    } else if IsExpiredToken(token, decode, nowMs) {
      assert target == LoginPath && RemoveToken in effects;
    } else {
      assert target == DashboardPath && RemoveToken !in effects;
    }
  }
}

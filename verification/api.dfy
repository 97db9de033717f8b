/**
 * The client's HTTP plumbing: reading a cookie by name, and the request and response
 * interceptors that attach the CSRF and bearer headers and drop the token on a 401.
 */
module Api {
  import opened Wrappers
  import opened Js
  import opened Strings
  import opened WebStorage

  /** `getCookieValue(name)` over the cookie string `cookie`: split `"; " + cookie` at
      `"; name="`; with exactly one such occurrence, the text after it up to the next `;`, unless
      that text is empty. */
  function CookieValue(cookie: string, name: string): (r: Option<string>)
    ensures r.Some? ==> r.value != "" && !Contains(r.value, ";")
  {
    var parts := Split("; " + cookie, "; " + name + "=");
    if |parts| == 2 then
      var v := Split(parts[1], ";")[0];
      if v == "" then None else Some(v)
    else None
  }

  /** The text of `x` before its first `;` (all of `x` when there is none). */
  function BeforeSemicolon(x: string): (v: string)
    ensures StartsWith(x, v) && !Contains(v, ";")
    ensures |v| == |x| || x[|v|] == ';'
  {
    SplitHead(x, ";");
    assert IndexOf(x, ";").Some? ==> x[|Split(x, ";")[0]|..|Split(x, ";")[0]| + 1] == ";";
    Split(x, ";")[0]
  }

  /**
   * The lookup in terms of occurrences of the pattern `"; name="` in `"; " + cookie`: none gives
   * null; a second occurrence after the first gives null; a single one gives the text after it up
   * to the next `;`, or null when that is empty.
   */
  lemma {:induction false} CookieLookup(cookie: string, name: string)
    ensures var s, pat := "; " + cookie, "; " + name + "=";
      match IndexOf(s, pat)
      case None => CookieValue(cookie, name) == None
      case Some(i) =>
        var after := s[i + |pat|..];
        if IndexOf(after, pat).Some? then CookieValue(cookie, name) == None
        else CookieValue(cookie, name) == if BeforeSemicolon(after) == "" then None else Some(BeforeSemicolon(after))
  {
    var s, pat := "; " + cookie, "; " + name + "=";
    var parts := Split(s, pat);
    match IndexOf(s, pat) {
      case None =>
        assert |parts| == 1;
      case Some(i) =>
        var after := s[i + |pat|..];
        assert parts == [s[..i]] + Split(after, pat);
        if IndexOf(after, pat).Some? {
          assert |Split(after, pat)| >= 2;
        } else {
          assert parts[1] == after;
        }
    }
  }

  /**
   * What a found value means: `"; name="` occurs in `"; " + cookie` at some `i` with no earlier
   * occurrence and none in the rest of the string, and the value is the text right after it, ended
   * by a `;` or by the end of the string.
   */
  lemma {:induction false} CookieFound(cookie: string, name: string)
    requires CookieValue(cookie, name).Some?
    ensures var s, pat, v := "; " + cookie, "; " + name + "=", CookieValue(cookie, name).value;
      exists i :: OccursAt(s, pat, i)
        && (forall j :: 0 <= j < i ==> !OccursAt(s, pat, j))
        && !Contains(s[i + |pat|..], pat)
        && StartsWith(s[i + |pat|..], v)
        && (i + |pat| + |v| == |s| || s[i + |pat| + |v|] == ';')
  {
    var s, pat, v := "; " + cookie, "; " + name + "=", CookieValue(cookie, name).value;
    CookieLookup(cookie, name);
    var i := IndexOf(s, pat).value;
    var after := s[i + |pat|..];
    assert IndexOf(after, pat).None?;
    assert v == BeforeSemicolon(after);
    assert after[|v|..] == s[i + |pat| + |v|..];
  }

  /** The methods that fetch a CSRF cookie first: compared after lower-casing (ASCII lower-casing
      decides membership in this set exactly). */
  predicate NeedsCsrf(verb: Option<string>): (b: bool)
    ensures verb.None? ==> !b
    ensures b ==> verb.Some? && 3 <= |verb.value| <= 6
  {
    ToLowerAscii(verb.GetOr("")) in ["post", "put", "delete", "patch"]
  }

  /** Whether a method needs the CSRF cookie does not depend on the case of its spelling: `POST`,
      `Patch` and `post` all need it, as do the case variants of `put` and `delete`. */
  lemma CsrfIgnoresCase(m: string)
    ensures NeedsCsrf(Some(ToUpperAsciiString(m))) == NeedsCsrf(Some(m))
  {
    LowerForgetsCase(m);
  }

  const XsrfHeader: string := "X-XSRF-TOKEN"
  const AuthorizationHeader: string := "Authorization"
  const AuthTokenKey: string := "auth_token"

  /** An outgoing request as the interceptor sees it. */
  class RequestConfig {
    var verb: Option<string>
    var headers: map<string, string>

    constructor (verb: Option<string>, headers: map<string, string>)
      ensures this.verb == verb && this.headers == headers
    {
      this.verb, this.headers := verb, headers;
    }

    /**
     * The request interceptor. For a CSRF method, after the CSRF cookie fetch (`csrf`) succeeds,
     * the `XSRF-TOKEN` cookie of the jar `cookie`, URL-decoded by `decode` (None when decoding
     * throws), becomes the `X-XSRF-TOKEN` header; any failure there is swallowed. Then a non-empty
     * stored `auth_token` becomes `Authorization: Bearer <token>`. No other header changes.
     */
    method Intercept(local: Storage, csrf: Outcome<()>, cookie: string, decode: string -> Option<string>)
      modifies this`headers
      ensures var xsrf := CookieValue(cookie, "XSRF-TOKEN");
        var setXsrf := NeedsCsrf(verb) && csrf.Resolved? && xsrf.Some? && decode(xsrf.value).Some?;
        && (setXsrf ==> XsrfHeader in headers && headers[XsrfHeader] == decode(xsrf.value).value)
        && (!setXsrf ==> (XsrfHeader in headers <==> XsrfHeader in old(headers)))
        && (!setXsrf && XsrfHeader in headers ==> headers[XsrfHeader] == old(headers)[XsrfHeader])
      ensures var token := local.GetItem(AuthTokenKey);
        && (token.Some? && token.value != "" ==> AuthorizationHeader in headers && headers[AuthorizationHeader] == "Bearer " + token.value)
        && (!(token.Some? && token.value != "") ==>
              (AuthorizationHeader in headers <==> AuthorizationHeader in old(headers))
              && (AuthorizationHeader in headers ==> headers[AuthorizationHeader] == old(headers)[AuthorizationHeader]))
      ensures forall h :: h != XsrfHeader && h != AuthorizationHeader ==>
        (h in headers <==> h in old(headers)) && (h in headers ==> headers[h] == old(headers)[h])
    {
      if NeedsCsrf(verb) && csrf.Resolved? {
        var xsrf := CookieValue(cookie, "XSRF-TOKEN");
        if xsrf.Some? {
          var decoded := decode(xsrf.value);
          if decoded.Some? {
            headers := headers[XsrfHeader := decoded.value];
          }
        }
      }
      var token := local.GetItem(AuthTokenKey);
      if token.Some? && token.value != "" {
        headers := headers[AuthorizationHeader := "Bearer " + token.value];
      }
    }
  }

  /** The response interceptor's error path: a 401 removes the stored token and sends the browser
      to the login page; every other status leaves storage alone. */
  method OnResponseError(status: Option<int>, local: Storage) returns (redirectToLogin: bool)
    requires local.Valid()
    modifies local
    ensures local.Valid()
    ensures redirectToLogin <==> status == Some(401)
    ensures status == Some(401) ==> local.items == FilterOut(old(local.items), [AuthTokenKey]) && local.GetItem(AuthTokenKey) == None
    ensures status != Some(401) ==> local.items == old(local.items)
  {
    redirectToLogin := status == Some(401);
    if redirectToLogin {
      local.RemoveItem(AuthTokenKey);
    }
  }
}

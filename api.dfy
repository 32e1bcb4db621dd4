// The request helpers of src/services/api.js: the URL under the `/api`
// prefix, the CSRF token read from the cookie string, the request
// configuration (headers and body) and the decision a response leads to.
// The cookie string is a parameter (`document.cookie`), and so are
// `decodeURIComponent` (`decode`) and `JSON.stringify` (`stringify`);
// `fetch` itself is not part of this model.

module Api {
  import opened Common

  const ApiBase := "/api"

  // ---------------------------------------------------------------------
  // buildUrl (line 6).
  // ---------------------------------------------------------------------

  /** The endpoint with a leading slash: as it is when it has one, else with one added. */
  function Slashed(endpoint: string): (r: string)
  {
    if endpoint != [] && endpoint[0] == '/' then endpoint else "/" + endpoint
  }

  /** The full URL of an endpoint: the prefix, then the endpoint with exactly one slash before it. */
  function BuildUrl(endpoint: string): (url: string)
    ensures StartsWith(url, ApiBase + "/")
    ensures url[|ApiBase|..] == Slashed(endpoint)
    ensures StartsWith(endpoint, "/") ==> url == ApiBase + endpoint
  {
    ApiBase + Slashed(endpoint)
  }

  /** Two endpoints reach the same URL exactly when they agree once a leading slash is added. */
  lemma BuildUrlSameIff(a: string, b: string)
    ensures BuildUrl(a) == BuildUrl(b) <==> Slashed(a) == Slashed(b)
  {
    if BuildUrl(a) == BuildUrl(b) {
      assert BuildUrl(a)[|ApiBase|..] == BuildUrl(b)[|ApiBase|..];
    }
  }

  /** Writing the leading slash or leaving it out reaches the same URL. */
  lemma BuildUrlIgnoresLeadingSlash(e: string)
    ensures BuildUrl("/" + e) == BuildUrl(e) || StartsWith(e, "/")
  {
  }

  /** The empty endpoint is the API root. */
  lemma BuildUrlOfEmpty()
    ensures BuildUrl("") == "/api/"
  {
  }

  // ---------------------------------------------------------------------
  // getCSRFToken (lines 9-24).
  // ---------------------------------------------------------------------

  const TokenName := "csrftoken"

  /** `cookie.substring(0, name.length + 1) === name + '='`. */
  predicate IsTokenPiece(c: string)
  {
    var n := if |c| < |TokenName| + 1 then |c| else |TokenName| + 1;
    c[..n] == TokenName + "="
  }

  /** The index of the first (trimmed) piece at or after `from` that names the token. */
  function FirstTokenPiece(pieces: seq<string>, from: nat): (r: Option<nat>)
    decreases |pieces| - from
    ensures r.Some? ==> from <= r.value < |pieces| && IsTokenPiece(pieces[r.value])
    ensures r.Some? ==> forall j :: from <= j < r.value ==> !IsTokenPiece(pieces[j])
    ensures r.None? ==> forall j :: from <= j < |pieces| ==> !IsTokenPiece(pieces[j])
  {
    if from >= |pieces| then None
    else if IsTokenPiece(pieces[from]) then Some(from)
    else FirstTokenPiece(pieces, from + 1)
  }

  /**
   * The token of a cookie string: nothing for the empty string; otherwise
   * the decoded value of the first `;`-separated piece that, trimmed,
   * starts with `csrftoken=`, and nothing when no piece does.
   */
  function CookieToken(cookie: string, decode: string -> string): Option<string>
  {
    if cookie == "" then None
    else
      var pieces := MapSeq(Split(cookie, ';'), Trim);
      match FirstTokenPiece(pieces, 0)
      case None => None
      case Some(k) => Some(decode(pieces[k][|TokenName| + 1..]))
  }

  /** The loop over the pieces, leaving at the first one that names the token. */
  method GetCSRFToken(cookie: string, decode: string -> string) returns (token: Option<string>)
    ensures cookie == "" ==> token == None
    ensures token == CookieToken(cookie, decode)
  {
    token := None;
    if cookie != "" {
      var cookies := Split(cookie, ';');
      ghost var trimmed := MapSeq(cookies, Trim);
      var i := 0;
      while i < |cookies|
        invariant 0 <= i <= |cookies|
        invariant FirstTokenPiece(trimmed, i) == FirstTokenPiece(trimmed, 0)
        invariant token == None
      {
        var c := Trim(cookies[i]);
        var n := if |c| < |TokenName| + 1 then |c| else |TokenName| + 1;
        if c[..n] == TokenName + "=" {
          token := Some(decode(c[|TokenName| + 1..]));
          break;
        }
        i := i + 1;
      }
    }
  }

  /** A cookie whose name only begins with `csrftoken` is not the token: the `=` is part of the test. */
  lemma LongerNameIsNotToken(c: char, rest: string)
    requires c != '='
    ensures !IsTokenPiece(TokenName + [c] + rest)
  {
    var p := TokenName + [c] + rest;
    assert p[9] == c;
  }

  /** A cookie string holding just `csrftoken=v` yields the decoded v. */
  lemma SoleTokenCookie(v: string, decode: string -> string)
    requires ';' !in v
    requires v == [] || !IsJsSpace(v[|v| - 1])
    ensures CookieToken(TokenName + "=" + v, decode) == Some(decode(v))
  {
    var cookie := TokenName + "=" + v;
    assert IndexOfFrom(cookie, ';', 0).None? by {
      assert forall k :: 0 <= k < |cookie| ==> cookie[k] != ';' by {
        forall k | 0 <= k < |cookie| ensures cookie[k] != ';' {
          if k >= |TokenName| + 1 {
            assert cookie[k] == v[k - |TokenName| - 1];
          }
        }
      }
    }
    assert Split(cookie, ';') == [cookie];
    assert TrimStart(cookie) == cookie;
    assert Trim(cookie) == cookie;
    assert cookie[..|TokenName| + 1] == TokenName + "=";
    assert cookie[|TokenName| + 1..] == v;
  }

  // ---------------------------------------------------------------------
  // request: the configuration (lines 45-67) and the response (82-90).
  // ---------------------------------------------------------------------

  /** The fetch options; `csrfHeader` is the `X-CSRFToken` header, None when absent. */
  datatype Config = Config(httpMethod: string, contentType: string, credentials: string,
                           csrfHeader: Option<string>, body: Option<string>)

  /** Whether the token goes into the headers: not for GET or HEAD, and only a non-empty one. */
  predicate SendsToken(httpMethod: string, token: Option<string>)
  {
    httpMethod != "GET" && httpMethod != "HEAD" && token.Some? && token.value != ""
  }

  /**
   * The configuration a request sends: JSON content type and included
   * credentials always; the CSRF header only for a method other than GET
   * and HEAD and only when the cookie holds a non-empty token; a body only
   * when data is given.
   */
  method BuildConfig<D>(httpMethod: string, cookie: string, decode: string -> string,
                        data: Option<D>, stringify: D -> string) returns (config: Config)
    ensures config.httpMethod == httpMethod
    ensures config.contentType == "application/json" && config.credentials == "include"
    ensures config.csrfHeader.Some? <==> SendsToken(httpMethod, CookieToken(cookie, decode))
    ensures config.csrfHeader.Some? ==> config.csrfHeader == CookieToken(cookie, decode)
    ensures config.body.Some? <==> data.Some?
    ensures data.Some? ==> config.body == Some(stringify(data.value))
  {
    config := Config(httpMethod, "application/json", "include", None, None);
    if httpMethod != "GET" && httpMethod != "HEAD" {
      var csrfToken := GetCSRFToken(cookie, decode);
      if csrfToken.Some? && csrfToken.value != "" {
        config := config.(csrfHeader := csrfToken);
      }
    }
    if data.Some? {
      config := config.(body := Some(stringify(data.value)));
    }
  }

  /** A read never carries the token, whatever the cookie holds. */
  lemma ReadsCarryNoToken(cookie: string, decode: string -> string)
    ensures !SendsToken("GET", CookieToken(cookie, decode)) && !SendsToken("HEAD", CookieToken(cookie, decode))
  {
  }

  /**
   * The parsed response body: `detail` and `error` are "" when absent, and
   * both are "" when the body is not JSON (the parse error is swallowed).
   */
  datatype ResponseBody<T> = ResponseBody(data: T, detail: string, error: string)

  datatype Outcome<T> = Returned(data: T) | Raised(message: string)

  /**
   * `detail || error || 'HTTP ' + status`: never empty; the detail first,
   * then the error, and otherwise `HTTP ` followed by the status, which
   * reads back as the status number.
   */
  function ErrorMessage<T>(body: ResponseBody<T>, status: int): (m: string)
    ensures m != ""
    ensures body.detail != "" ==> m == body.detail
    ensures body.detail == "" && body.error != "" ==> m == body.error
    ensures body.detail == "" && body.error == "" ==>
      StartsWith(m, "HTTP ") && ParseInt(m[5..], false) == Some(status)
  {
    if body.detail != "" then body.detail
    else if body.error != "" then body.error
    else
      ParseIntOfIntToStr(status, false);
      assert ("HTTP " + IntToStr(status))[5..] == IntToStr(status);
      "HTTP " + IntToStr(status)
  }

  /** An ok response returns its body; any other raises with a non-empty message. */
  function Settle<T>(ok: bool, status: int, body: ResponseBody<T>): (r: Outcome<T>)
    ensures r.Returned? <==> ok
    ensures r.Returned? ==> r.data == body.data
    ensures r.Raised? ==> r.message != "" && r.message == ErrorMessage(body, status)
  {
    if !ok then Raised(ErrorMessage(body, status)) else Returned(body.data)
  }
}

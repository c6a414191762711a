/**
 * The client's HTTP set-up (billing-ui `src/api/http.ts`): the API origin,
 * the in-memory bearer token with the default `Authorization` header that
 * follows it, and the request interceptor that adds a missing
 * `Authorization` header and rewrites every relative URL to `/api/...`.
 */
module Http {
  import opened Text

  const DefaultOrigin := "http://localhost:8000"

  /** JavaScript truthiness of an optional string: present and non-empty. */
  predicate Truthy(s: Option<string>) {
    s.Some? && s.value != ""
  }

  predicate IsSlash(c: char) { c == '/' }

  /** `(EXPO_PUBLIC_API_URL || 'http://localhost:8000').replace(/\/+$/, '')`. */
  function Origin(env: Option<string>): string {
    TrimEnd(if Truthy(env) then env.value else DefaultOrigin, IsSlash)
  }

  /** The origin is the configured URL (or the default) with every trailing slash removed, and no other change. */
  lemma OriginShape(env: Option<string>)
    ensures var chosen := if Truthy(env) then env.value else DefaultOrigin;
            && HasPrefix(chosen, Origin(env))
            && (forall k :: |Origin(env)| <= k < |chosen| ==> chosen[k] == '/')
            && (Origin(env) == [] || Origin(env)[|Origin(env)| - 1] != '/')
  {
  }

  // ---------------------------------------------------------------------------
  // URL rewrite

  /** `/^https?:\/\//i`: the URL starts with `http://` or `https://`, in any case. */
  predicate IsAbsolute(raw: string) {
    HasPrefixIgnoringCase(raw, "http://") || HasPrefixIgnoringCase(raw, "https://")
  }

  /** A URL whose second character is not `t` (in any case) is not absolute. */
  lemma NotAbsolute(raw: string)
    requires |raw| >= 2 && ToLower(raw[1]) != 't'
    ensures !IsAbsolute(raw)
  {
    assert "http://"[1] == 't' && "https://"[1] == 't';
  }

  /** `/^\/api(\/|$)/i`: the path starts with the segment `/api`, in any case, ended by `/` or the end. */
  predicate StartsWithApiSegment(path: string) {
    HasPrefixIgnoringCase(path, "/api") && (|path| == 4 || path[4] == '/')
  }

  /** The URL the interceptor sends for the caller's URL `raw`. */
  function RewriteUrl(raw: string): (r: string)
    ensures IsAbsolute(raw) ==> r == raw
    ensures !IsAbsolute(raw) ==> HasPrefix(r, "/api/")
  {
    if IsAbsolute(raw) then raw
    else
      var path := if HasPrefix(raw, "/") then raw else "/" + raw;
      var path' := if StartsWithApiSegment(path) then "/" + path[(if |path| == 4 then 4 else 5)..] else path;
      "/api" + path'
  }

  /** Only one `api` segment is removed: a URL already of the form `/api/...` is sent unchanged. */
  lemma RewriteKeepsApiPath(rest: string)
    ensures RewriteUrl("/api/" + rest) == "/api/" + rest
  {
    assert "/" + "api" + "/" + rest == "/api/" + rest;
    RewriteDropsApiAnyCase("api", rest);
  }

  /** Rewriting twice is rewriting once. */
  lemma RewriteIdempotent(raw: string)
    ensures RewriteUrl(RewriteUrl(raw)) == RewriteUrl(raw)
  {
    if !IsAbsolute(raw) {
      var r := RewriteUrl(raw);
      assert r == "/api/" + r[5..];
      RewriteKeepsApiPath(r[5..]);
    }
  }

  /** A relative path with a leading `api` segment followed by `/` loses that segment. */
  lemma RewriteApiPath(u: string)
    requires !IsAbsolute(u) && HasPrefix(u, "/") && |u| > 4 && StartsWithApiSegment(u)
    ensures RewriteUrl(u) == "/api/" + u[5..]
  {
  }

  /** A relative path without a leading `api` segment is prefixed with `/api`. */
  lemma RewriteOtherPath(u: string)
    requires !IsAbsolute(u) && HasPrefix(u, "/") && !StartsWithApiSegment(u)
    ensures RewriteUrl(u) == "/api" + u
  {
  }

  lemma RewriteBare()
    ensures RewriteUrl("invoices") == "/api/invoices"
  {
    NotAbsolute("invoices");
    assert ("/" + "invoices")[1] == 'i';
  }

  lemma RewriteSlash()
    ensures RewriteUrl("/invoices") == "/api/invoices"
  {
    NotAbsolute("/invoices");
    assert HasPrefix("/invoices", "/");
  }

  lemma ApiSegmentAnyCase(seg: string, rest: string)
    requires |seg| == 3 && HasPrefixIgnoringCase(seg, "api")
    ensures StartsWithApiSegment("/" + seg + "/" + rest)
  {
    var u := "/" + seg + "/" + rest;
    assert u[1..4] == seg && u[4] == '/';
  }

  /** The shape of `/seg/rest` for a three-letter segment `seg` starting with `a` in either case. */
  lemma SegmentUrl(seg: string, rest: string)
    requires |seg| == 3 && ToLower(seg[0]) == 'a'
    ensures var u := "/" + seg + "/" + rest;
            |u| > 4 && HasPrefix(u, "/") && u[5..] == rest && ToLower(u[1]) == 'a'
  {
    var u := "/" + seg + "/" + rest;
    assert u[..1] == "/" && u[1] == seg[0];
    assert u[5..] == rest;
  }

  /** The leading `api` segment is recognised in any letter case. */
  lemma RewriteDropsApiAnyCase(seg: string, rest: string)
    requires |seg| == 3 && HasPrefixIgnoringCase(seg, "api")
    ensures RewriteUrl("/" + seg + "/" + rest) == "/api/" + rest
  {
    var u := "/" + seg + "/" + rest;
    SegmentUrl(seg, rest);
    NotAbsolute(u);
    ApiSegmentAnyCase(seg, rest);
    RewriteApiPath(u);
  }

  lemma RewriteApiOnly()
    ensures RewriteUrl("/api") == "/api/"
  {
  }

  lemma RewriteApix()
    ensures RewriteUrl("/apix") == "/api/apix"
  {
  }

  lemma RewriteApiApi()
    ensures RewriteUrl("/api/api/x") == "/api/api/x"
  {
  }

  // ---------------------------------------------------------------------------
  // Token state and the request interceptor

  /** What the request interceptor reads and writes of an outgoing request. */
  datatype RequestConfig = RequestConfig(url: Option<string>, authorization: Option<string>)

  /** The module-level state of `http.ts`: the axios instance's base URL and default header, and `tokenMem`. */
  class ApiClient {
    const origin: string
    var tokenMem: Option<string>
    var defaultAuthorization: Option<string>

    /** The default `Authorization` header is the bearer header of the remembered token exactly when that token is non-empty. */
    predicate HeaderFollowsToken()
      reads this
    {
      defaultAuthorization == if Truthy(tokenMem) then Some("Bearer " + tokenMem.value) else None
    }

    constructor (env: Option<string>)
      ensures origin == Origin(env)
      ensures tokenMem == None && defaultAuthorization == None
      ensures HeaderFollowsToken()
    {
      origin := Origin(env);
      tokenMem := None;
      defaultAuthorization := None;
    }

    /** `setAuthToken`: remember the token; a non-empty token becomes the default bearer header, otherwise the header is removed. */
    method SetAuthToken(token: Option<string>)
      modifies this
      ensures tokenMem == token
      ensures Truthy(token) ==> defaultAuthorization == Some("Bearer " + token.value)
      ensures !Truthy(token) ==> defaultAuthorization == None
      ensures HeaderFollowsToken()
    {
      tokenMem := token;
      if Truthy(token) {
        defaultAuthorization := Some("Bearer " + token.value);
      } else {
        defaultAuthorization := None;
      }
    }

    /** `getToken`. */
    method GetToken() returns (t: Option<string>)
      ensures t == tokenMem
    {
      t := tokenMem;
    }

    /**
     * `restoreToken`, with `stored` the value read from session or secure
     * storage (None when nothing is stored or the read fails): a non-empty
     * stored token is installed and returned, anything else returns none.
     */
    method RestoreToken(stored: Option<string>) returns (t: Option<string>)
      modifies this
      ensures Truthy(stored) ==> t == stored && tokenMem == stored
                                 && defaultAuthorization == Some("Bearer " + stored.value)
      ensures !Truthy(stored) ==> t == None
                                  && tokenMem == old(tokenMem) && defaultAuthorization == old(defaultAuthorization)
      ensures old(HeaderFollowsToken()) ==> HeaderFollowsToken()
    {
      if Truthy(stored) {
        SetAuthToken(stored);
        t := stored;
      } else {
        t := None;
      }
    }

    /**
     * The request interceptor. A request that already carries a non-empty
     * `Authorization` header keeps it; otherwise the in-memory token, or
     * failing that the stored one, is added as a bearer header when there is
     * one. The URL is rewritten by `RewriteUrl`.
     */
    method InterceptRequest(config: RequestConfig, stored: Option<string>) returns (out: RequestConfig)
      modifies this
      ensures out.url == Some(RewriteUrl(config.url.GetOr("")))
      ensures Truthy(config.authorization) ==>
                out.authorization == config.authorization
                && tokenMem == old(tokenMem) && defaultAuthorization == old(defaultAuthorization)
      ensures !Truthy(config.authorization) && Truthy(old(tokenMem)) ==>
                out.authorization == Some("Bearer " + old(tokenMem).value)
                && tokenMem == old(tokenMem) && defaultAuthorization == old(defaultAuthorization)
      ensures !Truthy(config.authorization) && !Truthy(old(tokenMem)) && Truthy(stored) ==>
                out.authorization == Some("Bearer " + stored.value)
                && tokenMem == stored && defaultAuthorization == Some("Bearer " + stored.value)
      ensures !Truthy(config.authorization) && !Truthy(old(tokenMem)) && !Truthy(stored) ==>
                out.authorization == config.authorization
                && tokenMem == old(tokenMem) && defaultAuthorization == old(defaultAuthorization)
      ensures old(HeaderFollowsToken()) ==> HeaderFollowsToken()
    {
      out := config;
      if !Truthy(config.authorization) {
        var t := GetToken();
        if !Truthy(t) {
          t := RestoreToken(stored);
        }
        if Truthy(t) {
          out := out.(authorization := Some("Bearer " + t.value));
        }
      }
      var raw := config.url.GetOr("");
      if !IsAbsolute(raw) {
        var path := if HasPrefix(raw, "/") then raw else "/" + raw;
        if StartsWithApiSegment(path) {
          path := "/" + path[(if |path| == 4 then 4 else 5)..];
        }
        out := out.(url := Some("/api" + path));
      }
    }
  }
}

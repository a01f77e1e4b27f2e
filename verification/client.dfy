/**
 * The axios client of the frontend: the in-memory access token, the request
 * interceptor that attaches it, and the response interceptor that answers a
 * 401 by refreshing the token once and resending the request.
 */
module Client {
  import opened Wrappers

  const REFRESH_URL := "/auth/token/refresh/"
  const HTTP_UNAUTHORIZED := 401

  /** `s.includes(sub)`: `sub` starts at some position of `s`. */
  predicate Includes(s: string, sub: string)
  {
    (|sub| <= |s| && s[..|sub|] == sub) || (s != [] && Includes(s[1..], sub))
  }

  /** `sub` occurs in `s` starting at index `i`. */
  predicate OccursAt(s: string, sub: string, i: nat)
  {
    i + |sub| <= |s| && s[i..i + |sub|] == sub
  }

  /** When `Includes` holds, `sub` occurs at some index of `s`. */
  lemma {:induction false} IncludesSound(s: string, sub: string)
    requires Includes(s, sub)
    ensures exists i: nat :: OccursAt(s, sub, i)
  {
    if |sub| <= |s| && s[..|sub|] == sub {
      assert s[0..0 + |sub|] == s[..|sub|];
      assert OccursAt(s, sub, 0);
    } else {
      IncludesSound(s[1..], sub);
      var j: nat :| OccursAt(s[1..], sub, j);
      assert s[1..][j..j + |sub|] == s[j + 1..j + 1 + |sub|];
      assert OccursAt(s, sub, j + 1);
    }
  }

  /** `Includes` finds every occurrence: wherever `sub` occurs, it holds. */
  lemma {:induction false} IncludesComplete(s: string, sub: string, i: nat)
    requires OccursAt(s, sub, i)
    ensures Includes(s, sub)
    decreases i
  {
    if i == 0 {
      assert s[..|sub|] == s[0..0 + |sub|];
    } else {
      assert s[1..][i - 1..i - 1 + |sub|] == s[i..i + |sub|];
      IncludesComplete(s[1..], sub, i - 1);
    }
  }

  /** How a `string | null` token reads inside a template literal: `null` prints as "null". */
  function TokenText(token: Option<string>): string
  {
    if token.Some? then token.value else "null"
  }

  /** `Bearer ${token}` */
  function Bearer(token: Option<string>): (r: string)
    ensures |r| == 7 + |TokenText(token)| && r[..7] == "Bearer " && r[7..] == TokenText(token)
  {
    "Bearer " + TokenText(token)
  }

  /** The truthiness test `if (accessToken)`: null and "" attach nothing. */
  predicate HasToken(token: Option<string>)
  {
    token.Some? && token.value != ""
  }

  /** An outgoing request's config, which both interceptors write into in place. */
  class RequestConfig {
    var url: Option<string>
    var headers: map<string, string>
    var retry: bool // the `_retry` flag the response interceptor sets

    constructor(url: Option<string>, headers: map<string, string>)
      ensures this.url == url && this.headers == headers && !retry
    {
      this.url := url;
      this.headers := headers;
      retry := false;
    }
  }

  /** What the refresh call `api.post("/auth/token/refresh/")` gave, when it was made. */
  datatype RefreshResult = Refreshed(access: string) | RefreshFailed(refreshError: string)

  /** How the response interceptor settles a failed request. */
  datatype ErrorOutcome =
    | RejectedOriginal                      // `Promise.reject(error)`
    | RejectedRefresh(refreshError: string) // `Promise.reject(refreshError)`
    | Resent(refreshCalled: bool)           // `api(originalRequest)`, after a refresh call or without one

  /** The two module-level slots of client.ts. */
  class ApiClient {
    var accessToken: Option<string>
    var isRefreshing: bool

    constructor()
      ensures accessToken == None && !isRefreshing
    {
      accessToken := None;
      isRefreshing := false;
    }

    /** `setAccessToken`: the token is replaced; the refresh lock is left alone. */
    method SetAccessToken(token: Option<string>)
      modifies this
      ensures accessToken == token && isRefreshing == old(isRefreshing)
    {
      accessToken := token;
    }

    /**
     * The request interceptor: `Authorization` is set to the bearer token
     * exactly when the token is truthy; every other header, the URL and the
     * retry flag are kept.
     */
    method InterceptRequest(config: RequestConfig)
      modifies config
      ensures HasToken(accessToken) ==> config.headers == old(config.headers)["Authorization" := Bearer(accessToken)]
      ensures !HasToken(accessToken) ==> config.headers == old(config.headers)
      ensures config.url == old(config.url) && config.retry == old(config.retry)
    {
      if accessToken.Some? && accessToken.value != "" {
        config.headers := config.headers["Authorization" := "Bearer " + accessToken.value];
      }
    }

    /**
     * The response interceptor's error handler. `config` is `error.config`
     * (null when the request never got one) and `status` the response status
     * (None when there was no response). `refresh` is what the refresh call
     * gives if this handler makes it.
     */
    method HandleResponseError(config: RequestConfig?, status: Option<int>, refresh: RefreshResult)
      returns (outcome: ErrorOutcome)
      modifies this, config
      // not a 401, or no config: rejected untouched
      ensures config == null || status != Some(HTTP_UNAUTHORIZED) ==>
                outcome == RejectedOriginal
                && accessToken == old(accessToken) && isRefreshing == old(isRefreshing)
                && (config != null ==> config.url == old(config.url) && config.retry == old(config.retry)
                                       && config.headers == old(config.headers))
      // a 401 from the refresh endpoint itself: token cleared, no retry, checked before `_retry`
      ensures config != null && status == Some(HTTP_UNAUTHORIZED) && config.url.Some? && Includes(config.url.value, REFRESH_URL) ==>
                outcome == RejectedOriginal && accessToken == None && isRefreshing == old(isRefreshing)
                && config.url == old(config.url) && config.retry == old(config.retry) && config.headers == old(config.headers)
      // a 401 on a request already retried: token cleared, never a second retry
      ensures config != null && status == Some(HTTP_UNAUTHORIZED)
              && !(config.url.Some? && Includes(config.url.value, REFRESH_URL)) && old(config.retry) ==>
                outcome == RejectedOriginal && accessToken == None && isRefreshing == old(isRefreshing)
                && config.url == old(config.url) && config.retry && config.headers == old(config.headers)
      // a first 401 on any other request: marked as retried, then refreshed (unless a refresh is under way) and resent
      ensures config != null && status == Some(HTTP_UNAUTHORIZED)
              && !(config.url.Some? && Includes(config.url.value, REFRESH_URL)) && !old(config.retry) ==>
                config.retry && config.url == old(config.url)
                && (old(isRefreshing) ==>
                      outcome == Resent(false) && isRefreshing && accessToken == old(accessToken)
                      && config.headers == old(config.headers)["Authorization" := Bearer(old(accessToken))])
                && (!old(isRefreshing) && refresh.Refreshed? ==>
                      outcome == Resent(true) && !isRefreshing && accessToken == Some(refresh.access)
                      && config.headers == old(config.headers)["Authorization" := Bearer(Some(refresh.access))])
                && (!old(isRefreshing) && refresh.RefreshFailed? ==>
                      outcome == RejectedRefresh(refresh.refreshError) && !isRefreshing && accessToken == None
                      && config.headers == old(config.headers))
    {
      if config == null || status != Some(HTTP_UNAUTHORIZED) {
        return RejectedOriginal;
      }
      if config.url.Some? && Includes(config.url.value, REFRESH_URL) {
        SetAccessToken(None);
        return RejectedOriginal;
      }
      if config.retry {
        SetAccessToken(None);
        return RejectedOriginal;
      }
      config.retry := true;
      var refreshCalled := false;
      if !isRefreshing {
        isRefreshing := true;
        refreshCalled := true;
        match refresh
        case RefreshFailed(refreshError) =>
          isRefreshing := false;
          SetAccessToken(None);
          return RejectedRefresh(refreshError);
        case Refreshed(access) =>
          SetAccessToken(Some(access));
          isRefreshing := false;
      }
      config.headers := config.headers["Authorization" := Bearer(accessToken)];
      return Resent(refreshCalled);
    }
  }
}

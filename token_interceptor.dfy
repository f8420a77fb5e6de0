/**
 * `TokenInterceptor`: requests to the app's own hosts carry the signed-in
 * user's access token as a bearer credential (section 2.1 of RFC 6750);
 * a 401 answer triggers one token refresh and, if it succeeds, one retry
 * with the new token. The network is an oracle: the response the first
 * `proceed` gets, the one a retry would get, and the refresh call's
 * outcome are inputs, and the requests sent through the chain are an
 * output.
 */
module TokenInterceptors {
  import opened Wrappers
  import opened Strings
  import Urls
  import opened UserHelpers

  const AUTHORIZATION: string := "Authorization"
  const UNAUTHORIZED: int := 401

  datatype Header = Header(name: string, value: string)
  datatype Request = Request(url: string, headers: seq<Header>)
  datatype Response = Response(code: int)

  /** `"Bearer $token"` */
  function BearerValue(token: string): string {
    "Bearer " + token
  }

  /** `addHeader`: appended, any earlier header of that name kept */
  function AddHeader(r: Request, name: string, value: string): (q: Request)
    ensures q.url == r.url && q.headers == r.headers + [Header(name, value)]
  {
    r.(headers := r.headers + [Header(name, value)])
  }

  /** The headers other than those named `name`, in order */
  function WithoutName(hs: seq<Header>, name: string): (r: seq<Header>)
    ensures |r| <= |hs|
    ensures forall i :: 0 <= i < |r| ==> r[i].name != name
  {
    if |hs| == 0 then []
    else if hs[0].name == name then WithoutName(hs[1..], name)
    else [hs[0]] + WithoutName(hs[1..], name)
  }

  /** `removeHeader`: every header of that name dropped */
  function RemoveHeader(r: Request, name: string): (q: Request)
    ensures q.url == r.url
    ensures forall i :: 0 <= i < |q.headers| ==> q.headers[i].name != name
  {
    r.(headers := WithoutName(r.headers, name))
  }

  /** The values of the headers named `name`, in order */
  function ValuesOf(hs: seq<Header>, name: string): seq<string> {
    if |hs| == 0 then []
    else if hs[0].name == name then [hs[0].value] + ValuesOf(hs[1..], name)
    else ValuesOf(hs[1..], name)
  }

  lemma {:induction false} ValuesOfAppend(a: seq<Header>, b: seq<Header>, name: string)
    ensures ValuesOf(a + b, name) == ValuesOf(a, name) + ValuesOf(b, name)
  {
    if |a| > 0 {
      assert (a + b)[1..] == a[1..] + b;
      ValuesOfAppend(a[1..], b, name);
    } else {
      assert a + b == b;
    }
  }

  /** Removing a name leaves no value for it and every other name's values as they were. */
  lemma {:induction false} WithoutNameValues(hs: seq<Header>, name: string, other: string)
    ensures ValuesOf(WithoutName(hs, name), name) == []
    ensures other != name ==> ValuesOf(WithoutName(hs, name), other) == ValuesOf(hs, other)
  {
    if |hs| > 0 {
      WithoutNameValues(hs[1..], name, other);
      if hs[0].name != name {
        assert ([hs[0]] + WithoutName(hs[1..], name))[1..] == WithoutName(hs[1..], name);
      }
    }
  }

  /**
   * The retried request carries exactly one credential, the new one,
   * whatever the original carried, and every other header unchanged.
   */
  lemma RetryReplacesCredential(r: Request, oldToken: string, newToken: string, other: string)
    ensures var first := AddHeader(r, AUTHORIZATION, BearerValue(oldToken));
      var retry := AddHeader(RemoveHeader(first, AUTHORIZATION), AUTHORIZATION, BearerValue(newToken));
      ValuesOf(retry.headers, AUTHORIZATION) == [BearerValue(newToken)]
      && (other != AUTHORIZATION ==> ValuesOf(retry.headers, other) == ValuesOf(r.headers, other))
  {
    var first := AddHeader(r, AUTHORIZATION, BearerValue(oldToken));
    var kept := WithoutName(first.headers, AUTHORIZATION);
    WithoutNameValues(first.headers, AUTHORIZATION, other);
    ValuesOfAppend(kept, [Header(AUTHORIZATION, BearerValue(newToken))], AUTHORIZATION);
    ValuesOfAppend(kept, [Header(AUTHORIZATION, BearerValue(newToken))], other);
    ValuesOfAppend(r.headers, [Header(AUTHORIZATION, BearerValue(oldToken))], other);
  }

  /** The five URL prefixes whose requests are authorised */
  predicate IsAuthorizedUrl(url: string) {
    StartsWith(url, Urls.BASE_URL) || StartsWith(url, Urls.UPLOAD_IMAGE) || StartsWith(url, Urls.UPLOAD_VIDEO)
    || StartsWith(url, Urls.MOVE_IMAGE) || StartsWith(url, Urls.MOVE_VIDEO)
  }

  /** `isNullOrBlank()` */
  predicate NullOrBlank(s: Option<string>) {
    s.None? || IsBlank(s.value)
  }

  /** A refresh succeeds when a token is stored and the answer carries two non-blank tokens. */
  predicate RefreshSucceeds(session: Option<UserModel>, answer: Outcome<Option<UserModel>>) {
    !IsBlank(RefreshToken(session))
    && answer.Returned? && answer.value.Some?
    && !NullOrBlank(answer.value.value.accessToken) && !NullOrBlank(answer.value.value.refreshToken)
  }

  /** Without a session there is no stored refresh token, so no refresh can succeed. */
  lemma NoSessionNoRefresh(answer: Outcome<Option<UserModel>>)
    ensures !RefreshSucceeds(None, answer)
  {
  }

  /**
   * `refreshToken()`: a blank stored refresh token fails without calling
   * the service; otherwise `sent` is the token sent, and the provider is
   * updated only when both new tokens are non-blank.
   */
  method Refresh(user: UserHelper, answer: Outcome<Option<UserModel>>) returns (refreshed: bool, sent: Option<string>)
    requires user.Valid()
    modifies user
    ensures user.Valid()
    ensures var stored := RefreshToken(old(user.Session()));
      sent == (if IsBlank(stored) then None else Some(stored))
    ensures refreshed == RefreshSucceeds(old(user.Session()), answer)
    ensures refreshed ==> old(user.Session()).Some? && user.Session() == Some(WithTokens(old(user.Session()).value,
      answer.value.value.refreshToken.value, answer.value.value.accessToken.value))
    ensures !refreshed ==> user.Session() == old(user.Session()) && user.store == old(user.store)
  {
    var refreshToken := user.GetRefreshToken();
    if IsBlank(refreshToken) {
      return false, None;
    }
    sent := Some(refreshToken);
    var model: Option<UserModel> := if answer.Returned? then answer.value else None;
    var accessToken := if model.Some? then model.value.accessToken else None;
    var newRefreshToken := if model.Some? then model.value.refreshToken else None;
    if !NullOrBlank(accessToken) && !NullOrBlank(newRefreshToken) {
      user.UpdateToken(newRefreshToken.value, accessToken.value);
      refreshed := true;
    } else {
      refreshed := false;
    }
  }

  /**
   * `intercept(chain)`. `proceeded` lists the requests handed to
   * `chain.proceed`, in order; `refreshSent` the refresh token sent, if a
   * refresh call was made.
   */
  method Intercept(user: UserHelper, request: Request, firstResponse: Response, retryResponse: Response,
                   refreshAnswer: Outcome<Option<UserModel>>)
    returns (response: Response, proceeded: seq<Request>, refreshSent: Option<string>)
    requires user.Valid()
    modifies user
    ensures user.Valid() && 1 <= |proceeded| <= 2
    ensures var s := old(user.Session());
      !(s.Some? && IsAuthorizedUrl(request.url)) ==>
        proceeded == [request] && response == firstResponse && refreshSent.None?
        && user.Session() == s && user.store == old(user.store)
    ensures var s := old(user.Session());
      s.Some? && IsAuthorizedUrl(request.url) ==>
        proceeded[0] == AddHeader(request, AUTHORIZATION, BearerValue(AccessToken(s)))
    ensures var s := old(user.Session());
      s.Some? && IsAuthorizedUrl(request.url) && firstResponse.code != UNAUTHORIZED ==>
        |proceeded| == 1 && response == firstResponse && refreshSent.None?
        && user.Session() == s && user.store == old(user.store)
    ensures var s := old(user.Session());
      s.Some? && IsAuthorizedUrl(request.url) && firstResponse.code == UNAUTHORIZED ==>
        refreshSent == (if IsBlank(RefreshToken(s)) then None else Some(RefreshToken(s)))
    ensures var s := old(user.Session());
      s.Some? && IsAuthorizedUrl(request.url) && firstResponse.code == UNAUTHORIZED
      && RefreshSucceeds(s, refreshAnswer) ==>
        var renewed := WithTokens(s.value, refreshAnswer.value.value.refreshToken.value,
                                refreshAnswer.value.value.accessToken.value);
        |proceeded| == 2 && response == retryResponse && user.Session() == Some(renewed)
        && proceeded[1] == AddHeader(RemoveHeader(proceeded[0], AUTHORIZATION), AUTHORIZATION,
                                     BearerValue(AccessToken(Some(renewed))))
    ensures var s := old(user.Session());
      s.Some? && IsAuthorizedUrl(request.url) && firstResponse.code == UNAUTHORIZED
      && !RefreshSucceeds(s, refreshAnswer) ==>
        |proceeded| == 1 && response == firstResponse && user.Session() == s && user.store == old(user.store)
  {
    var isLogin := user.IsLogin();
    refreshSent := None;
    if isLogin && IsAuthorizedUrl(request.url) {
      var token := user.GetToken();
      var newRequest := AddHeader(request, AUTHORIZATION, BearerValue(token));
      proceeded := [newRequest];
      response := firstResponse;
      if response.code == UNAUTHORIZED {
        var tokenRefreshed;
        tokenRefreshed, refreshSent := Refresh(user, refreshAnswer);
        if tokenRefreshed {
          var newAccessToken := user.GetToken();
          newRequest := AddHeader(RemoveHeader(newRequest, AUTHORIZATION), AUTHORIZATION, BearerValue(newAccessToken));
          proceeded := proceeded + [newRequest];
          return retryResponse, proceeded, refreshSent;
        }
      }
      return;
    }
    proceeded := [request];
    response := firstResponse;
  }
}

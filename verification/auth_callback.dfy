/**
 * The OAuth callback page's effect: read the two tokens from the URL fragment,
 * hand them to `setSession` when both are non-empty, and navigate to the
 * dashboard when the returned promise fulfils or back to sign-in otherwise.
 * Whether the promise fulfils is an input (`setSessionFulfilled`); the value it
 * fulfils with, including any `error` field, is never read by the page.
 */
module AuthCallback {
  import opened Common
  import opened FormUrlEncoded
  import Routing

  /** `window.location.hash.substring(1)`: everything after the first character. */
  function FragmentBody(hash: string): (body: string)
    ensures |hash| > 0 ==> hash == [hash[0]] + body
    ensures |hash| == 0 ==> body == ""
  {
    if |hash| == 0 then "" else hash[1..]
  }

  /** The two `params.get(...)` results; `None` is `null`. */
  datatype Tokens = Tokens(access: Option<string>, refresh: Option<string>)

  function ExtractTokens(hash: string): Tokens {
    var params := SearchParams(FragmentBody(hash));
    Tokens(Get(params, "access_token"), Get(params, "refresh_token"))
  }

  /** JavaScript truthiness of a `get` result: present and not the empty string. */
  predicate Truthy(t: Option<string>) {
    t.Some? && t.value != ""
  }

  /** The argument of `supabase.auth.setSession`. */
  datatype TokenPair = TokenPair(accessToken: string, refreshToken: string)

  /** One run of the effect: the `setSession` call made, if any, and the one navigation issued. */
  datatype CallbackEffect = CallbackEffect(setSession: Option<TokenPair>, navigateTo: string)

  function CompleteCallback(hash: string, setSessionFulfilled: bool): (e: CallbackEffect)
    ensures e.navigateTo == Routing.DefaultDestination || e.navigateTo == Routing.SignInPath
    ensures e.setSession.Some? <==> Truthy(ExtractTokens(hash).access) && Truthy(ExtractTokens(hash).refresh)
    ensures e.setSession.Some? ==>
              e.setSession.value == TokenPair(ExtractTokens(hash).access.value, ExtractTokens(hash).refresh.value)
    ensures e.navigateTo == Routing.DefaultDestination <==> e.setSession.Some? && setSessionFulfilled
  {
    var t := ExtractTokens(hash);
    if Truthy(t.access) && Truthy(t.refresh) then
      var call := TokenPair(t.access.value, t.refresh.value);
      CallbackEffect(Some(call), if setSessionFulfilled then Routing.DefaultDestination else Routing.SignInPath)
    else
      CallbackEffect(None, Routing.SignInPath)
  }

  /** The query text never starts with `?`, so the constructor parses it as is. */
  predicate NoLeadingQuestionMark(ps: seq<Param>) {
    |ps| == 0 || |ps[0].name| == 0 || ps[0].name[0] != '?'
  }

  /**
   * Extraction reads the first value of each key from the text after the
   * leading character of the hash.
   */
  lemma ExtractReadsFirstValues(lead: char, ps: seq<Param>)
    requires forall k :: 0 <= k < |ps| ==> Encodable(ps[k])
    requires NoLeadingQuestionMark(ps)
    ensures ExtractTokens([lead] + Serialize(ps)) == Tokens(Get(ps, "access_token"), Get(ps, "refresh_token"))
  {
    var hash := [lead] + Serialize(ps);
    assert FragmentBody(hash) == Serialize(ps);
    if |ps| > 0 {
      var ts := PairTexts(ps);
      assert Serialize(ps)[0] == ts[0][0] by {
        assert |ts| > 1 ==> Serialize(ps) == ts[0] + ['&'] + Join(ts[1..], '&');
        assert ts[0] == ps[0].name + "=" + ps[0].value;
      }
      assert ts[0][0] != '?';
    }
    ParseSerialize(ps);
  }

  /** The text the identity provider puts after `#` for two tokens. */
  lemma ProviderText(a: string, r: string)
    ensures Serialize([Param("access_token", a), Param("refresh_token", r)])
            == "access_token=" + a + "&refresh_token=" + r
    ensures Serialize([Param("access_token", a)]) == "access_token=" + a
  {
    var ts := PairTexts([Param("access_token", a), Param("refresh_token", r)]);
    assert "access_token" + "=" == "access_token=";
    assert "refresh_token" + "=" == "refresh_token=";
    assert ts == ["access_token=" + a, "refresh_token=" + r];
    assert Join(ts[1..], '&') == "refresh_token=" + r;
    assert PairTexts([Param("access_token", a)]) == ["access_token=" + a];
  }

  lemma HashText(a: string, r: string)
    ensures "#access_token=" + a == ['#'] + ("access_token=" + a)
    ensures "#access_token=" + a + "&refresh_token=" + r == ['#'] + ("access_token=" + a + "&refresh_token=" + r)
  {
    assert "#access_token=" == ['#'] + "access_token=";
  }

  /** The identity provider's fragment `#access_token=A&refresh_token=R` yields exactly A and R. */
  lemma ProviderFragmentYieldsTokens(a: string, r: string)
    requires '&' !in a && '&' !in r
    ensures ExtractTokens("#access_token=" + a + "&refresh_token=" + r) == Tokens(Some(a), Some(r))
  {
    var ps := [Param("access_token", a), Param("refresh_token", r)];
    ProviderText(a, r);
    ExtractReadsFirstValues('#', ps);
    HashText(a, r);
  }

  /** Both tokens present: the session call gets them, and the promise's outcome picks the target. */
  lemma ProviderFragmentCompletes(a: string, r: string, setSessionFulfilled: bool)
    requires '&' !in a && '&' !in r && a != "" && r != ""
    ensures CompleteCallback("#access_token=" + a + "&refresh_token=" + r, setSessionFulfilled)
            == CallbackEffect(Some(TokenPair(a, r)),
                              if setSessionFulfilled then Routing.DefaultDestination else Routing.SignInPath)
  {
    ProviderFragmentYieldsTokens(a, r);
  }

  /** A fragment without a refresh token makes no session call and returns to sign-in. */
  lemma MissingRefreshTokenGoesToSignIn(a: string, setSessionFulfilled: bool)
    requires '&' !in a
    ensures CompleteCallback("#access_token=" + a, setSessionFulfilled) == CallbackEffect(None, Routing.SignInPath)
  {
    var ps := [Param("access_token", a)];
    ProviderText(a, "");
    ExtractReadsFirstValues('#', ps);
    HashText(a, "");
    assert Get(ps, "refresh_token") == None;
  }

  /** When no call is made the promise's outcome cannot matter. */
  lemma NoCallIgnoresOutcome(hash: string)
    requires CompleteCallback(hash, true).setSession.None?
    ensures CompleteCallback(hash, true) == CompleteCallback(hash, false) == CallbackEffect(None, Routing.SignInPath)
  {
  }

  /**
   * Whatever session is current when the navigation lands, the target renders
   * a page after at most one more redirect.
   */
  lemma CallbackTargetSettles(hash: string, setSessionFulfilled: bool, session: Option<Routing.Session>)
    ensures Routing.Follow(CompleteCallback(hash, setSessionFulfilled).navigateTo, session, 1).Render?
  {
    var target := CompleteCallback(hash, setSessionFulfilled).navigateTo;
    Routing.PublicPagesRedirectSignedIn(session);
    Routing.DashboardAdmitsSignedIn(session);
    assert Routing.Follow(target, session, 1) ==
      (var d := Routing.Route(target, session); if d.Redirect? then Routing.Route(d.to, session) else d);
  }
}

/**
 * The session holder (`AuthProvider`): whether the student is signed in, the
 * four tokens later requests carry, the browser storage they are persisted
 * in, and the `login` and `logout` procedures.
 *
 * The network is left to the caller: each fetch is given as its outcome,
 * `None` when the fetch itself fails, and the session records the requests
 * it sends in its effect log, in order, together with the storage clears and
 * the cookie assignments.
 */
module Auth {
  import opened Wrappers
  import opened Text
  import opened Dom
  import opened Tokens
  import opened Forms
  import opened Http
  import Attendance

  /** A `localStorage` entry: a plain text, or the serialised payload. */
  datatype Stored = Flag(text: string) | SavedPayload(payload: PayloadData)

  const AuthenticatedKey := "isAuthenticated"
  const PayloadKey := "payloadData"

  /** Something the session does outside its own fields, in the order it does it. */
  datatype Effect =
    | ClearQueryCache
    | ClearLocalStorage
    | ClearSessionStorage
    | Send(request: Request)
    | WriteCookie(assignment: string)

  /** `queryClient.clear()`, `localStorage.clear()`, `sessionStorage.clear()` */
  const ClearAll := [ClearQueryCache, ClearLocalStorage, ClearSessionStorage]

  function SendAll(requests: seq<Request>): (effects: seq<Effect>)
    ensures |effects| == |requests|
  {
    if requests == [] then [] else SendAll(requests[..|requests| - 1]) + [Send(requests[|requests| - 1])]
  }

  lemma SendAllSnoc(requests: seq<Request>, r: Request)
    ensures SendAll(requests + [r]) == SendAll(requests) + [Send(r)]
  {
    assert (requests + [r])[..|requests|] == requests;
  }

  // ---------------------------------------------------------------------
  // Initial state

  /** The `isAuthenticated` initialiser: the stored flag is exactly `"true"`. */
  function InitialAuthenticated(stored: map<string, Stored>): bool {
    AuthenticatedKey in stored && stored[AuthenticatedKey] == Flag("true")
  }

  /** The `payloadData` initialiser: the stored payload, and `null` when none is stored. */
  function InitialPayload(stored: map<string, Stored>): (payload: Option<PayloadData>)
    ensures PayloadKey !in stored ==> payload == None
    ensures payload.Some? <==> PayloadKey in stored && stored[PayloadKey].SavedPayload?
    ensures payload.Some? ==> payload.value == stored[PayloadKey].payload
  {
    if PayloadKey in stored && stored[PayloadKey].SavedPayload? then Some(stored[PayloadKey].payload) else None
  }

  /** What a signed-in session persists: the payload and the flag `"true"`. */
  function SignedInStorage(p: PayloadData): map<string, Stored> {
    map[PayloadKey := SavedPayload(p), AuthenticatedKey := Flag("true")]
  }

  /** Only the text `"true"` under `isAuthenticated` reads as signed in; any other flag, a payload or nothing does not. */
  lemma OnlyTrueAuthenticates(stored: map<string, Stored>, entry: Stored)
    ensures InitialAuthenticated(stored[AuthenticatedKey := entry]) <==> entry == Flag("true")
    ensures AuthenticatedKey !in stored ==> !InitialAuthenticated(stored)
  {
  }

  /** Reloading after the storage was cleared, as a failed login or a logout leaves it, shows a signed-out session. */
  lemma ClearedStorageSignedOut()
    ensures !InitialAuthenticated(map[])
    ensures InitialPayload(map[]) == None
  {
  }

  /** Reloading the page restores the signed-in state that was persisted. */
  lemma SignedInStorageRestores(p: PayloadData)
    ensures InitialAuthenticated(SignedInStorage(p))
    ensures InitialPayload(SignedInStorage(p)) == Some(p)
  {
  }

  // ---------------------------------------------------------------------
  // Request bodies

  const LoginEndpoint := "/Login"
  const HomeEndpoint := "/Home"

  /** What `login` reads from the login page. */
  datatype LoginPage = LoginPage(
    inputs: Inputs,
    /** The `name` of the first input inside `#pnlInfo1`, `None` when there is none. */
    captchaInputName: Option<string>)

  /** The field the captcha answer is sent under: `""` when the page names none. */
  function CaptchaKey(page: LoginPage): (key: string)
    ensures page.captchaInputName.None? ==> key == ""
    ensures page.captchaInputName.Some? ==> key == page.captchaInputName.value
  {
    page.captchaInputName.GetOr("")
  }

  /**
   * The body of the login POST, written as the chain of fields its sixteen
   * `append` calls build one after the other.
   */
  function LoginForm(page: LoginPage, username: string, password: string, captcha: string): FormData {
    var tokens := ExtractPayload(page.inputs);
    Field(Field(Field(Field(Field(Field(Field(Field(Field(Field(Field(Field(Field(Field(Field(Field(
      EmptyForm,
      "__LASTFOCUS", ""),
      "__EVENTTARGET", ""),
      "__EVENTARGUMENT", ""),
      ViewStateField, tokens.viewState),
      ViewStateGeneratorField, tokens.viewStateGenerator),
      EventValidationField, tokens.eventValidation),
      "selector", "rdoStdudent"),
      "__txtUserId100", username),
      "txtPass", password),
      CaptchaKey(page), captcha),
      "btnLogin_", "LOGIN"),
      "zx1234", username),
      "hidsetname", "ok"),
      "hdnShowInstruction", "0"),
      "txtUserName", ""),
      "txtdateofBirth", "")
  }

  /**
   * The login body carries the login page's three tokens verbatim, the
   * username under `__txtUserId100` and again under `zx1234`, and the
   * captcha answer under the name the page gives its captcha input.
   */
  lemma LoginFormFields(page: LoginPage, username: string, password: string, captcha: string)
    ensures var pairs := LoginForm(page, username, password, captcha).Pairs();
      var tokens := ExtractPayload(page.inputs);
      |pairs| == 16
      && pairs[3] == (ViewStateField, tokens.viewState)
      && pairs[4] == (ViewStateGeneratorField, tokens.viewStateGenerator)
      && pairs[5] == (EventValidationField, tokens.eventValidation)
      && pairs[7] == ("__txtUserId100", username)
      && pairs[8] == ("txtPass", password)
      && pairs[9] == (CaptchaKey(page), captcha)
      && pairs[11] == ("zx1234", username)
  {
    var tokens := ExtractPayload(page.inputs);
    var body := EmptyForm
      .Append("__LASTFOCUS", "")
      .Append("__EVENTTARGET", "")
      .Append("__EVENTARGUMENT", "")
      .Append(ViewStateField, tokens.viewState)
      .Append(ViewStateGeneratorField, tokens.viewStateGenerator)
      .Append(EventValidationField, tokens.eventValidation)
      .Append("selector", "rdoStdudent")
      .Append("__txtUserId100", username)
      .Append("txtPass", password)
      .Append(CaptchaKey(page), captcha)
      .Append("btnLogin_", "LOGIN")
      .Append("zx1234", username)
      .Append("hidsetname", "ok")
      .Append("hdnShowInstruction", "0")
      .Append("txtUserName", "")
      .Append("txtdateofBirth", "");
    assert body == LoginForm(page, username, password, captcha);
  }

  /** The hidden fields of the home page the logout postback sends back. */
  const LogoutFields := [
    "ctl00$hdncollegenewsalerts", "ctl00$hdnsystemalerts", "ctl00$hdnattendancealerts",
    "ctl00$hdnlibraryalerts", "ctl00$hdnCollege", "ctl00$hdnForSchoolMaster", "ctl00$txtCaseCSS"]

  const LogoutFieldSet := set k | 0 <= k < |LogoutFields| :: LogoutFields[k]

  const LogOutTarget := "ctl00$btnLogOut"

  /** The body of the logout POST: the chain of fields its twelve `append` calls build. */
  function LogoutForm(home: Inputs): FormData {
    var tokens := ExtractPayload(home);
    Field(Field(Field(Field(Field(Field(Field(Field(Field(Field(Field(Field(
      EmptyForm,
      "__EVENTTARGET", LogOutTarget),
      "__EVENTARGUMENT", ""),
      ViewStateField, tokens.viewState),
      ViewStateGeneratorField, tokens.viewStateGenerator),
      EventValidationField, tokens.eventValidation),
      LogoutFields[0], Value(home, LogoutFields[0])),
      LogoutFields[1], Value(home, LogoutFields[1])),
      LogoutFields[2], Value(home, LogoutFields[2])),
      LogoutFields[3], Value(home, LogoutFields[3])),
      LogoutFields[4], Value(home, LogoutFields[4])),
      LogoutFields[5], Value(home, LogoutFields[5])),
      LogoutFields[6], Value(home, LogoutFields[6]))
  }

  /** `LogoutForm` built by successive appends. */
  function LogoutAppends(home: Inputs): FormData {
    var tokens := ExtractPayload(home);
    EmptyForm
      .Append("__EVENTTARGET", LogOutTarget)
      .Append("__EVENTARGUMENT", "")
      .Append(ViewStateField, tokens.viewState)
      .Append(ViewStateGeneratorField, tokens.viewStateGenerator)
      .Append(EventValidationField, tokens.eventValidation)
      .Append(LogoutFields[0], Value(home, LogoutFields[0]))
      .Append(LogoutFields[1], Value(home, LogoutFields[1]))
      .Append(LogoutFields[2], Value(home, LogoutFields[2]))
      .Append(LogoutFields[3], Value(home, LogoutFields[3]))
      .Append(LogoutFields[4], Value(home, LogoutFields[4]))
      .Append(LogoutFields[5], Value(home, LogoutFields[5]))
      .Append(LogoutFields[6], Value(home, LogoutFields[6]))
  }

  /** The logout body names the log-out button as the event target and echoes the home page's tokens. */
  lemma LogoutFormTokens(home: Inputs)
    ensures var body := LogoutForm(home); var tokens := ExtractPayload(home);
      body.Get("__EVENTTARGET") == Some(LogOutTarget)
      && body.Get(ViewStateField) == Some(tokens.viewState)
      && body.Get(ViewStateGeneratorField) == Some(tokens.viewStateGenerator)
      && body.Get(EventValidationField) == Some(tokens.eventValidation)
      && body.Get(StudentIdField) == None
  {
    assert LogoutAppends(home) == LogoutForm(home);
  }

  /** Each hidden logout field of the home page is sent back under its own name. */
  lemma LogoutFormHiddenFields(home: Inputs)
    ensures forall name :: name in LogoutFieldSet ==> LogoutForm(home).Get(name) == Some(Value(home, name))
  {
    assert LogoutAppends(home) == LogoutForm(home);
  }

  // ---------------------------------------------------------------------
  // Cookies

  /** `cookie.split("=")[0].trim()` */
  function CookieName(cookie: string): string {
    Trim(BeforeFirst(cookie, '='))
  }

  /** A cookie name never holds `=` and has no surrounding white space. */
  lemma CookieNameShape(cookie: string)
    ensures '=' !in CookieName(cookie)
    ensures Trim(CookieName(cookie)) == CookieName(cookie)
  {
    var before := BeforeFirst(cookie, '=');
    TrimShape(before);
    var name := Trim(before);
    var i := |before| - |TrimStart(before)|;
    forall k | 0 <= k < |name|
      ensures name[k] != '='
    {
      assert name[k] == before[i..i + |name|][k] == before[i + k];
    }
    TrimIdempotent(before);
  }

  const Expired := "=; expires=Thu, 01 Jan 1970 00:00:00 UTC; path=/"

  /** The three assignments that expire `name` on the path, the host and its parent domain. */
  function ExpiryWrites(name: string, hostname: string): seq<Effect> {
    [WriteCookie(name + Expired + ";"),
     WriteCookie(name + Expired + "; domain=" + hostname),
     WriteCookie(name + Expired + "; domain=." + hostname)]
  }

  /** The assignments that expire each of `cookies`, the `;`-separated pieces of `document.cookie`. */
  function ExpireAll(cookies: seq<string>, hostname: string): (effects: seq<Effect>)
    ensures |effects| == 3 * |cookies|
  {
    if cookies == [] then []
    else ExpireAll(cookies[..|cookies| - 1], hostname) + ExpiryWrites(CookieName(cookies[|cookies| - 1]), hostname)
  }

  lemma ExpireAllSnoc(cookies: seq<string>, i: nat, hostname: string)
    requires i < |cookies|
    ensures ExpireAll(cookies[..i + 1], hostname) == ExpireAll(cookies[..i], hostname) + ExpiryWrites(CookieName(cookies[i]), hostname)
  {
    assert cookies[..i + 1][..i] == cookies[..i];
  }

  /** Each cookie's name receives its three assignments, at the place of the cookie in the list. */
  lemma {:induction false} ExpireAllAt(cookies: seq<string>, hostname: string, k: nat)
    requires k < |cookies|
    ensures ExpireAll(cookies, hostname)[3 * k..3 * k + 3] == ExpiryWrites(CookieName(cookies[k]), hostname)
  {
    var init := cookies[..|cookies| - 1];
    if k < |init| {
      ExpireAllAt(init, hostname, k);
      assert ExpireAll(cookies, hostname)[3 * k..3 * k + 3] == ExpireAll(init, hostname)[3 * k..3 * k + 3];
    }
  }

  /** Even an empty cookie string expires one cookie, the one with the empty name. */
  lemma EmptyCookieHeader(hostname: string)
    ensures ExpireAll(Split("", ';'), hostname) == ExpiryWrites("", hostname)
  {
    assert Split("", ';') == [""];
    assert CookieName("") == "" by {
      assert BeforeFirst("", '=') == "";
    }
    assert ExpireAll([""], hostname) == ExpireAll([], hostname) + ExpiryWrites("", hostname);
  }

  // ---------------------------------------------------------------------
  // The session

  /** Every fetch of `login` succeeds and the login POST is answered with an ok status. */
  predicate LoginSucceeds(loginPage: Option<LoginPage>, loginStatus: Option<int>, landingPage: Option<Inputs>) {
    loginPage.Some? && loginStatus.Some? && 200 <= loginStatus.value <= 299 && landingPage.Some?
  }

  /**
   * The requests `login` sends, in order: the login page, the login POST
   * once the page has arrived, and the attendance page only after an ok
   * answer to the POST.
   */
  function LoginRequests(username: string, password: string, captcha: string,
                         loginPage: Option<LoginPage>, loginStatus: Option<int>): seq<Request>
  {
    if loginPage.None? then [Get(LoginEndpoint)]
    else
      var post := Post(LoginEndpoint, LoginForm(loginPage.value, username, password, captcha));
      if loginStatus.Some? && 200 <= loginStatus.value <= 299 then [Get(LoginEndpoint), post, Get(Attendance.AttendanceEndpoint)]
      else [Get(LoginEndpoint), post]
  }

  /**
   * `login` fetches the login page first, posts the form only once that
   * page has arrived, and fetches the attendance page only after an ok
   * answer to the POST.
   */
  lemma LoginRequestsOrder(username: string, password: string, captcha: string,
                           loginPage: Option<LoginPage>, loginStatus: Option<int>, landingPage: Option<Inputs>)
    ensures var r := LoginRequests(username, password, captcha, loginPage, loginStatus);
      1 <= |r| <= 3 && r[0] == Get(LoginEndpoint)
      && (|r| >= 2 <==> loginPage.Some?)
      && (|r| >= 2 ==> r[1] == Post(LoginEndpoint, LoginForm(loginPage.value, username, password, captcha)))
      && (|r| == 3 <==> loginPage.Some? && loginStatus.Some? && 200 <= loginStatus.value <= 299)
      && (|r| == 3 ==> r[2] == Get(Attendance.AttendanceEndpoint))
      && (LoginSucceeds(loginPage, loginStatus, landingPage) ==> |r| == 3)
  {
  }

  /** The response to the logout POST: its status and its `Location` header. */
  datatype LogoutResponse = LogoutResponse(status: int, location: Option<string>)

  /** The logout POST answered with a redirect the client follows. */
  predicate FollowsRedirect(response: LogoutResponse) {
    (response.status == 302 || response.status == 303)
    && response.location.Some? && response.location.value != ""
  }

  /**
   * The requests `logout` sends, in order: the home page, the logout POST
   * once the page has arrived, and the redirect target when the POST was
   * answered with a redirect.
   */
  function LogoutRequests(homePage: Option<Inputs>, logoutResponse: Option<LogoutResponse>): seq<Request> {
    if homePage.None? then [Get(HomeEndpoint)]
    else
      var post := Post(HomeEndpoint, LogoutForm(homePage.value));
      if logoutResponse.Some? && FollowsRedirect(logoutResponse.value) then
        [Get(HomeEndpoint), post, Get(logoutResponse.value.location.value)]
      else [Get(HomeEndpoint), post]
  }

  /**
   * `logout` fetches the home page first, posts the logout form once the
   * page has arrived, and follows the redirect at most once, only for a
   * 302 or 303 answer that names a location.
   */
  lemma LogoutRequestsOrder(homePage: Option<Inputs>, logoutResponse: Option<LogoutResponse>)
    ensures var r := LogoutRequests(homePage, logoutResponse);
      1 <= |r| <= 3 && r[0] == Get(HomeEndpoint)
      && (|r| >= 2 <==> homePage.Some?)
      && (|r| >= 2 ==> r[1] == Post(HomeEndpoint, LogoutForm(homePage.value)))
      && (|r| == 3 <==> homePage.Some? && logoutResponse.Some?
                        && (logoutResponse.value.status == 302 || logoutResponse.value.status == 303)
                        && logoutResponse.value.location.Some? && logoutResponse.value.location.value != "")
      && (|r| == 3 ==> r[2] == Get(logoutResponse.value.location.value))
  {
  }

  /** The `forEach` over the pieces of `document.cookie`, three assignments per piece. */
  method ExpireCookies(cookieHeader: string, hostname: string) returns (writes: seq<Effect>)
    ensures writes == ExpireAll(Split(cookieHeader, ';'), hostname)
  {
    var cookies := Split(cookieHeader, ';');
    writes := [];
    var i := 0;
    while i < |cookies|
      invariant 0 <= i <= |cookies|
      invariant writes == ExpireAll(cookies[..i], hostname)
    {
      var name := CookieName(cookies[i]);
      writes := writes + [WriteCookie(name + Expired + ";")];
      writes := writes + [WriteCookie(name + Expired + "; domain=" + hostname)];
      writes := writes + [WriteCookie(name + Expired + "; domain=." + hostname)];
      ExpireAllSnoc(cookies, i, hostname);
      i := i + 1;
    }
    assert cookies[..i] == cookies;
  }

  class AuthSession {
    var authenticated: bool
    var payload: Option<PayloadData>
    var localStorage: map<string, Stored>
    var sessionStorage: map<string, string>
    /** The cached query results, by query key. */
    var queryCache: map<string, string>
    var effects: seq<Effect>

    /** The in-memory state is the one a reload would restore from `localStorage`. */
    predicate Persisted()
      reads this
    {
      authenticated == InitialAuthenticated(localStorage) && payload == InitialPayload(localStorage)
    }

    /** The provider mounting over the browser's current storage. */
    constructor (storedLocal: map<string, Stored>, storedSession: map<string, string>)
      ensures authenticated == InitialAuthenticated(storedLocal)
      ensures payload == InitialPayload(storedLocal)
      ensures localStorage == storedLocal && sessionStorage == storedSession
      ensures queryCache == map[] && effects == []
      ensures Persisted()
    {
      authenticated := InitialAuthenticated(storedLocal);
      payload := InitialPayload(storedLocal);
      localStorage := storedLocal;
      sessionStorage := storedSession;
      queryCache := map[];
      effects := [];
    }

    /** Sends `requests` one after the other, recording them in the effect log. */
    method FetchAll(requests: seq<Request>)
      modifies this
      ensures effects == old(effects) + SendAll(requests)
      ensures authenticated == old(authenticated) && payload == old(payload)
      ensures localStorage == old(localStorage) && sessionStorage == old(sessionStorage)
      ensures queryCache == old(queryCache)
    {
      effects := effects + SendAll(requests);
    }

    /** Performs the cookie assignments `ExpireCookies` computes. */
    method ExpireCookieLog(cookieHeader: string, hostname: string)
      modifies this
      ensures effects == old(effects) + ExpireAll(Split(cookieHeader, ';'), hostname)
      ensures authenticated == old(authenticated) && payload == old(payload)
      ensures localStorage == old(localStorage) && sessionStorage == old(sessionStorage)
      ensures queryCache == old(queryCache)
    {
      var writes := ExpireCookies(cookieHeader, hostname);
      effects := effects + writes;
    }

    /** `queryClient.clear()`, `localStorage.clear()` and `sessionStorage.clear()`, in that order. */
    method ClearClientState()
      modifies this
      ensures effects == old(effects) + ClearAll
      ensures queryCache == map[] && localStorage == map[] && sessionStorage == map[]
      ensures authenticated == old(authenticated) && payload == old(payload)
    {
      queryCache := map[];
      effects := effects + [ClearQueryCache];
      localStorage := map[];
      effects := effects + [ClearLocalStorage];
      sessionStorage := map[];
      effects := effects + [ClearSessionStorage];
    }

    /** The two setters, then the two `localStorage.setItem` calls. */
    method SignIn(p: PayloadData)
      modifies this
      ensures payload == Some(p) && authenticated
      ensures localStorage == old(localStorage)[PayloadKey := SavedPayload(p)][AuthenticatedKey := Flag("true")]
      ensures effects == old(effects) && sessionStorage == old(sessionStorage) && queryCache == old(queryCache)
    {
      payload := Some(p);
      authenticated := true;
      localStorage := localStorage[PayloadKey := SavedPayload(p)];
      localStorage := localStorage[AuthenticatedKey := Flag("true")];
    }

    /** `setIsAuthenticated(false)` and `setPayloadData(null)`. */
    method SignOut()
      modifies this
      ensures !authenticated && payload == None
      ensures localStorage == old(localStorage) && sessionStorage == old(sessionStorage)
      ensures effects == old(effects) && queryCache == old(queryCache)
    {
      authenticated := false;
      payload := None;
    }

    /**
     * `login(username, password, captcha)`. `loginPage` is the login page
     * read back, `loginStatus` the status of the login POST and
     * `landingPage` the hidden inputs of the attendance page fetched after
     * it, each `None` when that fetch fails. The storage is cleared before
     * the first request; the session is signed in only after all three.
     */
    method Login(username: string, password: string, captcha: string,
                 loginPage: Option<LoginPage>, loginStatus: Option<int>, landingPage: Option<Inputs>)
      returns (requests: seq<Request>, outcome: Outcome<string>)
      modifies this
      ensures requests == LoginRequests(username, password, captcha, loginPage, loginStatus)
      ensures effects == old(effects) + ClearAll + SendAll(requests)
      ensures outcome.Pass? <==> LoginSucceeds(loginPage, loginStatus, landingPage)
      ensures outcome.Pass? ==>
        (authenticated && payload == Some(ExtractPayload(landingPage.value))
         && localStorage == SignedInStorage(ExtractPayload(landingPage.value)))
      ensures outcome.Fail? ==>
        (authenticated == old(authenticated) && payload == old(payload) && localStorage == map[])
      ensures sessionStorage == map[] && queryCache == map[]
    {
      ClearClientState();
      requests := LoginRequests(username, password, captcha, loginPage, loginStatus);
      FetchAll(requests);
      if LoginSucceeds(loginPage, loginStatus, landingPage) {
        SignIn(ExtractPayload(landingPage.value));
        outcome := Pass;
      } else if loginPage.Some? && loginStatus.Some? {
        outcome := Fail("Login failed");
      } else {
        outcome := Fail("network error");
      }
    }

    /**
     * `logout()`. `homePage` is the hidden inputs of the home page,
     * `logoutResponse` the answer to the logout POST, `cookieHeader` the
     * value of `document.cookie` and `hostname` the page's host name. The
     * client-side clean-up runs whatever the network did.
     */
    method Logout(homePage: Option<Inputs>, logoutResponse: Option<LogoutResponse>,
                  cookieHeader: string, hostname: string)
      returns (requests: seq<Request>)
      modifies this
      ensures requests == LogoutRequests(homePage, logoutResponse)
      ensures effects == old(effects) + SendAll(requests)
        + ExpireAll(Split(cookieHeader, ';'), hostname) + ClearAll
      ensures !authenticated && payload == None
      ensures localStorage == map[] && sessionStorage == map[] && queryCache == map[]
      ensures Persisted()
    {
      requests := LogoutRequests(homePage, logoutResponse);
      FetchAll(requests);
      ExpireCookieLog(cookieHeader, hostname);
      // The two setters run between the cache clear and the storage clears;
      // they touch no storage, so running them after all three is the same.
      ClearClientState();
      SignOut();
    }
  }
}

/**
 * The captcha URL derivation of the login page (`fetchCaptcha`): the page
 * request with a cache-busting timestamp, the absolute image URL and the
 * cache-buster added to it. Timestamps are parameters.
 */
module LoginPage {
  import opened Wrappers
  import opened Text
  import opened Api

  /** The value `captchaUrl` starts with. */
  const InitialCaptchaUrl := ""

  /** The URL of the login page request: `getApiUrl("/Login")` then `?_=<t>`. */
  function CaptchaPageUrl(base: string, t: nat): (url: string)
    ensures StartsWith(url, GetApiUrl(base, "/Login") + "?_=")
    ensures var n := |GetApiUrl(base, "/Login") + "?_="|;
      AllDigits(url[n..]) && DecimalValue(url[n..]) == t
  {
    var prefix := GetApiUrl(base, "/Login") + "?_=";
    var url := prefix + NatToDecimal(t);
    assert url[|prefix|..] == NatToDecimal(t);
    DecimalRoundTrip(t);
    url
  }

  /**
   * The absolute captcha image URL: `src` itself when it starts with `http`,
   * otherwise `getApiUrl("")` followed by `/` and `src`.
   */
  function FullCaptchaUrl(base: string, src: string): (url: string)
    ensures StartsWith(src, "http") ==> url == src
    ensures !StartsWith(src, "http") ==> url == TrimmedBase(base) + "//" + src
  {
    if StartsWith(src, "http") then src
    else
      EmptyEndpoint(base);
      GetApiUrl(base, "") + "/" + src
  }

  /** `url` with `_=<t>` added as a further query parameter, or as the first one. */
  function CacheBusted(url: string, t: nat): (r: string)
    ensures StartsWith(r, url) && |r| > |url| + 3
    ensures r[|url|] == (if '?' in url then '&' else '?')
    ensures r[|url| + 1..|url| + 3] == "_="
    ensures AllDigits(r[|url| + 3..]) && DecimalValue(r[|url| + 3..]) == t
  {
    var sep := if '?' in url then "&_=" else "?_=";
    var r := url + sep + NatToDecimal(t);
    assert r[|url| + 3..] == NatToDecimal(t);
    DecimalRoundTrip(t);
    r
  }

  /** A cache-busted URL always has a query part. */
  lemma CacheBustedHasQuery(url: string, t: nat)
    ensures '?' in CacheBusted(url, t)
  {
    var r := CacheBusted(url, t);
    if '?' in url {
      var i :| 0 <= i < |url| && url[i] == '?';
      assert r[..|url|] == url;
      assert r[i] == '?';
    } else {
      assert r[|url|] == '?';
    }
  }

  /**
   * The new `captchaUrl` after a captcha page arrived. `src` is the `src`
   * attribute of `#Image1`, `None` when the element or the attribute is
   * missing; a missing or empty `src` leaves `current` in place.
   */
  function NextCaptchaUrl(base: string, src: Option<string>, t: nat, current: string): (url: string)
    ensures src.None? || src.value == "" ==> url == current
    ensures src.Some? && src.value != "" ==> StartsWith(url, FullCaptchaUrl(base, src.value))
    ensures src.Some? && src.value != "" ==> '?' in url
    ensures src.Some? && src.value != "" ==> var n := |FullCaptchaUrl(base, src.value)|;
      |url| > n + 3
      && url[n] == (if '?' in FullCaptchaUrl(base, src.value) then '&' else '?')
      && url[n + 1..n + 3] == "_="
      && AllDigits(url[n + 3..]) && DecimalValue(url[n + 3..]) == t
  {
    if src.Some? && src.value != "" then
      CacheBustedHasQuery(FullCaptchaUrl(base, src.value), t);
      CacheBusted(FullCaptchaUrl(base, src.value), t)
    else current
  }

  /** Without a captcha image on the page, the login screen keeps its initial empty URL. */
  lemma NoImageKeepsInitialUrl(base: string, t: nat)
    ensures NextCaptchaUrl(base, None, t, InitialCaptchaUrl) == ""
    ensures NextCaptchaUrl(base, Some(""), t, InitialCaptchaUrl) == ""
  {
  }

  /** A relative `src` lands under the base with a doubled slash. */
  lemma RelativeSourceUnderBase(base: string, src: string, t: nat)
    requires src != "" && !StartsWith(src, "http")
    ensures StartsWith(NextCaptchaUrl(base, Some(src), t, InitialCaptchaUrl), TrimmedBase(base) + "//")
  {
    var full := FullCaptchaUrl(base, src);
    var url := NextCaptchaUrl(base, Some(src), t, InitialCaptchaUrl);
    var p := TrimmedBase(base) + "//";
    assert full[..|p|] == p;
    assert url[..|full|] == full;
    assert url[..|p|] == full[..|p|];
  }
}

/**
 * The API base URL and `getApiUrl`, which joins it with an endpoint using
 * exactly the one slash it inserts itself.
 */
module Api {
  import opened Wrappers
  import opened Text

  const DevApiBase := "/api/glbajaj"
  const ProductionApiBase := "https://gportal.rachi.tech/api/glbajaj"

  /** `DEFAULT_API_BASE`: the dev-server proxy path in development, the hosted proxy otherwise. */
  function DefaultApiBase(dev: bool): string {
    if dev then DevApiBase else ProductionApiBase
  }

  /** `API_BASE_URL`: `VITE_API_BASE_URL` when set and non-empty, else the default. */
  function ApiBaseUrl(envBase: Option<string>, dev: bool): (base: string)
    ensures envBase.Some? && envBase.value != "" ==> base == envBase.value
    ensures !(envBase.Some? && envBase.value != "") ==> base == DefaultApiBase(dev)
  {
    if envBase.Some? && envBase.value != "" then envBase.value else DefaultApiBase(dev)
  }

  /** The endpoint without one leading slash, if it has one. */
  function CleanEndpoint(endpoint: string): (r: string)
    ensures StartsWith(endpoint, "/") ==> endpoint == "/" + r
    ensures !StartsWith(endpoint, "/") ==> r == endpoint
  {
    if StartsWith(endpoint, "/") then endpoint[1..] else endpoint
  }

  /** The base without one trailing slash, if it has one. */
  function TrimmedBase(base: string): (r: string)
    ensures EndsWith(base, "/") ==> base == r + "/"
    ensures !EndsWith(base, "/") ==> r == base
  {
    if EndsWith(base, "/") then base[..|base| - 1] else base
  }

  /** `getApiUrl(endpoint)` against `base`. */
  function GetApiUrl(base: string, endpoint: string): (url: string)
    ensures StartsWith(url, TrimmedBase(base) + "/")
    ensures EndsWith(url, CleanEndpoint(endpoint))
    ensures |url| == |TrimmedBase(base)| + 1 + |CleanEndpoint(endpoint)|
  {
    TrimmedBase(base) + "/" + CleanEndpoint(endpoint)
  }

  /** A leading slash makes no difference: `getApiUrl("/X") == getApiUrl("X")`. */
  lemma LeadingSlashIrrelevant(base: string, endpoint: string)
    requires !StartsWith(endpoint, "/")
    ensures GetApiUrl(base, "/" + endpoint) == GetApiUrl(base, endpoint)
  {
    assert StartsWith("/" + endpoint, "/");
    assert ("/" + endpoint)[1..] == endpoint;
  }

  /** Only one slash is removed: `getApiUrl("//X")` ends in `//X`. */
  lemma OnlyOneSlashStripped(base: string, rest: string)
    ensures EndsWith(GetApiUrl(base, "//" + rest), "/" + rest)
    ensures EndsWith(GetApiUrl(base, "//" + rest), "//" + rest)
  {
    var e := "//" + rest;
    assert StartsWith(e, "/");
    assert CleanEndpoint(e) == "/" + rest;
    var url := GetApiUrl(base, e);
    var n := |TrimmedBase(base)|;
    assert url == TrimmedBase(base) + "/" + ("/" + rest);
    assert url[n..] == "//" + rest;
    assert url[|url| - |"//" + rest|..] == "//" + rest;
  }

  /** The empty endpoint gives the trimmed base and a slash. */
  lemma EmptyEndpoint(base: string)
    ensures GetApiUrl(base, "") == TrimmedBase(base) + "/"
  {
    assert !StartsWith("", "/");
  }

  /**
   * A base that does not end in `//` and an endpoint that does not start
   * with `//` are joined with a single slash.
   */
  lemma SingleSlashAtJoin(base: string, endpoint: string)
    requires !EndsWith(base, "//") && !StartsWith(endpoint, "//")
    ensures !EndsWith(TrimmedBase(base), "/") && !StartsWith(CleanEndpoint(endpoint), "/")
  {
    if EndsWith(base, "/") {
      var t := TrimmedBase(base);
      if |t| > 0 {
        assert base[|base| - 2..] == [t[|t| - 1]] + "/";
      }
    }
    if StartsWith(endpoint, "/") {
      var c := CleanEndpoint(endpoint);
      if |c| > 0 {
        assert endpoint[..2] == "/" + [c[0]];
      }
    }
  }

  /** The development login URL is `/api/glbajaj/Login`. */
  lemma DevLoginUrl()
    ensures GetApiUrl(ApiBaseUrl(None, true), "/Login") == "/api/glbajaj/Login"
  {
    assert !EndsWith(DevApiBase, "/");
    assert StartsWith("/Login", "/");
  }
}

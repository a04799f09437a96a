/**
 * The client's image URL builder: uploaded images are served from the API host's root,
 * so a relative path is appended to the configured API URL with its `/api` suffix removed.
 */
module ImageUtils {

  import opened Wrappers
  import opened Text

  const DefaultApiUrl := "http://localhost:5000"

  /** `replace(/\/api\/?$/, '')`: one trailing "/api" or "/api/" removed. */
  function StripApi(s: string): (r: string)
    ensures EndsWith(s, "/api/") ==> s == r + "/api/"
    ensures !EndsWith(s, "/api/") && EndsWith(s, "/api") ==> s == r + "/api"
    ensures !EndsWith(s, "/api/") && !EndsWith(s, "/api") ==> r == s
  {
    if EndsWith(s, "/api/") then s[..|s| - 5]
    else if EndsWith(s, "/api") then s[..|s| - 4]
    else s
  }

  /** The base the uploads are served under. */
  function BaseUrl(apiUrl: Option<string>): string {
    StripApi(OrElse(apiUrl, DefaultApiUrl))
  }

  /**
   * `getImageUrl(path)`: "" for no path, an absolute `http...` path as is, otherwise the
   * base followed by the path, joined by exactly one "/" of the path's own or an added one.
   */
  function GetImageUrl(path: Option<string>, apiUrl: Option<string>): (r: string)
    ensures !Given(path) ==> r == ""
    ensures Given(path) && StartsWith(path.value, "http") ==> r == path.value
    ensures Given(path) && !StartsWith(path.value, "http") ==>
              var b := BaseUrl(apiUrl);
              && |r| == |b| + |path.value| + (if path.value[0] == '/' then 0 else 1)
              && StartsWith(r, b)
              && EndsWith(r, path.value)
              && r[|b|] == '/'
    ensures Given(path) ==> EndsWith(r, path.value)
  {
    if !Given(path) then ""
    else if StartsWith(path.value, "http") then path.value
    else
      var p := path.value;
      var clean := if StartsWith(p, "/") then p else "/" + p;
      BaseUrl(apiUrl) + clean
  }

  lemma DefaultBase()
    ensures BaseUrl(None) == DefaultApiUrl && BaseUrl(Some("")) == DefaultApiUrl
  {
    var d := DefaultApiUrl;
    assert d[|d| - 1] == '0';
    assert d[|d| - 5..] != "/api/" && d[|d| - 4..] != "/api";
  }

  /** With no configured URL, a relative upload path is served from the local API host. */
  lemma DefaultHost(p: string)
    requires p != [] && !StartsWith(p, "http") && !StartsWith(p, "/")
    ensures GetImageUrl(Some(p), None) == DefaultApiUrl + "/" + p
  {
    DefaultBase();
    assert Given(Some(p));
    assert GetImageUrl(Some(p), None) == DefaultApiUrl + ("/" + p);
  }

  /** Only one "/api" is removed: an API URL ending in "/api/api" keeps the first. */
  lemma StripsOnce(host: string)
    ensures StripApi(host + "/api/api") == host + "/api"
  {
    var s := host + "/api/api";
    assert s[|s| - 1] == 'i';
    assert s[|s| - 5..] != "/api/";
    assert s[|s| - 4..] == "/api";
    assert s[..|s| - 4] == host + "/api";
  }
}

/** Where the browser's socket connects (frontend/src/services/socket.js).
    A build variable that is unset or empty is `""`: both are falsy. */
module SocketUrl {
  import opened Js

  const DefaultApiUrl: string := "http://localhost:5000/api"
  const ApiSuffix: string := "/api"

  /** `url.replace(/\/api$/, "")`: one "/api" at the very end is dropped. */
  function StripApiSuffix(url: string): (r: string)
    ensures EndsWith(url, ApiSuffix) ==> r + ApiSuffix == url
    ensures !EndsWith(url, ApiSuffix) ==> r == url
  {
    if EndsWith(url, ApiSuffix) then url[..|url| - |ApiSuffix|] else url
  }

  /** `VITE_SOCKET_URL || (VITE_API_URL || default).replace(/\/api$/, "")`. */
  function SocketUrl(socketEnv: string, apiEnv: string): (r: string)
    ensures socketEnv != "" ==> r == socketEnv
    ensures var api := if apiEnv != "" then apiEnv else DefaultApiUrl;
      socketEnv == "" ==>
        (EndsWith(api, ApiSuffix) ==> r + ApiSuffix == api) && (!EndsWith(api, ApiSuffix) ==> r == api)
  {
    var api := if apiEnv != "" then apiEnv else DefaultApiUrl;
    if socketEnv != "" then socketEnv else StripApiSuffix(api)
  }

  /** With neither variable set the socket goes to the API's host. */
  lemma DefaultSocketUrl()
    ensures SocketUrl("", "") == "http://localhost:5000"
  {
    assert EndsWith(DefaultApiUrl, ApiSuffix);
    assert DefaultApiUrl[..|DefaultApiUrl| - 4] == "http://localhost:5000";
  }

  /** Only a suffix is removed: an "/api" followed by more path survives. */
  lemma InnerApiKept()
    ensures SocketUrl("", "https://h/api/v1") == "https://h/api/v1"
  {
    var api := "https://h/api/v1";
    assert api[|api| - 4..] != ApiSuffix by {
      assert api[|api| - 4..][0] == 'i';
    }
  }

  /** Stripping cannot be repeated away: a URL ending in "/api/api" loses
      only the last one. */
  lemma StripOnce(host: string)
    ensures StripApiSuffix(host + ApiSuffix + ApiSuffix) == host + ApiSuffix
  {
    var url := host + ApiSuffix + ApiSuffix;
    assert url[|url| - 4..] == ApiSuffix;
    assert url[..|url| - 4] == host + ApiSuffix;
  }
}

/**
 * The request and result decisions of the REST helpers in `utils.js`:
 * `supabaseFetch` and the GET, PATCH, POST and DELETE wrappers around it.
 * The network is a parameter `send` that answers a request with a response;
 * the helpers call it once and decide what to hand back.
 */
module Supabase {
  import opened JsValues

  /** The two globals the helpers read: the project URL and the anonymous key. */
  datatype Config = Config(url: string, anonKey: string)

  /** A header object; a missing `options.headers` spreads as the empty map. */
  type Headers = map<string, string>

  /** The `options` argument: the verb (absent for a plain GET), caller headers and the serialised body. */
  datatype Options = Options(verb: Option<string>, headers: Headers, body: Option<string>)

  /** What `fetch(url, { ...options, headers })` is given. */
  datatype Request = Request(url: string, verb: Option<string>, headers: Headers, body: Option<string>)

  /**
   * The parts of a response the helpers look at. `fetch` sets `ok` exactly
   * when the status is in 200-299; the model keeps the two independent, and
   * no property here depends on how they agree.
   */
  datatype Response = Response(ok: bool, status: int)

  /**
   * What a helper does with a response that arrives: hands it back, or
   * throws `HTTP <status>`. A rejected `fetch` or `json()` is not modelled.
   */
  datatype Outcome = Ok(response: Response) | Err(status: int)

  /** `supabaseFetch(endpoint)` without options. */
  const NoOptions := Options(None, map[], None)

  const RestPath := "/rest/v1/"

  /** `${SUPABASE_URL}/rest/v1/${endpoint}`: the base, the fixed path, then the endpoint verbatim. */
  function RestUrl(cfg: Config, endpoint: string): (r: string)
    ensures |r| == |cfg.url| + |RestPath| + |endpoint|
    ensures r[..|cfg.url|] == cfg.url
    ensures r[|cfg.url|..|cfg.url| + |RestPath|] == RestPath
    ensures r[|cfg.url| + |RestPath|..] == endpoint
  {
    var r := cfg.url + RestPath + endpoint;
    assert r[..|cfg.url|] == cfg.url;
    r
  }

  /** Under one configuration, different endpoints never share a URL. */
  lemma RestUrlInjective(cfg: Config, e1: string, e2: string)
    requires RestUrl(cfg, e1) == RestUrl(cfg, e2)
    ensures e1 == e2
  {
    var n := |cfg.url| + |RestPath|;
    calc {
      e1;
      RestUrl(cfg, e1)[n..];
      RestUrl(cfg, e2)[n..];
      e2;
    }
  }

  /**
   * `{ apikey, Authorization, ...options.headers }`: the two credentials
   * first, the caller's headers spread after them, so a caller header of the
   * same name wins and every other caller header is added unchanged.
   */
  function MergeHeaders(cfg: Config, caller: Headers): (r: Headers)
    ensures r.Keys == {"apikey", "Authorization"} + caller.Keys
    ensures forall k :: k in caller ==> r[k] == caller[k]
    ensures "apikey" !in caller ==> r["apikey"] == cfg.anonKey
    ensures "Authorization" !in caller ==> r["Authorization"] == "Bearer " + cfg.anonKey
  {
    map["apikey" := cfg.anonKey, "Authorization" := "Bearer " + cfg.anonKey] + caller
  }

  /** `{ ...options, headers }`: every option passes through, the headers are the merged ones. */
  function BuildRequest(cfg: Config, endpoint: string, opts: Options): (r: Request)
    ensures r.url == RestUrl(cfg, endpoint)
    ensures r.verb == opts.verb && r.body == opts.body
    ensures r.headers == MergeHeaders(cfg, opts.headers)
  {
    Request(RestUrl(cfg, endpoint), opts.verb, MergeHeaders(cfg, opts.headers), opts.body)
  }

  /**
   * `supabaseFetch`: send the request once; throw with the status exactly
   * when the response is not ok and the method is not `DELETE`, otherwise
   * return the response untouched.
   */
  function Fetch(cfg: Config, endpoint: string, opts: Options, send: Request -> Response): (r: Outcome)
    ensures var resp := send(BuildRequest(cfg, endpoint, opts));
      && (r.Err? <==> !resp.ok && opts.verb != Some("DELETE"))
      && (r.Err? ==> r.status == resp.status)
      && (r.Ok? ==> r.response == resp)
  {
    var response := send(BuildRequest(cfg, endpoint, opts));
    if !response.ok && opts.verb != Some("DELETE") then Err(response.status) else Ok(response)
  }

  const JsonContent := "application/json"

  /** The options `supabasePatch` passes: always `Prefer: return=minimal`. */
  function PatchOptions(body: string): (r: Options)
    ensures r.verb == Some("PATCH") && r.body == Some(body)
    ensures r.headers.Keys == {"Content-Type", "Prefer"}
    ensures r.headers["Content-Type"] == JsonContent
    ensures r.headers["Prefer"] == "return=minimal"
  {
    Options(Some("PATCH"), map["Content-Type" := JsonContent, "Prefer" := "return=minimal"], Some(body))
  }

  /** The options `supabasePost` passes: `return=representation` exactly when `returnData` is set. */
  function PostOptions(body: string, returnData: bool): (r: Options)
    ensures r.verb == Some("POST") && r.body == Some(body)
    ensures r.headers.Keys == {"Content-Type", "Prefer"}
    ensures r.headers["Content-Type"] == JsonContent
    ensures r.headers["Prefer"] == "return=representation" <==> returnData
    ensures r.headers["Prefer"] == "return=minimal" <==> !returnData
  {
    var prefer := if returnData then "return=representation" else "return=minimal";
    Options(Some("POST"), map["Content-Type" := JsonContent, "Prefer" := prefer], Some(body))
  }

  /** The options `supabaseDelete` passes: only the verb. */
  const DeleteOptions := Options(Some("DELETE"), map[], None)

  /** `supabaseGet`, up to the response; reading its JSON body is not modelled. */
  function Get(cfg: Config, endpoint: string, send: Request -> Response): (r: Outcome)
    ensures var resp := send(BuildRequest(cfg, endpoint, NoOptions));
      r == if resp.ok then Ok(resp) else Err(resp.status)
  {
    Fetch(cfg, endpoint, NoOptions, send)
  }

  /** `supabasePatch`; `body` stands for `JSON.stringify(data)`. */
  function Patch(cfg: Config, endpoint: string, body: string, send: Request -> Response): (r: Outcome)
    ensures var resp := send(BuildRequest(cfg, endpoint, PatchOptions(body)));
      r == if resp.ok then Ok(resp) else Err(resp.status)
  {
    Fetch(cfg, endpoint, PatchOptions(body), send)
  }

  /** `supabasePost`; a caller that omits `returnData` passes `false`. */
  function Post(cfg: Config, endpoint: string, body: string, returnData: bool, send: Request -> Response): (r: Outcome)
    ensures var resp := send(BuildRequest(cfg, endpoint, PostOptions(body, returnData)));
      r == if resp.ok then Ok(resp) else Err(resp.status)
  {
    Fetch(cfg, endpoint, PostOptions(body, returnData), send)
  }

  /** `supabaseDelete`: the response comes back whatever its status. */
  function Delete(cfg: Config, endpoint: string, send: Request -> Response): (r: Outcome)
    ensures r == Ok(send(BuildRequest(cfg, endpoint, DeleteOptions)))
  {
    Fetch(cfg, endpoint, DeleteOptions, send)
  }

  /** The reads and writes fail exactly on a response that is not ok, and carry its status. */
  lemma ReadsAndWritesFailOnErrorStatus(cfg: Config, endpoint: string, body: string, returnData: bool, send: Request -> Response)
    ensures var resp := send(BuildRequest(cfg, endpoint, NoOptions));
      Get(cfg, endpoint, send) == if resp.ok then Ok(resp) else Err(resp.status)
    ensures var resp := send(BuildRequest(cfg, endpoint, PatchOptions(body)));
      Patch(cfg, endpoint, body, send) == if resp.ok then Ok(resp) else Err(resp.status)
    ensures var resp := send(BuildRequest(cfg, endpoint, PostOptions(body, returnData)));
      Post(cfg, endpoint, body, returnData, send) == if resp.ok then Ok(resp) else Err(resp.status)
  {
    assert PatchOptions(body).verb == Some("PATCH");
    assert PostOptions(body, returnData).verb == Some("POST");
  }

  /** A delete never throws: whatever the server answers, the response comes back as is. */
  lemma DeleteNeverFails(cfg: Config, endpoint: string, send: Request -> Response)
    ensures Delete(cfg, endpoint, send) == Ok(send(BuildRequest(cfg, endpoint, DeleteOptions)))
  {
  }

  /** A write answered with 400 throws with 400; a delete answered with 500 does not throw. */
  lemma StatusExamples(cfg: Config, endpoint: string, body: string)
    ensures Patch(cfg, endpoint, body, _ => Response(false, 400)) == Err(400)
    ensures Post(cfg, endpoint, body, true, _ => Response(false, 400)) == Err(400)
    ensures Delete(cfg, endpoint, _ => Response(false, 500)) == Ok(Response(false, 500))
  {
    ReadsAndWritesFailOnErrorStatus(cfg, endpoint, body, true, _ => Response(false, 400));
  }

  /**
   * The headers each helper actually sends: the two credentials, untouched
   * because no helper passes a header of the same name, plus, for the
   * writes, the content type and the `Prefer` choice.
   */
  lemma HelperHeaders(cfg: Config, endpoint: string, body: string, returnData: bool)
    ensures var auth := map["apikey" := cfg.anonKey, "Authorization" := "Bearer " + cfg.anonKey];
      && BuildRequest(cfg, endpoint, NoOptions).headers == auth
      && BuildRequest(cfg, endpoint, DeleteOptions).headers == auth
      && BuildRequest(cfg, endpoint, PatchOptions(body)).headers
         == auth["Content-Type" := JsonContent]["Prefer" := "return=minimal"]
      && BuildRequest(cfg, endpoint, PostOptions(body, returnData)).headers
         == auth["Content-Type" := JsonContent]["Prefer" := if returnData then "return=representation" else "return=minimal"]
  {
    var auth := map["apikey" := cfg.anonKey, "Authorization" := "Bearer " + cfg.anonKey];
    var prefer := if returnData then "return=representation" else "return=minimal";
    var patch := BuildRequest(cfg, endpoint, PatchOptions(body)).headers;
    assert patch.Keys == auth["Content-Type" := JsonContent]["Prefer" := "return=minimal"].Keys;
    var post := BuildRequest(cfg, endpoint, PostOptions(body, returnData)).headers;
    assert post.Keys == auth["Content-Type" := JsonContent]["Prefer" := prefer].Keys;
  }

  /** A caller header named `Authorization` replaces the bearer credential; `apikey` stays. */
  lemma CallerAuthorizationWins(cfg: Config, endpoint: string, token: string)
    ensures var opts := Options(None, map["Authorization" := token], None);
      var h := BuildRequest(cfg, endpoint, opts).headers;
      h["Authorization"] == token && h["apikey"] == cfg.anonKey
  {
  }
}

/**
 * internal/handlers/templates.go: rendering a template for a request, and listing the
 * parameters a template still needs from the user.
 *
 * The route's key, the request's environment name and base URL, and the query (with its
 * map iteration order) are inputs.
 */
module TemplateHandlers {
  import opened Wrappers
  import opened Utils
  import Http
  import Templates

  /** The parameters never offered to the user (environment.go sets only the base URL). */
  const ParamsBlacklist := ["baseURL"]

  /** The query as template parameters: the first value of each key. */
  function QueryParams(query: Http.Values): Params
    requires forall k :: k in query ==> |query[k]| > 0
  {
    map k | k in query :: Str(query[k][0])
  }

  /** The loop of TemplateHandler copying the query into the variable map, in `keys` order. */
  method CopyQuery(query: Http.Values, keys: seq<string>) returns (variablesMap: Params)
    requires forall k :: k in query <==> k in keys
    requires forall k :: k in query ==> |query[k]| > 0
    ensures variablesMap == QueryParams(query)
  {
    variablesMap := map[];
    var i := 0;
    while i < |keys|
      invariant 0 <= i <= |keys|
      invariant forall k :: k in variablesMap <==> k in keys[..i]
      invariant forall k :: k in variablesMap ==> variablesMap[k] == Str(query[k][0])
    {
      assert keys[..i + 1] == keys[..i] + [keys[i]];
      variablesMap := variablesMap[keys[i] := Str(query[keys[i]][0])];
      i := i + 1;
    }
    assert keys[..i] == keys;
  }

  /** The variables a template is rendered with: the query, and the environment's base URL. */
  function RequestParams(query: Http.Values, baseURL: string, envName: string): Params
    requires forall k :: k in query ==> |query[k]| > 0
  {
    QueryParams(query)["baseURL" := Str(BaseURLforEnvName(baseURL, envName))]
  }

  /**
   * A request cannot override the base URL; every other query key reaches the template with
   * its first value, and nothing else is added.
   */
  lemma RequestParamsSpec(query: Http.Values, baseURL: string, envName: string)
    requires forall k :: k in query ==> |query[k]| > 0
    ensures var p := RequestParams(query, baseURL, envName);
      && p["baseURL"] == Str(BaseURLforEnvName(baseURL, envName))
      && (forall k :: k in p <==> k in query || k == "baseURL")
      && (forall k :: k in query && k != "baseURL" ==> p[k] == Str(query[k][0]))
  {
  }

  /** The reply for a render result: the text with 200, or the error with 500. */
  function RenderReply(r: Result<string>): (resp: Http.Response)
    ensures r.Ok? ==> resp == Http.Reply(Http.StatusOK, r.value)
    ensures r.Err? ==> resp == Http.Error(r.error, Http.StatusInternalServerError)
  {
    match r
    case Ok(text) => Http.Reply(Http.StatusOK, text)
    case Err(msg) => Http.Error(msg, Http.StatusInternalServerError)
  }

  /** TemplateHandler: 404 without a template name; otherwise the rendered template. */
  method TemplateHandler(templates: Templates.ShoelacesTemplates, baseURL: string, envName: string,
                         configName: string, query: Http.Values, keys: seq<string>,
                         execute: Templates.Executor) returns (resp: Http.Response)
    requires templates.Valid()
    requires forall k :: k in query <==> k in keys
    requires forall k :: k in query ==> |query[k]| > 0
    ensures configName == "" ==> resp == Http.Error("No template name provided", Http.StatusNotFound)
    ensures configName != "" ==>
      resp == RenderReply(Templates.Render(templates.envTemplates, execute, configName,
                                           RequestParams(query, baseURL, envName), envName))
  {
    if configName == "" {
      return Http.Error("No template name provided", Http.StatusNotFound);
    }
    var variablesMap := CopyQuery(query, keys);
    variablesMap := variablesMap["baseURL" := Str(BaseURLforEnvName(baseURL, envName))];
    var configString := templates.RenderTemplate(configName, variablesMap, envName, execute);
    return RenderReply(configString);
  }

  /** Whether the name may be offered to the user. */
  predicate NotBlacklisted(blacklist: seq<string>, s: string) {
    !StringInSlice(s, blacklist)
  }

  /**
   * GetTemplateParams: the variables of the named script in the requested environment
   * ("default" when none is given) that are not blacklisted, in template order; a request
   * without a script is refused (with status 500).
   */
  function GetTemplateParams(templates: Templates.ShoelacesTemplates, blacklist: seq<string>,
                             query: Http.Values): (r: Result<seq<string>>)
    reads templates
    ensures Http.Get(query, "script") == "" <==> r == Err("Required script parameter")
    ensures r.Ok? ==>
      var env := if Http.Get(query, "environment") == "" then Templates.DefaultEnvironment
                 else Http.Get(query, "environment");
      forall v :: v in r.value <==>
        v in Templates.RequiredVars(templates.envTemplates, env, Http.Get(query, "script")) && v !in blacklist
  {
    var script := Http.Get(query, "script");
    if script == "" then Err("Required script parameter")
    else
      var envName := Http.Get(query, "environment");
      var env := if envName == "" then Templates.DefaultEnvironment else envName;
      Ok(Filter(templates.ListVariables(script, env), s => NotBlacklisted(blacklist, s)))
  }

  /** With the default blacklist the base URL is never asked of the user. */
  lemma BaseURLNeverListed(templates: Templates.ShoelacesTemplates, query: Http.Values)
    ensures var r := GetTemplateParams(templates, ParamsBlacklist, query);
      r.Ok? ==> "baseURL" !in r.value
  {
  }
}

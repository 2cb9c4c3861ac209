/**
 * internal/handlers/polling.go: the poll endpoint for iPXE agents and the POST endpoint on
 * which a user selects a target for a waiting host.
 *
 * net.SplitHostPort of the remote address is an input (its host part or its error), as
 * are the parsed form with its map iteration order, the MAC and IP validators and the
 * reverse DNS lookup.
 */
module PollingHandlers {
  import opened Wrappers
  import opened Utils
  import Text
  import Http
  import Server
  import Event
  import Mappings
  import Templates
  import Polling

  /**
   * StartPollingHandler: the start script for the request's base URL, an iPXE script that
   * chains to the poll URL under the agent's dashed MAC.
   */
  function StartPolling(baseURL: string): (r: Http.Response)
    ensures r.Reply? && r.status == Http.StatusOK
    ensures Text.HasPrefix(r.body, Polling.Shebang) && Text.Contains(r.body, Polling.StartChain(baseURL))
  {
    Polling.StartScriptChainsToPoll(baseURL);
    Http.Reply(Http.StatusOK, Polling.GenStartScript(baseURL))
  }

  /** The form keys parsePostForm takes out of the parameters. */
  predicate IsFormField(k: string) {
    k == "mac" || k == "target" || k == "environment"
  }

  /** The parameters parsePostForm collects: every other key with its first value. */
  function FormParams(form: Http.Values): Params
    requires forall k :: k in form ==> |form[k]| > 0
  {
    map k | k in form && !IsFormField(k) :: Str(form[k][0])
  }

  /**
   * parsePostForm over the form's keys in iteration order `keys`. url.Values never holds
   * a key without a value.
   */
  method ParsePostForm(form: Http.Values, keys: seq<string>)
    returns (mac: string, scriptName: string, environment: string, params: Params)
    requires forall k :: k in form <==> k in keys
    requires forall i, j :: 0 <= i < j < |keys| ==> keys[i] != keys[j]
    requires forall k :: k in form ==> |form[k]| > 0
    ensures mac == (if "mac" in form then MacDashToColon(form["mac"][0]) else "")
    ensures scriptName == Http.Get(form, "target") && environment == Http.Get(form, "environment")
    ensures forall k :: k in params <==> k in form && !IsFormField(k)
    ensures forall k :: k in params ==> params[k] == Str(form[k][0])
    ensures params == FormParams(form)
  {
    params := map[];
    mac, scriptName, environment := "", "", "";
    var i := 0;
    while i < |keys|
      invariant 0 <= i <= |keys|
      invariant mac == (if "mac" in keys[..i] then MacDashToColon(form["mac"][0]) else "")
      invariant scriptName == (if "target" in keys[..i] then form["target"][0] else "")
      invariant environment == (if "environment" in keys[..i] then form["environment"][0] else "")
      invariant forall k :: k in params <==> k in keys[..i] && !IsFormField(k)
      invariant forall k :: k in params ==> params[k] == Str(form[k][0])
    {
      var k := keys[i];
      var v := form[k];
      assert keys[..i + 1] == keys[..i] + [k];
      if k == "mac" {
        mac := MacDashToColon(v[0]);
      } else if k == "target" {
        scriptName := v[0];
      } else if k == "environment" {
        environment := v[0];
      } else {
        params := params[k := Str(v[0])];
      }
      i := i + 1;
    }
    assert keys[..i] == keys;
  }

  /** The server identity PollHandler polls with: the colon MAC, the IP, the given or resolved host. */
  function PollServer(pathMac: string, ip: string, host: string, resolve: string -> string): Server.Server
  {
    Server.New(MacDashToColon(pathMac), ip, if host == "" then resolve(ip) else host)
  }

  /** The response to a poll outcome: the script, or an aborted request. */
  function PollReply(o: Polling.PollOutcome): Http.Response
  {
    match o
    case Served(text) => Http.Reply(Http.StatusOK, text)
    case Panicked(reason) => Http.Aborted(reason)
  }

  /**
   * PollHandler: a bad remote address, MAC or IP is a 500 before anything else happens;
   * otherwise the host polls with its MAC in colon form.
   */
  method PollHandler(states: Server.States, hostnameMaps: seq<Mappings.HostnameMap>, networkMaps: seq<Mappings.NetworkMap>,
                     matches: (string, string) -> bool, contains: (string, string) -> bool,
                     log: Event.Log, templates: Templates.ShoelacesTemplates, baseURL: string,
                     remoteHost: Result<string>, pathMac: string, host: string,
                     isValidMAC: string -> bool, isValidIP: string -> bool, resolve: string -> string,
                     now: int, json: Params -> string, execute: Templates.Executor) returns (resp: Http.Response)
    requires states.Valid() && log.Valid() && templates.Valid()
    modifies states, log
    ensures states.Valid() && log.Valid()
    ensures var mac := MacDashToColon(pathMac);
      if remoteHost.Err? then resp == Http.Error(remoteHost.error, Http.StatusInternalServerError)
      else if !isValidMAC(mac) then resp == Http.Error("Invalid MAC", Http.StatusInternalServerError)
      else if !isValidIP(remoteHost.value) then resp == Http.Error("Invalid IP", Http.StatusInternalServerError)
      else var srv := PollServer(pathMac, remoteHost.value, host, resolve);
           && resp == PollReply(Polling.PollAnswer(templates.envTemplates, execute, hostnameMaps, networkMaps,
                                                   matches, contains, old(states.servers), baseURL, srv, now))
           && states.servers == Polling.PollTable(templates.envTemplates, execute, hostnameMaps, networkMaps,
                                                  matches, contains, old(states.servers), baseURL, srv, now)
           && var e := Polling.PollEvent(hostnameMaps, networkMaps, matches, contains, old(states.servers), srv, now, json);
           && log.events == Event.Record(old(log.events), srv.mac, e)
           && log.created == (old(log.created) || e.Some?)
    ensures (remoteHost.Err? || !isValidMAC(MacDashToColon(pathMac)) || !isValidIP(remoteHost.value)) ==>
      states.servers == old(states.servers) && log.events == old(log.events) && log.created == old(log.created)
  {
    if remoteHost.Err? {
      return Http.Error(remoteHost.error, Http.StatusInternalServerError);
    }
    var ip := remoteHost.value;
    var mac := MacDashToColon(pathMac);
    if !isValidMAC(mac) {
      return Http.Error("Invalid MAC", Http.StatusInternalServerError);
    }
    if !isValidIP(ip) {
      return Http.Error("Invalid IP", Http.StatusInternalServerError);
    }
    var hostname := host;
    if hostname == "" {
      hostname := resolve(ip);
    }
    var srv := Server.New(mac, ip, hostname);
    var script := Polling.Poll(states, hostnameMaps, networkMaps, matches, contains, log, templates, baseURL,
                               srv, now, json, execute);
    return PollReply(script);
  }

  /**
   * UpdateTargetHandler: 400 for a form that does not parse or lacks mac or target (before
   * the table is touched); then UpdateTarget for the server (mac, remote IP, no hostname):
   * a redirect to "/" exactly when it stores the selection, otherwise 400 with its error.
   */
  method UpdateTargetHandler(states: Server.States, templates: Templates.ShoelacesTemplates, log: Event.Log,
                             baseURL: string, remoteHost: Result<string>, formError: Option<string>,
                             form: Http.Values, keys: seq<string>,
                             isValidMAC: string -> bool, execute: Templates.Executor, now: int,
                             json: Params -> string) returns (resp: Http.Response)
    requires states.Valid() && log.Valid() && templates.Valid()
    requires forall k :: k in form <==> k in keys
    requires forall i, j :: 0 <= i < j < |keys| ==> keys[i] != keys[j]
    requires forall k :: k in form ==> |form[k]| > 0
    modifies states, log
    ensures states.Valid() && log.Valid()
    ensures remoteHost.Err? ==> resp == Http.Error(remoteHost.error, Http.StatusInternalServerError)
    ensures remoteHost.Ok? && formError.Some? ==> resp == Http.Error(formError.value, Http.StatusBadRequest)
    ensures var mac := if "mac" in form then MacDashToColon(form["mac"][0]) else "";
      remoteHost.Ok? && formError.None? && (mac == "" || Http.Get(form, "target") == "") ==>
        resp == Http.Error("MAC address and target must not be empty", Http.StatusBadRequest)
    ensures resp.Reply? ==> states.servers == old(states.servers) && log.events == old(log.events)
    ensures resp.Reply? ==> resp.status in {Http.StatusBadRequest, Http.StatusInternalServerError}
    ensures remoteHost.Ok? && resp.Reply? ==> resp.status == Http.StatusBadRequest
    ensures var mac := if "mac" in form then MacDashToColon(form["mac"][0]) else "";
            var target := Http.Get(form, "target");
            var env := Http.Get(form, "environment");
            var p := Polling.TrialParams(FormParams(form), mac, baseURL, env);
            var trial := Templates.Render(templates.envTemplates, execute, target, p, env);
      remoteHost.Ok? && formError.None? && mac != "" && target != "" ==>
        if !isValidMAC(mac) then resp == Http.Error("Invalid MAC", Http.StatusBadRequest)
        else if trial.Err? then resp == Http.Error(trial.error, Http.StatusBadRequest)
        else if mac !in old(states.servers) then
          resp == Http.Error("MAC is not in the booting state", Http.StatusBadRequest)
        else && resp == Http.Redirect(Http.StatusFound, "/")
             && states.servers == Polling.Assign(old(states.servers), mac, target, env, p)
             && log.events == old(log.events)[mac := old(log.EventsFor(mac))
                  + [Event.New(Event.UserSelection, Server.New(mac, remoteHost.value, ""), "", target, map[], now, json)]]
    ensures resp.Redirect? ==> resp == Http.Redirect(Http.StatusFound, "/")
    ensures !resp.Aborted?
  {
    if remoteHost.Err? {
      return Http.Error(remoteHost.error, Http.StatusInternalServerError);
    }
    if formError.Some? {
      return Http.Error(formError.value, Http.StatusBadRequest);
    }
    var mac, scriptName, environment, params := ParsePostForm(form, keys);
    if mac == "" || scriptName == "" {
      return Http.Error("MAC address and target must not be empty", Http.StatusBadRequest);
    }
    var srv := Server.New(mac, remoteHost.value, "");
    var inputErr, err := Polling.UpdateTarget(states, templates, log, baseURL, srv, scriptName, environment,
                                              params, isValidMAC, execute, now, json);
    if err.Some? {
      var code := if inputErr then Http.StatusBadRequest else Http.StatusInternalServerError;
      return Http.Error(err.value, code);
    }
    return Http.Redirect(Http.StatusFound, "/");
  }
}

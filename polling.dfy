/**
 * internal/polling/polling.go: what a polling host receives. A host is booted by a hostname
 * mapping, else by a network mapping, else it enters the manual-boot state machine kept in
 * the States table: it retries until a user selects a target (booted once, on the next
 * poll) or until it has retried MaxRetry times (timed out).
 *
 * The constant iPXE scripts are templates over `baseURL` (and `macAddress`) only; they are
 * modelled by substituting those values. Clock readings are the `now` parameters.
 */
module Polling {
  import opened Wrappers
  import opened Utils
  import Text
  import Sorting
  import Server
  import Event
  import Mappings
  import Templates

  /** The number of retries a waiting host gets before it times out. */
  const MaxRetry := 10

  /** What the state machine decides for a poll that no mapping answered. */
  datatype ManualAction = BootAction | RetryAction | TimeoutAction

  /** The answer to a poll: the script text, or the panic that aborts the request. */
  datatype PollOutcome = Served(text: string) | Panicked(reason: string)

  /* ---------------------------------------------------------------------------------
   * The constant scripts.
   * --------------------------------------------------------------------------------- */

  /** The poll URL the start script chains to. */
  function StartChain(baseURL: string): string
  {
    "http://" + baseURL + "/poll/1/${netX/mac:hexhyp}\n"
  }

  /** The first line of every iPXE script. */
  const Shebang := "#!ipxe\n"

  const StartHead := "echo Shoelaces starts polling\nchain --autofree --replace \\\n    "

  function StartTail(baseURL: string): string
  {
    "#\n#\n# Do\n#    curl http://" + baseURL + "/poll/1/06-66-de-ad-be-ef\n"
    + "# to get an idea about what the iPXE client will receive.\n"
  }

  /** GenStartScript: startScript with {{.baseURL}} substituted. */
  function GenStartScript(baseURL: string): string
  {
    Shebang + (StartHead + StartChain(baseURL) + StartTail(baseURL))
  }

  /** The URL the retry script polls again. */
  function RetryChain(mac: string): string
  {
    "/poll/1/" + MacColonToDash(mac) + "\n"
  }

  const RetryHead := "prompt --key 0x02 --timeout 7000 shoelaces: Press Ctrl-B for manual override... \\\n"

  const RetryTail := "#\n# FYI: For the iPXE client is the above an endless loop,\n"
    + "#      but it is the shoelaces server that decides if it loops.\n"

  /** genRetryScript: retryScript with {{.baseURL}} and the dashed MAC substituted. */
  function GenRetryScript(baseURL: string, mac: string): string
  {
    Shebang + (RetryMenu(baseURL) + RetryChain(mac) + RetryTail)
  }

  /** The prompt and the two chain commands up to the poll path. */
  function RetryMenu(baseURL: string): string
  {
    RetryHead + "  && chain -ar http://" + baseURL + "/ipxemenu \\\n" + "  || chain -ar http://" + baseURL
  }

  const TimeoutScript := Shebang + "echo\n" + "echo Shoelaces is at maxRetry\n" + "echo\n" + "exit\n"

  /** The start script is an iPXE script that chains to this host's poll URL. */
  lemma StartScriptChainsToPoll(baseURL: string)
    ensures Text.HasPrefix(GenStartScript(baseURL), Shebang)
    ensures Text.Contains(GenStartScript(baseURL), StartChain(baseURL))
  {
    var body := StartHead + StartChain(baseURL) + StartTail(baseURL);
    Text.PrefixConcat(Shebang, body);
    Text.AtConcat(StartHead, StartChain(baseURL), StartTail(baseURL));
    Text.AtAppendLeft(Shebang, body, StartChain(baseURL), |StartHead|);
    Text.ContainsAt(Shebang + body, StartChain(baseURL), |Shebang| + |StartHead|);
  }

  /** The retry script is an iPXE script that polls again for the same host, under its dashed MAC. */
  lemma RetryScriptPollsAgain(baseURL: string, mac: string)
    ensures Text.HasPrefix(GenRetryScript(baseURL, mac), Shebang)
    ensures Text.Contains(GenRetryScript(baseURL, mac), RetryChain(mac))
    ensures ':' !in MacColonToDash(mac)
  {
    var body := RetryMenu(baseURL) + RetryChain(mac) + RetryTail;
    Text.PrefixConcat(Shebang, body);
    Text.AtConcat(RetryMenu(baseURL), RetryChain(mac), RetryTail);
    Text.AtAppendLeft(Shebang, body, RetryChain(mac), |RetryMenu(baseURL)|);
    Text.ContainsAt(Shebang + body, RetryChain(mac), |Shebang| + |RetryMenu(baseURL)|);
    MacColonToDashShape(mac);
  }

  /* ---------------------------------------------------------------------------------
   * setHostName. The source writes into the caller's map; here the updated map is returned.
   * --------------------------------------------------------------------------------- */

  /** The generated hostname: the string hostnamePrefix (or "") and the dashed MAC. */
  function GeneratedHostname(params: Params, mac: string): string
  {
    var prefix := if "hostnamePrefix" in params && params["hostnamePrefix"].Str? then params["hostnamePrefix"].s else "";
    prefix + MacColonToDash(mac)
  }

  /** setHostName: supplies a "hostname" entry when there is none. */
  function SetHostName(params: Params, mac: string): Params
  {
    if "hostname" in params then params else params["hostname" := Str(GeneratedHostname(params, mac))]
  }

  /**
   * setHostName never overwrites a hostname, adds the generated one otherwise (ending with
   * the dashed MAC), and touches no other key.
   */
  lemma SetHostNameSpec(params: Params, mac: string)
    ensures "hostname" in SetHostName(params, mac)
    ensures SetHostName(params, mac).Keys == params.Keys + {"hostname"}
    ensures forall k :: k in params && k != "hostname" ==> SetHostName(params, mac)[k] == params[k]
    ensures "hostname" in params ==> SetHostName(params, mac)["hostname"] == params["hostname"]
    ensures "hostname" !in params ==>
      && SetHostName(params, mac)["hostname"].Str?
      && Text.HasSuffix(SetHostName(params, mac)["hostname"].s, MacColonToDash(mac))
      && (("hostnamePrefix" !in params || params["hostnamePrefix"].NonString?) ==>
            SetHostName(params, mac)["hostname"].s == MacColonToDash(mac))
  {
    if "hostname" !in params {
      var h := GeneratedHostname(params, mac);
      var prefix := if "hostnamePrefix" in params && params["hostnamePrefix"].Str? then params["hostnamePrefix"].s else "";
      assert h[|h| - |MacColonToDash(mac)|..] == MacColonToDash(mac);
      if "hostnamePrefix" !in params || params["hostnamePrefix"].NonString? {
        assert prefix == "";
      }
    }
  }

  /** Applying setHostName again, for any MAC, changes nothing. */
  lemma SetHostNameIdempotent(params: Params, mac: string, mac2: string)
    ensures SetHostName(SetHostName(params, mac), mac2) == SetHostName(params, mac)
  {
  }

  /* ---------------------------------------------------------------------------------
   * The manual-boot state machine (chooseManualAction).
   * --------------------------------------------------------------------------------- */

  /** The script chosen, the action, the new table, and whether a HostPoll event is logged. */
  datatype Step = Step(script: Option<Mappings.Script>, action: ManualAction,
                       table: map<string, Server.State>, logged: bool)

  /** One poll of chooseManualAction at clock reading now. */
  function ManualStep(table: map<string, Server.State>, srv: Server.Server, now: int): Step
  {
    if srv.mac in table then
      var m := table[srv.mac];
      if m.target != Server.InitTarget then
        Step(Some(Mappings.Script(m.target, m.environment, m.params)), BootAction, table - {srv.mac}, false)
      else if m.retry <= MaxRetry then
        Step(None, RetryAction, table[srv.mac := m.(retry := m.retry + 1, lastAccess := now)], false)
      else
        Step(None, TimeoutAction, table - {srv.mac}, false)
    else
      Step(None, RetryAction, table[srv.mac := Server.State(srv, Server.InitTarget, "", map[], 1, now)], true)
  }

  predicate KeyedByMac(table: map<string, Server.State>) {
    forall mac :: mac in table ==> table[mac].server.mac == mac
  }

  /** A poll changes at most the entry of the polling MAC, and keeps entries keyed by MAC. */
  lemma ManualStepFrame(table: map<string, Server.State>, srv: Server.Server, now: int)
    ensures forall k :: k != srv.mac ==>
      (k in ManualStep(table, srv, now).table <==> k in table) &&
      (k in table ==> ManualStep(table, srv, now).table[k] == table[k])
    ensures KeyedByMac(table) ==> KeyedByMac(ManualStep(table, srv, now).table)
  {
  }

  /** An unseen MAC: one new waiting entry with retry 1, a HostPoll event, and a retry. */
  lemma ManualStepNewHost(table: map<string, Server.State>, srv: Server.Server, now: int)
    requires srv.mac !in table
    ensures var st := ManualStep(table, srv, now);
      && st.action == RetryAction && st.script.None? && st.logged
      && st.table == table[srv.mac := Server.State(srv, Server.InitTarget, "", map[], 1, now)]
      && |st.table| == |table| + 1
  {
  }

  /**
   * A selected target is consumed once: the entry is deleted, the stored target, environment
   * and parameters are booted, and the next poll starts over as an unseen host.
   */
  lemma ManualStepBootOnce(table: map<string, Server.State>, srv: Server.Server, now: int, later: int)
    requires srv.mac in table && table[srv.mac].target != Server.InitTarget
    ensures var st := ManualStep(table, srv, now);
      && st.action == BootAction && !st.logged && srv.mac !in st.table
      && st.script == Some(Mappings.Script(table[srv.mac].target, table[srv.mac].environment, table[srv.mac].params))
      && ManualStep(st.table, srv, later).action == RetryAction
      && ManualStep(st.table, srv, later).logged
  {
  }

  /**
   * A waiting host below the bound retries with its counter one higher and its access time
   * renewed; above the bound it is deleted and timed out. Neither logs an event.
   */
  lemma ManualStepWaiting(table: map<string, Server.State>, srv: Server.Server, now: int)
    requires srv.mac in table && table[srv.mac].target == Server.InitTarget
    ensures var st := ManualStep(table, srv, now);
      && !st.logged && st.script.None?
      && (table[srv.mac].retry <= MaxRetry ==>
            st.action == RetryAction && srv.mac in st.table
            && st.table[srv.mac] == table[srv.mac].(retry := table[srv.mac].retry + 1, lastAccess := now))
      && (table[srv.mac].retry > MaxRetry ==> st.action == TimeoutAction && srv.mac !in st.table)
  {
  }

  /** The actions for a series of polls by the same host, one clock reading each. */
  function Run(table: map<string, Server.State>, srv: Server.Server, nows: seq<int>): seq<ManualAction>
    decreases |nows|
  {
    if nows == [] then []
    else
      var st := ManualStep(table, srv, nows[0]);
      [st.action] + Run(st.table, srv, nows[1..])
  }

  lemma {:induction false} RunWaiting(table: map<string, Server.State>, srv: Server.Server, nows: seq<int>, r: int)
    requires srv.mac in table && table[srv.mac].target == Server.InitTarget && table[srv.mac].retry == r
    requires 1 <= r <= MaxRetry + 1 && |nows| == MaxRetry + 2 - r
    ensures Run(table, srv, nows) == seq(MaxRetry + 1 - r, i => RetryAction) + [TimeoutAction]
    decreases MaxRetry + 1 - r
  {
    var st := ManualStep(table, srv, nows[0]);
    if r == MaxRetry + 1 {
      assert nows[1..] == [];
      assert seq(MaxRetry + 1 - r, i => RetryAction) == [];
    } else {
      RunWaiting(st.table, srv, nows[1..], r + 1);
      assert seq(MaxRetry + 1 - r, i => RetryAction) == [RetryAction] + seq(MaxRetry - r, i => RetryAction);
    }
  }

  /** Without a selection (and without the cleaner) a new host retries 11 times, then times out. */
  lemma RetriesThenTimeout(table: map<string, Server.State>, srv: Server.Server, nows: seq<int>)
    requires srv.mac !in table && |nows| == MaxRetry + 2
    ensures Run(table, srv, nows) == seq(MaxRetry + 1, i => RetryAction) + [TimeoutAction]
  {
    var st := ManualStep(table, srv, nows[0]);
    RunWaiting(st.table, srv, nows[1..], 1);
    assert seq(MaxRetry + 1, i => RetryAction) == [RetryAction] + seq(MaxRetry, i => RetryAction);
  }

  /** chooseManualAction: one step of the state machine on the table, logging new hosts. */
  method ChooseManualAction(states: Server.States, log: Event.Log, srv: Server.Server, now: int,
                            json: Params -> string)
    returns (script: Option<Mappings.Script>, action: ManualAction)
    requires states.Valid() && log.Valid()
    modifies states, log
    ensures states.Valid() && log.Valid()
    ensures var st := ManualStep(old(states.servers), srv, now);
      && script == st.script && action == st.action && states.servers == st.table
      && (st.logged ==> log.events == old(log.events)[srv.mac := old(log.EventsFor(srv.mac))
                                       + [Event.New(Event.HostPoll, srv, "", "", map[], now, json)]])
      && (st.logged ==> log.created)
      && (!st.logged ==> log.events == old(log.events) && log.created == old(log.created))
  {
    if srv.mac in states.servers {
      var m := states.servers[srv.mac];
      if m.target != Server.InitTarget {
        states.DeleteServer(srv.mac);
        return Some(Mappings.Script(m.target, m.environment, m.params)), BootAction;
      } else if m.retry <= MaxRetry {
        states.servers := states.servers[srv.mac := m.(retry := m.retry + 1, lastAccess := now)];
        return None, RetryAction;
      } else {
        states.DeleteServer(srv.mac);
        return None, TimeoutAction;
      }
    }
    states.AddServer(srv, now);
    log.AddEvent(Event.HostPoll, srv, "", "", map[], now, json);
    return None, RetryAction;
  }

  /* ---------------------------------------------------------------------------------
   * Boot scripts and the answer to a poll.
   * --------------------------------------------------------------------------------- */

  /** The parameters genBootScript renders with: baseURL set for the script's environment. */
  function BootParams(baseURL: string, script: Mappings.Script): Params
  {
    script.params["baseURL" := Str(BaseURLforEnvName(baseURL, script.environment))]
  }

  /** genBootScript's answer: the rendered script, or a panic with the render error. */
  function BootText(envs: map<string, Templates.TemplateEnvironment>, execute: Templates.Executor,
                    baseURL: string, script: Mappings.Script): PollOutcome
  {
    var r := Templates.Render(envs, execute, script.name, BootParams(baseURL, script), script.environment);
    if r.Ok? then Served(r.value) else Panicked(r.error)
  }

  /** genBootScript */
  method GenBootScript(templates: Templates.ShoelacesTemplates, baseURL: string, script: Mappings.Script,
                       execute: Templates.Executor) returns (o: PollOutcome)
    requires templates.Valid()
    ensures o == BootText(templates.envTemplates, execute, baseURL, script)
  {
    var params := script.params["baseURL" := Str(BaseURLforEnvName(baseURL, script.environment))];
    var text := templates.RenderTemplate(script.name, params, script.environment, execute);
    if text.Err? {
      return Panicked(text.error);
    }
    return Served(text.value);
  }

  /**
   * setHostName on a script's parameters followed by the `.(string)` assertion on
   * "hostname": None where that assertion panics.
   */
  function HostnamedScript(script: Mappings.Script, mac: string): Option<Mappings.Script>
  {
    var p := SetHostName(script.params, mac);
    if "hostname" in p && p["hostname"].Str? then Some(script.(params := p)) else None
  }

  const NotAString := "interface conversion: hostname is not a string"

  /** A boot through setHostName: the rendered script, or the panic. */
  function HostnamedBoot(envs: map<string, Templates.TemplateEnvironment>, execute: Templates.Executor,
                         baseURL: string, script: Mappings.Script, mac: string): PollOutcome
  {
    var named := HostnamedScript(script, mac);
    if named.None? then Panicked(NotAString) else BootText(envs, execute, baseURL, named.value)
  }

  /** manualAction's answer for the chosen script and action. */
  function ManualResult(script: Option<Mappings.Script>, action: ManualAction,
                        envs: map<string, Templates.TemplateEnvironment>, execute: Templates.Executor,
                        baseURL: string, srv: Server.Server): PollOutcome
  {
    match action
    case BootAction =>
      if script.None? then Panicked("nil pointer dereference")
      else HostnamedBoot(envs, execute, baseURL, script.value, srv.mac)
    case RetryAction => Served(GenRetryScript(baseURL, srv.mac))
    case TimeoutAction => Served(TimeoutScript)
  }

  /**
   * The HostBoot event of a boot through setHostName: the server under the hostname set in
   * the script's parameters, and those parameters. None where the `.(string)` assertion
   * panics before the event is added.
   */
  function NamedBootEvent(script: Mappings.Script, srv: Server.Server, bootType: string, now: int,
                          json: Params -> string): Option<Event.Event>
  {
    var named := HostnamedScript(script, srv.mac);
    if named.None? then None
    else Some(Event.New(Event.HostBoot, srv.(hostname := named.value.params["hostname"].s), bootType,
                        script.name, named.value.params, now, json))
  }

  /** The event manualAction adds: HostPoll for a new host, HostBoot for a boot, none otherwise. */
  function ManualEvent(table: map<string, Server.State>, srv: Server.Server, now: int,
                       json: Params -> string): Option<Event.Event>
  {
    var st := ManualStep(table, srv, now);
    if st.logged then Some(Event.New(Event.HostPoll, srv, "", "", map[], now, json))
    else if st.action == BootAction && st.script.Some? then NamedBootEvent(st.script.value, srv, Event.ManualBoot, now, json)
    else None
  }

  /**
   * A poll that no mapping answers logs a HostPoll event exactly for an unseen host, a
   * ManualBoot event for a stored selection (unless its hostname is not a string), and
   * nothing when the host retries or times out.
   */
  lemma ManualEventSpec(table: map<string, Server.State>, srv: Server.Server, now: int, json: Params -> string)
    ensures srv.mac !in table ==>
      ManualEvent(table, srv, now, json) == Some(Event.New(Event.HostPoll, srv, "", "", map[], now, json))
    ensures srv.mac in table && table[srv.mac].target == Server.InitTarget ==> ManualEvent(table, srv, now, json).None?
    ensures srv.mac in table && table[srv.mac].target != Server.InitTarget ==>
      var m := table[srv.mac];
      var p := SetHostName(m.params, srv.mac);
      var e := ManualEvent(table, srv, now, json);
      && (e.Some? <==> p["hostname"].Str?)
      && (e.Some? ==> e.value == Event.New(Event.HostBoot, srv.(hostname := p["hostname"].s), Event.ManualBoot,
                                           m.target, p, now, json))
  {
    if srv.mac in table && table[srv.mac].target != Server.InitTarget {
      var m := table[srv.mac];
      var st := ManualStep(table, srv, now);
      assert !st.logged && st.action == BootAction && st.script == Some(Mappings.Script(m.target, m.environment, m.params));
      SetHostNameSpec(m.params, srv.mac);
    }
  }

  /** manualAction: runs the state machine and answers with a boot, retry or timeout script. */
  method DoManualAction(states: Server.States, templates: Templates.ShoelacesTemplates, log: Event.Log,
                        baseURL: string, srv: Server.Server, now: int, json: Params -> string,
                        execute: Templates.Executor) returns (o: PollOutcome)
    requires states.Valid() && log.Valid() && templates.Valid()
    modifies states, log
    ensures states.Valid() && log.Valid()
    ensures var st := ManualStep(old(states.servers), srv, now);
      states.servers == st.table && o == ManualResult(st.script, st.action, templates.envTemplates, execute, baseURL, srv)
    ensures var e := ManualEvent(old(states.servers), srv, now, json);
      && log.events == Event.Record(old(log.events), srv.mac, e)
      && log.created == (old(log.created) || e.Some?)
  {
    var script, action := ChooseManualAction(states, log, srv, now, json);
    match action {
      case BootAction =>
        if script.None? {
          return Panicked("nil pointer dereference");
        }
        var params := SetHostName(script.value.params, srv.mac);
        if !("hostname" in params && params["hostname"].Str?) {
          return Panicked(NotAString);
        }
        var booted := srv.(hostname := params["hostname"].s);
        log.AddEvent(Event.HostBoot, booted, Event.ManualBoot, script.value.name, params, now, json);
        o := GenBootScript(templates, baseURL, script.value.(params := params), execute);
      case RetryAction =>
        return Served(GenRetryScript(baseURL, srv.mac));
      case TimeoutAction =>
        return Served(TimeoutScript);
    }
  }

  /** attemptAutomaticBoot's answer: a hostname mapping first, then a network mapping. */
  function AutoResult(envs: map<string, Templates.TemplateEnvironment>, execute: Templates.Executor,
                      hostnameMaps: seq<Mappings.HostnameMap>, networkMaps: seq<Mappings.NetworkMap>,
                      matches: (string, string) -> bool, contains: (string, string) -> bool,
                      baseURL: string, srv: Server.Server): Option<PollOutcome>
  {
    var hm := Mappings.FindScriptForHostname(hostnameMaps, srv.hostname, matches);
    if hm.Some? then
      Some(BootText(envs, execute, baseURL, hm.value.(params := hm.value.params["hostname" := Str(srv.hostname)])))
    else
      var nm := Mappings.FindScriptForNetwork(networkMaps, srv.ip, contains);
      if nm.Some? then Some(HostnamedBoot(envs, execute, baseURL, nm.value, srv.mac)) else None
  }

  /**
   * The event attemptAutomaticBoot adds: HostBoot with the mapping's own parameters for a
   * hostname match, HostBoot through setHostName for a network match, none otherwise.
   */
  function AutoEvent(hostnameMaps: seq<Mappings.HostnameMap>, networkMaps: seq<Mappings.NetworkMap>,
                     matches: (string, string) -> bool, contains: (string, string) -> bool,
                     srv: Server.Server, now: int, json: Params -> string): Option<Event.Event>
  {
    var hm := Mappings.FindScriptForHostname(hostnameMaps, srv.hostname, matches);
    if hm.Some? then
      Some(Event.New(Event.HostBoot, srv, Event.PtrMatchBoot, hm.value.name, hm.value.params, now, json))
    else
      var nm := Mappings.FindScriptForNetwork(networkMaps, srv.ip, contains);
      if nm.Some? then NamedBootEvent(nm.value, srv, Event.SubnetMatchBoot, now, json) else None
  }

  /**
   * attemptAutomaticBoot; the hostname and baseURL it writes into a mapping's parameters
   * stay local to this poll (see the README).
   */
  method AttemptAutomaticBoot(hostnameMaps: seq<Mappings.HostnameMap>, networkMaps: seq<Mappings.NetworkMap>,
                              matches: (string, string) -> bool, contains: (string, string) -> bool,
                              templates: Templates.ShoelacesTemplates, log: Event.Log, baseURL: string,
                              srv: Server.Server, now: int, json: Params -> string, execute: Templates.Executor)
    returns (o: PollOutcome, found: bool)
    requires log.Valid() && templates.Valid()
    modifies log
    ensures log.Valid()
    ensures var auto := AutoResult(templates.envTemplates, execute, hostnameMaps, networkMaps, matches, contains, baseURL, srv);
      found == auto.Some? && (found ==> o == auto.value)
    ensures var e := AutoEvent(hostnameMaps, networkMaps, matches, contains, srv, now, json);
      && log.events == Event.Record(old(log.events), srv.mac, e)
      && log.created == (old(log.created) || e.Some?)
  {
    var hm := Mappings.FindScriptForHostname(hostnameMaps, srv.hostname, matches);
    if hm.Some? {
      var script := hm.value;
      log.AddEvent(Event.HostBoot, srv, Event.PtrMatchBoot, script.name, script.params, now, json);
      var params := script.params["hostname" := Str(srv.hostname)];
      o := GenBootScript(templates, baseURL, script.(params := params), execute);
      return o, true;
    }
    var nm := Mappings.FindScriptForNetwork(networkMaps, srv.ip, contains);
    if nm.Some? {
      var script := nm.value;
      var params := SetHostName(script.params, srv.mac);
      if !("hostname" in params && params["hostname"].Str?) {
        return Panicked(NotAString), true;
      }
      var booted := srv.(hostname := params["hostname"].s);
      log.AddEvent(Event.HostBoot, booted, Event.SubnetMatchBoot, script.name, params, now, json);
      o := GenBootScript(templates, baseURL, script.(params := params), execute);
      return o, true;
    }
    return Served(""), false;
  }

  /** Poll's answer: an automatic mapping's, else the state machine's. */
  function PollAnswer(envs: map<string, Templates.TemplateEnvironment>, execute: Templates.Executor,
                      hostnameMaps: seq<Mappings.HostnameMap>, networkMaps: seq<Mappings.NetworkMap>,
                      matches: (string, string) -> bool, contains: (string, string) -> bool,
                      table: map<string, Server.State>, baseURL: string, srv: Server.Server, now: int): PollOutcome
  {
    var auto := AutoResult(envs, execute, hostnameMaps, networkMaps, matches, contains, baseURL, srv);
    if auto.Some? then auto.value
    else
      var st := ManualStep(table, srv, now);
      ManualResult(st.script, st.action, envs, execute, baseURL, srv)
  }

  /** The event Poll adds: an automatic mapping's, else the state machine's. */
  function PollEvent(hostnameMaps: seq<Mappings.HostnameMap>, networkMaps: seq<Mappings.NetworkMap>,
                     matches: (string, string) -> bool, contains: (string, string) -> bool,
                     table: map<string, Server.State>, srv: Server.Server, now: int,
                     json: Params -> string): Option<Event.Event>
  {
    if Mappings.FindScriptForHostname(hostnameMaps, srv.hostname, matches).Some?
       || Mappings.FindScriptForNetwork(networkMaps, srv.ip, contains).Some?
    then AutoEvent(hostnameMaps, networkMaps, matches, contains, srv, now, json)
    else ManualEvent(table, srv, now, json)
  }

  /**
   * Every event a poll adds is the polling host's, dated now. A HostBoot event is added
   * exactly when a mapping or a stored selection boots the host (and setHostName leaves a
   * string hostname); a HostPoll event exactly on the first poll of an unseen host that no
   * mapping answers; retries and timeouts add nothing.
   */
  lemma PollEventSpec(hostnameMaps: seq<Mappings.HostnameMap>, networkMaps: seq<Mappings.NetworkMap>,
                      matches: (string, string) -> bool, contains: (string, string) -> bool,
                      table: map<string, Server.State>, srv: Server.Server, now: int, json: Params -> string)
    ensures var e := PollEvent(hostnameMaps, networkMaps, matches, contains, table, srv, now, json);
            e.Some? ==> e.value.server.mac == srv.mac && e.value.date == now
    ensures var e := PollEvent(hostnameMaps, networkMaps, matches, contains, table, srv, now, json);
            var hm := Mappings.FindScriptForHostname(hostnameMaps, srv.hostname, matches);
            var nm := Mappings.FindScriptForNetwork(networkMaps, srv.ip, contains);
      && (e.Some? && e.value.eventType == Event.HostBoot <==>
           || hm.Some?
           || (nm.Some? && HostnamedScript(nm.value, srv.mac).Some?)
           || (hm.None? && nm.None? && srv.mac in table && table[srv.mac].target != Server.InitTarget
               && HostnamedScript(Mappings.Script(table[srv.mac].target, table[srv.mac].environment,
                                                  table[srv.mac].params), srv.mac).Some?))
      && (e.Some? && e.value.eventType == Event.HostPoll <==> hm.None? && nm.None? && srv.mac !in table)
  {
  }

  /** The state table after Poll. */
  function PollTable(envs: map<string, Templates.TemplateEnvironment>, execute: Templates.Executor,
                     hostnameMaps: seq<Mappings.HostnameMap>, networkMaps: seq<Mappings.NetworkMap>,
                     matches: (string, string) -> bool, contains: (string, string) -> bool,
                     table: map<string, Server.State>, baseURL: string, srv: Server.Server, now: int): map<string, Server.State>
  {
    if AutoResult(envs, execute, hostnameMaps, networkMaps, matches, contains, baseURL, srv).Some? then table
    else ManualStep(table, srv, now).table
  }

  /**
   * The state table is consulted only when neither a hostname mapping nor a network mapping
   * matches; a hostname mapping is preferred to a network mapping.
   */
  lemma PollOrder(envs: map<string, Templates.TemplateEnvironment>, execute: Templates.Executor,
                  hostnameMaps: seq<Mappings.HostnameMap>, networkMaps: seq<Mappings.NetworkMap>,
                  matches: (string, string) -> bool, contains: (string, string) -> bool,
                  table: map<string, Server.State>, baseURL: string, srv: Server.Server, now: int)
    ensures var hm := Mappings.FindScriptForHostname(hostnameMaps, srv.hostname, matches);
            var nm := Mappings.FindScriptForNetwork(networkMaps, srv.ip, contains);
            var t := PollTable(envs, execute, hostnameMaps, networkMaps, matches, contains, table, baseURL, srv, now);
            var o := PollAnswer(envs, execute, hostnameMaps, networkMaps, matches, contains, table, baseURL, srv, now);
      && (((exists j :: 0 <= j < |hostnameMaps| && matches(hostnameMaps[j].hostname, srv.hostname)) ||
           (exists j :: 0 <= j < |networkMaps| && contains(networkMaps[j].network, srv.ip))) ==> t == table)
      && (hm.None? && nm.None? ==> t == ManualStep(table, srv, now).table)
      && (hm.Some? ==> o == BootText(envs, execute, baseURL, hm.value.(params := hm.value.params["hostname" := Str(srv.hostname)])))
      && (hm.None? && nm.Some? ==> o == HostnamedBoot(envs, execute, baseURL, nm.value, srv.mac))
  {
  }

  /**
   * Poll: the automatic mappings answer first and leave the state table alone; only when
   * neither matches does the state machine run.
   */
  method Poll(states: Server.States, hostnameMaps: seq<Mappings.HostnameMap>, networkMaps: seq<Mappings.NetworkMap>,
              matches: (string, string) -> bool, contains: (string, string) -> bool,
              log: Event.Log, templates: Templates.ShoelacesTemplates, baseURL: string, srv: Server.Server,
              now: int, json: Params -> string, execute: Templates.Executor) returns (o: PollOutcome)
    requires states.Valid() && log.Valid() && templates.Valid()
    modifies states, log
    ensures states.Valid() && log.Valid()
    ensures o == PollAnswer(templates.envTemplates, execute, hostnameMaps, networkMaps, matches, contains,
                            old(states.servers), baseURL, srv, now)
    ensures states.servers == PollTable(templates.envTemplates, execute, hostnameMaps, networkMaps, matches, contains,
                                        old(states.servers), baseURL, srv, now)
    ensures var e := PollEvent(hostnameMaps, networkMaps, matches, contains, old(states.servers), srv, now, json);
      && log.events == Event.Record(old(log.events), srv.mac, e)
      && log.created == (old(log.created) || e.Some?)
  {
    var script, found := AttemptAutomaticBoot(hostnameMaps, networkMaps, matches, contains, templates, log,
                                              baseURL, srv, now, json, execute);
    if found {
      return script;
    }
    o := DoManualAction(states, templates, log, baseURL, srv, now, json, execute);
  }

  /* ---------------------------------------------------------------------------------
   * UpdateTarget and ListServers.
   * --------------------------------------------------------------------------------- */

  /** The parameters UpdateTarget renders and stores: a hostname, and the environment's baseURL. */
  function TrialParams(params: Params, mac: string, baseURL: string, envName: string): Params
  {
    SetHostName(params, mac)["baseURL" := Str(BaseURLforEnvName(baseURL, envName))]
  }

  /** The table after a selection: target, environment and parameters of one entry. */
  function Assign(table: map<string, Server.State>, mac: string, target: string, envName: string,
                  params: Params): map<string, Server.State>
    requires mac in table
  {
    table[mac := table[mac].(target := target, environment := envName, params := params)]
  }

  /** A selection changes only the chosen fields of one entry; identity, retry and access time stay. */
  lemma AssignFrame(table: map<string, Server.State>, mac: string, target: string, envName: string, params: Params)
    requires mac in table
    ensures Assign(table, mac, target, envName, params).Keys == table.Keys
    ensures forall k :: k in table && k != mac ==> Assign(table, mac, target, envName, params)[k] == table[k]
    ensures var e := Assign(table, mac, target, envName, params)[mac];
      && e.server == table[mac].server && e.retry == table[mac].retry && e.lastAccess == table[mac].lastAccess
      && e.target == target && e.environment == envName && e.params == params
    ensures KeyedByMac(table) ==> KeyedByMac(Assign(table, mac, target, envName, params))
  {
  }

  /**
   * UpdateTarget: validates the MAC, renders the selection once as a trial, then stores it
   * in the waiting host's entry and logs a UserSelection event. Every failure is an input
   * error and changes nothing.
   */
  method UpdateTarget(states: Server.States, templates: Templates.ShoelacesTemplates, log: Event.Log,
                      baseURL: string, srv: Server.Server, scriptName: string, envName: string, params: Params,
                      isValidMAC: string -> bool, execute: Templates.Executor, now: int, json: Params -> string)
    returns (inputErr: bool, err: Option<string>)
    requires states.Valid() && log.Valid() && templates.Valid()
    modifies states, log
    ensures states.Valid() && log.Valid()
    ensures var p := TrialParams(params, srv.mac, baseURL, envName);
            var trial := Templates.Render(templates.envTemplates, execute, scriptName, p, envName);
      if !isValidMAC(srv.mac) then inputErr && err == Some("Invalid MAC")
      else if trial.Err? then inputErr && err == Some(trial.error)
      else if srv.mac !in old(states.servers) then inputErr && err == Some("MAC is not in the booting state")
      else && !inputErr && err.None?
           && states.servers == Assign(old(states.servers), srv.mac, scriptName, envName, p)
           && log.events == old(log.events)[srv.mac := old(log.EventsFor(srv.mac))
                              + [Event.New(Event.UserSelection, srv, "", scriptName, map[], now, json)]]
    ensures err.Some? ==> inputErr && states.servers == old(states.servers)
                          && log.events == old(log.events) && log.created == old(log.created)
  {
    if !isValidMAC(srv.mac) {
      return true, Some("Invalid MAC");
    }
    var p := SetHostName(params, srv.mac);
    p := p["baseURL" := Str(BaseURLforEnvName(baseURL, envName))];
    var rendered := templates.RenderTemplate(scriptName, p, envName, execute);
    if rendered.Err? {
      return true, Some(rendered.error);
    }
    if srv.mac !in states.servers {
      return true, Some("MAC is not in the booting state");
    }
    log.AddEvent(Event.UserSelection, srv, "", scriptName, map[], now, json);
    var m := states.servers[srv.mac];
    states.servers := states.servers[srv.mac := m.(target := scriptName, environment := envName, params := p)];
    return false, None;
  }

  /**
   * A successful UpdateTarget makes the host's next poll boot the selection, with exactly the
   * text of the trial render, and log a ManualBoot event with the stored parameters (when the
   * registry is unchanged and the selection is a real target with a string hostname, if any).
   */
  lemma UpdateThenBoot(table: map<string, Server.State>, envs: map<string, Templates.TemplateEnvironment>,
                       execute: Templates.Executor, baseURL: string, srv: Server.Server, poller: Server.Server,
                       scriptName: string, envName: string, params: Params, now: int, json: Params -> string)
    requires srv.mac in table && poller.mac == srv.mac
    requires scriptName != Server.InitTarget
    requires "hostname" in params ==> params["hostname"].Str?
    requires Templates.Render(envs, execute, scriptName, TrialParams(params, srv.mac, baseURL, envName), envName).Ok?
    ensures var p := TrialParams(params, srv.mac, baseURL, envName);
            var st := ManualStep(Assign(table, srv.mac, scriptName, envName, p), poller, now);
      && st.action == BootAction && srv.mac !in st.table
      && ManualResult(st.script, st.action, envs, execute, baseURL, poller)
         == Served(Templates.Render(envs, execute, scriptName, p, envName).value)
      && "hostname" in p && p["hostname"].Str?
      && ManualEvent(Assign(table, srv.mac, scriptName, envName, p), poller, now, json)
         == Some(Event.New(Event.HostBoot, poller.(hostname := p["hostname"].s), Event.ManualBoot, scriptName, p, now, json))
  {
    var p := TrialParams(params, srv.mac, baseURL, envName);
    SetHostNameSpec(params, srv.mac);
    var script := Mappings.Script(scriptName, envName, p);
    assert SetHostName(p, poller.mac) == p;
    assert HostnamedScript(script, poller.mac) == Some(script);
    assert BootParams(baseURL, script) == p;
  }

  /**
   * ListServers: the servers of the entries still waiting for a target, in strictly
   * ascending MAC order (so no MAC twice).
   */
  method ListServers(states: Server.States) returns (ret: Server.Servers)
    requires states.Valid()
    ensures forall s :: s in ret <==>
      exists mac :: mac in states.servers && states.servers[mac].target == Server.InitTarget
                    && states.servers[mac].server == s
    ensures forall i, j :: 0 <= i < j < |ret| ==> Text.Less(ret[i].mac, ret[j].mac) && ret[i].mac != ret[j].mac
  {
    var unsorted: Server.Servers := [];
    var pending := states.servers.Keys;
    while pending != {}
      invariant pending <= states.servers.Keys
      invariant forall s :: s in unsorted <==>
        exists mac :: mac in states.servers && mac !in pending && states.servers[mac].target == Server.InitTarget
                      && states.servers[mac].server == s
      invariant forall i :: 0 <= i < |unsorted| ==> unsorted[i].mac in states.servers && unsorted[i].mac !in pending
      invariant Sorting.DistinctKeys(unsorted, Server.MacOf)
      decreases pending
    {
      var mac :| mac in pending;
      if states.servers[mac].target == Server.InitTarget {
        unsorted := unsorted + [states.servers[mac].server];
      }
      pending := pending - {mac};
    }
    ret := Sorting.SortBy(unsorted, Server.MacOf);
    Sorting.SortByStrict(unsorted, Server.MacOf);
    forall i, j | 0 <= i < j < |ret| ensures Text.Less(ret[i].mac, ret[j].mac) && ret[i].mac != ret[j].mac {
      Text.LessIrreflexive(ret[i].mac);
    }
  }
}

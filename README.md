# shoelaces: a Dafny model of the boot server's core

Shoelaces is a PXE/iPXE boot server. Machines that network-boot poll it for an iPXE script.
The server picks the script in one of three ways:

- by a hostname mapping (a regular expression over the reverse-DNS name);
- by a network mapping (a CIDR network that contains the machine's IP);
- by a user's manual selection through the web UI.

A machine that matches no mapping is put in the *waiting* state. It retries until someone
selects a target for it, or until it has retried too often and times out. Scripts are
rendered from named templates, and an *environment* can override templates and static files.

This project models that core, one Dafny module per Go file:

| module | Go file | form |
|---|---|---|
| `Server` | internal/server/server.go | `States` class over the MAC → state map; `Swap` on an array |
| `Polling` | internal/polling/polling.go | the state machine as a function `ManualStep`, plus methods on the `States` table and the `Log` |
| `Event` | internal/event/event.go | event values; `Log` class with its map of per-MAC sequences |
| `Templates` | internal/templates/templates.go | placeholder scanner; `ShoelacesTemplates` registry class; `Render` |
| `Mappings` | internal/mappings/mappings.go | first-match-wins lookups; `Script.String` |
| `Utils` | internal/utils/utils.go | Filter, membership tests, MAC spelling, base URL per environment |
| `PollingHandlers` | internal/handlers/polling.go | poll and target-selection endpoints; POST form split |
| `TemplateHandlers` | internal/handlers/templates.go | template endpoint; template-parameter listing |
| `Middleware` | internal/handlers/middleware.go | the `/env/<name>/…` path rewrite |
| `IpxeScript` | internal/ipxe/ipxescript.go | script listing from directory listings |
| `IpxeMenu` | internal/handlers/ipxemenu.go | the iPXE menu text |
| `Static` | internal/handlers/static.go | overlay of two static directories; directory index |

Four helper modules complete the project:

- `Wrappers`: Option and Result.
- `Text`: the parts of Go's `strings` package that are used, and byte-wise string order.
- `Sorting`: insertion sort as the model of `sort.Sort`/`sort.Strings`, proved ordered and a permutation.
- `Http`: statuses, responses, `http.Error`, `url.Values.Get`.

Foreign behaviour is passed in as parameters:

- regular-expression matching and CIDR containment;
- `net.ParseMAC`, `net.ParseIP`, `net.SplitHostPort` and reverse DNS;
- `json.Marshal`;
- text/template execution, written `execute(environment, name, params)`, which returns the text written and an error, if any;
- `os.Stat` and `ioutil.ReadDir`, as results or listings;
- the clock, written `now`.

Go's maps iterate in an unspecified order. Where the order is observable, it is a parameter (`keys`); elsewhere it is a `:|` choice.

A few facts about the code shape the model:

- The `host` query parameter of a poll is the machine's hostname.
- The attempt number in the poll URL is not used.
- A boot script that fails to render panics, and the request is aborted (`Http.Aborted`).
- The host registry, the assignments and the retry counter are one table of `State` entries.

## Model

| member | source | states |
|---|---|---|
| Utils.Filter | internal/utils/utils.go:27-36 | an element is in the result iff it is in the input and passes fn |
| Utils.FilterAppend | internal/utils/utils.go:27-36 | filtering distributes over concatenation, so the input order is kept |
| Utils.FilterCount | internal/utils/utils.go:27-36 | each passing element occurs as often as in the input; a failing one never occurs |
| Utils.FilterKeepsAll | internal/utils/utils.go:27-36 | a list whose every element passes comes back unchanged |
| Utils.StringInSlice | internal/utils/utils.go:40-47 | true iff a is an element of the list |
| Utils.KeyInMap | internal/utils/utils.go:50-53 | true iff the key is a key of the map |
| Utils.MacColonToDashShape | internal/utils/utils.go:98-100 | the dashed MAC has the same length and contains no ':' |
| Utils.MacDashToColonShape | internal/utils/utils.go:103-105 | the colon MAC has the same length and contains no '-' |
| Utils.MacRoundTrip | internal/utils/utils.go:98-105 | dash-free m: MacDashToColon(MacColonToDash(m)) == m |
| Utils.BaseURLforEnvName | internal/utils/utils.go:69-74 | an empty environment keeps the base URL; with a non-empty base it is base + "/env/" + environment |
| Server.New | internal/server/server.go:72-78 | mac, ip and hostname are stored exactly as given |
| Server.LessIsStrictOrder | internal/server/server.go:50-52 | Less (MAC string order) is irreflexive and transitive, and total on distinct MACs |
| Server.Swap | internal/server/server.go:45-47 | positions i and j are exchanged and nothing else changes |
| Server.States.AddServer | internal/server/server.go:81-88 | the entry of server.Mac becomes (server, "NOTARGET", retry 1, access now); all other keys are unchanged; entries stay keyed by their MAC |
| Server.States.DeleteServer | internal/server/server.go:91-93 | exactly the key mac is removed |
| Server.States.CleanExpired | internal/server/server.go:108-119 | a sweep keeps exactly the entries with lastAccess > now - 180, unchanged |
| Event.SetMessage | internal/event/event.go:79-91 | the message text for each of the four types; an unknown type keeps its message; no other field changes |
| Event.New | internal/event/event.go:64-77 | type, server, boot type, script and params are copied verbatim; date is the clock reading; unknown types get an empty message |
| Event.MessageNamesHost | internal/event/event.go:79-91 | every known type's message contains the host name |
| Event.MessageDeterminesType | internal/event/event.go:79-91 | the poll, selection and timeout messages tell the three types apart |
| Event.Log.AddEvent | internal/event/event.go:94-100 | creates the map when nil; appends exactly one new event to srv.Mac's sequence; every other MAC keeps its sequence |
| Event.RecordSpec | internal/event/event.go:94-100 | recording an optional event changes nothing without one, and otherwise only appends it to mac's sequence |
| Mappings.FirstMatch | internal/mappings/mappings.go:47-54 | -1 iff no element passes; otherwise the index of the first one that passes |
| Mappings.FindScriptForHostname | internal/mappings/mappings.go:47-54 | None iff no pattern matches; otherwise the script of the first matching map in slice order |
| Mappings.FindScriptForNetwork | internal/mappings/mappings.go:59-66 | None iff no network contains the IP; otherwise the script of the first such map |
| Mappings.ScriptString | internal/mappings/mappings.go:68-80 | Name + " : { " + elements joined by ", " + " }"; "environment: E" first iff E is non-empty; then one "k: v" per parameter, in iteration order |
| Mappings.ParamElemsAt | internal/mappings/mappings.go:74-76 | one "key: value" element per key, at that key's position |
| Polling.StartScriptChainsToPoll | internal/polling/polling.go:37-45 | the start script begins with "#!ipxe" and chains to http://baseURL/poll/1/${netX/mac:hexhyp} |
| Polling.RetryScriptPollsAgain | internal/polling/polling.go:274-293 | the retry script begins with "#!ipxe" and polls /poll/1/ again under the dashed MAC |
| Polling.SetHostNameSpec | internal/polling/polling.go:230-243 | an existing "hostname" is never overwritten; otherwise it is the string hostnamePrefix (or "") plus the dashed MAC; no other key changes |
| Polling.SetHostNameIdempotent | internal/polling/polling.go:230-243 | applying setHostName twice, with any MAC the second time, equals applying it once |
| Polling.ManualStepFrame | internal/polling/polling.go:197-228 | a poll changes at most the polling MAC's entry, and keeps entries keyed by MAC |
| Polling.ManualStepNewHost | internal/polling/polling.go:223-227 | unseen MAC: exactly one new entry (NOTARGET, retry 1), a HostPoll event, RetryAction |
| Polling.ManualStepBootOnce | internal/polling/polling.go:204-210 | a set target is booted once, with its target, environment and params; the entry is deleted; the next poll is a new host again |
| Polling.ManualStepWaiting | internal/polling/polling.go:211-220 | retry <= 10: retry + 1, access renewed, RetryAction; above: deleted, TimeoutAction; neither logs an event |
| Polling.RunWaiting | internal/polling/polling.go:211-220 | a waiting host at retry r gets 11 - r retries, then a timeout |
| Polling.RetriesThenTimeout | internal/polling/polling.go:211-227 | without a selection or the cleaner, a new host gets RetryAction on its first 11 polls and TimeoutAction on the 12th |
| Polling.ChooseManualAction | internal/polling/polling.go:197-228 | the method performs ManualStep on the table and logs HostPoll exactly for a new host |
| Polling.GenBootScript | internal/polling/polling.go:265-272 | renders with baseURL for the script's environment; a render error is a panic |
| Polling.ManualEventSpec | internal/polling/polling.go:172-189 | an unseen host logs HostPoll; a stored selection logs HostBoot/ManualBoot under the setHostName hostname with those parameters, unless that hostname is not a string; retry and timeout log nothing |
| Polling.DoManualAction | internal/polling/polling.go:172-195 | table after ManualStep; answer is the boot, retry or timeout script for the chosen action; the log gains exactly ManualEvent's event (HostPoll, ManualBoot or none) under the polled MAC |
| Polling.AttemptAutomaticBoot | internal/polling/polling.go:144-170 | hostname mapping first, then network mapping; found iff one matches; the log gains exactly AutoEvent's event: PtrMatchBoot with the mapping's parameters, SubnetMatchBoot under the setHostName hostname, or none |
| Polling.PollOrder | internal/polling/polling.go:136-141 | the state table is consulted only when no hostname or network mapping matches; a hostname match wins over a network match |
| Polling.PollEventSpec | internal/polling/polling.go:131-189 | a poll's event is the polling host's, dated now; HostBoot exactly when a mapping or a stored selection boots it with a string hostname; HostPoll exactly for an unseen host no mapping answers |
| Polling.Poll | internal/polling/polling.go:131-142 | answer, new table and new log are PollAnswer, PollTable and PollEvent recorded under the polled MAC |
| Polling.AssignFrame | internal/polling/polling.go:119-125 | a selection changes only the target, environment and params of one entry; identity, retry, access time and other MACs are unchanged |
| Polling.UpdateTarget | internal/polling/polling.go:95-126 | invalid MAC, failed trial render, or no entry: inputErr, and nothing changes; else the entry is assigned and one UserSelection event is appended |
| Polling.UpdateThenBoot | internal/polling/polling.go:103-125 | after a successful selection, the next poll boots it, with exactly the trial render's text, and logs a ManualBoot event with the stored parameters |
| Polling.ListServers | internal/polling/polling.go:76-89 | exactly the servers of entries still at NOTARGET, in strictly ascending MAC order, so no MAC twice |
| Sorting.SortByCorrect | internal/polling/polling.go:86 | the sort result is ordered by key and a permutation of its input |
| Sorting.SortEnumeration | internal/handlers/static.go:100-104 | sorting any duplicate-free listing of a set of names gives the one ascending sequence of that set |
| Templates.MatchShape | internal/templates/templates.go:34 | the text between "{{." and the next "}}" is a scanned name |
| Templates.ScanStep | internal/templates/templates.go:82 | a non-empty scan starts with the shortest match at or after `from`, then continues after its "}}" |
| Templates.ScanFromSound | internal/templates/templates.go:34 | every scanned name n occurs in the line as "{{." + n + "}}" and contains no "}}" |
| Templates.DefineNameQuoted | internal/templates/templates.go:35 | the name is taken from a `{{define` at or after p and contains no '"' |
| Templates.AddNewAppend | internal/templates/templates.go:84-89 | de-duplication over two batches equals de-duplication of their concatenation |
| Templates.AddNewProps | internal/templates/templates.go:84-89 | no duplicates; exactly the old and new names; the old list is a prefix |
| Templates.AddNewOrder | internal/templates/templates.go:84-89 | names appear in the order of their first occurrence |
| Templates.TemplateVarsSpec | internal/templates/templates.go:80-90 | the variable list has no duplicates, holds exactly the names scanned on any line, in first-occurrence order |
| Templates.ParseTemplateInfo | internal/templates/templates.go:67-100 | the loop computes TemplateInfoOf: the name from the first line's define, the de-duplicated variables; a first line without a define is an error |
| Templates.Missing | internal/templates/templates.go:207-214 | the required variables that are not keys of the parameter map, in required order: Filter(required, AbsentFrom(params)) |
| Templates.JoinMissingIsJoin | internal/templates/templates.go:209-212 | without empty names, the loop's joining is strings.Join with ", " |
| Templates.MissingVariables | internal/templates/templates.go:206-214 | the loop yields the missing variables, in required order, joined as the source joins them |
| Templates.RenderEmptyIsDefault | internal/templates/templates.go:185-187 | rendering with "" is rendering in "default" |
| Templates.RenderFallsBack | internal/templates/templates.go:196-199 | a failed execution in a non-default environment gives exactly the default environment's answer, with its variable list |
| Templates.RenderMissingVariables | internal/templates/templates.go:192-219 | the kept execution's output is the answer iff it succeeded without "<no value>"; with "<no value>" the error is the prefix and strings.Join of the absent required names, in order, with ", " |
| Templates.UnknownEnvironmentPanics | internal/templates/templates.go:190-193 | as written, an environment that was never loaded makes RenderTemplate panic |
| Templates.UnknownEnvironmentFallsBack | internal/templates/templates.go:194-199 | the corrected Render answers for an unloaded environment from "default" |
| Templates.PartialOutputKept | internal/templates/templates.go:192-198 | as written, a failed override's partial output stays in front of the default's output |
| Templates.ShoelacesTemplates.New | internal/templates/templates.go:58-65 | the registry starts with only the "default" environment, with no templates |
| Templates.ShoelacesTemplates.CheckAddEnvironment | internal/templates/templates.go:102-114 | an absent environment is added empty; an existing one is never changed |
| Templates.ShoelacesTemplates.AddTemplate | internal/templates/templates.go:116-125 | the environment is added first; on success the template's variables are stored under its name, and ListVariables returns them |
| Templates.ShoelacesTemplates.RenderTemplate | internal/templates/templates.go:184-220 | the method computes the corrected Render: "" is default, fallback to default on failure or for an unloaded environment, the missing-variables error |
| Templates.ShoelacesTemplates.ListVariables | internal/templates/templates.go:225-233 | the list stored for exactly (environment, template), else empty; no fallback to default |
| Templates.GetEnvFromPath | internal/templates/templates.go:127-133 | a path outside dataDir/envDir belongs to "default" |
| Templates.GetEnvFromPathComponent | internal/templates/templates.go:127-133 | a path dataDir/envDir/e/… belongs to environment e |
| Middleware.EnvRunEnd | internal/handlers/middleware.go:35 | the end of the maximal run of [a-zA-Z0-9_-] characters from i |
| Middleware.UpToNewline | internal/handlers/middleware.go:35 | `.*`: the longest prefix without a newline |
| Middleware.RewriteShape | internal/handlers/middleware.go:35 | a rewritten path starts with '/'; a set environment name is a non-empty run of name characters |
| Middleware.RewriteEnvPath | internal/handlers/middleware.go:42-46 | "/env/N/rest" (or ":/env/N/rest") becomes "/rest" with environment N |
| Middleware.RewriteFrom | internal/handlers/middleware.go:42-46 | the same rewrite, for a path split at its optional ':' |
| Middleware.NoEnvPrefix | internal/handlers/middleware.go:41-47 | a path without a "/env/" or ":/env/" prefix is unchanged, with no environment |
| Middleware.EnvWithoutSlash | internal/handlers/middleware.go:41-47 | "/env/N" without a following '/' is unchanged, with no environment |
| PollingHandlers.StartPolling | internal/handlers/polling.go:32-38 | 200 with an iPXE script that chains to the poll URL |
| PollingHandlers.ParsePostForm | internal/handlers/polling.go:132-146 | mac (dashes to colons), target and environment come from their first values, "" when absent; every other key maps to its first value; params never holds those three keys; params is FormParams(form) |
| PollingHandlers.PollHandler | internal/handlers/polling.go:44-78 | 500 for a bad remote address, MAC or IP, changing nothing; else it polls with the colon MAC and answers Poll's script, with Poll's table and Poll's event |
| PollingHandlers.UpdateTargetHandler | internal/handlers/polling.go:97-130 | 500 for a bad remote address; 400 for a bad form or an empty mac or target; then a redirect to "/" iff the MAC is valid, the trial render succeeds and the MAC is waiting, storing Assign of the trial parameters and one UserSelection event; otherwise 400 with UpdateTarget's error |
| TemplateHandlers.CopyQuery | internal/handlers/templates.go:37-39 | the loop gives each query key its first value |
| TemplateHandlers.RequestParamsSpec | internal/handlers/templates.go:37-43 | "baseURL" is always the environment's base URL; every other key keeps its first query value; nothing else is added |
| TemplateHandlers.RenderReply | internal/handlers/templates.go:45-50 | the rendered text with 200, or the error with 500 |
| TemplateHandlers.TemplateHandler | internal/handlers/templates.go:28-51 | no template name: 404, nothing rendered; else the reply to Render with the request's parameters |
| TemplateHandlers.GetTemplateParams | internal/handlers/templates.go:55-83 | an empty script is an error, and only then; else the template's variables in the requested environment ("default" when none) minus the blacklist |
| TemplateHandlers.BaseURLNeverListed | internal/handlers/templates.go:59-74 | with the default blacklist, "baseURL" is never listed |
| IpxeScript.TrimmedEndsInIpxe | internal/ipxe/ipxescript.go:76-84 | removing the template extension leaves a name ending in ".ipxe" |
| IpxeScript.DirScriptsSpec | internal/ipxe/ipxescript.go:76-86 | the kept names are exactly the non-directories ending in ".ipxe"+ext, with ext removed; no more names than files |
| IpxeScript.DirScriptsAppend | internal/ipxe/ipxescript.go:79-86 | the listing is filtered in order; it distributes over concatenation |
| IpxeScript.ScriptDirList | internal/ipxe/ipxescript.go:69-87 | an unreadable directory gives no names; else the loop gives DirScripts of the listing |
| IpxeScript.AppendScriptsFromDir | internal/ipxe/ipxescript.go:61-66 | the existing scripts are kept, and the directory's scripts are appended after them in order |
| IpxeScript.ScriptList | internal/ipxe/ipxescript.go:44-59 | the loop computes AllScripts over the environments in order |
| IpxeScript.AllScriptsShape | internal/ipxe/ipxescript.go:44-59 | the main directory's scripts (Env "", Path "/configs/") come first; every later one has an environment e from the list and Path "/env/"+e+"/configs/" |
| IpxeScript.UnreadableDirEmpty | internal/ipxe/ipxescript.go:70-74 | a directory that cannot be read contributes no scripts |
| IpxeMenu.DescSpec | internal/handlers/ipxemenu.go:51-56 | desc is Name when Env is empty, else Name followed by " [" Env "]" |
| IpxeMenu.WriteItems | internal/handlers/ipxemenu.go:46-59 | the buffer is the header followed by one item line per script in list order |
| IpxeMenu.ItemLinesAppend | internal/handlers/ipxemenu.go:49-59 | the item lines of a concatenation are the concatenation of the item lines |
| IpxeMenu.IPXEMenu | internal/handlers/ipxemenu.go:37-63 | no scripts: 500 "No Scripts Found"; else 200 with the menu |
| IpxeMenu.MenuLayout | internal/handlers/ipxemenu.go:25-61 | the menu starts with the header and ends with the footer for the base URL; each script's item line is at its offset, in list order |
| Static.StaticServerFor | internal/handlers/static.go:30-40 | no environment: only the base static dir; else the environment's static dir laid over it |
| Static.AddAllSpec | internal/handlers/static.go:81-87 | every name of the listing is entered, with an entry of that name from the listing; other keys keep their entry |
| Static.AddMissingSpec | internal/handlers/static.go:88-96 | a lower entry is added only when its name is absent; existing entries are kept |
| Static.MergeSpec | internal/handlers/static.go:79-96 | the listing is the union of both layers' names; an upper name carries an upper entry; a lower-only name carries a lower entry |
| Static.MergeListings | internal/handlers/static.go:79-96 | the two loops compute Merge |
| Static.CollectNames | internal/handlers/static.go:100-103 | each listing name exactly once |
| Static.WriteLines | internal/handlers/static.go:105-114 | "<pre>\n" followed by one index line per name, in the given order |
| Static.IndexLinesAppend | internal/handlers/static.go:106-114 | the index lines of a concatenation are the concatenation of the index lines |
| Static.WriteIndex | internal/handlers/static.go:99-116 | the body is IndexText: "<pre>\n", one line per name in ascending order (directories with '/'), "</pre>\n" |
| Static.IndexListsEveryEntry | internal/handlers/static.go:99-116 | the index starts with "<pre>\n", ends with "</pre>\n", and holds the anchor line of every entry |
| Static.OverlayServe | internal/handlers/static.go:61-127 | 404 when neither layer has the path; the merged index when either is a directory; else the upper file before the lower |

## Left out

- Locking (`sync.RWMutex`) and the cleaner goroutine with its sleep. Each operation is one atomic method, and one sweep of the cleaner is `Server.States.CleanExpired` at a clock reading. Race freedom is not claimed.
- The Go event log has no lock at all. Concurrent appends are not modelled.
- The Go program reads the clock with `time.Now` inside each operation. The model takes one reading, `now`, per operation. So the event-date test becomes: the date is exactly the reading passed in.
- text/template parsing and execution are the `execute` parameter. The start and retry scripts are modelled by substituting `baseURL` and the dashed MAC into their fixed text; their panics on a parse error cannot happen for constant templates and are left out.
- Regular expressions, CIDR containment, `ParseMAC`, `ParseIP`, `SplitHostPort` and `LookupAddr` are parameters. The `varRegex` and `configNameRegex` scanners and `envRe` are modelled only for the shapes they are used on. The scanner model is one line at a time, like bufio's, so lines longer than its 64 KiB token limit are not modelled.
- Filesystem and configuration I/O: file lines, directory listings and stat results are inputs. `ParseTemplates` (the directory walk), the environment bootstrap, the YAML mappings parser and the flags are not part of this model.
- `filepath.Clean`: `PathJoin` joins the non-empty elements with "/" and does not clean "..", "." or doubled slashes.
- JSON: the HostBoot message is built with a `json` parameter. The JSON body of `GetTemplateParams` and `ServerListHandler` are not modelled; they are the lists that are modelled.
- `MapToString` is only used for logging and is left out. Logging is left out entirely.
- Parameter aliasing: `attemptAutomaticBoot` and `genBootScript` write "hostname" and "baseURL" into the mapping's shared `Params` map, so in Go those writes persist into later polls. The model computes each poll's parameters afresh and says nothing about parameters carried between polls.
- Event parameter aliasing: a HostBoot event holds the same Go map that is written to after `AddEvent` (polling.go:152 and :266), so its `Params` later show "hostname" and "baseURL" too. The model's event keeps the parameters as they were when it was added; its message, built at that moment, is the same in both.
- Pointer identity of `*State` is not modelled: the table holds `State` values.
- Nil and empty slices and maps are not told apart, except for the event log's nil map (`Event.Log.created`).
- A panic, as when a network-matched script's hostnamePrefix makes "hostname" a non-string, is `Panicked` / `Http.Aborted`. Which goroutine recovers is not modelled.
- `parseTemplateInfo`: a first line without `{{define "…"}}` makes the source index an empty slice and panic. The model returns an error instead.
- `templates.go:104-108`, cloning the default environment's template object, is not modelled because it needs the parsed template set. A new environment starts with no variable lists, as in the source.
- `http.FileServer` for the base-only static server is not modelled; only the choice between it and the overlay is (`Static.StaticServerFor`).
- The filesystem `http.ServeFile` and the `http.NotFound` written after it (static.go:126) are left out: the model answers `ServeFile(path)`.
- Header-only middlewares, logging, routing, `main.go` and the web UI.
- PollingHandlers.UpdateTargetHandler: its 500 branch for a non-input error of UpdateTarget cannot be taken, because every error of UpdateTarget is an input error. The model's contract states that status 400 is always used then.
- TemplateHandlers.GetTemplateParams: states which names are listed, not their order. The order is the template's variable order because `Utils.Filter` keeps order (`Utils.FilterAppend`).
- Mappings.ScriptString: the values are required to be strings. The source's `value.(string)` panics on any other value, and that panic is not modelled.
- Templates.ShoelacesTemplates.RenderTemplate: computes the corrected `Templates.Render` (see "## Findings"), not the source's panic for an environment that was never loaded, nor its kept partial output; `Templates.RenderAsWritten` is the code as written.
- Polling.GenBootScript: renders through the corrected `Render`, so for an unloaded environment it answers from "default" where the source panics.
- Polling.DoManualAction: a manual boot renders through `GenBootScript`, so it follows the corrected `Render`.
- Polling.AttemptAutomaticBoot: a mapping's boot renders through `GenBootScript`, so it follows the corrected `Render`.
- Polling.Poll: its answer comes from `GenBootScript` on every boot, so it follows the corrected `Render`.
- PollingHandlers.PollHandler: answers with `Poll`, so it follows the corrected `Render`.
- Polling.UpdateTarget: its trial render is the corrected `Render`, so a selection for an unloaded environment (reachable through the form's "environment" field) is stored where the source panics.
- PollingHandlers.UpdateTargetHandler: through `UpdateTarget`, a selection for an unloaded environment is redirected and stored where the source panics.
- Polling.UpdateThenBoot: relates the trial render and the boot of the corrected `Render`, not of the source's panicking one.
- TemplateHandlers.TemplateHandler: answers with the corrected `Render`, so an `/env/<name>/` prefix naming an unloaded environment gets the default environment's answer where the source panics.
- Templates.GetEnvFromPath: its contract states only the outside-the-prefix case and the `dataDir/envDir/e/…` case (`Templates.GetEnvFromPathComponent`). `None` models the source's index out of range for a remainder without '/'.

## Findings

| source | as written | input that shows it | evidently intended | confidence | as-written member | corrected member |
|---|---|---|---|---|---|---|
| internal/templates/templates.go:190-193 | `s.envTemplates[envName]` for an environment that never had a template yields a zero entry whose nil `templateObj` is dereferenced by `ExecuteTemplate` | only "default" loaded; render "coreos.ipxe" for environment "staging" | fall back to the default environment, as is done when execution fails | medium, not executed | Templates.UnknownEnvironmentPanics | Templates.UnknownEnvironmentFallsBack |
| internal/templates/templates.go:192-198 | the fallback execution writes into the same buffer `b`, after what the failed first execution had already written | "prod" execution writes "x" then fails, default writes "y": the result is "xy" | the default environment's output alone, "y" | medium, not executed | Templates.PartialOutputKept | Templates.RenderFallsBack |

The as-written behaviour of both rows is `Templates.RenderAsWritten`. The corrected `Templates.Render` is what `Templates.ShoelacesTemplates.RenderTemplate` computes, and so what the rest of the model uses.

/**
 * internal/mappings/mappings.go: automatic boot rules. A hostname map pairs a regular
 * expression with a script, a network map pairs a CIDR network with a script. Regular
 * expression matching and network containment are foreign: they are the parameters
 * `matches(pattern, hostname)` and `contains(network, ip)`.
 */
module Mappings {
  import opened Wrappers
  import opened Utils
  import Text

  /** A boot script choice: template name, environment and parameters. */
  datatype Script = Script(name: string, environment: string, params: Params)

  /** A hostname regular expression (its source text) and its script. */
  datatype HostnameMap = HostnameMap(hostname: string, script: Script)

  /** A CIDR network (its source text) and its script. */
  datatype NetworkMap = NetworkMap(network: string, script: Script)

  /** Position i holds the first element of s that passes the test. */
  predicate FirstPassing<M>(s: seq<M>, test: M -> bool, i: int) {
    0 <= i < |s| && test(s[i]) && forall j :: 0 <= j < i ==> !test(s[j])
  }

  /** First-match-wins search: the index of the first passing element, or -1. */
  function FirstMatch<M>(s: seq<M>, test: M -> bool): (i: int)
    ensures i == -1 <==> forall j :: 0 <= j < |s| ==> !test(s[j])
    ensures i != -1 ==> FirstPassing(s, test, i)
  {
    if s == [] then -1
    else if test(s[0]) then 0
    else
      var k := FirstMatch(s[1..], test);
      if k == -1 then -1 else k + 1
  }

  /**
   * FindScriptForHostname: the script of the first map, in slice order, whose pattern
   * matches the hostname; None when no pattern matches.
   */
  function FindScriptForHostname(maps: seq<HostnameMap>, hostname: string,
                                 matches: (string, string) -> bool): (r: Option<Script>)
    ensures r.None? <==> forall j :: 0 <= j < |maps| ==> !matches(maps[j].hostname, hostname)
    ensures r.Some? ==> exists i :: FirstPassing(maps, (m: HostnameMap) => matches(m.hostname, hostname), i)
                                    && r.value == maps[i].script
  {
    var i := FirstMatch(maps, (m: HostnameMap) => matches(m.hostname, hostname));
    if i == -1 then None else Some(maps[i].script)
  }

  /**
   * FindScriptForNetwork: the script of the first map, in slice order, whose network
   * contains the IP; None when no network does.
   */
  function FindScriptForNetwork(maps: seq<NetworkMap>, ip: string,
                                contains: (string, string) -> bool): (r: Option<Script>)
    ensures r.None? <==> forall j :: 0 <= j < |maps| ==> !contains(maps[j].network, ip)
    ensures r.Some? ==> exists i :: FirstPassing(maps, (m: NetworkMap) => contains(m.network, ip), i)
                                    && r.value == maps[i].script
  {
    var i := FirstMatch(maps, (m: NetworkMap) => contains(m.network, ip));
    if i == -1 then None else Some(maps[i].script)
  }

  /** The "key: value" elements of Script.String, in the given key order. */
  function ParamElems(params: Params, keys: seq<string>): seq<string>
    requires forall k :: k in keys ==> k in params && params[k].Str?
  {
    if keys == [] then [] else [keys[0] + ": " + params[keys[0]].s] + ParamElems(params, keys[1..])
  }

  /**
   * Script.String. `keys` is the order in which Go's map iteration visits the parameters:
   * every parameter once, in any order. Values must be strings (the source asserts it).
   */
  function ScriptString(s: Script, keys: seq<string>): (r: string)
    requires forall k :: k in s.params <==> k in keys
    requires forall i, j :: 0 <= i < j < |keys| ==> keys[i] != keys[j]
    requires forall k :: k in s.params ==> s.params[k].Str?
    ensures exists elems: seq<string> ::
      && r == s.name + " : { " + Text.Join(elems, ", ") + " }"
      && (var off := if s.environment != "" then 1 else 0;
          && |elems| == off + |keys| == off + |s.params|
          && (s.environment != "" ==> elems[0] == "environment: " + s.environment)
          && forall i :: 0 <= i < |keys| ==> elems[off + i] == keys[i] + ": " + s.params[keys[i]].s)
  {
    var env := if s.environment != "" then ["environment: " + s.environment] else [];
    var elems := env + ParamElems(s.params, keys);
    ParamElemsAt(s.params, keys);
    DistinctKeysCover(s.params, keys);
    s.name + " : { " + Text.Join(elems, ", ") + " }"
  }

  lemma {:induction false} ParamElemsAt(params: Params, keys: seq<string>)
    requires forall k :: k in keys ==> k in params && params[k].Str?
    ensures |ParamElems(params, keys)| == |keys|
    ensures forall i :: 0 <= i < |keys| ==> ParamElems(params, keys)[i] == keys[i] + ": " + params[keys[i]].s
  {
    if keys != [] {
      ParamElemsAt(params, keys[1..]);
    }
  }

  /** A duplicate-free listing of all the keys of a map has one entry per key. */
  lemma DistinctKeysCover(params: Params, keys: seq<string>)
    requires forall k :: k in params <==> k in keys
    requires forall i, j :: 0 <= i < j < |keys| ==> keys[i] != keys[j]
    ensures |keys| == |params|
  {
    var ks := set i | 0 <= i < |keys| :: keys[i];
    assert ks == params.Keys;
    CardOfDistinct(keys);
  }

  lemma {:induction false} CardOfDistinct(keys: seq<string>)
    requires forall i, j :: 0 <= i < j < |keys| ==> keys[i] != keys[j]
    ensures |set i | 0 <= i < |keys| :: keys[i]| == |keys|
  {
    if keys != [] {
      var rest := keys[1..];
      CardOfDistinct(rest);
      var s := set i | 0 <= i < |keys| :: keys[i];
      var t := set i | 0 <= i < |rest| :: rest[i];
      assert s == t + {keys[0]};
      assert keys[0] !in t;
    }
  }
}

/**
 * internal/handlers/middleware.go: environmentMiddleware. A request path of the form
 * "/env/<name>/<rest>" is served as "/<rest>" for environment <name>; any other path is
 * served as it is, for no environment.
 *
 * The rule is the match of `^(:?/env\/([a-zA-Z0-9_-]+))?(\/.*)`: the optional group
 * (greedy, so tried first) is an optional ':' then "/env/" then the longest run of name
 * characters; the last group is a '/' and everything up to the first newline. The group
 * can only be used when the name run is followed by '/', as a shorter run is followed by a
 * name character.
 */
module Middleware {
  import Text

  /** `[a-zA-Z0-9_-]` */
  predicate IsEnvChar(c: char) {
    ('a' <= c <= 'z') || ('A' <= c <= 'Z') || ('0' <= c <= '9') || c == '_' || c == '-'
  }

  /** The end of the run of name characters that starts at i. */
  function EnvRunEnd(s: string, i: nat): (e: nat)
    requires i <= |s|
    ensures i <= e <= |s|
    ensures forall k :: i <= k < e ==> IsEnvChar(s[k])
    ensures e < |s| ==> !IsEnvChar(s[e])
    decreases |s| - i
  {
    if i < |s| && IsEnvChar(s[i]) then EnvRunEnd(s, i + 1) else i
  }

  /** `.*`: the text before the first newline. */
  function UpToNewline(s: string): (r: string)
    ensures Text.HasPrefix(s, r) && '\n' !in r
    ensures |r| < |s| ==> s[|r|] == '\n'
  {
    if s == [] || s[0] == '\n' then [] else [s[0]] + UpToNewline(s[1..])
  }

  /** The path to serve and the environment name ("" for none). */
  datatype Rewrite = Rewrite(path: string, envName: string)

  /** environmentMiddleware's rewrite of r.URL.Path. */
  function EnvironmentRewrite(path: string): Rewrite
  {
    var start := if |path| > 0 && path[0] == ':' then 1 else 0;
    if Text.HasPrefix(path[start..], "/env/") then
      var nameStart := start + 5;
      var e := EnvRunEnd(path, nameStart);
      if e > nameStart && e < |path| && path[e] == '/' then Rewrite(UpToNewline(path[e..]), path[nameStart..e])
      else Rewrite(path, "")
    else Rewrite(path, "")
  }

  /** A rewritten path starts with '/', and the name is a non-empty run of name characters. */
  lemma RewriteShape(path: string)
    ensures var r := EnvironmentRewrite(path);
      && (r.envName == "" ==> r.path == path)
      && (r.envName != "" ==> |r.path| > 0 && r.path[0] == '/' && '\n' !in r.path)
      && (forall k :: 0 <= k < |r.envName| ==> IsEnvChar(r.envName[k]))
  {
  }

  /** "/env/N/rest" becomes "/rest" for environment N (with an optional leading ':'). */
  lemma RewriteEnvPath(colon: bool, name: string, rest: string)
    requires name != [] && forall k :: 0 <= k < |name| ==> IsEnvChar(name[k])
    requires '\n' !in rest
    ensures EnvironmentRewrite((if colon then ":" else "") + "/env/" + name + "/" + rest) == Rewrite("/" + rest, name)
  {
    var t := "/env/" + name + "/" + rest;
    assert t[0] == '/';
    if colon {
      assert ":" + "/env/" + name + "/" + rest == ":" + t;
      assert (":" + t)[1..] == t;
      RewriteFrom(":" + t, 1, name, rest);
    } else {
      assert "" + "/env/" + name + "/" + rest == t;
      assert t[0..] == t;
      RewriteFrom(t, 0, name, rest);
    }
  }

  /** The rewrite of a path holding "/env/" name "/" rest after its optional ':'. */
  lemma RewriteFrom(path: string, start: nat, name: string, rest: string)
    requires start == (if |path| > 0 && path[0] == ':' then 1 else 0)
    requires start <= |path| && path[start..] == "/env/" + name + "/" + rest
    requires name != [] && forall k :: 0 <= k < |name| ==> IsEnvChar(name[k])
    requires '\n' !in rest
    ensures EnvironmentRewrite(path) == Rewrite("/" + rest, name)
  {
    RewriteCore(path, start, name, rest);
  }

  /** The steps of the match once "/env/" has been found at `start`. */
  lemma RewriteCore(path: string, start: nat, name: string, rest: string)
    requires start <= |path| && path[start..] == "/env/" + name + "/" + rest
    requires name != [] && forall k :: 0 <= k < |name| ==> IsEnvChar(name[k])
    requires '\n' !in rest
    ensures Text.HasPrefix(path[start..], "/env/")
    ensures EnvRunEnd(path, start + 5) == start + 5 + |name|
    ensures path[start + 5..start + 5 + |name|] == name
    ensures start + 5 + |name| < |path| && path[start + 5 + |name|] == '/'
    ensures UpToNewline(path[start + 5 + |name|..]) == "/" + rest
  {
    var t := path[start..];
    var e := start + 5 + |name|;
    assert t[..5] == "/env/";
    forall k | start + 5 <= k < e ensures IsEnvChar(path[k]) {
      assert path[k] == t[k - start] == name[k - start - 5];
    }
    assert path[e] == t[5 + |name|] == '/';
    EnvRunFrom(path, start + 5, e);
    assert path[start + 5..e] == t[5..5 + |name|] == name;
    assert path[e..] == t[5 + |name|..] == "/" + rest;
    NoNewlineUnchanged("/" + rest);
  }

  /** A run of name characters ending at a non-name character is the maximal run. */
  lemma {:induction false} EnvRunFrom(s: string, i: nat, e: nat)
    requires i <= e < |s|
    requires forall k :: i <= k < e ==> IsEnvChar(s[k])
    requires !IsEnvChar(s[e])
    ensures EnvRunEnd(s, i) == e
    decreases e - i
  {
    if i < e {
      EnvRunFrom(s, i + 1, e);
    }
  }

  lemma {:induction false} NoNewlineUnchanged(s: string)
    requires '\n' !in s
    ensures UpToNewline(s) == s
  {
    if s != [] {
      assert s == [s[0]] + s[1..];
      NoNewlineUnchanged(s[1..]);
    }
  }

  /** A path that does not start with "/env/" or ":/env/" is served unchanged, for no environment. */
  lemma NoEnvPrefix(path: string)
    requires !Text.HasPrefix(path, "/env/") && !Text.HasPrefix(path, ":/env/")
    ensures EnvironmentRewrite(path) == Rewrite(path, "")
  {
    assert |path| >= 6 ==> path[..6] == [path[0]] + path[1..][..5];
  }

  /** "/env/N" without a following '/' is not rewritten. */
  lemma {:induction false} EnvWithoutSlash(name: string)
    requires forall k :: 0 <= k < |name| ==> IsEnvChar(name[k])
    ensures EnvironmentRewrite("/env/" + name) == Rewrite("/env/" + name, "")
  {
    var path := "/env/" + name;
    assert path[0] == '/';
    assert path[0..][..5] == "/env/";
    assert forall k :: 5 <= k < |path| ==> IsEnvChar(path[k]) by {
      forall k | 5 <= k < |path| ensures IsEnvChar(path[k]) {
        assert path[k] == name[k - 5];
      }
    }
    EnvRunToEnd(path, 5);
  }

  lemma {:induction false} EnvRunToEnd(s: string, i: nat)
    requires i <= |s|
    requires forall k :: i <= k < |s| ==> IsEnvChar(s[k])
    ensures EnvRunEnd(s, i) == |s|
    decreases |s| - i
  {
    if i < |s| {
      EnvRunToEnd(s, i + 1);
    }
  }
}

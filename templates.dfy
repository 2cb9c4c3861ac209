/**
 * internal/templates/templates.go: the registry of boot-script templates per environment,
 * the static scan of each template file for its variables and its name, and the control
 * logic of rendering.
 *
 * Template parsing and execution (text/template) are foreign. Execution is the parameter
 * `execute(environment, template, params)`, the template set loaded for that environment:
 * it yields what it wrote to the output buffer and, on failure, an error (with whatever
 * was written before the failure).
 */
module Templates {
  import opened Wrappers
  import opened Utils
  import Text

  const DefaultEnvironment := "default"

  /** What text/template writes for a map key that is absent. */
  const NoValue := "<no value>"

  const MissingPrefix := "Missing variables in request: "

  /* ---------------------------------------------------------------------------------
   * Scanning template source. The scanner hands over lines without their '\n', so the
   * regular expressions' `.` (any character but a newline) is any character here.
   * --------------------------------------------------------------------------------- */

  /**
   * The group of each match of `{{\.(.*?)}}` in `line` from position `from`: the leftmost
   * "{{." and the first "}}" after it, then the next match after that "}}".
   */
  function ScanFrom(line: string, from: nat): seq<string>
    decreases |line| - from
  {
    var open := Text.IndexFrom(line, "{{.", from);
    if open < 0 then []
    else
      var close := Text.IndexFrom(line, "}}", open + 3);
      if close < 0 then [] else [line[open + 3..close]] + ScanFrom(line, close + 2)
  }

  /** varRegex.FindAllStringSubmatch(line, -1), group 1 of each match. */
  function ScanVariables(line: string): seq<string>
  {
    ScanFrom(line, 0)
  }

  /** An occurrence inside a slice is an occurrence in the whole string, shifted. */
  lemma AtSlice(s: string, lo: nat, hi: nat, p: string, j: nat)
    requires lo <= hi <= |s|
    ensures Text.At(s[lo..hi], p, j) <==> j + |p| <= hi - lo && Text.At(s, p, lo + j)
  {
    if j + |p| <= hi - lo {
      var a, b := s[lo..hi][j..j + |p|], s[lo + j..lo + j + |p|];
      assert forall m :: 0 <= m < |p| ==> a[m] == b[m];
      assert a == b;
    }
  }

  /** The placeholder text of a variable. */
  function Placeholder(name: string): string
  {
    "{{." + name + "}}"
  }

  /** A name found between "{{." at `open` and the first "}}" after it. */
  lemma {:induction false} MatchShape(line: string, open: nat, close: nat)
    requires Text.At(line, "{{.", open)
    requires close == Text.IndexFrom(line, "}}", open + 3) >= 0
    ensures Scanned(line, line[open + 3..close])
  {
    Text.IndexFromFirst(line, "}}", open + 3);
    var n := line[open + 3..close];
    assert line[open..close + 2] == line[open..open + 3] + n + line[close..close + 2];
    forall j: nat ensures Text.At(n, "}}", j) <==> j + 2 <= |n| && Text.At(line, "}}", open + 3 + j) {
      AtSlice(line, open + 3, close, "}}", j);
    }
    Text.ContainsAt(line, Placeholder(n), open);
  }

  /**
   * Every scanned name stood in the line as "{{." name "}}", and it contains no "}}"
   * (the match is the shortest one).
   */
  lemma {:induction false} ScanFromSound(line: string, from: nat)
    requires from <= |line|
    ensures forall n :: n in ScanFrom(line, from) ==> Scanned(line, n)
    decreases |line| - from
  {
    if ScanFrom(line, from) != [] {
      var open, close := ScanStep(line, from);
      MatchShape(line, open, close);
      ScanFromSound(line, close + 2);
    }
  }

  /** One match of the scan: where the name found first lies, and where the scan goes on. */
  lemma ScanStep(line: string, from: nat) returns (open: nat, close: nat)
    requires ScanFrom(line, from) != []
    ensures Text.At(line, "{{.", open) && close == Text.IndexFrom(line, "}}", open + 3) >= 0
    ensures from <= open && open + 3 <= close && close + 2 <= |line|
    ensures ScanFrom(line, from) == [line[open + 3..close]] + ScanFrom(line, close + 2)
  {
    open := Text.IndexFrom(line, "{{.", from);
    close := Text.IndexFrom(line, "}}", open + 3);
  }

  /** The name's placeholder is in the line and the name holds no "}}". */
  predicate Scanned(line: string, n: string) {
    Text.Contains(line, Placeholder(n)) && !Text.Contains(n, "}}")
  }

  /** RE2's `\s`. */
  predicate IsSpace(c: char) {
    c == ' ' || c == '\t' || c == '\n' || c == '\U{000C}' || c == '\r'
  }

  /** The first position at or after i that does not hold a space. */
  function SkipSpace(s: string, i: nat): (r: nat)
    ensures i <= r && (r < |s| ==> !IsSpace(s[r]))
    decreases |s| - i
  {
    if i < |s| && IsSpace(s[i]) then SkipSpace(s, i + 1) else i
  }

  /**
   * The group of `{{define\s+"(.*?)".*}}` matched at position p: "{{define", one or more
   * spaces, a quote, the shortest name up to a quote that has a "}}" somewhere after it.
   * The first quote after the opening one is the only candidate: a later quote has even
   * less text after it.
   */
  function DefineAt(line: string, p: nat): Option<string>
  {
    if !Text.At(line, "{{define", p) || p + 8 >= |line| || !IsSpace(line[p + 8]) then None
    else
      var q := SkipSpace(line, p + 8);
      if q >= |line| || line[q] != '"' then None
      else
        var e := Text.IndexFrom(line, "\"", q + 1);
        if e < 0 || Text.IndexFrom(line, "}}", e + 1) < 0 then None
        else Some(line[q + 1..e])
  }

  /** The leftmost match of configNameRegex from position p on. */
  function DefineFrom(line: string, p: nat): Option<string>
    decreases |line| - p
  {
    if p >= |line| then None
    else if DefineAt(line, p).Some? then DefineAt(line, p)
    else DefineFrom(line, p + 1)
  }

  /** configNameRegex.FindAllStringSubmatch(line, -1)[0][1], None when nothing matches. */
  function DefineName(line: string): Option<string>
  {
    DefineFrom(line, 0)
  }

  /** A found name is the text between the two quotes of a `{{define "…"` at some position. */
  lemma {:induction false} DefineNameQuoted(line: string, p: nat)
    requires DefineFrom(line, p).Some?
    ensures exists k: nat :: p <= k && Text.At(line, "{{define", k) && DefineAt(line, k) == DefineFrom(line, p)
    ensures '"' !in DefineFrom(line, p).value
    decreases |line| - p
  {
    if DefineAt(line, p).Some? {
      var q := SkipSpace(line, p + 8);
      var e := Text.IndexFrom(line, "\"", q + 1);
      var n := line[q + 1..e];
      Text.IndexFromFirst(line, "\"", q + 1);
      forall j | 0 <= j < |n| ensures n[j] != '"' {
        var k := q + 1 + j;
        assert !Text.At(line, "\"", k);
        assert line[k..k + 1] == [line[k]];
      }
    } else {
      DefineNameQuoted(line, p + 1);
    }
  }

  /* ---------------------------------------------------------------------------------
   * The variable list of a template: every scanned name once, in first-occurrence order.
   * --------------------------------------------------------------------------------- */

  /** The scanned names of all lines, in order. */
  function AllMatches(lines: seq<string>): seq<string>
  {
    if lines == [] then [] else AllMatches(lines[..|lines| - 1]) + ScanVariables(lines[|lines| - 1])
  }

  /** Appends each name of xs to acc unless it is already there (StringInSlice guard). */
  function AddNew(acc: seq<string>, xs: seq<string>): seq<string>
  {
    if xs == [] then acc
    else
      var p := AddNew(acc, xs[..|xs| - 1]);
      if xs[|xs| - 1] in p then p else p + [xs[|xs| - 1]]
  }

  /** The variables parseTemplateInfo collects from a file's lines. */
  function TemplateVars(lines: seq<string>): seq<string>
  {
    AddNew([], AllMatches(lines))
  }

  predicate NoDup(s: seq<string>) {
    forall i, j :: 0 <= i < j < |s| ==> s[i] != s[j]
  }

  lemma {:induction false} AddNewAppend(acc: seq<string>, xs: seq<string>, ys: seq<string>)
    ensures AddNew(acc, xs + ys) == AddNew(AddNew(acc, xs), ys)
  {
    if ys == [] {
      assert xs + ys == xs;
    } else {
      var n := |ys|;
      assert (xs + ys)[..|xs + ys| - 1] == xs + ys[..n - 1];
      assert (xs + ys)[|xs + ys| - 1] == ys[n - 1];
      AddNewAppend(acc, xs, ys[..n - 1]);
    }
  }

  /** AddNew keeps acc, adds each new name once, and adds nothing else. */
  lemma {:induction false} AddNewProps(acc: seq<string>, xs: seq<string>)
    requires NoDup(acc)
    ensures NoDup(AddNew(acc, xs))
    ensures forall x :: x in AddNew(acc, xs) <==> x in acc || x in xs
    ensures |acc| <= |AddNew(acc, xs)| && AddNew(acc, xs)[..|acc|] == acc
  {
    if xs != [] {
      var n := |xs|;
      AddNewProps(acc, xs[..n - 1]);
      assert xs == xs[..n - 1] + [xs[n - 1]];
    }
  }

  /** The position of the first occurrence of x in s. */
  function FirstIndex(s: seq<string>, x: string): (i: nat)
    requires x in s
    ensures i < |s| && s[i] == x && x !in s[..i]
  {
    if s[0] == x then 0 else 1 + FirstIndex(s[1..], x)
  }

  lemma {:induction false} FirstIndexPrefix(s: seq<string>, t: seq<string>, x: string)
    requires x in s
    ensures FirstIndex(s + t, x) == FirstIndex(s, x)
  {
    assert (s + t)[0] == s[0];
    if s[0] != x {
      assert (s + t)[1..] == s[1..] + t;
      FirstIndexPrefix(s[1..], t, x);
    }
  }

  /** The names come out in the order of their first occurrence. */
  lemma {:induction false} AddNewOrder(xs: seq<string>)
    ensures forall i, j :: 0 <= i < j < |AddNew([], xs)| ==>
      AddNew([], xs)[i] in xs && AddNew([], xs)[j] in xs &&
      FirstIndex(xs, AddNew([], xs)[i]) < FirstIndex(xs, AddNew([], xs)[j])
  {
    if xs != [] {
      var n := |xs|;
      var init := xs[..n - 1];
      var x := xs[n - 1];
      var p := AddNew([], init);
      AddNewOrder(init);
      AddNewProps([], init);
      assert xs == init + [x];
      forall y | y in init ensures y in xs && FirstIndex(xs, y) == FirstIndex(init, y) {
        FirstIndexPrefix(init, [x], y);
      }
      var r := AddNew([], xs);
      if x !in p {
        assert x !in init;
        assert xs[..n - 1] == init;
        assert FirstIndex(xs, x) == n - 1;
        assert r == p + [x];
        forall i, j | 0 <= i < j < |r|
          ensures r[i] in xs && r[j] in xs && FirstIndex(xs, r[i]) < FirstIndex(xs, r[j])
        {
          assert r[i] == p[i] && p[i] in init;
          if j < |p| {
            assert r[j] == p[j];
          } else {
            assert r[j] == x;
          }
        }
      } else {
        assert r == p;
        forall i, j | 0 <= i < j < |r|
          ensures r[i] in xs && r[j] in xs && FirstIndex(xs, r[i]) < FirstIndex(xs, r[j])
        {
          assert p[i] in init && p[j] in init;
        }
      }
      assert r == AddNew([], xs);
    } else {
      assert AddNew([], xs) == [];
    }
  }

  /** The template's variables: no duplicates, exactly the scanned names, first occurrence first. */
  lemma TemplateVarsSpec(lines: seq<string>)
    ensures NoDup(TemplateVars(lines))
    ensures forall x :: x in TemplateVars(lines) <==> x in AllMatches(lines)
    ensures forall i, j :: 0 <= i < j < |TemplateVars(lines)| ==>
      FirstIndex(AllMatches(lines), TemplateVars(lines)[i]) < FirstIndex(AllMatches(lines), TemplateVars(lines)[j])
  {
    AddNewProps([], AllMatches(lines));
    AddNewOrder(AllMatches(lines));
  }

  /** What parseTemplateInfo returns: the template's name and variable list. */
  datatype TemplateInfo = TemplateInfo(name: string, variables: seq<string>)

  /**
   * The outcome of parseTemplateInfo on a file's lines: the name comes from the first line;
   * a first line without `{{define "…"…}}` makes the source index an empty match list.
   */
  function TemplateInfoOf(lines: seq<string>): Result<TemplateInfo>
  {
    if lines == [] then Ok(TemplateInfo("", []))
    else if DefineName(lines[0]).None? then Err("index out of range")
    else Ok(TemplateInfo(DefineName(lines[0]).value, TemplateVars(lines)))
  }

  /** parseTemplateInfo over the lines of one template file. */
  method ParseTemplateInfo(lines: seq<string>) returns (r: Result<TemplateInfo>)
    ensures r == TemplateInfoOf(lines)
  {
    var templateVars: seq<string> := [];
    var templateName := "";
    var i := 0;
    while i < |lines|
      invariant 0 <= i <= |lines|
      invariant templateVars == AddNew([], AllMatches(lines[..i]))
      invariant i == 0 ==> templateName == ""
      invariant i > 0 ==> DefineName(lines[0]).Some? && templateName == DefineName(lines[0]).value
    {
      var result := ScanVariables(lines[i]);
      ghost var before := templateVars;
      if |result| > 0 {
        var j := 0;
        while j < |result|
          invariant 0 <= j <= |result|
          invariant templateVars == AddNew(before, result[..j])
        {
          assert result[..j + 1][..j] == result[..j];
          if !StringInSlice(result[j], templateVars) {
            templateVars := templateVars + [result[j]];
          }
          j := j + 1;
        }
        assert result[..j] == result;
      }
      assert lines[..i + 1][..i] == lines[..i];
      AddNewAppend([], AllMatches(lines[..i]), result);
      if i == 0 {
        var nameResult := DefineName(lines[0]);
        if nameResult.None? {
          return Err("index out of range");
        }
        templateName := nameResult.value;
      }
      i := i + 1;
    }
    assert lines[..i] == lines;
    if lines == [] {
      assert templateVars == [];
    } else {
      assert DefineName(lines[0]).Some? && templateName == DefineName(lines[0]).value;
      assert templateVars == TemplateVars(lines);
    }
    return Ok(TemplateInfo(templateName, templateVars));
  }

  /* ---------------------------------------------------------------------------------
   * Environments and rendering.
   * --------------------------------------------------------------------------------- */

  /** The variable lists of the templates loaded for one environment. */
  datatype TemplateEnvironment = TemplateEnvironment(templateVars: map<string, seq<string>>)

  /** The result of executing a template: the text written and an error, if any. */
  datatype Exec = Exec(output: string, err: Option<string>)

  /** The text/template executor: (environment, template name, parameters). */
  type Executor = (string, string, Params) -> Exec

  /** The variables stored for (environment, template), empty when either is unknown. */
  function RequiredVars(envs: map<string, TemplateEnvironment>, env: string, name: string): seq<string>
  {
    if env in envs && name in envs[env].templateVars then envs[env].templateVars[name] else []
  }

  /** The test "is not a key of params". */
  function AbsentFrom(params: Params): string -> bool
  {
    v => !KeyInMap(v, params)
  }

  /**
   * The required variables that the parameter map lacks, in required order: the required
   * list filtered by AbsentFrom(params).
   */
  function Missing(required: seq<string>, params: Params): (r: seq<string>)
    ensures forall v :: v in r <==> v in required && !KeyInMap(v, params)
    ensures r == Filter(required, AbsentFrom(params))
  {
    if required == [] then []
    else
      var n := |required|;
      assert required == required[..n - 1] + [required[n - 1]];
      FilterAppend(required[..n - 1], [required[n - 1]], AbsentFrom(params));
      Missing(required[..n - 1], params) + (if KeyInMap(required[n - 1], params) then [] else [required[n - 1]])
  }

  /**
   * The names joined as the source's loop joins them: ", " goes in front of a name only
   * when the text so far is non-empty.
   */
  function JoinMissing(vs: seq<string>): string
  {
    if vs == [] then ""
    else
      var acc := JoinMissing(vs[..|vs| - 1]);
      (if |acc| > 0 then acc + ", " else acc) + vs[|vs| - 1]
  }

  /** Without empty names, that is strings.Join(vs, ", "). */
  lemma {:induction false} JoinMissingIsJoin(vs: seq<string>)
    requires forall v :: v in vs ==> v != ""
    ensures JoinMissing(vs) == Text.Join(vs, ", ")
  {
    if vs != [] {
      var n := |vs|;
      var init := vs[..n - 1];
      assert vs == init + [vs[n - 1]];
      assert forall v :: v in init ==> v in vs;
      JoinMissingIsJoin(init);
      Text.JoinSnoc(init, vs[n - 1], ", ");
      if init != [] {
        assert init[n - 2] in init;
        JoinNonEmpty(init, ", ");
      }
    }
  }

  /** A join whose last element is non-empty is non-empty. */
  lemma {:induction false} JoinNonEmpty(elems: seq<string>, sep: string)
    requires elems != [] && elems[|elems| - 1] != ""
    ensures |Text.Join(elems, sep)| > 0
  {
    if |elems| > 1 {
      JoinNonEmpty(elems[1..], sep);
    }
  }

  /** The error text for output that still holds "<no value>". */
  function MissingMessage(required: seq<string>, params: Params): string
  {
    MissingPrefix + JoinMissing(Missing(required, params))
  }

  /** The environment actually asked for: "" stands for the default one. */
  function EffectiveEnv(envName: string): string
  {
    if envName == "" then DefaultEnvironment else envName
  }

  /** Execution in one environment; an environment that is not loaded fails. */
  function ExecIn(envs: map<string, TemplateEnvironment>, execute: Executor, env: string,
                  name: string, params: Params): Exec
  {
    if env in envs then execute(env, name, params)
    else Exec("", Some("template: no environment \"" + env + "\""))
  }

  /** Checks the output for "<no value>" against the required variables. */
  function Finish(out: Exec, required: seq<string>, params: Params): Result<string>
  {
    if out.err.Some? then Err(out.err.value)
    else if Text.Contains(out.output, NoValue) then Err(MissingMessage(required, params))
    else Ok(out.output)
  }

  /**
   * RenderTemplate, corrected: "" means default; when execution in a non-default
   * environment fails (or the environment is not loaded) the template is rendered afresh in
   * the default environment, whose variable list then applies.
   */
  function Render(envs: map<string, TemplateEnvironment>, execute: Executor, name: string,
                  params: Params, envName: string): Result<string>
  {
    var env := EffectiveEnv(envName);
    var first := ExecIn(envs, execute, env, name, params);
    if first.err.None? || env == DefaultEnvironment then Finish(first, RequiredVars(envs, env, name), params)
    else Finish(ExecIn(envs, execute, DefaultEnvironment, name, params),
                RequiredVars(envs, DefaultEnvironment, name), params)
  }

  /** What RenderTemplate does as written: a panic, or its (text, error) result. */
  datatype RenderOutcome = Returned(result: Result<string>) | Panicked(reason: string)

  /**
   * RenderTemplate as written: an environment missing from envTemplates yields a nil
   * *template.Template, whose ExecuteTemplate dereferences nil; the fallback execution
   * appends to the same buffer, after the failed attempt's partial output.
   */
  function RenderAsWritten(envs: map<string, TemplateEnvironment>, execute: Executor, name: string,
                           params: Params, envName: string): RenderOutcome
  {
    var env := EffectiveEnv(envName);
    if env !in envs then Panicked("nil pointer dereference")
    else
      var first := execute(env, name, params);
      if first.err.None? || env == DefaultEnvironment then
        Returned(Finish(first, RequiredVars(envs, env, name), params))
      else if DefaultEnvironment !in envs then Panicked("nil pointer dereference")
      else
        var second := execute(DefaultEnvironment, name, params);
        Returned(Finish(Exec(first.output + second.output, second.err),
                        RequiredVars(envs, DefaultEnvironment, name), params))
  }

  /** Finding: an environment name that was never loaded crashes the request. */
  lemma UnknownEnvironmentPanics(execute: Executor)
    ensures RenderAsWritten(map[DefaultEnvironment := TemplateEnvironment(map[])], execute,
                            "coreos.ipxe", map[], "staging").Panicked?
  {
  }

  /** The corrected Render answers such a request from the default environment. */
  lemma UnknownEnvironmentFallsBack(envs: map<string, TemplateEnvironment>, execute: Executor,
                                    name: string, params: Params, envName: string)
    requires envName != "" && envName !in envs
    ensures Render(envs, execute, name, params, envName)
         == Render(envs, execute, name, params, DefaultEnvironment)
  {
  }

  /**
   * Finding: output written by a failed override before it failed stays in front of the
   * default environment's output.
   */
  lemma PartialOutputKept(execute: Executor)
    requires execute("prod", "a", map[]) == Exec("x", Some("exec error"))
    requires execute(DefaultEnvironment, "a", map[]) == Exec("y", None)
    ensures var envs := map[DefaultEnvironment := TemplateEnvironment(map[]), "prod" := TemplateEnvironment(map[])];
            && RenderAsWritten(envs, execute, "a", map[], "prod") == Returned(Ok("xy"))
            && Render(envs, execute, "a", map[], "prod") == Ok("y")
  {
    assert "x" + "y" == "xy";
    assert Text.IndexFrom("xy", NoValue, 0) == -1;
    assert Text.IndexFrom("y", NoValue, 0) == -1;
  }

  /** An empty environment name is the default environment. */
  lemma RenderEmptyIsDefault(envs: map<string, TemplateEnvironment>, execute: Executor,
                             name: string, params: Params)
    ensures Render(envs, execute, name, params, "") == Render(envs, execute, name, params, DefaultEnvironment)
  {
  }

  /**
   * A failed execution in a non-default environment gives exactly the default
   * environment's answer (with the default's variable list).
   */
  lemma RenderFallsBack(envs: map<string, TemplateEnvironment>, execute: Executor,
                        name: string, params: Params, envName: string)
    requires envName != "" && envName != DefaultEnvironment
    requires ExecIn(envs, execute, envName, name, params).err.Some?
    ensures Render(envs, execute, name, params, envName) == Render(envs, execute, name, params, DefaultEnvironment)
  {
  }

  /**
   * For the execution Render keeps (the requested environment's, or the default's after a
   * failed override): its output is the answer exactly when it succeeded without
   * "<no value>"; with "<no value>" the error names the required variables absent from the
   * parameters, in required order, joined with ", " (when no required name is empty).
   */
  lemma RenderMissingVariables(envs: map<string, TemplateEnvironment>, execute: Executor,
                               name: string, params: Params, envName: string)
    ensures var env := EffectiveEnv(envName);
            var first := ExecIn(envs, execute, env, name, params);
            var kept := if first.err.None? || env == DefaultEnvironment then env else DefaultEnvironment;
            var out := ExecIn(envs, execute, kept, name, params);
            var required := RequiredVars(envs, kept, name);
            var r := Render(envs, execute, name, params, envName);
      && (r.Ok? <==> out.err.None? && !Text.Contains(out.output, NoValue))
      && (r.Ok? ==> r.value == out.output)
      && (out.err.None? && Text.Contains(out.output, NoValue) && (forall v :: v in required ==> v != "") ==>
            r == Err(MissingPrefix + Text.Join(Filter(required, AbsentFrom(params)), ", ")))
  {
    var env := EffectiveEnv(envName);
    var first := ExecIn(envs, execute, env, name, params);
    var kept := if first.err.None? || env == DefaultEnvironment then env else DefaultEnvironment;
    var required := RequiredVars(envs, kept, name);
    if forall v :: v in required ==> v != "" {
      JoinMissingIsJoin(Missing(required, params));
    }
  }

  /** The loop of RenderTemplate that lists the required variables absent from the parameters. */
  method MissingVariables(requiredVariables: seq<string>, paramMap: Params) returns (missingVariables: string)
    ensures missingVariables == JoinMissing(Missing(requiredVariables, paramMap))
  {
    missingVariables := "";
    var i := 0;
    while i < |requiredVariables|
      invariant 0 <= i <= |requiredVariables|
      invariant missingVariables == JoinMissing(Missing(requiredVariables[..i], paramMap))
    {
      var v := requiredVariables[i];
      ghost var m := Missing(requiredVariables[..i], paramMap);
      assert requiredVariables[..i + 1][..i] == requiredVariables[..i];
      assert requiredVariables[..i + 1][i] == v;
      if !KeyInMap(v, paramMap) {
        assert Missing(requiredVariables[..i + 1], paramMap) == m + [v];
        assert (m + [v])[..|m|] == m;
        if |missingVariables| > 0 {
          missingVariables := missingVariables + ", ";
        }
        missingVariables := missingVariables + v;
      } else {
        assert Missing(requiredVariables[..i + 1], paramMap) == m;
      }
      i := i + 1;
    }
    assert requiredVariables[..i] == requiredVariables;
  }

  /** The registry of templates (`ShoelacesTemplates`). */
  class ShoelacesTemplates {
    var envTemplates: map<string, TemplateEnvironment>
    var dataDir: string
    var envDir: string
    var tplExt: string

    /** The default environment is always present. */
    ghost predicate Valid()
      reads this
    {
      DefaultEnvironment in envTemplates
    }

    /** New: only the default environment, with no templates. */
    constructor New()
      ensures Valid()
      ensures envTemplates == map[DefaultEnvironment := TemplateEnvironment(map[])]
      ensures dataDir == "" && envDir == "" && tplExt == ""
    {
      envTemplates := map[DefaultEnvironment := TemplateEnvironment(map[])];
      dataDir, envDir, tplExt := "", "", "";
    }

    /** checkAddEnvironment: adds an empty environment only when it is absent. */
    method CheckAddEnvironment(environment: string)
      requires Valid()
      modifies this`envTemplates
      ensures Valid()
      ensures environment in envTemplates
      ensures environment in old(envTemplates) ==> envTemplates == old(envTemplates)
      ensures environment !in old(envTemplates) ==>
        envTemplates == old(envTemplates)[environment := TemplateEnvironment(map[])]
    {
      if environment !in envTemplates {
        envTemplates := envTemplates[environment := TemplateEnvironment(map[])];
      }
    }

    /**
     * addTemplate for a file with the given lines; `parseError` is the outcome of
     * text/template's ParseFiles. On success the template's variables are stored under its
     * name in that environment; the environment is added first in every case.
     */
    method AddTemplate(lines: seq<string>, environment: string, parseError: Option<string>)
      returns (err: Option<string>)
      requires Valid()
      modifies this`envTemplates
      ensures Valid() && environment in envTemplates
      ensures var withEnv := if environment in old(envTemplates) then old(envTemplates)
                             else old(envTemplates)[environment := TemplateEnvironment(map[])];
              var info := TemplateInfoOf(lines);
              if info.Err? then err == Some(info.error) && envTemplates == withEnv
              else if parseError.Some? then err == parseError && envTemplates == withEnv
              else err.None? && envTemplates == withEnv[environment :=
                     TemplateEnvironment(withEnv[environment].templateVars[info.value.name := info.value.variables])]
      ensures err.None? ==> ListVariables(TemplateInfoOf(lines).value.name, environment) == TemplateVars(lines)
    {
      CheckAddEnvironment(environment);
      var i := ParseTemplateInfo(lines);
      if i.Err? {
        return Some(i.error);
      }
      if parseError.Some? {
        return parseError;
      }
      var e := envTemplates[environment];
      envTemplates := envTemplates[environment := TemplateEnvironment(e.templateVars[i.value.name := i.value.variables])];
      return None;
    }

    /**
     * RenderTemplate (corrected, see RenderAsWritten): executes, falls back to the default
     * environment, and turns "<no value>" in the output into the missing-variables error.
     */
    method RenderTemplate(configName: string, paramMap: Params, envName: string, execute: Executor)
      returns (r: Result<string>)
      requires Valid()
      ensures r == Render(envTemplates, execute, configName, paramMap, envName)
    {
      var env := envName;
      if env == "" {
        env := DefaultEnvironment;
      }
      var requiredVariables := RequiredVars(envTemplates, env, configName);
      var b := ExecIn(envTemplates, execute, env, configName, paramMap);
      if b.err.Some? && env != DefaultEnvironment {
        requiredVariables := RequiredVars(envTemplates, DefaultEnvironment, configName);
        b := ExecIn(envTemplates, execute, DefaultEnvironment, configName, paramMap);
      }
      if b.err.Some? {
        return Err(b.err.value);
      }
      var out := b.output;
      if Text.Contains(out, NoValue) {
        var missingVariables := MissingVariables(requiredVariables, paramMap);
        return Err(MissingPrefix + missingVariables);
      }
      return Ok(out);
    }

    /** ListVariables: the list stored for exactly (environment, template), else empty. */
    function ListVariables(templateName: string, envName: string): (r: seq<string>)
      reads this
      ensures r == RequiredVars(envTemplates, envName, templateName)
    {
      if envName in envTemplates && templateName in envTemplates[envName].templateVars
      then envTemplates[envName].templateVars[templateName]
      else []
    }
  }

  /**
   * getEnvFromPath, over the registry's dataDir and envDir: the path component that follows
   * dataDir/envDir, or "default" for a path outside it; None where the source indexes past
   * the end of the split (a remainder without any '/').
   */
  function GetEnvFromPath(dataDir: string, envDir: string, path: string): (r: Option<string>)
    ensures !Text.HasPrefix(path, PathJoin([dataDir, envDir])) ==> r == Some(DefaultEnvironment)
  {
    var envPath := PathJoin([dataDir, envDir]);
    if Text.HasPrefix(path, envPath) then
      var parts := Text.Split(Text.TrimPrefix(path, envPath), '/');
      if |parts| >= 2 then Some(parts[1]) else None
    else Some(DefaultEnvironment)
  }

  /** A file under dataDir/envDir/<e>/… belongs to environment e. */
  lemma GetEnvFromPathComponent(dataDir: string, envDir: string, e: string, rest: string)
    requires '/' !in e
    requires rest == [] || rest[0] == '/'
    ensures GetEnvFromPath(dataDir, envDir, PathJoin([dataDir, envDir]) + "/" + e + rest) == Some(e)
  {
    var envPath := PathJoin([dataDir, envDir]);
    var path := envPath + "/" + e + rest;
    assert path[..|envPath|] == envPath;
    assert Text.TrimPrefix(path, envPath) == "/" + (e + rest);
    Text.SplitFirst([], "/" + (e + rest), '/');
    assert ([] + ("/" + (e + rest)))[1..] == e + rest;
    Text.SplitFirst(e, rest, '/');
  }
}

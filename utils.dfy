/** internal/utils/utils.go: slice and map helpers, MAC spelling and the per-environment base URL. */
module Utils {
  import Text

  /** A value of Go's `map[string]interface{}`: a string or anything else. */
  datatype Value = Str(s: string) | NonString

  /** Template and script parameters (`map[string]interface{}`). */
  type Params = map<string, Value>

  /** The elements of `files` for which fn holds, in their original order. */
  function Filter(files: seq<string>, fn: string -> bool): (r: seq<string>)
    ensures forall x :: x in r <==> x in files && fn(x)
  {
    if files == [] then []
    else (if fn(files[0]) then [files[0]] else []) + Filter(files[1..], fn)
  }

  /** Filtering keeps order: it distributes over concatenation. */
  lemma {:induction false} FilterAppend(a: seq<string>, b: seq<string>, fn: string -> bool)
    ensures Filter(a + b, fn) == Filter(a, fn) + Filter(b, fn)
  {
    if a == [] {
      assert a + b == b;
    } else {
      assert (a + b)[0] == a[0];
      assert (a + b)[1..] == a[1..] + b;
      FilterAppend(a[1..], b, fn);
      calc {
        Filter(a + b, fn);
        (if fn(a[0]) then [a[0]] else []) + Filter(a[1..] + b, fn);
        (if fn(a[0]) then [a[0]] else []) + (Filter(a[1..], fn) + Filter(b, fn));
      }
    }
  }

  /** Each element occurs in the filtered list as often as in the input, or not at all. */
  lemma {:induction false} FilterCount(files: seq<string>, fn: string -> bool, x: string)
    ensures multiset(Filter(files, fn))[x] == if fn(x) then multiset(files)[x] else 0
  {
    if files != [] {
      FilterCount(files[1..], fn, x);
      assert files == [files[0]] + files[1..];
    }
  }

  /** A list whose every element passes the test is left unchanged. */
  lemma {:induction false} FilterKeepsAll(files: seq<string>, fn: string -> bool)
    requires forall x :: x in files ==> fn(x)
    ensures Filter(files, fn) == files
  {
    if files != [] {
      FilterKeepsAll(files[1..], fn);
    }
  }

  /** True iff a is an element of list. */
  function StringInSlice(a: string, list: seq<string>): (r: bool)
    ensures r <==> a in list
  {
    if list == [] then false
    else if list[0] == a then true
    else StringInSlice(a, list[1..])
  }

  /** True iff key is a key of the map. */
  function KeyInMap(key: string, mapInput: Params): (r: bool)
    ensures r <==> exists k :: k in mapInput && k == key
  {
    key in mapInput
  }

  /** Replaces every ':' of a MAC address by '-'. */
  function MacColonToDash(mac: string): string
  {
    Text.ReplaceChar(mac, ':', '-')
  }

  /** Replaces every '-' of a MAC address by ':'. */
  function MacDashToColon(mac: string): string
  {
    Text.ReplaceChar(mac, '-', ':')
  }

  /** The dashed form has the same length and no colon. */
  lemma MacColonToDashShape(mac: string)
    ensures |MacColonToDash(mac)| == |mac|
    ensures ':' !in MacColonToDash(mac)
  {
    Text.ReplaceCharAt(mac, ':', '-');
  }

  /** The colon form has the same length and no dash. */
  lemma MacDashToColonShape(mac: string)
    ensures |MacDashToColon(mac)| == |mac|
    ensures '-' !in MacDashToColon(mac)
  {
    Text.ReplaceCharAt(mac, '-', ':');
  }

  /** Converting a dash-free MAC to dashes and back gives the original MAC. */
  lemma MacRoundTrip(mac: string)
    requires '-' !in mac
    ensures MacDashToColon(MacColonToDash(mac)) == mac
  {
    var d := MacColonToDash(mac);
    Text.ReplaceCharAt(mac, ':', '-');
    Text.ReplaceCharAt(d, '-', ':');
    assert forall i :: 0 <= i < |mac| ==> MacDashToColon(d)[i] == mac[i];
  }

  /** The non-empty elements, the only ones filepath.Join keeps. */
  function NonEmpty(elems: seq<string>): seq<string>
  {
    Filter(elems, e => e != "")
  }

  /**
   * filepath.Join: the non-empty elements separated by "/" (lexical cleaning of the
   * joined path is not modelled).
   */
  function PathJoin(elems: seq<string>): string
  {
    Text.Join(NonEmpty(elems), "/")
  }

  /** An empty environment keeps the base URL; otherwise it is base/env/<environment>. */
  function BaseURLforEnvName(baseURL: string, environment: string): (r: string)
    ensures environment == "" ==> r == baseURL
    ensures environment != "" && baseURL != "" ==> r == baseURL + "/env/" + environment
  {
    if environment != "" then
      var parts := [baseURL, "env", environment];
      assert parts[1..] == ["env", environment] && parts[1..][1..] == [environment];
      assert baseURL != "" ==> PathJoin(parts) == baseURL + "/env/" + environment by {
        if baseURL != "" {
          FilterKeepsAll(parts, e => e != "");
          assert Text.Join(parts[1..], "/") == "env" + "/" + environment;
        }
      }
      PathJoin(parts)
    else baseURL
  }
}

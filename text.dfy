/**
 * The functions of Go's `strings` package (and the byte-wise string order used by
 * `sort.Strings` and `<` on strings) that the server relies on, over `seq<char>`.
 */
module Text {

  /** strings.HasPrefix */
  predicate HasPrefix(s: string, p: string) {
    |p| <= |s| && s[..|p|] == p
  }

  /** strings.HasSuffix */
  predicate HasSuffix(s: string, p: string) {
    |p| <= |s| && s[|s| - |p|..] == p
  }

  /** strings.TrimPrefix: drops p once when s starts with it. */
  function TrimPrefix(s: string, p: string): (r: string)
    ensures HasPrefix(s, p) ==> p + r == s
    ensures !HasPrefix(s, p) ==> r == s
  {
    if HasPrefix(s, p) then s[|p|..] else s
  }

  /** strings.TrimSuffix: drops p once when s ends with it. */
  function TrimSuffix(s: string, p: string): (r: string)
    ensures HasSuffix(s, p) ==> r + p == s
    ensures !HasSuffix(s, p) ==> r == s
  {
    if HasSuffix(s, p) then s[..|s| - |p|] else s
  }

  /** p occurs in s starting at position k. */
  predicate At(s: string, p: string, k: nat) {
    k + |p| <= |s| && s[k..k + |p|] == p
  }

  /**
   * Position of the first occurrence of p in s at or after `from`, or -1 when there is
   * none (strings.Index on s[from:], shifted).
   */
  function IndexFrom(s: string, p: string, from: nat): (r: int)
    ensures r == -1 || (from <= r && At(s, p, r))
    decreases |s| - from
  {
    if from + |p| > |s| then -1
    else if s[from..from + |p|] == p then from
    else IndexFrom(s, p, from + 1)
  }

  /** IndexFrom finds the first occurrence: none lies between `from` and the result. */
  lemma {:induction false} IndexFromFirst(s: string, p: string, from: nat)
    ensures IndexFrom(s, p, from) == -1 ==> forall k: nat :: from <= k ==> !At(s, p, k)
    ensures IndexFrom(s, p, from) >= 0 ==> forall k: nat :: from <= k < IndexFrom(s, p, from) ==> !At(s, p, k)
    decreases |s| - from
  {
    if from + |p| <= |s| && s[from..from + |p|] != p {
      IndexFromFirst(s, p, from + 1);
    }
  }

  /** strings.Contains */
  predicate Contains(s: string, p: string) {
    IndexFrom(s, p, 0) >= 0
  }

  /** Contains holds exactly when p occurs somewhere in s. */
  lemma ContainsAt(s: string, p: string, k: nat)
    requires At(s, p, k)
    ensures Contains(s, p)
  {
    IndexFromFirst(s, p, 0);
  }

  /** The middle part of a concatenation occurs right after the first part. */
  lemma AtConcat(a: string, b: string, c: string)
    ensures At(a + b + c, b, |a|)
  {
    assert (a + b + c)[|a|..|a| + |b|] == b;
  }

  /** An occurrence in s is still one, shifted, once something is put in front of s. */
  lemma AtAppendLeft(a: string, s: string, p: string, k: nat)
    requires At(s, p, k)
    ensures At(a + s, p, |a| + k)
  {
    assert (a + s)[|a| + k..|a| + k + |p|] == s[k..k + |p|];
  }

  lemma PrefixConcat(a: string, b: string)
    ensures HasPrefix(a + b, a)
  {
    assert (a + b)[..|a|] == a;
  }

  /** Concatenation is associative. */
  lemma AppendAssoc(a: string, b: string, c: string)
    ensures (a + b) + c == a + (b + c)
  {
  }

  /** Regrouping five concatenated parts. */
  lemma Regroup(a: string, b: string, c: string, d: string, e: string)
    ensures a + (b + c + d) + e == (a + b) + c + (d + e)
  {
  }

  /** strings.Join */
  function Join(elems: seq<string>, sep: string): string
  {
    if |elems| == 0 then ""
    else if |elems| == 1 then elems[0]
    else elems[0] + sep + Join(elems[1..], sep)
  }

  /** Joining one more element adds the separator and that element at the end. */
  lemma {:induction false} JoinSnoc(elems: seq<string>, x: string, sep: string)
    ensures Join(elems + [x], sep) == if elems == [] then x else Join(elems, sep) + sep + x
  {
    if |elems| >= 2 {
      assert (elems + [x])[1..] == elems[1..] + [x];
      JoinSnoc(elems[1..], x, sep);
    } else if |elems| == 1 {
      assert (elems + [x])[1..] == [x];
    }
  }

  /** strings.Replace(s, from, to, -1) for one-character strings. */
  function ReplaceChar(s: string, from: char, to: char): (r: string)
  {
    if s == [] then [] else [if s[0] == from then to else s[0]] + ReplaceChar(s[1..], from, to)
  }

  /** ReplaceChar changes exactly the occurrences of `from`, position by position. */
  lemma {:induction false} ReplaceCharAt(s: string, from: char, to: char)
    ensures |ReplaceChar(s, from, to)| == |s|
    ensures forall i :: 0 <= i < |s| ==>
      ReplaceChar(s, from, to)[i] == if s[i] == from then to else s[i]
  {
    if s != [] {
      ReplaceCharAt(s[1..], from, to);
    }
  }

  /** strings.Split(s, string(sep)): the pieces between the separators, at least one. */
  function Split(s: string, sep: char): (r: seq<string>)
    ensures |r| >= 1
  {
    if |s| == 0 then [""]
    else
      var rest := Split(s[1..], sep);
      if s[0] == sep then [""] + rest else [[s[0]] + rest[0]] + rest[1..]
  }

  /** A separator-free prefix followed by a separator (or the end) is the first piece. */
  lemma {:induction false} SplitFirst(e: string, rest: string, sep: char)
    requires sep !in e
    requires rest == [] || rest[0] == sep
    ensures Split(e + rest, sep)[0] == e
    ensures rest != [] ==> Split(e + rest, sep)[1..] == Split(rest[1..], sep)
  {
    if e == [] {
      assert e + rest == rest;
    } else {
      assert (e + rest)[1..] == e[1..] + rest;
      SplitFirst(e[1..], rest, sep);
    }
  }

  /** Lexicographic order on strings (Go's `<` on strings and sort.Strings). */
  predicate Less(a: string, b: string)
  {
    if |a| == 0 then |b| > 0
    else if |b| == 0 then false
    else a[0] < b[0] || (a[0] == b[0] && Less(a[1..], b[1..]))
  }

  lemma {:induction false} LessIrreflexive(a: string)
    ensures !Less(a, a)
  {
    if |a| > 0 {
      LessIrreflexive(a[1..]);
    }
  }

  lemma {:induction false} LessTransitive(a: string, b: string, c: string)
    requires Less(a, b) && Less(b, c)
    ensures Less(a, c)
  {
    if |a| > 0 && |b| > 0 && |c| > 0 && a[0] == b[0] == c[0] {
      LessTransitive(a[1..], b[1..], c[1..]);
    }
  }

  /** Any two different strings are ordered one way or the other. */
  lemma {:induction false} LessTotal(a: string, b: string)
    requires a != b
    ensures Less(a, b) || Less(b, a)
  {
    if |a| > 0 && |b| > 0 && a[0] == b[0] {
      assert a == [a[0]] + a[1..] && b == [b[0]] + b[1..];
      LessTotal(a[1..], b[1..]);
    }
  }

  lemma {:induction false} LessAsymmetric(a: string, b: string)
    requires Less(a, b)
    ensures !Less(b, a)
  {
    if |a| > 0 && |b| > 0 && a[0] == b[0] {
      LessAsymmetric(a[1..], b[1..]);
    }
  }
}

/**
 * The small part of JavaScript's value semantics the application's logic
 * leans on: optional values standing for null/undefined, the truthiness of
 * strings, String.prototype.trim and the regex class \s, Array.prototype.join
 * and Array.prototype.filter, and "table[key] || fallback" lookups.
 */
module Js {

  /** A value that may be null or undefined. */
  datatype Option<+T> = None | Some(value: T) {
    function GetOr(default: T): T {
      match this
      case Some(v) => v
      case None => default
    }
  }

  /** A possibly-missing string is truthy when it is present and not empty. */
  predicate Truthy(s: Option<string>) {
    s.Some? && s.value != ""
  }

  /** A possibly-missing string as a template literal renders it. */
  function Text(s: Option<string>): string {
    match s
    case Some(t) => t
    case None => "undefined"
  }

  /** The characters trim() removes and the regex class \s matches. */
  predicate IsWhitespace(c: char) {
    || c == ' ' || c == '\t' || c == '\n' || c == '\U{B}' || c == '\U{C}' || c == '\r'
    || c == '\U{A0}' || c == '\U{1680}' || ('\U{2000}' <= c <= '\U{200A}')
    || c == '\U{2028}' || c == '\U{2029}' || c == '\U{202F}' || c == '\U{205F}'
    || c == '\U{3000}' || c == '\U{FEFF}'
  }

  /** String.prototype.trimStart. */
  function TrimStart(s: string): string {
    if s != [] && IsWhitespace(s[0]) then TrimStart(s[1..]) else s
  }

  /** String.prototype.trimEnd. */
  function TrimEnd(s: string): string {
    if s != [] && IsWhitespace(s[|s| - 1]) then TrimEnd(s[..|s| - 1]) else s
  }

  /** trimStart drops a whitespace prefix, and only that: what is left starts with a visible character. */
  lemma {:induction false} TrimStartDropsWhitespacePrefix(s: string)
    ensures |TrimStart(s)| <= |s| && TrimStart(s) == s[|s| - |TrimStart(s)|..]
    ensures TrimStart(s) == [] || !IsWhitespace(TrimStart(s)[0])
    ensures forall i :: 0 <= i < |s| - |TrimStart(s)| ==> IsWhitespace(s[i])
  {
    if s != [] && IsWhitespace(s[0]) {
      var rest := s[1..];
      TrimStartDropsWhitespacePrefix(rest);
      var t := TrimStart(rest);
      assert TrimStart(s) == t;
      assert s[|s| - |t|..] == rest[|rest| - |t|..];
      forall i | 0 <= i < |s| - |t|
        ensures IsWhitespace(s[i])
      {
        if i > 0 {
          assert s[i] == rest[i - 1];
        }
      }
    }
  }

  /** trimEnd drops a whitespace suffix, and only that: what is left ends with a visible character. */
  lemma {:induction false} TrimEndDropsWhitespaceSuffix(s: string)
    ensures |TrimEnd(s)| <= |s| && TrimEnd(s) == s[..|TrimEnd(s)|]
    ensures TrimEnd(s) == [] || !IsWhitespace(TrimEnd(s)[|TrimEnd(s)| - 1])
    ensures forall i :: |TrimEnd(s)| <= i < |s| ==> IsWhitespace(s[i])
  {
    if s != [] && IsWhitespace(s[|s| - 1]) {
      var rest := s[..|s| - 1];
      TrimEndDropsWhitespaceSuffix(rest);
      var t := TrimEnd(rest);
      assert TrimEnd(s) == t;
      assert s[..|t|] == rest[..|t|];
      forall i | |t| <= i < |s|
        ensures IsWhitespace(s[i])
      {
        if i < |s| - 1 {
          assert s[i] == rest[i];
        }
      }
    }
  }

  /** String.prototype.trim. */
  function Trim(s: string): string {
    TrimEnd(TrimStart(s))
  }

  /** `!s.trim()`: the string is empty once trimmed. */
  predicate IsBlank(s: string) {
    Trim(s) == ""
  }

  /** A trimmed string is no longer than the original and neither starts nor ends with whitespace. */
  lemma TrimmedHasVisibleEnds(s: string)
    ensures var r := Trim(s); r == [] || (!IsWhitespace(r[0]) && !IsWhitespace(r[|r| - 1]))
    ensures |Trim(s)| <= |s|
  {
    TrimStartDropsWhitespacePrefix(s);
    var t := TrimStart(s);
    TrimEndDropsWhitespaceSuffix(t);
    var r := TrimEnd(t);
    if r != [] {
      assert r[0] == t[0];
    }
  }

  /** A string is blank exactly when every one of its characters is whitespace. */
  lemma BlankIffAllWhitespace(s: string)
    ensures IsBlank(s) <==> forall i :: 0 <= i < |s| ==> IsWhitespace(s[i])
  {
    if forall i :: 0 <= i < |s| ==> IsWhitespace(s[i]) {
      AllWhitespaceTrimsAway(s);
    } else {
      var k :| 0 <= k < |s| && !IsWhitespace(s[k]);
      VisibleCharSurvivesTrim(s, k);
    }
  }

  lemma {:induction false} AllWhitespaceTrimsAway(s: string)
    requires forall i :: 0 <= i < |s| ==> IsWhitespace(s[i])
    ensures TrimStart(s) == []
  {
    if s != [] {
      assert IsWhitespace(s[0]);
      AllWhitespaceTrimsAway(s[1..]);
    }
  }

  lemma VisibleCharSurvivesTrim(s: string, k: nat)
    requires k < |s| && !IsWhitespace(s[k])
    ensures Trim(s) != []
  {
    TrimStartDropsWhitespacePrefix(s);
    var t := TrimStart(s);
    TrimEndDropsWhitespaceSuffix(t);
    var d := |s| - |t|;
    assert d <= k;
    assert t[k - d] == s[k];
    var u := TrimEnd(t);
    assert k - d < |u|;
  }

  /** The length JavaScript reports for a string: UTF-16 code units. */
  function Utf16Length(s: string): (n: nat)
    ensures |s| <= n <= 2 * |s|
  {
    if s == [] then 0 else (if s[0] as int > 0xFFFF then 2 else 1) + Utf16Length(s[1..])
  }

  /** Array.prototype.join on an array of strings. */
  function Join(xs: seq<string>, sep: string): string {
    if xs == [] then "" else if |xs| == 1 then xs[0] else xs[0] + sep + Join(xs[1..], sep)
  }

  /** With a non-empty separator, joining gives "" only for [] and [""]. */
  lemma JoinEmptyIff(xs: seq<string>, sep: string)
    requires sep != ""
    ensures Join(xs, sep) == "" <==> xs == [] || xs == [""]
  {
    if |xs| > 1 {
      assert |Join(xs, sep)| >= |sep|;
    }
  }

  /** Every element of an array shows up in its join, whatever the separator: `k` is where. */
  lemma {:induction false} JoinContains(xs: seq<string>, sep: string, i: nat) returns (k: nat)
    requires i < |xs|
    ensures k + |xs[i]| <= |Join(xs, sep)| && Join(xs, sep)[k..k + |xs[i]|] == xs[i]
  {
    var j := Join(xs, sep);
    if i == 0 {
      if |xs| > 1 {
        assert j == xs[0] + (sep + Join(xs[1..], sep));
      }
      k := 0;
      assert j[0..|xs[0]|] == xs[0];
    } else {
      var x := xs[1..][i - 1];
      assert x == xs[i];
      var k' := JoinContains(xs[1..], sep, i - 1);
      var rest := Join(xs[1..], sep);
      var p := xs[0] + sep;
      assert j == p + rest;
      k := |p| + k';
      assert j[k..k + |x|] == rest[k'..k' + |x|];
    }
  }

  /** Array.prototype.filter. */
  function Filter<T>(s: seq<T>, p: T -> bool): (r: seq<T>)
    ensures |r| <= |s|
    ensures forall i :: 0 <= i < |r| ==> r[i] in s && p(r[i])
    ensures forall i :: 0 <= i < |s| && p(s[i]) ==> s[i] in r
  {
    if s == [] then [] else (if p(s[0]) then [s[0]] else []) + Filter(s[1..], p)
  }

  /** Filtering keeps the relative order: it distributes over concatenation. */
  lemma {:induction false} FilterAppend<T>(a: seq<T>, b: seq<T>, p: T -> bool)
    ensures Filter(a + b, p) == Filter(a, p) + Filter(b, p)
  {
    if a != [] {
      assert (a + b)[0] == a[0];
      assert (a + b)[1..] == a[1..] + b;
      FilterAppend(a[1..], b, p);
      calc {
        Filter(a + b, p);
        (if p(a[0]) then [a[0]] else []) + Filter(a[1..] + b, p);
        (if p(a[0]) then [a[0]] else []) + (Filter(a[1..], p) + Filter(b, p));
      }
    } else {
      assert a + b == b;
    }
  }

  /** Filtering the whole sequence keeps it unchanged exactly when every element passes. */
  lemma {:induction false} FilterAllPass<T>(s: seq<T>, p: T -> bool)
    ensures Filter(s, p) == s <==> forall i :: 0 <= i < |s| ==> p(s[i])
  {
    if s != [] {
      FilterAllPass(s[1..], p);
      if !p(s[0]) {
        assert |Filter(s, p)| < |s|;
      }
    }
  }

  /** `table[key] || fallback` for a table whose keys are its own properties. */
  function LookupOr(table: map<string, string>, key: string, fallback: string): (r: string)
    ensures key in table && table[key] != "" ==> r == table[key]
    ensures !(key in table && table[key] != "") ==> r == fallback
  {
    if key in table && table[key] != "" then table[key] else fallback
  }
}

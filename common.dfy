/** String helpers shared by every module: the parts of JavaScript's String
    API that the service relies on (`includes`, `startsWith`, `substring`,
    `toLowerCase`, `trim`, global `replace` of a literal), and decimal text. */
module Common {

  datatype Option<+T> = None | Some(value: T)

  /** `s.startsWith(p)` */
  predicate IsPrefix(p: string, s: string) {
    |p| <= |s| && s[..|p|] == p
  }

  /** `s.endsWith(p)` */
  predicate IsSuffix(p: string, s: string) {
    |p| <= |s| && s[|s| - |p|..] == p
  }

  /** A string of length |p| + |q| that starts with p and ends with q is p + q. */
  lemma PrefixSuffixDetermine(p: string, q: string, s: string)
    requires IsPrefix(p, s) && IsSuffix(q, s) && |s| == |p| + |q|
    ensures s == p + q
  {
    assert s == s[..|p|] + s[|p|..];
  }

  /** A string that ends with a + b also ends with b. */
  lemma SuffixOfSuffix(a: string, b: string, s: string)
    requires IsSuffix(a + b, s)
    ensures IsSuffix(b, s)
  {
    assert s[|s| - |b|..] == (a + b)[|a|..];
  }

  /** In a + (b + c), a + b is a prefix and b + c a suffix. */
  lemma ConcatEnds(a: string, b: string, c: string)
    ensures IsPrefix(a + b, a + (b + c)) && IsSuffix(b + c, a + (b + c))
  {
    var s := a + (b + c);
    assert s[..|a + b|] == a + b;
    assert s[|s| - |b + c|..] == b + c;
  }

  /** `s.includes(t)`: t occurs in s at some position (the empty string occurs everywhere). */
  predicate Contains(s: string, t: string)
    decreases |s|
  {
    IsPrefix(t, s) || (|s| > 0 && Contains(s[1..], t))
  }

  /** An occurrence of t starting at position i of s is an occurrence for `Contains`. */
  lemma {:induction false} ContainsAt(s: string, t: string, i: nat)
    requires i + |t| <= |s| && s[i..i + |t|] == t
    ensures Contains(s, t)
    decreases i
  {
    if i > 0 {
      assert s[1..][i - 1..i - 1 + |t|] == s[i..i + |t|];
      ContainsAt(s[1..], t, i - 1);
    } else {
      assert s[..|t|] == t;
    }
  }

  /** `Contains` holds only through an actual occurrence. */
  lemma {:induction false} ContainsWitness(s: string, t: string) returns (i: nat)
    requires Contains(s, t)
    ensures i + |t| <= |s| && s[i..i + |t|] == t
    decreases |s|
  {
    if IsPrefix(t, s) {
      i := 0;
    } else {
      var j := ContainsWitness(s[1..], t);
      i := j + 1;
      assert s[1..][j..j + |t|] == s[i..i + |t|];
    }
  }

  /** Containment is transitive: a text holding `u`, which holds `t`, holds `t`. */
  lemma ContainsTransitive(s: string, u: string, t: string)
    requires Contains(s, u) && Contains(u, t)
    ensures Contains(s, t)
  {
    var i := ContainsWitness(s, u);
    var j := ContainsWitness(u, t);
    var w := s[i + j..i + j + |t|];
    assert forall k :: 0 <= k < |t| ==> w[k] == s[i..i + |u|][j + k];
    assert forall k :: 0 <= k < |t| ==> w[k] == u[j..j + |t|][k];
    assert w == t;
    ContainsAt(s, t, i + j);
  }

  /** An occurrence in the second part of a concatenation is an occurrence in the whole. */
  lemma ContainsInSuffix(a: string, b: string, t: string)
    requires Contains(b, t)
    ensures Contains(a + b, t)
  {
    var i := ContainsWitness(b, t);
    assert (a + b)[|a| + i..|a| + i + |t|] == b[i..i + |t|];
    ContainsAt(a + b, t, |a| + i);
  }

  /** `s.substring(0, n)` for n >= 0: the first n characters, or all of s. */
  function Take(s: string, n: nat): (r: string)
    ensures |r| == if |s| <= n then |s| else n
    ensures IsPrefix(r, s)
  {
    if |s| <= n then s else s[..n]
  }

  predicate IsUpper(c: char) { 'A' <= c <= 'Z' }
  predicate IsLower(c: char) { 'a' <= c <= 'z' }
  predicate IsLetter(c: char) { IsUpper(c) || IsLower(c) }
  predicate IsDigit(c: char) { '0' <= c <= '9' }

  function LowerChar(c: char): char {
    if IsUpper(c) then (c as int - 'A' as int + 'a' as int) as char else c
  }

  /** `s.toLowerCase()` restricted to the ASCII letters. */
  function ToLower(s: string): (r: string)
    ensures |r| == |s|
    ensures forall i :: 0 <= i < |s| ==> r[i] == LowerChar(s[i])
  {
    seq(|s|, i requires 0 <= i < |s| => LowerChar(s[i]))
  }

  /** A string without upper-case ASCII letters. */
  predicate IsLowerCase(s: string) {
    forall i :: 0 <= i < |s| ==> !IsUpper(s[i])
  }

  lemma ToLowerIsLowerCase(s: string)
    ensures IsLowerCase(ToLower(s))
  {
  }

  lemma ToLowerIdempotent(s: string)
    ensures ToLower(ToLower(s)) == ToLower(s)
  {
    assert forall i :: 0 <= i < |s| ==> LowerChar(LowerChar(s[i])) == LowerChar(s[i]);
  }

  /** Lower-casing a string that holds t yields a string that holds the lower-cased t. */
  lemma ToLowerKeepsContains(s: string, t: string)
    requires Contains(s, t)
    ensures Contains(ToLower(s), ToLower(t))
  {
    var i := ContainsWitness(s, t);
    assert ToLower(s)[i..i + |t|] == ToLower(t);
    ContainsAt(ToLower(s), ToLower(t), i);
  }

  /** The characters that ECMAScript's `String.prototype.trim` removes:
      WhiteSpace (TAB, VT, FF, ZWNBSP and every space separator) and the
      LineTerminators. */
  predicate IsJsWhitespace(c: char) {
    c == '\t' || c == '\n' || c == '\r' || c == ' '
    || c == '\U{000B}' || c == '\U{000C}' || c == '\U{00A0}' || c == '\U{FEFF}'
    || c == '\U{1680}' || ('\U{2000}' <= c <= '\U{200A}') || c == '\U{2028}' || c == '\U{2029}'
    || c == '\U{202F}' || c == '\U{205F}' || c == '\U{3000}'
  }

  function TrimStart(s: string): (r: string)
    ensures IsSuffix(r, s)
    ensures r == [] || !IsJsWhitespace(r[0])
    ensures forall i :: 0 <= i < |s| - |r| ==> IsJsWhitespace(s[i])
  {
    if s != [] && IsJsWhitespace(s[0]) then TrimStart(s[1..]) else s
  }

  function TrimEnd(s: string): (r: string)
    ensures IsPrefix(r, s)
    ensures r == [] || !IsJsWhitespace(r[|r| - 1])
    ensures forall i :: |r| <= i < |s| ==> IsJsWhitespace(s[i])
  {
    if s != [] && IsJsWhitespace(s[|s| - 1]) then TrimEnd(s[..|s| - 1]) else s
  }

  /** `s.trim()` */
  function Trim(s: string): (r: string)
    ensures Contains(s, r)
    ensures r == [] || (!IsJsWhitespace(r[0]) && !IsJsWhitespace(r[|r| - 1]))
  {
    var t := TrimStart(s);
    assert s[|s| - |t|..|s| - |t| + |t|] == t;
    ContainsAt(s, t, |s| - |t|);
    var r := TrimEnd(t);
    assert t[0..|r|] == r;
    assert r == [] || r[0] == t[0];
    ContainsAt(t, r, 0);
    ContainsTransitive(s, t, r);
    r
  }

  /** Trimming leaves a string that neither starts nor ends with white space as it is. */
  lemma TrimKeepsTrimmed(s: string)
    requires s != [] && !IsJsWhitespace(s[0]) && !IsJsWhitespace(s[|s| - 1])
    ensures Trim(s) == s
  {
  }

  /** `s.replace(/<pat>/g, '')` for a pattern that is a non-empty literal:
      occurrences are removed from left to right without overlapping. */
  function RemoveAll(s: string, pat: string): (r: string)
    requires pat != []
    ensures |r| <= |s|
    decreases |s|
  {
    if s == [] then []
    else if IsPrefix(pat, s) then RemoveAll(s[|pat|..], pat)
    else [s[0]] + RemoveAll(s[1..], pat)
  }

  /** Removal keeps the first character when no occurrence starts there. */
  lemma RemoveAllKeepsHead(s: string, pat: string)
    requires pat != [] && s != [] && !IsPrefix(pat, s)
    ensures RemoveAll(s, pat) != [] && RemoveAll(s, pat)[0] == s[0]
  {
  }

  /** Text without an occurrence of t. */
  predicate Free(s: string, t: string) {
    !Contains(s, t)
  }

  /** Decimal text of a natural number, most significant digit first. */
  function NatToString(n: nat): (r: string)
    ensures r != [] && forall i :: 0 <= i < |r| ==> IsDigit(r[i])
  {
    if n < 10 then [(n + '0' as int) as char]
    else NatToString(n / 10) + [(n % 10 + '0' as int) as char]
  }

  /** Decimal text of an integer as JavaScript's `String(n)` writes it for
      integers of moderate size. */
  function IntToString(n: int): string {
    if n < 0 then "-" + NatToString(-n) else NatToString(n)
  }

  /** Value of a non-empty digit string. */
  function DigitsValue(s: string): nat
    requires forall i :: 0 <= i < |s| ==> IsDigit(s[i])
  {
    if s == [] then 0
    else
      assert IsDigit(s[|s| - 1]);
      DigitsValue(s[..|s| - 1]) * 10 + (s[|s| - 1] as int - '0' as int)
  }

  /** Joins the parts with a separator between consecutive parts, as `Array.prototype.join`. */
  function Join(parts: seq<string>, sep: string): (r: string)
    ensures parts == [] ==> r == []
    ensures |parts| == 1 ==> r == parts[0]
    decreases |parts|
  {
    if parts == [] then []
    else if |parts| == 1 then parts[0]
    else parts[0] + sep + Join(parts[1..], sep)
  }

  /** Every part occurs in the joined text. */
  lemma {:induction false} JoinContainsPart(parts: seq<string>, sep: string, i: nat)
    requires i < |parts|
    ensures Contains(Join(parts, sep), parts[i])
    decreases i
  {
    if |parts| == 1 {
      ContainsAt(parts[0], parts[0], 0);
    } else if i == 0 {
      assert Join(parts, sep)[0..|parts[0]|] == parts[0];
      ContainsAt(Join(parts, sep), parts[0], 0);
    } else {
      JoinContainsPart(parts[1..], sep, i - 1);
      ContainsInSuffix(parts[0] + sep, Join(parts[1..], sep), parts[i]);
    }
  }

  /** The joined text starts with the first part. */
  lemma JoinStartsWithFirst(parts: seq<string>, sep: string)
    requires parts != []
    ensures IsPrefix(parts[0], Join(parts, sep))
  {
    if |parts| > 1 {
      assert Join(parts, sep) == parts[0] + (sep + Join(parts[1..], sep));
    }
  }
}

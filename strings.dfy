/**
 * The string operations of Ruby and JavaScript that the core relies on, written out exactly:
 * white-space classes, `blank?`, `include?`, `sub`, `strip`, `trim` and `join`.
 */
module Strings {
  import opened Wrappers
  import Sequences

  /** `\s` in a Ruby or JavaScript regular expression restricted to ASCII. */
  predicate IsRegexpSpace(c: char) {
    c == ' ' || c == '\t' || c == '\n' || c == '\U{0B}' || c == '\U{0C}' || c == '\r'
  }

  /** What Ruby's String#strip removes at either end: NUL and ASCII white space. */
  predicate IsStripSpace(c: char) {
    c == '\0' || IsRegexpSpace(c)
  }

  /** `[[:space:]]` (Unicode White_Space), the class ActiveSupport's `blank?` is built on. */
  predicate IsUnicodeSpace(c: char) {
    IsRegexpSpace(c) || c == '\U{85}' || c == '\U{A0}' || c == '\U{1680}'
    || ('\U{2000}' <= c <= '\U{200A}') || c == '\U{2028}' || c == '\U{2029}'
    || c == '\U{202F}' || c == '\U{205F}' || c == '\U{3000}'
  }

  /** JavaScript's `\s`, which is also the set String.prototype.trim removes. */
  predicate IsJsSpace(c: char) {
    IsRegexpSpace(c) || c == '\U{A0}' || c == '\U{1680}' || ('\U{2000}' <= c <= '\U{200A}')
    || c == '\U{2028}' || c == '\U{2029}' || c == '\U{202F}' || c == '\U{205F}'
    || c == '\U{3000}' || c == '\U{FEFF}'
  }

  predicate AllSpace(s: string, space: char -> bool) {
    forall i :: 0 <= i < |s| ==> space(s[i])
  }

  /** ActiveSupport's `blank?` on a nullable string: nil, empty, or white space only. */
  predicate Blank(s: Option<string>) {
    s.None? || AllSpace(s.value, IsUnicodeSpace)
  }

  /** ActiveSupport's `present?`. */
  predicate Present(s: Option<string>) {
    !Blank(s)
  }

  // ---------------------------------------------------------------------------------------------
  // Occurrences of a literal pattern (String#include?, String#sub with a String pattern)

  predicate OccursAt(s: string, p: string, k: nat) {
    k + |p| <= |s| && s[k..k + |p|] == p
  }

  /** Ruby's `s.include?(p)`. */
  predicate Contains(s: string, p: string) {
    exists k: nat | k <= |s| :: OccursAt(s, p, k)
  }

  /** `p` occurs in `s` at `i` or later, found by trying each position in turn. */
  predicate OccursFrom(s: string, p: string, i: nat)
    decreases |s| - i
  {
    i + |p| <= |s| && (s[i..i + |p|] == p || OccursFrom(s, p, i + 1))
  }

  /** Trying each position finds exactly the occurrences: from 0 it decides `include?`. */
  lemma {:induction false} OccursFromContains(s: string, p: string, i: nat)
    ensures OccursFrom(s, p, i) <==> exists k: nat | i <= k <= |s| :: OccursAt(s, p, k)
    ensures i == 0 ==> (OccursFrom(s, p, i) <==> Contains(s, p))
    decreases |s| - i
  {
    if i + |p| <= |s| {
      OccursFromContains(s, p, i + 1);
      if !OccursAt(s, p, i) && !OccursFrom(s, p, i + 1) {
        forall k: nat | i <= k <= |s|
          ensures !OccursAt(s, p, k)
        {
          if k != i {
            assert i + 1 <= k;
          }
        }
      }
    }
  }

  function FirstOccurrenceFrom(s: string, p: string, i: nat): (r: Option<nat>)
    ensures r.Some? ==> i <= r.value && OccursAt(s, p, r.value)
    ensures r.Some? ==> forall j: nat :: i <= j < r.value ==> !OccursAt(s, p, j)
    ensures r.None? ==> forall j: nat :: i <= j ==> !OccursAt(s, p, j)
    decreases |s| - i
  {
    if i + |p| > |s| then None
    else if s[i..i + |p|] == p then Some(i)
    else FirstOccurrenceFrom(s, p, i + 1)
  }

  /** The index of the leftmost occurrence of `p` in `s`, which is where `sub` matches. */
  function FirstOccurrence(s: string, p: string): (r: Option<nat>)
    ensures r.Some? <==> Contains(s, p)
    ensures r.Some? ==> OccursAt(s, p, r.value) && forall j: nat :: j < r.value ==> !OccursAt(s, p, j)
  {
    FirstOccurrenceFrom(s, p, 0)
  }

  /** The leftmost occurrence of `p` replaced by `rep`, literally; `s` itself when `p` does not occur. */
  function ReplaceFirst(s: string, p: string, rep: string): (r: string)
    ensures !Contains(s, p) ==> r == s
    ensures Contains(s, p) ==> |r| == |s| - |p| + |rep|
    ensures Contains(s, p) ==>
      var k := FirstOccurrence(s, p).value;
      r[..k] == s[..k] && r[k..k + |rep|] == rep && r[k + |rep|..] == s[k + |p|..]
  {
    match FirstOccurrence(s, p)
    case None => s
    case Some(k) =>
      var r := s[..k] + rep + s[k + |p|..];
      assert r[..k] == s[..k] && r[k..k + |rep|] == rep && r[k + |rep|..] == s[k + |p|..];
      r
  }

  // ---------------------------------------------------------------------------------------------
  // Ruby's String#sub with a String pattern and a String replacement

  function Prefix(x: string, r: Result<string, Exception>): Result<string, Exception> {
    match r
    case Success(t) => Success(x + t)
    case Failure(e) => r
  }

  /** The name of a `\k<name>` reference at the start of `rest` ("<name>..."), if the `>` is there. */
  function NamedReference(rest: string): Option<string>
    decreases |rest|
  {
    if rest == [] || rest[0] != '<' then None
    else
      match FirstOccurrence(rest[1..], ">")
      case None => None
      case Some(k) => Some(rest[1..][..k])
  }

  /**
   * How Ruby expands the replacement string of `sub` when the pattern is a String, so the only
   * group is the whole match: `\0` and `\&` give the match, `` \` `` the text before it, `\'` the
   * text after it, `\\` one backslash, `\1`..`\9` and `\+` nothing, `\k<name>` raises; any other
   * backslash pair, and a final lone backslash, stay as they are.
   */
  function Expand(repl: string, pre: string, matched: string, post: string): Result<string, Exception>
    decreases |repl|
  {
    if repl == [] then Success([])
    else if repl[0] != '\\' || |repl| == 1 then Prefix([repl[0]], Expand(repl[1..], pre, matched, post))
    else
      var c := repl[1];
      var rest := repl[2..];
      if c == '0' || c == '&' then Prefix(matched, Expand(rest, pre, matched, post))
      else if c == '`' then Prefix(pre, Expand(rest, pre, matched, post))
      else if c == '\'' then Prefix(post, Expand(rest, pre, matched, post))
      else if c == '\\' then Prefix("\\", Expand(rest, pre, matched, post))
      else if ('1' <= c <= '9') || c == '+' then Expand(rest, pre, matched, post)
      else if c == 'k' && rest != [] && rest[0] == '<' then
        match NamedReference(rest)
        case Some(name) => Failure(Exception("IndexError", "undefined group name reference: " + name))
        case None => Failure(Exception("RuntimeError", "invalid group name reference format"))
      else Prefix([repl[0], c], Expand(rest, pre, matched, post))
  }

  predicate NoBackslash(s: string) {
    forall i :: 0 <= i < |s| ==> s[i] != '\\'
  }

  /**
   * Ruby's `s.sub(p, repl)` for String arguments: `s` itself when `p` does not occur; otherwise the
   * leftmost match is replaced by the expansion of `repl` around it, the text before and after the
   * match kept, and what the expansion raises is raised.
   */
  function RubySub(s: string, p: string, repl: string): (r: Result<string, Exception>)
    ensures !Contains(s, p) ==> r == Success(s)
    ensures Contains(s, p) ==>
      var k := FirstOccurrence(s, p).value;
      var x := Expand(repl, s[..k], p, s[k + |p|..]);
      OccursAt(s, p, k) && (r.Success? <==> x.Success?)
      && (r.Success? ==> r.value == s[..k] + x.value + s[k + |p|..])
      && (r.Failure? ==> r.error == x.error)
  {
    match FirstOccurrence(s, p)
    case None => Success(s)
    case Some(k) =>
      match Expand(repl, s[..k], p, s[k + |p|..])
      case Success(x) => Success(s[..k] + x + s[k + |p|..])
      case Failure(e) => Failure(e)
  }

  /** A replacement without a backslash expands to itself. */
  lemma {:induction false} ExpandLiteral(repl: string, pre: string, matched: string, post: string)
    requires NoBackslash(repl)
    ensures Expand(repl, pre, matched, post) == Success(repl)
    decreases |repl|
  {
    if repl != [] {
      assert NoBackslash(repl[1..]) by {
        forall i | 0 <= i < |repl[1..]| ensures repl[1..][i] != '\\' { assert repl[1..][i] == repl[i + 1]; }
      }
      ExpandLiteral(repl[1..], pre, matched, post);
      assert [repl[0]] + repl[1..] == repl;
    }
  }

  /** So `sub` with a backslash-free replacement is the literal first-occurrence replacement. */
  lemma RubySubLiteral(s: string, p: string, repl: string)
    requires NoBackslash(repl)
    ensures RubySub(s, p, repl) == Success(ReplaceFirst(s, p, repl))
  {
    match FirstOccurrence(s, p)
    case None =>
    case Some(k) => ExpandLiteral(repl, s[..k], p, s[k + |p|..]);
  }

  /** `\'` in the replacement inserts the text after the match: "ab".sub("a", "x\\'") is "xbb". */
  lemma RubySubExpandsPostMatch()
    ensures RubySub("ab", "a", "x\\'") == Success("xbb")
  {
    assert FirstOccurrence("ab", "a") == Some(0) by { assert OccursAt("ab", "a", 0); }
    assert "ab"[..0] == "" && "ab"[1..] == "b";
    var repl := "x\\'";
    var t := repl[1..];
    assert t[0] == '\\' && |t| == 2 && t[1] == '\'' && t[2..] == [];
    var e: string := [];
    assert "b" + e == "b";
    assert Prefix("b", Success(e)) == Success("b");
    assert Expand(t, "", "a", "b") == Prefix("b", Expand(t[2..], "", "a", "b"));
    assert Expand(t, "", "a", "b") == Success("b");
    assert repl[0] == 'x' && [repl[0]] + "b" == "xb";
    assert Expand(repl, "", "a", "b") == Prefix([repl[0]], Expand(t, "", "a", "b"));
    assert Expand(repl, "", "a", "b") == Success("xb");
    assert "" + "xb" + "b" == "xbb";
  }

  // ---------------------------------------------------------------------------------------------
  // Trimming

  /** The first index at or after `i` whose character is not of class `space`, or `|s|`. */
  function SkipForward(s: string, space: char -> bool, i: nat): (j: nat)
    requires i <= |s|
    ensures i <= j <= |s| && (j < |s| ==> !space(s[j]))
    ensures forall k :: i <= k < j ==> space(s[k])
    decreases |s| - i
  {
    if i < |s| && space(s[i]) then SkipForward(s, space, i + 1) else i
  }

  /** The last index at or before `j` whose preceding character is not of class `space`, or 0. */
  function SkipBackward(s: string, space: char -> bool, j: nat): (i: nat)
    requires j <= |s|
    ensures i <= j && (0 < i ==> !space(s[i - 1]))
    ensures forall k :: i <= k < j ==> space(s[k])
    decreases j
  {
    if 0 < j && space(s[j - 1]) then SkipBackward(s, space, j - 1) else j
  }

  /** `s` without its leading characters of class `space`. */
  function TrimStart(s: string, space: char -> bool): (r: string)
    ensures |r| <= |s| && r == s[|s| - |r|..]
    ensures AllSpace(s[..|s| - |r|], space)
    ensures r == [] || !space(r[0])
  {
    var i := SkipForward(s, space, 0);
    assert forall k :: 0 <= k < i ==> s[..i][k] == s[k];
    s[i..]
  }

  /** `s` without its trailing characters of class `space`. */
  function TrimEnd(s: string, space: char -> bool): (r: string)
    ensures |r| <= |s| && r == s[..|r|]
    ensures AllSpace(s[|r|..], space)
    ensures r == [] || !space(r[|r| - 1])
  {
    var j := SkipBackward(s, space, |s|);
    assert forall k :: 0 <= k < |s| - j ==> s[j..][k] == s[j + k];
    s[..j]
  }

  /** Both ends trimmed: a result neither starting nor ending with white space. */
  function Trim(s: string, space: char -> bool): (r: string)
    ensures r == [] || (!space(r[0]) && !space(r[|r| - 1]))
  {
    TrimEnd(TrimStart(s, space), space)
  }

  /** What Trim removed is white space at both ends of `s`: `s` is `s[..i] + Trim(s) + s[j..]`. */
  lemma TrimSlice(s: string, space: char -> bool) returns (i: nat, j: nat)
    ensures i <= j <= |s| && Trim(s, space) == s[i..j]
    ensures AllSpace(s[..i], space) && AllSpace(s[j..], space)
  {
    var a := TrimStart(s, space);
    i := |s| - |a|;
    var r := TrimEnd(a, space);
    j := i + |r|;
    Sequences.SliceOfSuffix(s, i, |r|);
    assert r == s[i..j];
    assert AllSpace(a[|r|..], space) && a[|r|..] == s[j..];
  }

  /** Ruby's String#strip. */
  function Strip(s: string): string {
    Trim(s, IsStripSpace)
  }

  /** JavaScript's String.prototype.trim. */
  function JsTrim(s: string): string {
    Trim(s, IsJsSpace)
  }

  // ---------------------------------------------------------------------------------------------

  /** Ruby's Array#join. */
  function Join(parts: seq<string>, sep: string): (r: string)
    ensures parts == [] ==> r == ""
    ensures |parts| == 1 ==> r == parts[0]
    decreases |parts|
  {
    if |parts| == 0 then ""
    else if |parts| == 1 then parts[0]
    else Join(parts[..|parts| - 1], sep) + sep + parts[|parts| - 1]
  }

  predicate IsDigit(c: char) {
    '0' <= c <= '9'
  }

  function DigitValue(c: char): nat
    requires IsDigit(c)
  {
    (c as int - '0' as int) as nat
  }

  /** An integer as Ruby interpolates it: decimal digits, with a minus sign when negative. */
  function IntToString(n: int): string {
    if n < 0 then "-" + NatToString(-n) else NatToString(n)
  }

  function NatToString(n: nat): string
    decreases n
  {
    if n < 10 then [DigitChar(n)] else NatToString(n / 10) + [DigitChar(n % 10)]
  }

  function DigitChar(d: nat): char
    requires d < 10
  {
    (d + '0' as int) as char
  }
}

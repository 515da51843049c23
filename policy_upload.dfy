/**
 * The upload form's `extractPolicyName(filename)`: the name proposed for an uploaded policy file,
 * its document extension removed, separators turned into spaces, white space collapsed and trimmed.
 */
module PolicyUpload {
  import opened Strings

  /** An ASCII capital letter in lower case; every other character unchanged. */
  function Lower(c: char): char {
    if 'A' <= c <= 'Z' then (c as int + 32) as char else c
  }

  /** `s` with its ASCII capital letters in lower case. */
  function Lowered(s: string): (r: string)
    ensures |r| == |s|
    ensures forall i {:trigger r[i]} :: 0 <= i < |s| ==> r[i] == Lower(s[i])
  {
    seq(|s|, i requires 0 <= i < |s| => Lower(s[i]))
  }

  /** `s` ends with the lower-case `suffix`, ignoring the case of ASCII letters. */
  predicate EndsWithIgnoringCase(s: string, suffix: string) {
    |suffix| <= |s| && Lowered(s[|s| - |suffix|..]) == suffix
  }

  /** The document extensions the upload form recognises, in the order the pattern lists them. */
  const Extensions: seq<string> := [".pdf", ".doc", ".docx"]

  /** `.replace(/\.(pdf|doc|docx)$/i, "")`: a recognised extension at the very end is removed, once. */
  function StripExtension(s: string): string {
    if EndsWithIgnoringCase(s, ".pdf") || EndsWithIgnoringCase(s, ".doc") then s[..|s| - 4]
    else if EndsWithIgnoringCase(s, ".docx") then s[..|s| - 5]
    else s
  }

  /** `.replace(/[-_]/g, " ")`. */
  function SpaceSeparators(s: string): (r: string)
    ensures |r| == |s|
    ensures forall i :: 0 <= i < |s| ==> r[i] == (if s[i] == '-' || s[i] == '_' then ' ' else s[i])
  {
    seq(|s|, i requires 0 <= i < |s| => if s[i] == '-' || s[i] == '_' then ' ' else s[i])
  }

  /** `.replace(/\s+/g, " ")`: each maximal run of white space becomes one space. */
  function CollapseSpaces(s: string): string {
    CollapseFrom(s, 0)
  }

  /** The collapsed form of `s[i..]`. */
  function CollapseFrom(s: string, i: nat): string
    requires i <= |s|
    decreases |s| - i
  {
    if i == |s| then []
    else if IsJsSpace(s[i]) then [' '] + CollapseFrom(s, SkipForward(s, IsJsSpace, i + 1))
    else [s[i]] + CollapseFrom(s, i + 1)
  }

  /** extractPolicyName(filename). */
  function ExtractPolicyName(filename: string): (r: string)
    ensures r == [] || (!IsJsSpace(r[0]) && !IsJsSpace(r[|r| - 1]))
  {
    JsTrim(CollapseSpaces(SpaceSeparators(StripExtension(filename))))
  }

  // =============================================================================================
  // Properties

  /** No two neighbours are white space, and the only white space is the plain space. */
  predicate SingleSpaced(s: string) {
    (forall i :: 0 <= i < |s| && IsJsSpace(s[i]) ==> s[i] == ' ')
    && forall i :: 0 <= i < |s| - 1 ==> !(IsJsSpace(s[i]) && IsJsSpace(s[i + 1]))
  }

  /**
   * Collapsing leaves single plain spaces and adds nothing but spaces: each character of the
   * result is a space or a character of the input, and the result starts with white space only
   * where the input does.
   */
  lemma {:induction false} CollapseFromMeaning(s: string, i: nat)
    requires i <= |s|
    ensures var r := CollapseFrom(s, i);
      SingleSpaced(r) && (r == [] || !IsJsSpace(r[0]) || IsJsSpace(s[i]))
      && forall x :: x in r ==> x == ' ' || (x in s && !IsJsSpace(x))
    decreases |s| - i
  {
    if i < |s| {
      var j := if IsJsSpace(s[i]) then SkipForward(s, IsJsSpace, i + 1) else i + 1;
      CollapseFromMeaning(s, j);
      var rest := CollapseFrom(s, j);
      assert CollapseFrom(s, i) == (if IsJsSpace(s[i]) then [' '] else [s[i]]) + rest;
      assert IsJsSpace(s[i]) ==> rest == [] || !IsJsSpace(rest[0]);
    }
  }

  /**
   * Collapsing keeps every character that is not white space, in order: the result and the input
   * have the same visible characters.
   */
  lemma {:induction false} CollapseFromKeeps(s: string, i: nat)
    requires i <= |s|
    ensures Visible(CollapseFrom(s, i)) == Visible(s[i..])
    decreases |s| - i
  {
    if i < |s| {
      var j := if IsJsSpace(s[i]) then SkipForward(s, IsJsSpace, i + 1) else i + 1;
      CollapseFromKeeps(s, j);
      var rest := CollapseFrom(s, j);
      var head := if IsJsSpace(s[i]) then [' '] else [s[i]];
      assert CollapseFrom(s, i) == head + rest;
      VisibleAppend(head, rest);
      VisibleRun(s, i, j);
    }
  }

  /** The run collapsed at `i` and the character or space it becomes show the same visible text. */
  lemma VisibleRun(s: string, i: nat, j: nat)
    requires i < |s| && j == (if IsJsSpace(s[i]) then SkipForward(s, IsJsSpace, i + 1) else i + 1)
    ensures Visible(s[i..]) == Visible(if IsJsSpace(s[i]) then [' '] else [s[i]]) + Visible(s[j..])
  {
    VisibleSplit(s, i, j);
    VisibleSingle(s[i]);
    VisibleSingle(' ');
    if IsJsSpace(s[i]) {
      SpaceRun(s, i, j);
      VisibleOfSpace(s[i..j]);
    } else {
      assert s[i..j] == [s[i]];
    }
  }

  lemma VisibleSingle(c: char)
    ensures Visible([c]) == if IsJsSpace(c) then [] else [c]
  {
    assert [c][..0] == [];
  }

  /** A run of white space skipped from `i` is white space throughout. */
  lemma SpaceRun(s: string, i: nat, j: nat)
    requires i < |s| && IsJsSpace(s[i]) && j == SkipForward(s, IsJsSpace, i + 1)
    ensures AllSpace(s[i..j], IsJsSpace)
  {
    forall k | 0 <= k < j - i ensures IsJsSpace(s[i..j][k]) {
      assert s[i..j][k] == s[i + k];
    }
  }

  lemma VisibleSplit(s: string, i: nat, j: nat)
    requires i <= j <= |s|
    ensures Visible(s[i..]) == Visible(s[i..j]) + Visible(s[j..])
  {
    assert s[i..] == s[i..j] + s[j..];
    VisibleAppend(s[i..j], s[j..]);
  }

  /** The characters of `s` other than white space, in order. */
  function Visible(s: string): string {
    if s == [] then [] else Visible(s[..|s| - 1]) + (if IsJsSpace(s[|s| - 1]) then [] else [s[|s| - 1]])
  }

  lemma {:induction false} VisibleAppend(a: string, b: string)
    ensures Visible(a + b) == Visible(a) + Visible(b)
    decreases |b|
  {
    if b != [] {
      var c := b[|b| - 1];
      var tail := if IsJsSpace(c) then [] else [c];
      assert (a + b)[..|a + b| - 1] == a + b[..|b| - 1] && (a + b)[|a + b| - 1] == c;
      VisibleAppend(a, b[..|b| - 1]);
      assert Visible(a + b) == (Visible(a) + Visible(b[..|b| - 1])) + tail;
      assert Visible(b) == Visible(b[..|b| - 1]) + tail;
      assert (Visible(a) + Visible(b[..|b| - 1])) + tail == Visible(a) + (Visible(b[..|b| - 1]) + tail);
    } else {
      assert a + b == a;
    }
  }

  lemma {:induction false} VisibleOfSpace(s: string)
    requires AllSpace(s, IsJsSpace)
    ensures Visible(s) == []
    decreases |s|
  {
    if s != [] {
      assert AllSpace(s[..|s| - 1], IsJsSpace);
      VisibleOfSpace(s[..|s| - 1]);
    }
  }

  /** A slice of a single-spaced string is single-spaced. */
  lemma SingleSpacedSlice(s: string, i: nat, j: nat)
    requires SingleSpaced(s) && i <= j <= |s|
    ensures SingleSpaced(s[i..j])
  {
    var t := s[i..j];
    assert forall k :: 0 <= k < |t| ==> t[k] == s[i + k];
  }

  /**
   * The name has no `-` or `_`, no two white-space characters in a row and no white space other
   * than plain spaces, and it does not start or end with white space.
   */
  lemma NameIsClean(filename: string)
    ensures var r := ExtractPolicyName(filename);
      (forall i :: 0 <= i < |r| ==> r[i] != '-' && r[i] != '_')
      && SingleSpaced(r)
      && (r == [] || (!IsJsSpace(r[0]) && !IsJsSpace(r[|r| - 1])))
  {
    var a := SpaceSeparators(StripExtension(filename));
    NoSeparatorsLeft(StripExtension(filename));
    var c := CollapseSpaces(a);
    CollapseFromMeaning(a, 0);
    var i, j := TrimSlice(c, IsJsSpace);
    SingleSpacedSlice(c, i, j);
    var r := ExtractPolicyName(filename);
    assert r == c[i..j];
    assert '-' !in r && '_' !in r by {
      assert '-' in r ==> '-' in c;
      assert '_' in r ==> '_' in c;
    }
  }

  /**
   * The name keeps every visible character of the file name once its extension is stripped and
   * its separators are spaces, in order: only white space is dropped or merged.
   */
  lemma NameKeepsVisible(filename: string)
    ensures Visible(ExtractPolicyName(filename)) == Visible(SpaceSeparators(StripExtension(filename)))
  {
    var a := SpaceSeparators(StripExtension(filename));
    CollapseFromKeeps(a, 0);
    assert a[0..] == a;
    TrimKeepsVisible(CollapseSpaces(a));
  }

  /** Trimming drops white space only. */
  lemma TrimKeepsVisible(c: string)
    ensures Visible(JsTrim(c)) == Visible(c)
  {
    var i, j := TrimSlice(c, IsJsSpace);
    assert c == (c[..i] + c[i..j]) + c[j..];
    VisibleAround(c[..i], c[i..j], c[j..]);
  }

  /** White space around a text adds nothing visible. */
  lemma VisibleAround(front: string, s: string, back: string)
    requires AllSpace(front, IsJsSpace) && AllSpace(back, IsJsSpace)
    ensures Visible((front + s) + back) == Visible(s)
  {
    VisibleOfSpace(front);
    VisibleOfSpace(back);
    VisibleAppend(front + s, back);
    VisibleAppend(front, s);
    assert Visible(s) + [] == Visible(s) && [] + Visible(s) == Visible(s);
  }

  /** After the separators are replaced, none is left. */
  lemma NoSeparatorsLeft(s: string)
    ensures '-' !in SpaceSeparators(s) && '_' !in SpaceSeparators(s)
  {
  }

  /** One recognised extension, in any case, is removed, even when the stem itself ends with one. */
  lemma ExtensionRemoved(stem: string, ext: string, e: nat)
    requires e < |Extensions| && Lowered(ext) == Extensions[e]
    ensures StripExtension(stem + ext) == stem
  {
    var s := stem + ext;
    assert s[|s| - |ext|..] == ext;
    assert s[..|stem|] == stem;
    if e == 2 {
      DocxIsNotDoc(s);
    }
  }

  /** A name ending in `.docx` does not end in `.pdf` or `.doc`. */
  lemma DocxIsNotDoc(s: string)
    requires EndsWithIgnoringCase(s, ".docx")
    ensures !EndsWithIgnoringCase(s, ".pdf") && !EndsWithIgnoringCase(s, ".doc")
  {
    assert Lowered(s[|s| - 4..])[0] == Lowered(s[|s| - 5..])[1];
  }

  /** Any other ending is kept: the name still carries it. */
  lemma OtherExtensionKept(filename: string)
    requires forall e :: 0 <= e < |Extensions| ==> !EndsWithIgnoringCase(filename, Extensions[e])
    ensures StripExtension(filename) == filename
  {
    assert !EndsWithIgnoringCase(filename, Extensions[0]);
    assert !EndsWithIgnoringCase(filename, Extensions[1]);
    assert !EndsWithIgnoringCase(filename, Extensions[2]);
  }

  /** The extension goes before separators become spaces, so a separator before it disappears. */
  lemma SeparatorBeforeExtension()
    ensures ExtractPolicyName("a-.pdf") == "a"
  {
    ExtensionRemoved("a-", ".pdf", 0);
    assert SpaceSeparators("a-") == "a ";
    assert CollapseSpaces("a ") == "a ";
    assert JsTrim("a ") == "a";
  }
}

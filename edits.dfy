/**
 * The three text edits a suggested change performs on a policy's content
 * (SuggestedChange#apply_replace, #apply_insert and #apply_delete), as pure functions.
 */
module Edits {
  import opened Wrappers
  import opened Strings

  const StaleMessage: string := "Original text not found in policy - it may have been edited"

  /** What apply_replace and apply_delete raise when the original text is no longer there. */
  const Stale: Exception := Exception("StandardError", StaleMessage)

  /**
   * The guard `content.include?(original)` of apply_replace and apply_delete: nothing when the text
   * is there, and otherwise the exception Ruby raises (a nil content, a nil original text, or the
   * stale-suggestion error).
   */
  function IncludeGuard(content: Option<string>, original: Option<string>): (r: Option<Exception>)
    ensures r.None? <==> content.Some? && original.Some? && Contains(content.value, original.value)
    ensures content.Some? && original.Some? && !Contains(content.value, original.value) ==> r == Some(Stale)
  {
    if content.None? then Some(Exception("NoMethodError", "undefined method 'include?' for nil"))
    else if original.None? then Some(Exception("TypeError", "no implicit conversion of nil into String"))
    else if !Contains(content.value, original.value) then Some(Stale)
    else None
  }

  /**
   * apply_replace: `content.sub(original_text, suggested_text)` behind the guard. Past the guard the
   * text before and after the leftmost occurrence is kept and the suggestion's expansion goes in
   * its place; only the expansion can raise.
   */
  function ApplyReplace(content: Option<string>, original: Option<string>, suggested: string): (r: Result<string, Exception>)
    ensures IncludeGuard(content, original).Some? ==> r == Failure(IncludeGuard(content, original).value)
    ensures r.Success? ==> content.Some? && original.Some? && Contains(content.value, original.value)
    ensures IncludeGuard(content, original).None? ==>
      var c, o := content.value, original.value;
      var k := FirstOccurrence(c, o).value;
      var x := Expand(suggested, c[..k], o, c[k + |o|..]);
      r == RubySub(c, o, suggested) && (r.Success? <==> x.Success?)
      && (r.Success? ==> r.value == c[..k] + x.value + c[k + |o|..])
  {
    match IncludeGuard(content, original)
    case Some(e) => Failure(e)
    case None => RubySub(content.value, original.value, suggested)
  }

  /** apply_insert: `"#{content}\n\n#{suggested_text}"`, where a nil content interpolates as "". */
  function ApplyInsert(content: Option<string>, suggested: string): (r: string)
    ensures |r| == |content.GetOr("")| + 2 + |suggested|
    ensures r[..|content.GetOr("")|] == content.GetOr("")
    ensures r[|content.GetOr("")|..|content.GetOr("")| + 2] == "\n\n"
    ensures r[|r| - |suggested|..] == suggested
  {
    content.GetOr("") + "\n\n" + suggested
  }

  /** apply_delete: `content.sub(original_text, "")` behind the guard; the first occurrence goes. */
  function ApplyDelete(content: Option<string>, original: Option<string>): (r: Result<string, Exception>)
    ensures IncludeGuard(content, original).Some? ==> r == Failure(IncludeGuard(content, original).value)
    ensures IncludeGuard(content, original).None? ==>
      r == Success(ReplaceFirst(content.value, original.value, ""))
      && |r.value| == |content.value| - |original.value|
  {
    match IncludeGuard(content, original)
    case Some(e) => Failure(e)
    case None =>
      RubySubLiteral(content.value, original.value, "");
      RubySub(content.value, original.value, "")
  }

  /**
   * A successful replace with a suggestion free of backslashes changes exactly the leftmost
   * occurrence of the original text, and the length moves by the difference of the two texts.
   */
  lemma ReplaceChangesFirstOccurrenceOnly(content: string, original: string, suggested: string)
    requires Contains(content, original) && NoBackslash(suggested)
    ensures var k := FirstOccurrence(content, original).value;
      var r := ApplyReplace(Some(content), Some(original), suggested);
      r.Success?
      && |r.value| == |content| - |original| + |suggested|
      && OccursAt(content, original, k)
      && r.value[..k] == content[..k]
      && r.value[k..k + |suggested|] == suggested
      && r.value[k + |suggested|..] == content[k + |original|..]
  {
    RubySubLiteral(content, original, suggested);
  }

  /** Ruby's `sub` reads backslash sequences in the suggestion: `\'` becomes the text after the match. */
  lemma ReplaceExpandsBackslashSequences()
    ensures ApplyReplace(Some("ab"), Some("a"), "x\\'") == Success("xbb")
  {
    assert OccursAt("ab", "a", 0);
    RubySubExpandsPostMatch();
  }
}

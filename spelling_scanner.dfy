/**
 * SpellingScanner#scan: one `spelling` issue per entry of the reply's `issues`, whose suggestions
 * carry only the two texts.
 */
module SpellingScanner {
  import opened Wrappers
  import opened Strings
  import opened Models
  import opened ReasoningService
  import opened BaseScanner

  /** `{original_text: s["original_text"], suggested_text: s["suggested_text"]}`: no action type. */
  function SuggestionOf(s: SuggestionEntry): SuggestionInput {
    SuggestionInput(s.originalText, s.suggestedText, CastActionType(None))
  }

  /** The arguments create_issue receives for one entry, or what building them raised. */
  function ToInput(x: IssueEntry): Result<IssueInput, Exception> {
    match x.suggestions
    case None => Failure(NilSuggestions)
    case Some(ss) =>
      Success(IssueInput(IssueType.Spelling, x.description, x.excerpt,
                         seq(|ss|, j requires 0 <= j < |ss| => SuggestionOf(ss[j])), []))
  }

  /**
   * Each entry becomes a spelling issue with no related policies and one suggestion per listed
   * suggestion, holding its two texts, every one of them a replace_text; an entry without
   * suggestions raises.
   */
  lemma EntryMapping(x: IssueEntry)
    ensures x.suggestions.None? <==> ToInput(x) == Failure(NilSuggestions)
    ensures x.suggestions.Some? ==>
      var input := ToInput(x).value;
      input.issueType == IssueType.Spelling && input.related == []
      && input.description == x.description && input.excerpt == x.excerpt
      && |input.suggestions| == |x.suggestions.value|
      && forall j :: 0 <= j < |input.suggestions| ==>
           input.suggestions[j].originalText == x.suggestions.value[j].originalText
           && input.suggestions[j].suggestedText == x.suggestions.value[j].suggestedText
           && input.suggestions[j].action == Success(Some(ActionType.ReplaceText))
  {
  }

  /**
   * scan: no request for blank content; otherwise the reply is parsed and each entry goes to
   * create_issue in turn. What is raised is logged and raised again, so the outcome is unchanged.
   */
  method Scan(policy: PolicyDocument, reply: Completion, parse: string -> JsonParse<ScanJson>)
    returns (requested: bool, outcome: Outcome, created: seq<Issue>)
    modifies policy`issues
    ensures requested <==> Present(old(policy.content))
    ensures outcome == ScanOutcome(old(policy.content), reply, parse, ToInput)
    ensures policy.issues == old(policy.issues) + created
    ensures CreatedFrom(created, policy, MapEntries(ScanEntries(old(policy.content), reply, parse), ToInput))
    ensures forall i :: i in created ==> fresh(i)
  {
    requested, outcome, created := RunScan(policy, reply, parse, ToInput);
  }

  /**
   * A scan that raised nothing left exactly one spelling issue per entry, each holding one pending
   * replace_text change per suggestion of its entry, with the entry's texts.
   */
  lemma SuccessfulScanIssues(created: seq<Issue>, policy: PolicyDocument, entries: seq<IssueEntry>)
    requires CreatedFrom(created, policy, MapEntries(entries, ToInput))
    requires EntriesOutcome(MapEntries(entries, ToInput)) == Done
    ensures |created| == |entries|
    ensures forall k :: 0 <= k < |entries| ==>
      entries[k].suggestions.Some?
      && created[k].issueType == IssueType.Spelling && created[k].policyDocument == policy
      && created[k].relatedPolicies == []
      && |created[k].suggestedChanges| == |entries[k].suggestions.value|
      && forall j :: 0 <= j < |created[k].suggestedChanges| ==>
           created[k].suggestedChanges[j].actionType == ActionType.ReplaceText
           && created[k].suggestedChanges[j].originalText == entries[k].suggestions.value[j].originalText
           && Some(created[k].suggestedChanges[j].suggestedText) == entries[k].suggestions.value[j].suggestedText
  {
    var xs := MapEntries(entries, ToInput);
    CreatedFromAll(created, policy, xs);
    forall k | 0 <= k < |entries|
      ensures entries[k].suggestions.Some?
      ensures |created[k].suggestedChanges| == |entries[k].suggestions.value|
      ensures forall j :: 0 <= j < |created[k].suggestedChanges| ==>
           created[k].suggestedChanges[j].actionType == ActionType.ReplaceText
           && created[k].suggestedChanges[j].originalText == entries[k].suggestions.value[j].originalText
           && Some(created[k].suggestedChanges[j].suggestedText) == entries[k].suggestions.value[j].suggestedText
    {
      assert Complete(created[k], policy, xs[k]);
      EntryMapping(entries[k]);
    }
  }
}

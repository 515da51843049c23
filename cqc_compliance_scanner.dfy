/**
 * CqcComplianceScanner#scan: one `cqc_compliance` issue per entry of the reply's `issues`, whose
 * suggestions carry an action type that defaults to "replace_text".
 */
module CqcComplianceScanner {
  import opened Wrappers
  import opened Strings
  import opened Models
  import opened ReasoningService
  import opened BaseScanner

  /** `{original_text: ..., suggested_text: ..., action_type: s["action_type"] || "replace_text"}`. */
  function SuggestionOf(s: SuggestionEntry): SuggestionInput {
    SuggestionInput(s.originalText, s.suggestedText, CastActionType(Some(s.actionType.GetOr("replace_text"))))
  }

  /** The arguments create_issue receives for one entry, or what building them raised. */
  function ToInput(x: IssueEntry): Result<IssueInput, Exception> {
    match x.suggestions
    case None => Failure(NilSuggestions)
    case Some(ss) =>
      Success(IssueInput(IssueType.CqcCompliance, x.description, x.excerpt,
                         seq(|ss|, j requires 0 <= j < |ss| => SuggestionOf(ss[j])), []))
  }

  /**
   * Each entry becomes a CQC issue with no related policies and one suggestion per listed
   * suggestion, holding its two texts and the cast of its action type, replace_text when the entry
   * gives none; an entry without suggestions raises.
   */
  lemma EntryMapping(x: IssueEntry)
    ensures x.suggestions.None? <==> ToInput(x) == Failure(NilSuggestions)
    ensures x.suggestions.Some? ==>
      var input := ToInput(x).value;
      input.issueType == IssueType.CqcCompliance && input.related == []
      && input.description == x.description && input.excerpt == x.excerpt
      && |input.suggestions| == |x.suggestions.value|
      && forall j :: 0 <= j < |input.suggestions| ==>
           input.suggestions[j].originalText == x.suggestions.value[j].originalText
           && input.suggestions[j].suggestedText == x.suggestions.value[j].suggestedText
           && input.suggestions[j].action ==
                (if x.suggestions.value[j].actionType.None? then Success(Some(ActionType.ReplaceText))
                 else CastActionType(x.suggestions.value[j].actionType))
  {
  }

  /**
   * scan: no request for blank content; otherwise the reply is parsed and each entry goes to
   * create_issue in turn. What is raised is logged and raised again, so the outcome is unchanged.
   */
  method Scan(policy: PolicyDocument, reply: Completion, parse: string -> JsonParse<ScanJson>)
    returns (requested: bool, outcome: Outcome, created: seq<Issue>)
    modifies policy`issues
    ensures requested <==> Present(old(policy.content))
    ensures outcome == ScanOutcome(old(policy.content), reply, parse, ToInput)
    ensures policy.issues == old(policy.issues) + created
    ensures CreatedFrom(created, policy, MapEntries(ScanEntries(old(policy.content), reply, parse), ToInput))
    ensures forall i :: i in created ==> fresh(i)
  {
    requested, outcome, created := RunScan(policy, reply, parse, ToInput);
  }

  /**
   * A scan that raised nothing left exactly one CQC issue per entry, each holding one change per
   * suggestion of its entry, with the entry's texts, and the named action or replace_text when
   * the entry named none.
   */
  lemma SuccessfulScanIssues(created: seq<Issue>, policy: PolicyDocument, entries: seq<IssueEntry>)
    requires CreatedFrom(created, policy, MapEntries(entries, ToInput))
    requires EntriesOutcome(MapEntries(entries, ToInput)) == Done
    ensures |created| == |entries|
    ensures forall k :: 0 <= k < |entries| ==>
      entries[k].suggestions.Some?
      && created[k].issueType == IssueType.CqcCompliance && created[k].policyDocument == policy
      && created[k].relatedPolicies == []
      && |created[k].suggestedChanges| == |entries[k].suggestions.value|
      && forall j :: 0 <= j < |created[k].suggestedChanges| ==>
           (entries[k].suggestions.value[j].actionType.None? ==>
              created[k].suggestedChanges[j].actionType == ActionType.ReplaceText)
           && (entries[k].suggestions.value[j].actionType.Some? ==>
              entries[k].suggestions.value[j].actionType.value == ActionName(created[k].suggestedChanges[j].actionType))
           && created[k].suggestedChanges[j].originalText == entries[k].suggestions.value[j].originalText
           && Some(created[k].suggestedChanges[j].suggestedText) == entries[k].suggestions.value[j].suggestedText
  {
    var xs := MapEntries(entries, ToInput);
    CreatedFromAll(created, policy, xs);
    forall k | 0 <= k < |entries|
      ensures entries[k].suggestions.Some?
      ensures |created[k].suggestedChanges| == |entries[k].suggestions.value|
      ensures forall j :: 0 <= j < |created[k].suggestedChanges| ==>
           (entries[k].suggestions.value[j].actionType.None? ==>
              created[k].suggestedChanges[j].actionType == ActionType.ReplaceText)
           && (entries[k].suggestions.value[j].actionType.Some? ==>
              entries[k].suggestions.value[j].actionType.value == ActionName(created[k].suggestedChanges[j].actionType))
           && created[k].suggestedChanges[j].originalText == entries[k].suggestions.value[j].originalText
           && Some(created[k].suggestedChanges[j].suggestedText) == entries[k].suggestions.value[j].suggestedText
    {
      assert Complete(created[k], policy, xs[k]);
      EntryMapping(entries[k]);
      forall j | 0 <= j < |entries[k].suggestions.value| {
        CastActionTypeCases(entries[k].suggestions.value[j].actionType);
      }
    }
  }
}

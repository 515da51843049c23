/**
 * BaseScanner: `create_issue`, which inserts an issue with its related-policy links and suggested
 * changes, and `parse_response`; with the JSON shape the spelling and CQC scanners read and the
 * loop over its `issues` both of them run.
 */
module BaseScanner {
  import opened Wrappers
  import opened Strings
  import opened Models
  import opened ReasoningService

  // =============================================================================================
  // create_issue

  /**
   * One element of the `suggestions` argument. `action` is what the enum makes of the value passed as
   * `action_type` (see CastActionType); the cast is pure, so it is taken with the argument, and what
   * it raises is raised by that suggestion's create!.
   */
  datatype SuggestionInput = SuggestionInput(originalText: Option<string>, suggestedText: Option<string>,
                                             action: Result<Option<ActionType>, Exception>)

  /** The arguments of create_issue. */
  datatype IssueInput = IssueInput(
    issueType: IssueType,
    description: Option<string>,
    excerpt: Option<string>,
    suggestions: seq<SuggestionInput>,
    related: seq<PolicyDocument>)

  function RecordInvalid(messages: seq<string>): Exception {
    Exception("ActiveRecord::RecordInvalid", "Validation failed: " + Join(messages, ", "))
  }

  function NotNullViolation(column: string): Exception {
    Exception("ActiveRecord::NotNullViolation", "null value in column \"" + column + "\" violates not-null constraint")
  }

  const RecordNotUnique: Exception :=
    Exception("ActiveRecord::RecordNotUnique", "duplicate key value violates unique constraint on (issue_id, policy_document_id)")

  /**
   * `action_type: value || :replace_text` assigned through the enum: the default for a nil value,
   * the named action, no action for a blank string, and ArgumentError for anything else.
   */
  function CastActionType(v: Option<string>): Result<Option<ActionType>, Exception> {
    match v
    case None => Success(Some(ActionType.ReplaceText))
    case Some(s) =>
      if s == "replace_text" then Success(Some(ActionType.ReplaceText))
      else if s == "insert_text" then Success(Some(ActionType.InsertText))
      else if s == "delete_text" then Success(Some(ActionType.DeleteText))
      else if Blank(v) then Success(None)
      else Failure(Exception("ArgumentError", "'" + s + "' is not a valid action_type"))
  }

  function ActionName(a: ActionType): string {
    match a
    case ReplaceText => "replace_text"
    case InsertText => "insert_text"
    case DeleteText => "delete_text"
  }

  /**
   * The cast gives the default for nil, ArgumentError for a value that is neither a name nor blank,
   * and, when it gives an action, that action's own name was passed (or nil).
   */
  lemma CastActionTypeCases(v: Option<string>)
    ensures v.None? ==> CastActionType(v) == Success(Some(ActionType.ReplaceText))
    ensures v.Some? && v.value !in {"replace_text", "insert_text", "delete_text"} && !Blank(v) ==>
      CastActionType(v) == Failure(Exception("ArgumentError", "'" + v.value + "' is not a valid action_type"))
    ensures v.Some? && Blank(v) ==> CastActionType(v) == Success(None)
    ensures var r := CastActionType(v); r.Success? && r.value.Some? ==> v.None? || v.value == ActionName(r.value.value)
  {
    if v.Some? && Blank(v) && v.value != [] {
      assert IsUnicodeSpace(v.value[0]);
    }
  }

  /** Every action type is stored under its own name. */
  lemma CastActionNameRoundTrip(a: ActionType)
    ensures CastActionType(Some(ActionName(a))) == Success(Some(a))
  {
  }

  /** The failed validations of a suggested change, in declaration order. */
  function ChangeValidationErrors(action: Option<ActionType>, original: Option<string>, suggested: Option<string>): seq<string> {
    (if action != Some(ActionType.DeleteText) && Blank(suggested) then ["Suggested text can't be blank"] else [])
    + (if (action == Some(ActionType.ReplaceText) || action == Some(ActionType.DeleteText)) && Blank(original)
       then ["Original text can't be blank"] else [])
  }

  /** What `issue.suggested_changes.create!` raises for this suggestion, if anything. */
  function SuggestionError(s: SuggestionInput): (r: Option<Exception>)
    ensures r.None? ==>
      s.action.Success? && s.action.value.Some? && s.suggestedText.Some?
  {
    match s.action
    case Failure(e) => Some(e)
    case Success(a) =>
      var invalid := ChangeValidationErrors(a, s.originalText, s.suggestedText);
      if invalid != [] then Some(RecordInvalid(invalid))
      else if s.suggestedText.None? then Some(NotNullViolation("suggested_text"))
      else if a.None? then Some(NotNullViolation("action_type"))
      else None
  }

  /**
   * Which suggestions create! accepts: suggested_text is required unless the action is a delete,
   * original_text for a replace or a delete, and a delete may carry an empty suggested_text.
   */
  lemma SuggestionValidation(s: SuggestionInput)
    requires s.action.Success? && s.action.value.Some?
    ensures var a := s.action.value.value;
      SuggestionError(s).None? <==>
        (a == ActionType.DeleteText || Present(s.suggestedText))
        && (a == ActionType.InsertText || Present(s.originalText))
        && s.suggestedText.Some?
  {
  }

  /** How far create_issue gets: whether the issue row exists, how many links and changes follow it, and the error. */
  datatype Plan = Plan(created: bool, links: nat, changes: nat, error: Option<Exception>)

  predicate DuplicateAt(related: seq<PolicyDocument>, j: nat) {
    j < |related| && related[j] in related[..j]
  }

  predicate InvalidAt(suggestions: seq<SuggestionInput>, j: nat) {
    j < |suggestions| && SuggestionError(suggestions[j]).Some?
  }

  /** create_issue as a specification: the rows it leaves and what it raises. */
  function CreateIssuePlan(input: IssueInput): Plan {
    if Blank(input.description) then Plan(false, 0, 0, Some(RecordInvalid(["Description can't be blank"])))
    else LinksFrom(input, 0)
  }

  /** The rest of create_issue once the issue row and the first `k` links exist. */
  function LinksFrom(input: IssueInput, k: nat): (p: Plan)
    ensures p.created && p.links <= |input.related| && p.changes <= |input.suggestions|
    decreases |input.related| - k
  {
    if k >= |input.related| then ChangesFrom(input, 0)
    else if input.related[k] in input.related[..k] then Plan(true, k, 0, Some(RecordNotUnique))
    else LinksFrom(input, k + 1)
  }

  /** The rest of create_issue once every link and the first `n` suggested changes exist. */
  function ChangesFrom(input: IssueInput, n: nat): (p: Plan)
    ensures p.created && p.links == |input.related| && p.changes <= |input.suggestions|
    decreases |input.suggestions| - n
  {
    if n >= |input.suggestions| then Plan(true, |input.related|, |input.suggestions|, None)
    else match SuggestionError(input.suggestions[n])
      case Some(e) => Plan(true, |input.related|, n, Some(e))
      case None => ChangesFrom(input, n + 1)
  }

  lemma {:induction false} ChangesFromCases(input: IssueInput, n: nat)
    requires n <= |input.suggestions|
    ensures var p := ChangesFrom(input, n);
      p.created && p.links == |input.related| && n <= p.changes <= |input.suggestions|
      && (p.error.None? <==> forall j: nat :: n <= j ==> !InvalidAt(input.suggestions, j))
      && (p.error.None? ==> p.changes == |input.suggestions|)
      && (p.error.Some? ==> InvalidAt(input.suggestions, p.changes)
                            && p.error == SuggestionError(input.suggestions[p.changes]))
      && forall j: nat :: n <= j < p.changes ==> !InvalidAt(input.suggestions, j)
    decreases |input.suggestions| - n
  {
    if n < |input.suggestions| && SuggestionError(input.suggestions[n]).None? {
      assert !InvalidAt(input.suggestions, n);
      ChangesFromCases(input, n + 1);
    } else if n < |input.suggestions| {
      assert InvalidAt(input.suggestions, n);
    }
  }

  lemma {:induction false} LinksFromCases(input: IssueInput, k: nat)
    requires k <= |input.related|
    ensures var p := LinksFrom(input, k);
      p.created && k <= p.links <= |input.related| && p.changes <= |input.suggestions|
      && (p.error.None? <==>
            (forall j: nat :: k <= j ==> !DuplicateAt(input.related, j))
            && (forall j: nat :: !InvalidAt(input.suggestions, j)))
      && (p.error.None? ==> p.links == |input.related| && p.changes == |input.suggestions|)
      && (p.links < |input.related| ==> DuplicateAt(input.related, p.links) && p.changes == 0 && p.error == Some(RecordNotUnique))
      && forall j: nat :: k <= j < p.links ==> !DuplicateAt(input.related, j)
    decreases |input.related| - k
  {
    if k >= |input.related| {
      ChangesFromCases(input, 0);
    } else if input.related[k] !in input.related[..k] {
      assert !DuplicateAt(input.related, k);
      LinksFromCases(input, k + 1);
    } else {
      assert DuplicateAt(input.related, k);
    }
  }

  /**
   * The issue row exists unless the description is blank; create_issue raises nothing exactly when
   * the description is present, no related policy is listed twice and every suggestion is valid,
   * and then it created every link and every change.
   */
  lemma CreateIssuePlanCases(input: IssueInput)
    ensures var p := CreateIssuePlan(input);
      p.links <= |input.related| && p.changes <= |input.suggestions|
      && (!p.created <==> Blank(input.description))
      && (!p.created ==> p.links == 0 && p.changes == 0)
      && (p.error.None? <==>
            Present(input.description)
            && (forall j: nat :: !DuplicateAt(input.related, j))
            && (forall j: nat :: !InvalidAt(input.suggestions, j)))
      && (p.error.None? ==> p.links == |input.related| && p.changes == |input.suggestions|)
  {
    if Present(input.description) {
      LinksFromCases(input, 0);
    }
  }

  /** A stored suggested change that holds exactly what its input said. */
  predicate StoredAs(c: SuggestedChange, s: SuggestionInput) {
    c.originalText == s.originalText
    && s.suggestedText == Some(c.suggestedText)
    && s.action == Success(Some(c.actionType))
  }

  /** An issue row holding its input, with the first `links` links and the first `changes` changes. */
  predicate Mirrors(issue: Issue, input: IssueInput, links: nat, changes: nat)
    reads issue
  {
    links <= |input.related| && changes <= |input.suggestions|
    && issue.issueType == input.issueType
    && input.description == Some(issue.description)
    && issue.excerpt == input.excerpt
    && issue.account == issue.policyDocument.account
    && issue.status == IssueStatus.Open
    && issue.relatedPolicies == input.related[..links]
    && |issue.suggestedChanges| == changes
    && forall j :: 0 <= j < changes ==>
         issue.suggestedChanges[j].issue == issue && StoredAs(issue.suggestedChanges[j], input.suggestions[j])
  }

  /**
   * The `related_policies` loop of create_issue: links each policy in turn, and the unique index
   * on (issue, policy) refuses the first one listed twice.
   */
  method LinkRelated(issue: Issue, input: IssueInput) returns (linked: nat)
    requires issue.relatedPolicies == []
    modifies issue`relatedPolicies
    ensures linked <= |input.related| && issue.relatedPolicies == input.related[..linked]
    ensures LinksFrom(input, 0) ==
      if linked < |input.related| then Plan(true, linked, 0, Some(RecordNotUnique)) else ChangesFrom(input, 0)
  {
    linked := 0;
    while linked < |input.related|
      invariant linked <= |input.related|
      invariant issue.relatedPolicies == input.related[..linked]
      invariant LinksFrom(input, 0) == LinksFrom(input, linked)
    {
      var d := input.related[linked];
      if d in issue.relatedPolicies {
        return;
      }
      issue.relatedPolicies := issue.relatedPolicies + [d];
      assert input.related[..linked + 1] == input.related[..linked] + [d];
      linked := linked + 1;
    }
  }

  /**
   * The `suggestions` loop of create_issue: one pending change per suggestion, in order, until the
   * first create! that raises.
   */
  method CreateChanges(issue: Issue, input: IssueInput) returns (error: Option<Exception>)
    requires issue.suggestedChanges == []
    modifies issue`suggestedChanges
    ensures var p := ChangesFrom(input, 0);
      error == p.error && |issue.suggestedChanges| == p.changes
      && forall j :: 0 <= j < p.changes ==>
           var c := issue.suggestedChanges[j];
           fresh(c) && c.status == ChangeStatus.Pending && c.issue == issue && StoredAs(c, input.suggestions[j])
  {
    var n := 0;
    while n < |input.suggestions|
      invariant n <= |input.suggestions| && |issue.suggestedChanges| == n
      invariant ChangesFrom(input, 0) == ChangesFrom(input, n)
      invariant forall j :: 0 <= j < n ==>
        var c := issue.suggestedChanges[j];
        fresh(c) && c.status == ChangeStatus.Pending && c.issue == issue && StoredAs(c, input.suggestions[j])
    {
      var s := input.suggestions[n];
      error := SuggestionError(s);
      if error.Some? {
        return;
      }
      var c := new SuggestedChange(issue, s.originalText, s.suggestedText.value, s.action.value.value);
      issue.suggestedChanges := issue.suggestedChanges + [c];
      n := n + 1;
    }
    error := None;
  }

  /**
   * create_issue. `issue` is the row it inserted (null when validation refused it), which stays
   * behind with the links and changes created before a failure: nothing is rolled back.
   */
  method CreateIssue(policy: PolicyDocument, input: IssueInput) returns (issue: Issue?, r: Result<Issue, Exception>)
    modifies policy`issues
    ensures var plan := CreateIssuePlan(input);
      (issue != null <==> plan.created)
      && (plan.error.None? ==> r == Success(issue))
      && (plan.error.Some? ==> r == Failure(plan.error.value))
      && (issue == null ==> policy.issues == old(policy.issues))
      && (issue != null ==>
            fresh(issue) && policy.issues == old(policy.issues) + [issue]
            && issue.policyDocument == policy
            && Mirrors(issue, input, plan.links, plan.changes)
            && forall j :: 0 <= j < plan.changes ==>
                 fresh(issue.suggestedChanges[j]) && issue.suggestedChanges[j].status == ChangeStatus.Pending)
  {
    if Blank(input.description) {
      return null, Failure(RecordInvalid(["Description can't be blank"]));
    }
    issue := new Issue(policy, null, input.issueType, input.description.value, input.excerpt);
    policy.issues := policy.issues + [issue];
    var linked := LinkRelated(issue, input);
    if linked < |input.related| {
      return issue, Failure(RecordNotUnique);
    }
    assert input.related[..linked] == input.related;
    var error := CreateChanges(issue, input);
    r := if error.None? then Success(issue) else Failure(error.value);
  }

  // =============================================================================================
  // The scanners' JSON and parse_response

  /** What `issue_data["suggestions"].map` raises when the entry has no suggestions. */
  const NilSuggestions: Exception := Exception("NoMethodError", "undefined method 'map' for nil")

  /** An element of an issue's `suggestions`. */
  datatype SuggestionEntry = SuggestionEntry(originalText: Option<string>, suggestedText: Option<string>, actionType: Option<string>)

  /** An element of `issues`; a missing or null key is None. */
  datatype IssueEntry = IssueEntry(description: Option<string>, excerpt: Option<string>, suggestions: Option<seq<SuggestionEntry>>)

  /** The parsed reply: JSON `null` or `false`, or an object with or without `issues`. */
  datatype ScanJson = NullOrFalse | Document(issues: Option<seq<IssueEntry>>)

  /** What JSON.parse does with a string: raise JSON::ParserError, or give a value. */
  datatype JsonParse<+T> = Malformed(message: string) | Parsed(value: T)

  /**
   * parse_response: the parsed value, or None when the JSON does not parse; a missing content is
   * handed to JSON.parse as nil, which raises TypeError, and that is not rescued.
   */
  function ParseResponse(content: Option<string>, parse: string -> JsonParse<ScanJson>): (r: Result<Option<ScanJson>, Exception>)
    ensures content.None? ==> r == Failure(Exception("TypeError", "no implicit conversion of nil into String"))
    ensures content.Some? ==> r.Success? && (r.value.None? <==> parse(content.value).Malformed?)
    ensures content.Some? && parse(content.value).Parsed? ==> r.value == Some(parse(content.value).value)
  {
    match content
    case None => Failure(Exception("TypeError", "no implicit conversion of nil into String"))
    case Some(c) =>
      match parse(c)
      case Malformed(_) => Success(None)
      case Parsed(v) => Success(Some(v))
  }

  // =============================================================================================
  // The `result["issues"]&.each { create_issue(...) }` loop of the spelling and CQC scanners

  /**
   * What each scanner makes of the entries before create_issue: the arguments, or what the mapping
   * raised. The mapping is pure, so computing it for every entry up front changes nothing.
   */
  function MapEntries(entries: seq<IssueEntry>, toInput: IssueEntry -> Result<IssueInput, Exception>): (xs: seq<Result<IssueInput, Exception>>)
    ensures |xs| == |entries|
    ensures forall j :: 0 <= j < |entries| ==> xs[j] == toInput(entries[j])
  {
    if entries == [] then [] else [toInput(entries[0])] + MapEntries(entries[1..], toInput)
  }

  /** The error an entry stops the loop with: its mapping raised, or its create_issue did. */
  function EntryError(x: Result<IssueInput, Exception>): Option<Exception> {
    if x.Failure? then Some(x.error) else CreateIssuePlan(x.value).error
  }

  /** Whether the entry left an issue row behind. */
  predicate LeavesIssue(x: Result<IssueInput, Exception>) {
    x.Success? && CreateIssuePlan(x.value).created
  }

  predicate StopsAt(xs: seq<Result<IssueInput, Exception>>, j: nat) {
    j < |xs| && EntryError(xs[j]).Some?
  }

  /** The entry, counting from `i`, at which the loop stops because it raises. */
  function FirstFailingFrom(xs: seq<Result<IssueInput, Exception>>, i: nat): (r: Option<nat>)
    ensures r.Some? ==> i <= r.value < |xs| && StopsAt(xs, r.value)
    ensures r.Some? ==> forall j: nat :: i <= j < r.value ==> !StopsAt(xs, j)
    ensures r.None? ==> forall j: nat :: i <= j ==> !StopsAt(xs, j)
    decreases |xs| - i
  {
    if i >= |xs| then None
    else if StopsAt(xs, i) then Some(i)
    else FirstFailingFrom(xs, i + 1)
  }

  /** What the loop ends with: done, or the first failing entry's error. */
  function EntriesOutcome(xs: seq<Result<IssueInput, Exception>>): (r: Outcome)
    ensures r.Success? <==> forall j: nat :: !StopsAt(xs, j)
  {
    match FirstFailingFrom(xs, 0)
    case None => Done
    case Some(k) => Failure(EntryError(xs[k]).value)
  }

  /** `issue` is the row create_issue left for the entry mapped to `x`. */
  predicate HandledEntry(issue: Issue, policy: PolicyDocument, x: Result<IssueInput, Exception>)
    reads issue
  {
    x.Success?
    && var plan := CreateIssuePlan(x.value);
    issue.policyDocument == policy && Mirrors(issue, x.value, plan.links, plan.changes)
  }

  /** `issue` is the row of an entry create_issue went all the way through: every link and change. */
  predicate Complete(issue: Issue, policy: PolicyDocument, x: Result<IssueInput, Exception>)
    reads issue
  {
    x.Success? && issue.policyDocument == policy
    && Mirrors(issue, x.value, |x.value.related|, |x.value.suggestions|)
  }

  /**
   * `created` are the issues the loop left: one complete issue per entry before the one that
   * raised, and the partial issue that entry left, if it left one.
   */
  predicate CreatedFrom(created: seq<Issue>, policy: PolicyDocument, xs: seq<Result<IssueInput, Exception>>)
    reads set i | i in created
  {
    var stop := FirstFailingFrom(xs, 0);
    var done := if stop.None? then |xs| else stop.value;
    var partial := stop.Some? && LeavesIssue(xs[stop.value]);
    |created| == done + (if partial then 1 else 0)
    && (forall j :: 0 <= j < done ==> Complete(created[j], policy, xs[j]))
    && (partial ==> HandledEntry(created[done], policy, xs[done]))
  }

  /** Where the loop stops, it stops with that entry's error and leaves what it created. */
  lemma CreatedUntilStop(created: seq<Issue>, policy: PolicyDocument, xs: seq<Result<IssueInput, Exception>>, k: nat)
    requires StopsAt(xs, k) && forall j: nat :: j < k ==> !StopsAt(xs, j)
    requires |created| == k + (if LeavesIssue(xs[k]) then 1 else 0)
    requires forall j :: 0 <= j < k ==> Complete(created[j], policy, xs[j])
    requires LeavesIssue(xs[k]) ==> HandledEntry(created[k], policy, xs[k])
    ensures EntriesOutcome(xs) == Failure(EntryError(xs[k]).value)
    ensures CreatedFrom(created, policy, xs)
  {
    assert FirstFailingFrom(xs, 0) == Some(k);
  }

  /** The issues left by a loop that ran to the end. */
  lemma CreatedToEnd(created: seq<Issue>, policy: PolicyDocument, xs: seq<Result<IssueInput, Exception>>)
    requires forall j: nat :: j < |xs| ==> !StopsAt(xs, j)
    requires |created| == |xs|
    requires forall j :: 0 <= j < |xs| ==> Complete(created[j], policy, xs[j])
    ensures EntriesOutcome(xs) == Done
    ensures CreatedFrom(created, policy, xs)
  {
  }

  /** A loop over entries none of which raised left one complete issue per entry, in order. */
  lemma CreatedFromAll(created: seq<Issue>, policy: PolicyDocument, xs: seq<Result<IssueInput, Exception>>)
    requires CreatedFrom(created, policy, xs) && EntriesOutcome(xs) == Done
    ensures |created| == |xs|
    ensures forall j :: 0 <= j < |xs| ==> Complete(created[j], policy, xs[j])
  {
  }

  /** A loop over no entries created nothing. */
  lemma CreatedFromNothing(created: seq<Issue>, policy: PolicyDocument)
    requires CreatedFrom(created, policy, [])
    ensures created == []
  {
  }

  /** One turn of the loop: the mapped entry, then create_issue. */
  method HandleEntry(policy: PolicyDocument, x: Result<IssueInput, Exception>) returns (issue: Issue?, r: Outcome)
    modifies policy`issues
    ensures r == (if EntryError(x).None? then Done else Failure(EntryError(x).value))
    ensures issue != null <==> LeavesIssue(x)
    ensures r.Success? ==> issue != null && Complete(issue, policy, x)
    ensures issue == null ==> policy.issues == old(policy.issues)
    ensures issue != null ==> fresh(issue) && policy.issues == old(policy.issues) + [issue] && HandledEntry(issue, policy, x)
  {
    if x.Failure? {
      return null, Failure(x.error);
    }
    CreateIssuePlanCases(x.value);
    var created;
    issue, created := CreateIssue(policy, x.value);
    r := if created.Success? then Done else Failure(created.error);
  }

  /**
   * Calls create_issue for the entries in order; the first exception ends the loop and is
   * re-raised, and the issues created before it stay.
   */
  method CreateIssues(policy: PolicyDocument, xs: seq<Result<IssueInput, Exception>>)
    returns (outcome: Outcome, created: seq<Issue>)
    modifies policy`issues
    ensures outcome == EntriesOutcome(xs)
    ensures policy.issues == old(policy.issues) + created
    ensures CreatedFrom(created, policy, xs)
    ensures forall i :: i in created ==> fresh(i)
  {
    created := [];
    var k := 0;
    while k < |xs|
      invariant 0 <= k <= |xs|
      invariant forall j: nat :: j < k ==> !StopsAt(xs, j)
      invariant |created| == k
      invariant policy.issues == old(policy.issues) + created
      invariant forall i :: i in created ==> fresh(i)
      invariant forall j :: 0 <= j < k ==> Complete(created[j], policy, xs[j])
    {
      var issue, r := HandleEntry(policy, xs[k]);
      if issue != null {
        created := created + [issue];
      }
      if r.Failure? {
        CreatedUntilStop(created, policy, xs, k);
        return r, created;
      }
      k := k + 1;
    }
    CreatedToEnd(created, policy, xs);
    outcome := Done;
  }

  /** What `result["issues"]&.each` iterates over: nothing unless the reply is an object with `issues`. */
  function IssueEntries(json: Option<ScanJson>): seq<IssueEntry> {
    match json
    case Some(Document(Some(entries))) => entries
    case _ => []
  }

  /**
   * The shared body of SpellingScanner#scan and CqcComplianceScanner#scan as a specification: no
   * request for blank content, the request's error, parse_response's error, or the loop's outcome.
   */
  function ScanOutcome(content: Option<string>, reply: Completion, parse: string -> JsonParse<ScanJson>,
                       toInput: IssueEntry -> Result<IssueInput, Exception>): Outcome
  {
    if Blank(content) then Done
    else match reply
      case Failure(e) => Failure(e)
      case Success(c) =>
        match ParseResponse(c, parse)
        case Failure(e) => Failure(e)
        case Success(json) => EntriesOutcome(MapEntries(IssueEntries(json), toInput))
  }

  /** The entries the scan hands to create_issue. */
  function ScanEntries(content: Option<string>, reply: Completion, parse: string -> JsonParse<ScanJson>): seq<IssueEntry> {
    if Blank(content) || reply.Failure? then []
    else match ParseResponse(reply.value, parse)
      case Failure(_) => []
      case Success(json) => IssueEntries(json)
  }

  /** A scan whose reply does not parse, or has no `issues`, creates nothing and succeeds. */
  lemma UnusableReplyCreatesNothing(content: Option<string>, c: string, parse: string -> JsonParse<ScanJson>,
                                    toInput: IssueEntry -> Result<IssueInput, Exception>)
    requires Present(content)
    requires parse(c).Malformed? || parse(c) == Parsed(NullOrFalse) || parse(c) == Parsed(Document(None))
    ensures ScanEntries(content, Success(Some(c)), parse) == []
    ensures ScanOutcome(content, Success(Some(c)), parse, toInput) == Done
  {
    assert MapEntries([], toInput) == [];
    assert FirstFailingFrom([], 0).None?;
  }

  /**
   * The scan of the spelling and CQC scanners: the request is made only for present content,
   * and the issues it leaves are exactly those the loop over the parsed entries creates.
   */
  method RunScan(policy: PolicyDocument, reply: Completion, parse: string -> JsonParse<ScanJson>,
                 toInput: IssueEntry -> Result<IssueInput, Exception>)
    returns (requested: bool, outcome: Outcome, created: seq<Issue>)
    modifies policy`issues
    ensures requested <==> Present(old(policy.content))
    ensures outcome == ScanOutcome(old(policy.content), reply, parse, toInput)
    ensures policy.issues == old(policy.issues) + created
    ensures CreatedFrom(created, policy, MapEntries(ScanEntries(old(policy.content), reply, parse), toInput))
    ensures forall i :: i in created ==> fresh(i)
  {
    created := [];
    requested := false;
    var none := MapEntries([], toInput);
    assert none == [] && FirstFailingFrom(none, 0).None?;
    if Blank(policy.content) {
      return requested, Done, created;
    }
    requested := true;
    if reply.Failure? {
      return requested, Failure(reply.error), created;
    }
    var json := ParseResponse(reply.value, parse);
    if json.Failure? {
      return requested, Failure(json.error), created;
    }
    outcome, created := CreateIssues(policy, MapEntries(IssueEntries(json.value), toInput));
  }
}

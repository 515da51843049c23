/**
 * ConflictScanner#scan: a tool-calling conversation in which the model fetches the account's
 * other policies (`get_policy_content`) and reports contradictions between them and the scanned
 * one (`report_conflict`), which become `conflict` issues linked to the other policy.
 */
module ConflictScanner {
  import opened Wrappers
  import opened Strings
  import opened Models
  import opened ReasoningService
  import opened BaseScanner
  import opened ConflictRetry
  import Sequences

  const MaxIterations: nat := 50

  // =============================================================================================
  // The other policies of the account

  /** The filters of `@other_policies`: same account, not this policy, content neither nil nor "". */
  predicate IsOtherPolicy(d: PolicyDocument, policy: PolicyDocument)
    reads d`content
  {
    d.account == policy.account && d.id != policy.id && d.content.Some? && d.content.value != ""
  }

  /** `pluck(:id, :name).to_h` over the filtered documents. */
  function OtherPolicies(docs: seq<PolicyDocument>, policy: PolicyDocument): map<int, string>
    reads docs`content
  {
    if docs == [] then map[]
    else
      var m := OtherPolicies(docs[..|docs| - 1], policy);
      var d := docs[|docs| - 1];
      if IsOtherPolicy(d, policy) then m[d.id := d.name] else m
  }

  /** The list maps the id of every document the filters keep, and only those, to its name. */
  lemma {:induction false} OtherPoliciesListing(docs: seq<PolicyDocument>, policy: PolicyDocument)
    ensures forall d :: d in docs && IsOtherPolicy(d, policy) ==> d.id in OtherPolicies(docs, policy)
    ensures forall id :: id in OtherPolicies(docs, policy) ==>
      exists d :: d in docs && IsOtherPolicy(d, policy) && d.id == id && OtherPolicies(docs, policy)[id] == d.name
  {
    if docs != [] {
      var init := docs[..|docs| - 1];
      OtherPoliciesListing(init, policy);
      assert forall x :: x in init ==> x in docs;
      assert forall x :: x in docs ==> x in init || x == docs[|docs| - 1];
    }
  }

  /**
   * The list never holds the scanned policy; a document whose content is only white space is
   * listed, although such a policy is not scanned itself.
   */
  lemma OtherPoliciesMembers(docs: seq<PolicyDocument>, policy: PolicyDocument, d: PolicyDocument)
    ensures policy.id !in OtherPolicies(docs, policy)
    ensures d in docs && d.account == policy.account && d.id != policy.id && d.content == Some(" ") ==>
      d.id in OtherPolicies(docs, policy) && Blank(d.content)
  {
    OtherPoliciesListing(docs, policy);
    if d.content == Some(" ") {
      assert IsUnicodeSpace(' ');
    }
  }

  /** A row of `policy_documents` as `PolicyDocument.find` reads it during a scan. */
  datatype Row = Row(id: nat, name: string, content: Option<string>)

  /** The table the tools read: one row per document, in order. */
  function Rows(docs: seq<PolicyDocument>): seq<Row>
    reads docs`content
  {
    if docs == [] then [] else Rows(docs[..|docs| - 1]) + [Row(docs[|docs| - 1].id, docs[|docs| - 1].name, docs[|docs| - 1].content)]
  }

  /** Each row holds the id, name and current content of its document. */
  lemma {:induction false} RowsListing(docs: seq<PolicyDocument>)
    ensures |Rows(docs)| == |docs|
    ensures forall k :: 0 <= k < |docs| ==> Rows(docs)[k] == Row(docs[k].id, docs[k].name, docs[k].content)
  {
    if docs != [] {
      RowsListing(docs[..|docs| - 1]);
    }
  }

  /** `find`: the first row with the id, if any. */
  function FindRow(rows: seq<Row>, id: int): (r: Option<Row>)
    ensures r.Some? ==> r.value in rows && r.value.id == id
    ensures r.None? ==> forall k :: 0 <= k < |rows| ==> rows[k].id != id
  {
    FindRowFromMeaning(rows, id, 0);
    FindRowFrom(rows, id, 0)
  }

  /** `find` among the rows from index `k` on. */
  function FindRowFrom(rows: seq<Row>, id: int, k: nat): Option<Row>
    requires k <= |rows|
    decreases |rows| - k
  {
    if k == |rows| then None
    else if rows[k].id == id then Some(rows[k])
    else FindRowFrom(rows, id, k + 1)
  }

  /** What the search from `k` on finds has the id, and when it finds none, no row from `k` on has it. */
  lemma {:induction false} FindRowFromMeaning(rows: seq<Row>, id: int, k: nat)
    requires k <= |rows|
    ensures FindRowFrom(rows, id, k).Some? ==> FindRowFrom(rows, id, k).value in rows[k..] && FindRowFrom(rows, id, k).value.id == id
    ensures FindRowFrom(rows, id, k).None? ==> forall j :: k <= j < |rows| ==> rows[j].id != id
    decreases |rows| - k
  {
    if k < |rows| && rows[k].id != id {
      FindRowFromMeaning(rows, id, k + 1);
    }
  }

  // =============================================================================================
  // Tool calls

  /** The fields of `JSON.parse(arguments)` the tools read. */
  datatype ToolArgs = ToolArgs(policyId: Option<int>, otherPolicyId: Option<int>, description: Option<string>,
                               excerpt: Option<string>, originalText: Option<string>, suggestedText: Option<string>)

  /** What `JSON.parse(nil)` raises. */
  const NilArguments: Exception := Exception("TypeError", "no implicit conversion of nil into String")

  /** `JSON.parse(tool_call.dig("function", "arguments"))`: nil and malformed JSON raise. */
  function ParsedArgs(call: ToolCall, parse: string -> JsonParse<ToolArgs>): (r: Result<ToolArgs, Exception>)
    ensures call.arguments.None? ==> r == Failure(NilArguments)
    ensures r.Success? ==> call.arguments.Some? && parse(call.arguments.value) == Parsed(r.value)
  {
    match call.arguments
    case None => Failure(NilArguments)
    case Some(text) =>
      match parse(text)
      case Malformed(message) => Failure(Exception("JSON::ParserError", message))
      case Parsed(args) => Success(args)
  }

  function RecordNotFound(id: int): Exception {
    Exception("ActiveRecord::RecordNotFound", "Couldn't find PolicyDocument with 'id'=" + IntToString(id))
  }

  /**
   * get_policy_content: "Not found" unless the id is one of the listed other policies; otherwise the
   * row's id, name and current content, or RecordNotFound when no row has that id.
   */
  function GetPolicyContent(rows: seq<Row>, others: map<int, string>, policyId: Option<int>): (r: Result<ToolResult, Exception>)
    ensures policyId.None? || policyId.value !in others ==> r == Success(NotFound)
    ensures r.Failure? <==> policyId.Some? && policyId.value in others && forall k :: 0 <= k < |rows| ==> rows[k].id != policyId.value
    ensures r.Success? && r.value != NotFound ==>
      policyId.Some? && policyId.value in others
      && exists k :: 0 <= k < |rows| && rows[k].id == policyId.value
           && r.value == PolicyContent(rows[k].id, rows[k].name, rows[k].content)
  {
    if policyId.None? || policyId.value !in others then Success(NotFound)
    else
      match FindRow(rows, policyId.value)
      case None => Failure(RecordNotFound(policyId.value))
      case Some(row) => Success(PolicyContent(row.id, row.name, row.content))
  }

  /** `PolicyDocument.find_by(id: args["other_policy_id"])`: any document, of any account. */
  function Target(store: Store, args: ToolArgs): (r: Option<PolicyDocument>)
    reads store
    requires store.Valid()
    ensures r.Some? ==> args.otherPolicyId.Some? && r.value in store.documents && r.value.id == args.otherPolicyId.value
    ensures r.None? ==> args.otherPolicyId.None? || forall i :: 0 <= i < |store.documents| ==> store.documents[i].id != args.otherPolicyId.value
  {
    if args.otherPolicyId.None? then None else store.FindBy(args.otherPolicyId.value)
  }

  predicate LinksTo(i: Issue, target: int)
    reads i
  {
    exists d :: d in i.relatedPolicies && d.id == target
  }

  /** An open `conflict` issue linked to the document with id `target`. */
  predicate OpenConflictWith(i: Issue, target: int)
    reads i
  {
    i.issueType == IssueType.Conflict && i.status == IssueStatus.Open && LinksTo(i, target)
  }

  /** The `existing_conflict` query, over the scanned policy's own issues only. */
  predicate ExistingConflict(issues: seq<Issue>, target: int)
    reads set i | i in issues
  {
    exists i :: i in issues && OpenConflictWith(i, target)
  }

  /** No two open conflict issues in the list link the same document. */
  ghost predicate UniqueOpenConflicts(issues: seq<Issue>)
    reads set i | i in issues
  {
    forall a, b, t :: 0 <= a < |issues| && 0 <= b < |issues| && OpenConflictWith(issues[a], t) && OpenConflictWith(issues[b], t) ==> a == b
  }

  /** The ids of the documents an issue links, if it is an open conflict. */
  function OpenLinks(i: Issue): set<int>
    reads i
  {
    if i.issueType == IssueType.Conflict && i.status == IssueStatus.Open then set d | d in i.relatedPolicies :: d.id else {}
  }

  /** The ids of the documents that the open conflict issues in the list link. */
  ghost function OpenTargets(issues: seq<Issue>): set<int>
    reads set i | i in issues
  {
    if issues == [] then {} else OpenTargets(issues[..|issues| - 1]) + OpenLinks(issues[|issues| - 1])
  }

  /** existing_conflict holds exactly for those documents. */
  lemma {:induction false} OpenTargetsMeaning(issues: seq<Issue>, t: int)
    ensures t in OpenTargets(issues) <==> ExistingConflict(issues, t)
  {
    if issues != [] {
      var n := |issues| - 1;
      var last := issues[n];
      OpenTargetsMeaning(issues[..n], t);
      assert issues == issues[..n] + [last];
      if t in OpenLinks(last) {
        var d :| d in last.relatedPolicies && d.id == t;
        assert OpenConflictWith(last, t);
      }
      if ExistingConflict(issues, t) {
        var i :| i in issues && OpenConflictWith(i, t);
        if i != last {
          assert i in issues[..n];
        } else {
          var d :| d in i.relatedPolicies && d.id == t;
        }
      }
      if ExistingConflict(issues[..n], t) {
        var i :| i in issues[..n] && OpenConflictWith(i, t);
        assert i in issues;
      }
    }
  }

  /** A new conflict issue adds the one document it links, and no other. */
  lemma OpenTargetsSnoc(issues: seq<Issue>, issue: Issue, policy: PolicyDocument)
    requires ConflictIssue(issue, policy)
    ensures OpenTargets(issues + [issue]) == OpenTargets(issues) + {issue.relatedPolicies[0].id}
  {
    assert (issues + [issue])[..|issues|] == issues;
    assert issue.relatedPolicies == [issue.relatedPolicies[0]];
  }

  /** The single suggestion report_conflict passes on, when both texts are present. */
  function ConflictSuggestions(args: ToolArgs): (r: seq<SuggestionInput>)
    ensures |r| <= 1
    ensures |r| == 1 <==> Present(args.originalText) && Present(args.suggestedText)
  {
    if Present(args.originalText) && Present(args.suggestedText) then
      [SuggestionInput(args.originalText, args.suggestedText, CastActionType(None))]
    else []
  }

  /** The create_issue arguments of a report against `other`. */
  function ConflictInput(args: ToolArgs, other: PolicyDocument): IssueInput {
    IssueInput(IssueType.Conflict, args.description, args.excerpt, ConflictSuggestions(args), [other])
  }

  const BlankDescription: Exception := RecordInvalid(["Description can't be blank"])

  /**
   * create_issue on a report: only a blank description fails; otherwise the issue, its one link and
   * its suggestion (if any) are all stored.
   */
  lemma ConflictInputPlan(args: ToolArgs, other: PolicyDocument)
    ensures Blank(args.description) ==> CreateIssuePlan(ConflictInput(args, other)) == Plan(false, 0, 0, Some(BlankDescription))
    ensures !Blank(args.description) ==>
      CreateIssuePlan(ConflictInput(args, other)) == Plan(true, 1, |ConflictSuggestions(args)|, None)
  {
    var input := ConflictInput(args, other);
    if !Blank(args.description) {
      assert input.related[..0] == [];
      assert LinksFrom(input, 0) == LinksFrom(input, 1);
      if |input.suggestions| == 1 {
        assert SuggestionError(input.suggestions[0]).None?;
        assert ChangesFrom(input, 0) == ChangesFrom(input, 1);
      }
    }
  }

  /**
   * What report_conflict answers on a snapshot: `rows` is the table and `open` the documents that
   * the policy's open conflicts link. Not found without an id or a row with it; skipped when an
   * open conflict links the document already; a blank description raises; otherwise reported.
   */
  function ReportResult(rows: seq<Row>, open: set<int>, args: ToolArgs): Result<ToolResult, Exception> {
    if args.otherPolicyId.None? || FindRow(rows, args.otherPolicyId.value).None? then Success(NotFound)
    else if args.otherPolicyId.value in open then Success(Skipped)
    else if Blank(args.description) then Failure(BlankDescription)
    else Success(Reported)
  }

  /** The report's target is missing exactly when the table has no row with its id. */
  lemma TargetRow(store: Store, args: ToolArgs)
    requires store.Valid()
    ensures Target(store, args).None? <==>
      args.otherPolicyId.None? || FindRow(Rows(store.documents), args.otherPolicyId.value).None?
  {
    RowsListing(store.documents);
    if args.otherPolicyId.Some? {
      var row := FindRow(Rows(store.documents), args.otherPolicyId.value);
      if row.Some? {
        var k :| 0 <= k < |Rows(store.documents)| && Rows(store.documents)[k] == row.value;
        assert store.documents[k].id == args.otherPolicyId.value;
      }
    }
  }

  /**
   * What report_conflict answers, given the scanned policy's issues before the call: the answer
   * of the snapshot of the table and of the documents its open conflicts link.
   */
  function ReportAnswer(store: Store, args: ToolArgs, issues: seq<Issue>): (r: Result<ToolResult, Exception>)
    reads store, store.documents`content, set i | i in issues
    requires store.Valid()
    ensures r == ReportResult(Rows(store.documents), OpenTargets(issues), args)
  {
    TargetRow(store, args);
    match Target(store, args)
    case None => Success(NotFound)
    case Some(other) =>
      OpenTargetsMeaning(issues, other.id);
      if ExistingConflict(issues, other.id) then Success(Skipped)
      else if Blank(args.description) then Failure(BlankDescription)
      else Success(Reported)
  }

  /** The listed conflict issue of `policy`: open, and linked to exactly one document. */
  predicate ConflictIssue(i: Issue, policy: PolicyDocument)
    reads i
  {
    i.issueType == IssueType.Conflict && i.policyDocument == policy && i.status == IssueStatus.Open
    && |i.relatedPolicies| == 1
  }

  /**
   * The issue of a report: an open conflict of `policy` linked to the document the report names,
   * with the report's description and excerpt and its one suggestion, if it had both texts.
   */
  predicate ReportIssue(i: Issue, policy: PolicyDocument, args: ToolArgs)
    reads i
  {
    ConflictIssue(i, policy) && args.otherPolicyId == Some(i.relatedPolicies[0].id)
    && args.description == Some(i.description) && i.excerpt == args.excerpt
    && |i.suggestedChanges| == |ConflictSuggestions(args)|
  }

  /** One issue per report, in order. */
  predicate ReportedAs(created: seq<Issue>, policy: PolicyDocument, reports: seq<ToolArgs>)
    reads set i | i in created
  {
    |created| == |reports|
    && (created != [] ==>
          var n := |created| - 1;
          ReportedAs(created[..n], policy, reports[..n]) && ReportIssue(created[n], policy, reports[n]))
  }

  /** Each issue is the one of the report at its place. */
  lemma {:induction false} ReportedAsEach(created: seq<Issue>, policy: PolicyDocument, reports: seq<ToolArgs>, m: nat)
    requires ReportedAs(created, policy, reports) && m < |created|
    ensures ReportIssue(created[m], policy, reports[m])
    decreases |created|
  {
    var n := |created| - 1;
    if m < n {
      ReportedAsEach(created[..n], policy, reports[..n], m);
    }
  }

  lemma {:induction false} ReportedAsAppend(a: seq<Issue>, b: seq<Issue>, policy: PolicyDocument, ra: seq<ToolArgs>, rb: seq<ToolArgs>)
    requires ReportedAs(a, policy, ra) && ReportedAs(b, policy, rb)
    ensures ReportedAs(a + b, policy, ra + rb)
    decreases |b|
  {
    if b == [] {
      assert a + b == a && ra + rb == ra;
    } else {
      var n := |b| - 1;
      ReportedAsAppend(a, b[..n], policy, ra, rb[..n]);
      Sequences.AppendPrefix(a, b, n);
      Sequences.AppendPrefix(ra, rb, n);
    }
  }

  /**
   * report_conflict: "Not found" for an unknown document, skipped when the scanned policy already has
   * an open conflict linked to it, and otherwise create_issue. A new issue is then the only open
   * conflict of the policy linked to that document.
   */
  method ReportConflict(policy: PolicyDocument, store: Store, args: ToolArgs) returns (r: Result<ToolResult, Exception>)
    requires store.Valid()
    modifies policy`issues
    ensures r == old(ReportAnswer(store, args, policy.issues))
    ensures r != Success(Reported) ==> policy.issues == old(policy.issues)
    ensures r == Success(Reported) ==>
      var other := Target(store, args).value;
      |policy.issues| == |old(policy.issues)| + 1 && policy.issues[..|old(policy.issues)|] == old(policy.issues)
      && fresh(policy.issues[|old(policy.issues)|])
      && ReportIssue(policy.issues[|old(policy.issues)|], policy, args)
      && Mirrors(policy.issues[|old(policy.issues)|], ConflictInput(args, other), 1, |ConflictSuggestions(args)|)
      && forall a :: 0 <= a < |policy.issues| && OpenConflictWith(policy.issues[a], other.id) ==> a == |old(policy.issues)|
    ensures old(UniqueOpenConflicts(policy.issues)) ==> UniqueOpenConflicts(policy.issues)
  {
    var target := Target(store, args);
    if target.None? {
      return Success(NotFound);
    }
    var other := target.value;
    if ExistingConflict(policy.issues, other.id) {
      return Success(Skipped);
    }
    var input := ConflictInput(args, other);
    ConflictInputPlan(args, other);
    ghost var before := policy.issues;
    var issue, created := CreateIssue(policy, input);
    if created.Failure? {
      return Failure(created.error);
    }
    assert policy.issues == before + [issue];
    assert issue.relatedPolicies == [other];
    forall a, t | 0 <= a < |policy.issues| && OpenConflictWith(policy.issues[a], t)
      ensures a < |before| <==> t != other.id
    {
      if a < |before| {
        assert policy.issues[a] in before;
      } else {
        var d :| d in issue.relatedPolicies && d.id == t;
      }
    }
    r := Success(Reported);
  }

  /** The answer to a tool call that reports nothing; it depends on the store alone. */
  function LookupAnswer(rows: seq<Row>, others: map<int, string>, parse: string -> JsonParse<ToolArgs>, call: ToolCall): Option<Result<ToolResult, Exception>>
  {
    match ParsedArgs(call, parse)
    case Failure(e) => Some(Failure(e))
    case Success(args) =>
      if call.name == Some("get_policy_content") then Some(GetPolicyContent(rows, others, args.policyId))
      else if call.name == Some("report_conflict") then None
      else Some(Success(NoResult))
  }

  /**
   * What a tool call answers on the snapshot, `open` being the documents that the policy's open
   * conflicts link before the call: the store's answer, or report_conflict's.
   */
  function CallAnswer(rows: seq<Row>, others: map<int, string>, parse: string -> JsonParse<ToolArgs>, call: ToolCall, open: set<int>): Result<ToolResult, Exception>
  {
    match LookupAnswer(rows, others, parse, call)
    case Some(answer) => answer
    case None => ReportResult(rows, open, ParsedArgs(call, parse).value)
  }

  /**
   * What handle_tool_call answers, given the scanned policy's issues before the call: the answer
   * on the snapshot of the table and of the documents the open conflicts link.
   */
  function ToolAnswer(store: Store, others: map<int, string>, parse: string -> JsonParse<ToolArgs>, call: ToolCall, issues: seq<Issue>): (r: Result<ToolResult, Exception>)
    reads store, store.documents`content, set i | i in issues
    requires store.Valid()
    ensures r == CallAnswer(Rows(store.documents), others, parse, call, OpenTargets(issues))
  {
    match LookupAnswer(Rows(store.documents), others, parse, call)
    case Some(answer) => answer
    case None => ReportAnswer(store, ParsedArgs(call, parse).value, issues)
  }

  /**
   * handle_tool_call: the arguments are parsed first, whatever the tool; then get_policy_content,
   * report_conflict, or nil for any other name. Only a report adds an issue, the report's own.
   */
  method HandleToolCall(policy: PolicyDocument, store: Store, others: map<int, string>,
                        parse: string -> JsonParse<ToolArgs>, call: ToolCall)
    returns (r: Result<ToolResult, Exception>)
    requires store.Valid()
    modifies policy`issues
    ensures r == old(ToolAnswer(store, others, parse, call, policy.issues))
    ensures r != Success(Reported) ==> policy.issues == old(policy.issues)
    ensures r == Success(Reported) ==>
      |policy.issues| == |old(policy.issues)| + 1 && policy.issues[..|old(policy.issues)|] == old(policy.issues)
      && fresh(policy.issues[|old(policy.issues)|]) && ParsedArgs(call, parse).Success?
      && ReportIssue(policy.issues[|old(policy.issues)|], policy, ParsedArgs(call, parse).value)
    ensures old(UniqueOpenConflicts(policy.issues)) ==> UniqueOpenConflicts(policy.issues)
  {
    var parsed := ParsedArgs(call, parse);
    if parsed.Failure? {
      return Failure(parsed.error);
    }
    var args := parsed.value;
    if call.name == Some("get_policy_content") {
      r := GetPolicyContent(Rows(store.documents), others, args.policyId);
    } else if call.name == Some("report_conflict") {
      r := ReportConflict(policy, store, args);
    } else {
      r := Success(NoResult);
    }
  }

  /** The arguments of a call answered Reported. */
  function ReportOf(parse: string -> JsonParse<ToolArgs>, call: ToolCall, result: ToolResult): seq<ToolArgs> {
    if result == Reported && ParsedArgs(call, parse).Success? then [ParsedArgs(call, parse).value] else []
  }

  /** The arguments of the calls answered Reported, in order. */
  function ReportedArgs(parse: string -> JsonParse<ToolArgs>, calls: seq<ToolCall>, results: seq<ToolResult>): seq<ToolArgs>
    requires |results| <= |calls|
  {
    if results == [] then []
    else
      var n := |results| - 1;
      ReportedArgs(parse, calls, results[..n]) + ReportOf(parse, calls[n], results[n])
  }

  /** The documents the reports name. */
  function Targets(reports: seq<ToolArgs>): set<int> {
    if reports == [] then {}
    else
      var a := reports[|reports| - 1];
      Targets(reports[..|reports| - 1]) + (if a.otherPolicyId.Some? then {a.otherPolicyId.value} else {})
  }

  lemma {:induction false} TargetsAppend(a: seq<ToolArgs>, b: seq<ToolArgs>)
    ensures Targets(a + b) == Targets(a) + Targets(b)
    decreases |b|
  {
    if b == [] {
      assert a + b == a;
    } else {
      assert (a + b)[..|a + b| - 1] == a + b[..|b| - 1];
      TargetsAppend(a, b[..|b| - 1]);
    }
  }

  /** The documents open conflicts link once `results` were answered, `open` being those before. */
  function OpenAfter(parse: string -> JsonParse<ToolArgs>, calls: seq<ToolCall>, open: set<int>, results: seq<ToolResult>): set<int>
    requires |results| <= |calls|
  {
    open + Targets(ReportedArgs(parse, calls, results))
  }

  /**
   * The `tool_calls.each` loop: each call is handled and answered in order, until one raises. The
   * issues it leaves are those of the calls answered Reported, one each and in order, and no two
   * open conflicts come to link the same document.
   */
  method AnswerToolCalls(policy: PolicyDocument, store: Store, others: map<int, string>,
                         parse: string -> JsonParse<ToolArgs>, calls: seq<ToolCall>, ghost open: set<int>)
    returns (results: seq<ToolResult>, error: Option<Exception>, created: seq<Issue>)
    requires store.Valid() && open == OpenTargets(policy.issues)
    modifies policy`issues
    ensures error.None? ==> |results| == |calls|
    ensures error.Some? ==> |results| < |calls|
    ensures AnsweredInOrder(Rows(store.documents), others, parse, calls, open, results)
    ensures error.Some? ==>
      CallAnswer(Rows(store.documents), others, parse, calls[|results|], OpenAfter(parse, calls, open, results)) == Failure(error.value)
    ensures OpenTargets(policy.issues) == OpenAfter(parse, calls, open, results)
    ensures policy.issues == old(policy.issues) + created
    ensures ReportedAs(created, policy, ReportedArgs(parse, calls, results))
    ensures forall i :: i in created ==> fresh(i)
    ensures old(UniqueOpenConflicts(policy.issues)) ==> UniqueOpenConflicts(policy.issues)
  {
    results, created := [], [];
    error := None;
    while |results| < |calls| && error.None?
      invariant |results| <= |calls|
      invariant error.Some? ==>
        |results| < |calls| && CallAnswer(Rows(store.documents), others, parse, calls[|results|], OpenAfter(parse, calls, open, results)) == Failure(error.value)
      invariant Answering(policy, Rows(store.documents), others, parse, calls, open, results, created)
      invariant policy.issues == old(policy.issues) + created
      invariant fresh(created)
      invariant old(UniqueOpenConflicts(policy.issues)) ==> UniqueOpenConflicts(policy.issues)
      decreases |calls| - |results| + (if error.None? then 1 else 0)
    {
      var next, made;
      next, error, made := AnswerNext(policy, store, others, parse, calls, results, open, created);
      Sequences.Associative(old(policy.issues), created, made);
      results, created := next, created + made;
    }
  }

  /**
   * What the `tool_calls.each` loop keeps: the answers so far are due in order, the documents their
   * reports name are linked by open conflicts, and the issues created are those of the reports.
   */
  ghost predicate Answering(policy: PolicyDocument, rows: seq<Row>, others: map<int, string>, parse: string -> JsonParse<ToolArgs>,
                            calls: seq<ToolCall>, open: set<int>, results: seq<ToolResult>, created: seq<Issue>)
    reads policy, set i | i in policy.issues, set i | i in created
  {
    AnsweredInOrder(rows, others, parse, calls, open, results)
    && OpenTargets(policy.issues) == OpenAfter(parse, calls, open, results)
    && ReportedAs(created, policy, ReportedArgs(parse, calls, results))
  }

  /**
   * One pass of the `tool_calls.each` loop: the next call handled, and its answer added. The issue
   * it creates, if any, is that of the call's report.
   */
  method AnswerNext(policy: PolicyDocument, store: Store, others: map<int, string>,
                    parse: string -> JsonParse<ToolArgs>, calls: seq<ToolCall>, results: seq<ToolResult>,
                    ghost open: set<int>, ghost created: seq<Issue>)
    returns (next: seq<ToolResult>, error: Option<Exception>, made: seq<Issue>)
    requires store.Valid() && |results| < |calls|
    requires Answering(policy, Rows(store.documents), others, parse, calls, open, results, created)
    modifies policy`issues
    ensures error.Some? ==>
      CallAnswer(Rows(store.documents), others, parse, calls[|results|], OpenAfter(parse, calls, open, results)) == Failure(error.value)
      && next == results && made == []
    ensures error.None? ==> |next| == |results| + 1
    ensures Answering(policy, Rows(store.documents), others, parse, calls, open, next, created + made)
    ensures policy.issues == old(policy.issues) + made
    ensures |made| <= 1 && fresh(made)
    ensures old(UniqueOpenConflicts(policy.issues)) ==> UniqueOpenConflicts(policy.issues)
  {
    ghost var rows := Rows(store.documents);
    var count := |policy.issues|;
    ghost var before := policy.issues;
    var call := calls[|results|];
    var r := HandleToolCall(policy, store, others, parse, call);
    assert Rows(store.documents) == rows;
    made := [];
    if |policy.issues| != count {
      var issue := policy.issues[count];
      assert fresh(issue);
      made := [issue];
      Sequences.LastOf(policy.issues);
    }
    assert policy.issues == before + made;
    if r.Failure? {
      next, error := results, Some(r.error);
      assert created + made == created;
    } else {
      next, error := results + [r.value], None;
      NextState(rows, others, parse, calls, open, results, r.value, policy, before, created, made);
    }
  }

  /**
   * The state after the next call was answered `v`: the answer is added, and so are the issue and
   * the document of the call's report, if it was answered Reported.
   */
  lemma NextState(rows: seq<Row>, others: map<int, string>, parse: string -> JsonParse<ToolArgs>,
                  calls: seq<ToolCall>, open: set<int>, results: seq<ToolResult>, v: ToolResult,
                  policy: PolicyDocument, before: seq<Issue>, created: seq<Issue>, made: seq<Issue>)
    requires |results| < |calls| && AnsweredInOrder(rows, others, parse, calls, open, results)
    requires CallAnswer(rows, others, parse, calls[|results|], OpenAfter(parse, calls, open, results)) == Success(v)
    requires OpenTargets(before) == OpenAfter(parse, calls, open, results)
    requires ReportedAs(created, policy, ReportedArgs(parse, calls, results))
    requires v != Reported ==> made == []
    requires v == Reported ==>
      |made| == 1 && ParsedArgs(calls[|results|], parse).Success?
      && ReportIssue(made[0], policy, ParsedArgs(calls[|results|], parse).value)
    ensures AnsweredInOrder(rows, others, parse, calls, open, results + [v])
    ensures OpenTargets(before + made) == OpenAfter(parse, calls, open, results + [v])
    ensures ReportedAs(created + made, policy, ReportedArgs(parse, calls, results + [v]))
  {
    NextAnswer(rows, others, parse, calls, open, results, v);
    var report := ReportOf(parse, calls[|results|], v);
    if v == Reported {
      var args := ParsedArgs(calls[|results|], parse).value;
      assert report == [args] && made == [made[0]];
      OpenTargetsSnoc(before, made[0], policy);
      TargetsOne(args);
      ReportedAsAppend(created, made, policy, ReportedArgs(parse, calls, results), report);
    } else {
      assert report == [] && before + made == before && created + made == created;
      assert ReportedArgs(parse, calls, results) + report == ReportedArgs(parse, calls, results);
    }
  }

  /** Answering the next call adds its answer, and its report if it was answered Reported. */
  lemma NextAnswer(rows: seq<Row>, others: map<int, string>, parse: string -> JsonParse<ToolArgs>,
                   calls: seq<ToolCall>, open: set<int>, results: seq<ToolResult>, v: ToolResult)
    requires |results| < |calls| && AnsweredInOrder(rows, others, parse, calls, open, results)
    requires CallAnswer(rows, others, parse, calls[|results|], OpenAfter(parse, calls, open, results)) == Success(v)
    ensures AnsweredInOrder(rows, others, parse, calls, open, results + [v])
    ensures ReportedArgs(parse, calls, results + [v]) == ReportedArgs(parse, calls, results) + ReportOf(parse, calls[|results|], v)
    ensures OpenAfter(parse, calls, open, results + [v]) == OpenAfter(parse, calls, open, results) + Targets(ReportOf(parse, calls[|results|], v))
  {
    assert (results + [v])[..|results|] == results;
    TargetsAppend(ReportedArgs(parse, calls, results), ReportOf(parse, calls[|results|], v));
  }

  /** The documents one report names. */
  lemma TargetsOne(a: ToolArgs)
    ensures Targets([a]) == if a.otherPolicyId.Some? then {a.otherPolicyId.value} else {}
  {
    assert [a][..0] == [];
  }

  /**
   * The answer due to the call after those answered `prefix`, `open` being the documents linked
   * before the first: the documents reported by the calls before it count as linked.
   */
  predicate DueAnswer(rows: seq<Row>, others: map<int, string>, parse: string -> JsonParse<ToolArgs>,
                      calls: seq<ToolCall>, open: set<int>, prefix: seq<ToolResult>, result: ToolResult)
    requires |prefix| < |calls|
  {
    CallAnswer(rows, others, parse, calls[|prefix|], OpenAfter(parse, calls, open, prefix)) == Success(result)
  }

  /** The answers, in order, to the first `|results|` calls, `open` being the documents linked before the first. */
  predicate AnsweredInOrder(rows: seq<Row>, others: map<int, string>, parse: string -> JsonParse<ToolArgs>,
                            calls: seq<ToolCall>, open: set<int>, results: seq<ToolResult>)
  {
    |results| <= |calls|
    && (results != [] ==>
          var n := |results| - 1;
          AnsweredInOrder(rows, others, parse, calls, open, results[..n])
          && DueAnswer(rows, others, parse, calls, open, results[..n], results[n]))
  }

  /** Each answer is the one its call is due, given the answers before it. */
  lemma {:induction false} AnsweredInOrderEach(rows: seq<Row>, others: map<int, string>, parse: string -> JsonParse<ToolArgs>,
                                               calls: seq<ToolCall>, open: set<int>, results: seq<ToolResult>, j: nat)
    requires AnsweredInOrder(rows, others, parse, calls, open, results) && j < |results|
    ensures DueAnswer(rows, others, parse, calls, open, results[..j], results[j])
    decreases |results|
  {
    var n := |results| - 1;
    if j < n {
      AnsweredInOrderEach(rows, others, parse, calls, open, results[..n], j);
      DuePrefix(rows, others, parse, calls, open, results, n, j);
    }
  }

  lemma DuePrefix(rows: seq<Row>, others: map<int, string>, parse: string -> JsonParse<ToolArgs>,
                  calls: seq<ToolCall>, open: set<int>, results: seq<ToolResult>, n: nat, j: nat)
    requires j < n <= |results| <= |calls|
    requires DueAnswer(rows, others, parse, calls, open, results[..n][..j], results[..n][j])
    ensures DueAnswer(rows, others, parse, calls, open, results[..j], results[j])
  {
    assert results[..n][..j] == results[..j];
  }

  /** The documents reported by a prefix of the answers are reported by all of them. */
  lemma {:induction false} ReportedPrefix(parse: string -> JsonParse<ToolArgs>, calls: seq<ToolCall>, results: seq<ToolResult>, m: nat)
    requires m <= |results| <= |calls|
    ensures Targets(ReportedArgs(parse, calls, results[..m])) <= Targets(ReportedArgs(parse, calls, results))
    decreases |results|
  {
    if m < |results| {
      var n := |results| - 1;
      ReportedPrefix(parse, calls, results[..n], m);
      assert results[..n][..m] == results[..m];
      TargetsAppend(ReportedArgs(parse, calls, results[..n]), ReportOf(parse, calls[n], results[n]));
    } else {
      assert results[..m] == results;
    }
  }

  /**
   * Within one reply, once a report on a document was answered Reported, a later report_conflict
   * call naming the same document is answered Skipped.
   */
  lemma RepeatedReportSkipped(rows: seq<Row>, others: map<int, string>, parse: string -> JsonParse<ToolArgs>,
                              calls: seq<ToolCall>, open: set<int>, results: seq<ToolResult>, j: nat, j': nat)
    requires AnsweredInOrder(rows, others, parse, calls, open, results)
    requires j < j' < |results| && results[j] == Reported
    requires calls[j'].name == Some("report_conflict") && ParsedArgs(calls[j'], parse).Success? && ParsedArgs(calls[j], parse).Success?
    requires ParsedArgs(calls[j'], parse).value.otherPolicyId == ParsedArgs(calls[j], parse).value.otherPolicyId
    ensures results[j'] == Skipped
  {
    ReportedStaysOpen(rows, others, parse, calls, open, results, j, j');
    AnsweredInOrderEach(rows, others, parse, calls, open, results, j');
  }

  /** The document of a call answered Reported exists and is linked by an open conflict from then on. */
  lemma ReportedStaysOpen(rows: seq<Row>, others: map<int, string>, parse: string -> JsonParse<ToolArgs>,
                          calls: seq<ToolCall>, open: set<int>, results: seq<ToolResult>, j: nat, k: nat)
    requires AnsweredInOrder(rows, others, parse, calls, open, results)
    requires j < k <= |results| && results[j] == Reported
    ensures ParsedArgs(calls[j], parse).Success? && ParsedArgs(calls[j], parse).value.otherPolicyId.Some?
    ensures var t := ParsedArgs(calls[j], parse).value.otherPolicyId.value;
      FindRow(rows, t).Some? && t in OpenAfter(parse, calls, open, results[..k])
  {
    AnsweredInOrderEach(rows, others, parse, calls, open, results, j);
    ReportedTargetIn(parse, calls, results, j, k);
  }

  /** The document of a call answered Reported is among the targets of every later prefix. */
  lemma {:induction false} ReportedTargetIn(parse: string -> JsonParse<ToolArgs>, calls: seq<ToolCall>, results: seq<ToolResult>, j: nat, k: nat)
    requires j < k <= |results| <= |calls| && results[j] == Reported
    requires ParsedArgs(calls[j], parse).Success? && ParsedArgs(calls[j], parse).value.otherPolicyId.Some?
    ensures ParsedArgs(calls[j], parse).value.otherPolicyId.value in Targets(ReportedArgs(parse, calls, results[..k]))
  {
    var args := ParsedArgs(calls[j], parse).value;
    var t := args.otherPolicyId.value;
    var prefix := results[..k];
    assert prefix[..j] == results[..j] && prefix[..j + 1][..j] == results[..j] && prefix[..j + 1][j] == Reported;
    TargetsAppend(ReportedArgs(parse, calls, results[..j]), [args]);
    assert Targets([args]) == Targets([]) + {t} by { assert [args][..0] == []; }
    assert ReportedArgs(parse, calls, prefix[..j + 1]) == ReportedArgs(parse, calls, results[..j]) + [args];
    ReportedPrefix(parse, calls, prefix, j + 1);
  }

  // =============================================================================================
  // The conversation

  /** One round of the conversation: the reply, the requests chat_with_retry sent for it, the answers. */
  datatype Turn = Turn(reply: AssistantMessage, requests: nat, results: seq<ToolResult>)

  function CallsOf(m: AssistantMessage): seq<ToolCall> {
    m.toolCalls.GetOr([])
  }

  /** `tool_calls&.any?` */
  predicate HasToolCalls(m: AssistantMessage) {
    |CallsOf(m)| > 0
  }

  predicate Answered(t: Turn) {
    |t.results| == |CallsOf(t.reply)|
  }

  predicate AllAnswered(turns: seq<Turn>) {
    turns == [] || (AllAnswered(turns[..|turns| - 1]) && Answered(turns[|turns| - 1]))
  }

  /** The `role: "tool"` messages: each answer under the id of the call it answers. */
  function Replies(calls: seq<ToolCall>, results: seq<ToolResult>): (r: seq<Message>)
    requires |results| <= |calls|
    ensures |r| == |results|
    ensures forall j :: 0 <= j < |results| ==> r[j] == ToolReply(calls[j].id, results[j])
  {
    seq(|results|, j requires 0 <= j < |results| => ToolReply(calls[j].id, results[j]))
  }

  /** What a round appends to `messages`: the reply, then one tool message per call. */
  function TurnMessages(t: Turn): (r: seq<Message>)
    requires Answered(t)
    ensures |r| == 1 + |CallsOf(t.reply)| && r[0] == Assistant(t.reply)
    ensures forall j :: 0 <= j < |t.results| ==> r[1 + j] == ToolReply(CallsOf(t.reply)[j].id, t.results[j])
  {
    [Assistant(t.reply)] + Replies(CallsOf(t.reply), t.results)
  }

  /** `messages` after the given rounds. */
  function Transcript(turns: seq<Turn>): (r: seq<Message>)
    requires AllAnswered(turns)
    ensures |r| >= 2 && r[..2] == [SystemPrompt, UserPrompt]
  {
    if turns == [] then [SystemPrompt, UserPrompt]
    else Transcript(turns[..|turns| - 1]) + TurnMessages(turns[|turns| - 1])
  }

  /** The chat requests the given rounds sent. */
  function RequestsOf(turns: seq<Turn>): nat {
    if turns == [] then 0 else RequestsOf(turns[..|turns| - 1]) + turns[|turns| - 1].requests
  }

  /** The reports a round made: those of its calls answered Reported, in order. */
  function TurnReports(parse: string -> JsonParse<ToolArgs>, t: Turn): seq<ToolArgs> {
    if |t.results| <= |CallsOf(t.reply)| then ReportedArgs(parse, CallsOf(t.reply), t.results) else []
  }

  /** The reports the given rounds made, in order. */
  function ReportsOf(parse: string -> JsonParse<ToolArgs>, turns: seq<Turn>): seq<ToolArgs> {
    if turns == [] then [] else ReportsOf(parse, turns[..|turns| - 1]) + TurnReports(parse, turns[|turns| - 1])
  }

  /** The documents open conflicts link after the given rounds, `open` being those before the first. */
  function OpenThrough(parse: string -> JsonParse<ToolArgs>, open: set<int>, turns: seq<Turn>): set<int> {
    open + Targets(ReportsOf(parse, turns))
  }

  /** A round adds its own reports, and the documents they name. */
  lemma ReportsAfterTurn(parse: string -> JsonParse<ToolArgs>, open: set<int>, turns: seq<Turn>, t: Turn)
    requires |t.results| <= |CallsOf(t.reply)|
    ensures ReportsOf(parse, turns + [t]) == ReportsOf(parse, turns) + TurnReports(parse, t)
    ensures OpenThrough(parse, open, turns + [t]) == OpenAfter(parse, CallsOf(t.reply), OpenThrough(parse, open, turns), t.results)
  {
    assert (turns + [t])[..|turns|] == turns;
    TargetsAppend(ReportsOf(parse, turns), TurnReports(parse, t));
  }

  /**
   * Round `t`, after the logged rounds `prior`: its reply is what chat_with_retry got for the
   * transcript of `prior`, and its answers are the ones its calls are due, the documents reported
   * in `prior` counted as linked.
   */
  predicate Logged(chat: Chat, rows: seq<Row>, others: map<int, string>, parse: string -> JsonParse<ToolArgs>,
                   open: set<int>, prior: seq<Turn>, t: Turn)
    requires AllAnswered(prior)
    decreases |prior|, 1
  {
    var run := RetryFrom(chat, Transcript(prior), RequestsOf(prior), 0);
    ChatLog(chat, rows, others, parse, open, prior)
    && run.outcome == Success(Some(t.reply)) && run.requests == t.requests
    && AnsweredInOrder(rows, others, parse, CallsOf(t.reply), OpenThrough(parse, open, prior), t.results)
  }

  /** Every round is logged. */
  predicate ChatLog(chat: Chat, rows: seq<Row>, others: map<int, string>, parse: string -> JsonParse<ToolArgs>,
                    open: set<int>, turns: seq<Turn>)
    requires AllAnswered(turns)
    decreases |turns|, 0
  {
    turns == [] || Logged(chat, rows, others, parse, open, turns[..|turns| - 1], turns[|turns| - 1])
  }

  /** Every prefix of answered rounds is answered, and of logged rounds logged. */
  lemma {:induction false} LogPrefix(chat: Chat, rows: seq<Row>, others: map<int, string>,
                                     parse: string -> JsonParse<ToolArgs>, open: set<int>, turns: seq<Turn>, k: nat)
    requires k <= |turns| && AllAnswered(turns)
    ensures AllAnswered(turns[..k])
    ensures ChatLog(chat, rows, others, parse, open, turns) ==> ChatLog(chat, rows, others, parse, open, turns[..k])
    decreases |turns|
  {
    if k < |turns| {
      var prior := turns[..|turns| - 1];
      assert prior[..k] == turns[..k];
      if ChatLog(chat, rows, others, parse, open, turns) {
        assert Logged(chat, rows, others, parse, open, prior, turns[|turns| - 1]);
      }
      LogPrefix(chat, rows, others, parse, open, prior, k);
    } else {
      assert turns[..k] == turns;
    }
  }

  /** In particular, every round is answered and logged, and its answers are the ones its calls are due. */
  lemma LogAnswers(chat: Chat, rows: seq<Row>, others: map<int, string>,
                   parse: string -> JsonParse<ToolArgs>, open: set<int>, turns: seq<Turn>, k: nat)
    requires AllAnswered(turns) && ChatLog(chat, rows, others, parse, open, turns) && k < |turns|
    ensures AllAnswered(turns[..k]) && Answered(turns[k])
    ensures Logged(chat, rows, others, parse, open, turns[..k], turns[k])
    ensures AnsweredInOrder(rows, others, parse, CallsOf(turns[k].reply), OpenThrough(parse, open, turns[..k]), turns[k].results)
  {
    LogPrefix(chat, rows, others, parse, open, turns, k + 1);
    assert turns[..k + 1][..k] == turns[..k];
  }

  /** The transcript after a round is the one before it, then the reply and its answers. */
  lemma TranscriptAfterTurn(turns: seq<Turn>, t: Turn)
    requires AllAnswered(turns) && Answered(t)
    ensures AllAnswered(turns + [t])
    ensures Transcript(turns + [t]) == Transcript(turns) + TurnMessages(t)
    ensures RequestsOf(turns + [t]) == RequestsOf(turns) + t.requests
  {
    assert (turns + [t])[..|turns|] == turns;
  }

  /**
   * The transcript holds the two prompts, then per round the reply and as many tool messages as it
   * had tool calls.
   */
  lemma {:induction false} TranscriptLength(turns: seq<Turn>)
    requires AllAnswered(turns)
    ensures |Transcript(turns)| == 2 + |turns| + ToolMessages(turns)
  {
    if turns != [] {
      TranscriptLength(turns[..|turns| - 1]);
    }
  }

  function ToolMessages(turns: seq<Turn>): nat {
    if turns == [] then 0 else ToolMessages(turns[..|turns| - 1]) + |CallsOf(turns[|turns| - 1].reply)|
  }

  /** A round ends the conversation unless it asked for tools; the loop stops after 50 rounds. */
  predicate Finished(turns: seq<Turn>) {
    0 < |turns| <= MaxIterations
    && AskedForTools(turns[..|turns| - 1])
    && (|turns| == MaxIterations || !HasToolCalls(turns[|turns| - 1].reply))
  }

  /** Every round asked for tools. */
  predicate AskedForTools(turns: seq<Turn>) {
    turns == [] || (AskedForTools(turns[..|turns| - 1]) && HasToolCalls(turns[|turns| - 1].reply))
  }

  /** What `message["tool_calls"]` raises when the reply has no `choices[0].message`. */
  const NilMessage: Exception := Exception("NoMethodError", "undefined method '[]' for nil")

  /**
   * How the round `t` after `turns` raised `e`: in chat_with_retry or on a nil message, before any
   * call was answered; or in the first of its reply's tool calls that raised, the calls before it
   * answered in order.
   */
  predicate FailedAfter(chat: Chat, rows: seq<Row>, others: map<int, string>, parse: string -> JsonParse<ToolArgs>,
                        open: set<int>, turns: seq<Turn>, t: Turn, e: Exception)
    requires AllAnswered(turns)
  {
    var run := RetryFrom(chat, Transcript(turns), RequestsOf(turns), 0);
    var linked := OpenThrough(parse, open, turns);
    (t.results == [] && (run.outcome == Failure(e) || (run.outcome == Success(None) && e == NilMessage)))
    || (run.outcome == Success(Some(t.reply)) && |t.results| < |CallsOf(t.reply)|
        && AnsweredInOrder(rows, others, parse, CallsOf(t.reply), linked, t.results)
        && CallAnswer(rows, others, parse, CallsOf(t.reply)[|t.results|], OpenAfter(parse, CallsOf(t.reply), linked, t.results)) == Failure(e))
  }

  /** A round whose reply answered the transcript so far extends the log. */
  lemma LogTurn(chat: Chat, rows: seq<Row>, others: map<int, string>, parse: string -> JsonParse<ToolArgs>,
                open: set<int>, turns: seq<Turn>, t: Turn)
    requires AllAnswered(turns) && ChatLog(chat, rows, others, parse, open, turns)
    requires Answered(t) && AnsweredInOrder(rows, others, parse, CallsOf(t.reply), OpenThrough(parse, open, turns), t.results)
    requires var run := RetryFrom(chat, Transcript(turns), RequestsOf(turns), 0);
      run.outcome == Success(Some(t.reply)) && run.requests == t.requests
    ensures AllAnswered(turns + [t]) && ChatLog(chat, rows, others, parse, open, turns + [t])
    ensures Transcript(turns + [t]) == Transcript(turns) + TurnMessages(t)
    ensures RequestsOf(turns + [t]) == RequestsOf(turns) + t.requests
  {
    TranscriptAfterTurn(turns, t);
    assert (turns + [t])[..|turns|] == turns;
    assert Logged(chat, rows, others, parse, open, turns, t);
  }

  /**
   * One pass of scan's loop after the iteration check: chat_with_retry on the transcript so far,
   * the reply, and the answers to its tool calls, if it asked for any. The issues it creates are
   * those of the round's reports.
   */
  method TakeTurn(policy: PolicyDocument, store: Store, others: map<int, string>, chat: Chat,
                  parse: string -> JsonParse<ToolArgs>, ghost open: set<int>, ghost turns: seq<Turn>,
                  messages: seq<Message>, requests: nat)
    returns (turn: Turn, error: Option<Exception>, sent: nat, created: seq<Issue>)
    requires store.Valid() && AllAnswered(turns) && messages == Transcript(turns) && requests == RequestsOf(turns)
    requires OpenTargets(policy.issues) == OpenThrough(parse, open, turns)
    modifies policy`issues
    ensures 1 <= sent <= MaxRetries + 1
    ensures |turn.results| <= |CallsOf(turn.reply)|
    ensures error.None? ==>
      var run := RetryFrom(chat, messages, requests, 0);
      Answered(turn) && run.outcome == Success(Some(turn.reply)) && run.requests == sent && turn.requests == sent
      && AnsweredInOrder(Rows(store.documents), others, parse, CallsOf(turn.reply), OpenThrough(parse, open, turns), turn.results)
    ensures error.Some? ==> FailedAfter(chat, Rows(store.documents), others, parse, open, turns, turn, error.value)
    ensures OpenTargets(policy.issues) == OpenAfter(parse, CallsOf(turn.reply), OpenThrough(parse, open, turns), turn.results)
    ensures policy.issues == old(policy.issues) + created
    ensures ReportedAs(created, policy, TurnReports(parse, turn))
    ensures forall i :: i in created ==> fresh(i)
    ensures old(UniqueOpenConflicts(policy.issues)) ==> UniqueOpenConflicts(policy.issues)
  {
    var run := ChatWithRetry(chat, messages, requests);
    RetryFromCounts(chat, messages, requests, 0);
    sent := run.requests;
    turn, created := Turn(AssistantMessage(None, None), sent, []), [];
    if run.outcome.Failure? {
      return turn, Some(run.outcome.error), sent, created;
    }
    if run.outcome.value.None? {
      return turn, Some(NilMessage), sent, created;
    }
    var reply := run.outcome.value.value;
    if !HasToolCalls(reply) {
      return Turn(reply, sent, []), None, sent, created;
    }
    var results;
    results, error, created := AnswerToolCalls(policy, store, others, parse, CallsOf(reply), OpenThrough(parse, open, turns));
    turn := Turn(reply, sent, results);
  }

  /** The reports of a scan: those of its rounds, and of the round that raised, if one did. */
  function ScanReports(parse: string -> JsonParse<ToolArgs>, outcome: Outcome, turns: seq<Turn>, failed: Turn): seq<ToolArgs> {
    if outcome.Failure? then ReportsOf(parse, turns + [failed]) else ReportsOf(parse, turns)
  }

  /**
   * What a scan of a policy with `content` did, on the snapshot of the table, the other policies'
   * contents and the documents the policy's open conflicts linked before it.
   */
  ghost predicate Scanned(content: Option<string>, rows: seq<Row>, others: map<int, string>, chat: Chat,
                          parse: string -> JsonParse<ToolArgs>, open: set<int>, outcome: Outcome, requests: nat,
                          messages: seq<Message>, turns: seq<Turn>, failed: Turn)
  {
    (requests > 0 <==> Present(content) && others != map[])
    && (requests == 0 ==> outcome == Done && turns == [] && ScanReports(parse, outcome, turns, failed) == [])
    && (requests > 0 ==> Conversation(rows, others, chat, parse, open, outcome, requests, messages, turns, failed))
  }

  /**
   * What a scan of a policy with `content` did, for some conversation: the outcome that
   * conversation ended in, and one issue created per report it made.
   */
  ghost predicate ScannedWith(policy: PolicyDocument, content: Option<string>, rows: seq<Row>, others: map<int, string>,
                              chat: Chat, parse: string -> JsonParse<ToolArgs>, open: set<int>, outcome: Outcome,
                              created: seq<Issue>)
    reads set i | i in created
  {
    exists requests: nat, messages: seq<Message>, turns: seq<Turn>, failed: Turn ::
      Scanned(content, rows, others, chat, parse, open, outcome, requests, messages, turns, failed)
      && ReportedAs(created, policy, ScanReports(parse, outcome, turns, failed))
  }

  /**
   * What scan's loop did: at most 50 rounds and 50 * 6 requests, each round logged; it either
   * finished, with the transcript as its messages, or raised in the round after `turns`.
   */
  ghost predicate Conversation(rows: seq<Row>, others: map<int, string>, chat: Chat,
                               parse: string -> JsonParse<ToolArgs>, open: set<int>, outcome: Outcome, requests: nat,
                               messages: seq<Message>, turns: seq<Turn>, failed: Turn)
  {
    1 <= requests <= MaxIterations * (MaxRetries + 1)
    && |turns| <= MaxIterations && AllAnswered(turns)
    && ChatLog(chat, rows, others, parse, open, turns)
    && (outcome.Success? ==> Finished(turns) && messages == Transcript(turns))
    && (outcome.Failure? ==>
          |turns| < MaxIterations && AskedForTools(turns) && FailedAfter(chat, rows, others, parse, open, turns, failed, outcome.error))
  }

  /**
   * What scan's loop leaves behind: the conversation, and one new issue per report of it, in order,
   * appended to the issues the policy had before.
   */
  ghost predicate Ended(policy: PolicyDocument, rows: seq<Row>, others: map<int, string>, chat: Chat,
                        parse: string -> JsonParse<ToolArgs>, open: set<int>, before: seq<Issue>, outcome: Outcome,
                        requests: nat, messages: seq<Message>, turns: seq<Turn>, failed: Turn, created: seq<Issue>)
    reads policy, set i | i in created
  {
    Conversation(rows, others, chat, parse, open, outcome, requests, messages, turns, failed)
    && policy.issues == before + created && ReportedAs(created, policy, ScanReports(parse, outcome, turns, failed))
  }

  /** The loop ends well when its last round asked for no tools or it ran all 50. */
  lemma Concluded(policy: PolicyDocument, rows: seq<Row>, others: map<int, string>, chat: Chat,
                  parse: string -> JsonParse<ToolArgs>, open: set<int>, before: seq<Issue>, turns: seq<Turn>,
                  messages: seq<Message>, requests: nat, failed: Turn, created: seq<Issue>)
    requires Progress(policy, rows, others, chat, parse, open, before, turns, messages, requests, created) && Finished(turns)
    ensures Ended(policy, rows, others, chat, parse, open, before, Done, requests, messages, turns, failed, created)
  {
    assert ScanReports(parse, Done, turns, failed) == ReportsOf(parse, turns);
  }

  /** A round after `turns`, which all asked for tools, that raised `e` ends the conversation with it. */
  lemma FailedConversation(rows: seq<Row>, others: map<int, string>, chat: Chat, parse: string -> JsonParse<ToolArgs>,
                           open: set<int>, turns: seq<Turn>, messages: seq<Message>, requests: nat, failed: Turn,
                           e: Exception)
    requires AllAnswered(turns) && ChatLog(chat, rows, others, parse, open, turns)
    requires |turns| < MaxIterations && AskedForTools(turns)
    requires 1 <= requests <= (|turns| + 1) * (MaxRetries + 1)
    requires FailedAfter(chat, rows, others, parse, open, turns, failed, e)
    ensures Conversation(rows, others, chat, parse, open, Failure(e), requests, messages, turns, failed)
  {
  }

  /** The loop ends badly when the round after `turns` raises `e`; that round's reports count. */
  lemma Abandoned(policy: PolicyDocument, rows: seq<Row>, others: map<int, string>, chat: Chat,
                  parse: string -> JsonParse<ToolArgs>, open: set<int>, before: seq<Issue>, turns: seq<Turn>,
                  messages: seq<Message>, requests: nat, failed: Turn, e: Exception, created: seq<Issue>)
    requires AllAnswered(turns) && ChatLog(chat, rows, others, parse, open, turns)
    requires |turns| < MaxIterations && AskedForTools(turns)
    requires 1 <= requests <= (|turns| + 1) * (MaxRetries + 1)
    requires FailedAfter(chat, rows, others, parse, open, turns, failed, e)
    requires policy.issues == before + created && ReportedAs(created, policy, ReportsOf(parse, turns + [failed]))
    ensures Ended(policy, rows, others, chat, parse, open, before, Failure(e), requests, messages, turns, failed, created)
  {
    FailedConversation(rows, others, chat, parse, open, turns, messages, requests, failed, e);
    assert ScanReports(parse, Failure(e), turns, failed) == ReportsOf(parse, turns + [failed]);
  }

  /**
   * scan: nothing is requested for a blank policy or an account without other policies with
   * content; otherwise the conversation runs. What is raised is logged and raised again. The
   * issues it creates are those of its reports, one each and in order.
   */
  method Scan(policy: PolicyDocument, store: Store, chat: Chat, parse: string -> JsonParse<ToolArgs>)
    returns (outcome: Outcome, requests: nat, messages: seq<Message>, created: seq<Issue>,
             ghost turns: seq<Turn>, ghost failed: Turn)
    requires store.Valid()
    modifies policy`issues
    ensures Scanned(policy.content, Rows(store.documents), OtherPolicies(store.documents, policy), chat, parse,
                    old(OpenTargets(policy.issues)), outcome, requests, messages, turns, failed)
    ensures policy.issues == old(policy.issues) + created
    ensures ReportedAs(created, policy, ScanReports(parse, outcome, turns, failed))
    ensures forall i :: i in created ==> fresh(i)
    ensures old(UniqueOpenConflicts(policy.issues)) ==> UniqueOpenConflicts(policy.issues)
  {
    outcome, requests, messages, created, turns := Done, 0, [], [], [];
    failed := Turn(AssistantMessage(None, None), 0, []);
    if Blank(policy.content) {
      return;
    }
    var others := OtherPolicies(store.documents, policy);
    if others == map[] {
      return;
    }
    outcome, requests, messages, created, turns, failed := Converse(policy, store, others, chat, parse, OpenTargets(policy.issues));
  }

  /** What scan's loop keeps about the conversation so far. */
  predicate Conversed(rows: seq<Row>, others: map<int, string>, chat: Chat, parse: string -> JsonParse<ToolArgs>,
                      open: set<int>, turns: seq<Turn>, messages: seq<Message>, requests: nat)
  {
    AllAnswered(turns) && messages == Transcript(turns) && ChatLog(chat, rows, others, parse, open, turns)
    && requests == RequestsOf(turns) && |turns| <= requests <= |turns| * (MaxRetries + 1)
  }

  /**
   * The issues created so far are those of the reports of the rounds so far, and the documents the
   * open conflicts link are those linked before the first round and those the reports name.
   */
  ghost predicate Recorded(policy: PolicyDocument, parse: string -> JsonParse<ToolArgs>, open: set<int>,
                           turns: seq<Turn>, created: seq<Issue>)
    reads policy, set i | i in policy.issues, set i | i in created
  {
    ReportedAs(created, policy, ReportsOf(parse, turns)) && OpenTargets(policy.issues) == OpenThrough(parse, open, turns)
  }

  /** A round extends the record by its own reports and their issues. */
  lemma RecordTurn(policy: PolicyDocument, parse: string -> JsonParse<ToolArgs>, open: set<int>,
                   turns: seq<Turn>, turn: Turn, created: seq<Issue>, made: seq<Issue>)
    requires |turn.results| <= |CallsOf(turn.reply)|
    requires ReportedAs(created, policy, ReportsOf(parse, turns)) && ReportedAs(made, policy, TurnReports(parse, turn))
    requires OpenTargets(policy.issues) == OpenAfter(parse, CallsOf(turn.reply), OpenThrough(parse, open, turns), turn.results)
    ensures Recorded(policy, parse, open, turns + [turn], created + made)
  {
    ReportsAfterTurn(parse, open, turns, turn);
    ReportedAsAppend(created, made, policy, ReportsOf(parse, turns), TurnReports(parse, turn));
  }

  /**
   * What scan's loop keeps: the conversation so far, and the issues created so far, appended to
   * those the policy had before.
   */
  ghost predicate Progress(policy: PolicyDocument, rows: seq<Row>, others: map<int, string>, chat: Chat,
                           parse: string -> JsonParse<ToolArgs>, open: set<int>, before: seq<Issue>,
                           turns: seq<Turn>, messages: seq<Message>, requests: nat, created: seq<Issue>)
    reads policy, set i | i in policy.issues, set i | i in created
  {
    Conversed(rows, others, chat, parse, open, turns, messages, requests)
    && policy.issues == before + created && Recorded(policy, parse, open, turns, created)
  }

  /** Before the first round: the transcript is the two prompts, and nothing was requested or created. */
  lemma Started(policy: PolicyDocument, rows: seq<Row>, others: map<int, string>, chat: Chat,
                parse: string -> JsonParse<ToolArgs>, open: set<int>)
    requires open == OpenTargets(policy.issues)
    ensures Progress(policy, rows, others, chat, parse, open, policy.issues, [], [SystemPrompt, UserPrompt], 0, [])
  {
    assert policy.issues == policy.issues + [];
  }

  /** One round of scan's loop: the next reply, its answers, the grown transcript and the new issues. */
  method Round(policy: PolicyDocument, store: Store, others: map<int, string>, chat: Chat,
               parse: string -> JsonParse<ToolArgs>, ghost open: set<int>, ghost turns: seq<Turn>,
               messages: seq<Message>, requests: nat, created: seq<Issue>, ghost before: seq<Issue>)
    returns (turn: Turn, messages': seq<Message>, requests': nat, created': seq<Issue>, error: Option<Exception>)
    requires store.Valid() && Progress(policy, Rows(store.documents), others, chat, parse, open, before, turns, messages, requests, created)
    modifies policy`issues
    ensures requests < requests' <= requests + MaxRetries + 1
    ensures error.Some? ==>
      FailedAfter(chat, Rows(store.documents), others, parse, open, turns, turn, error.value)
      && policy.issues == before + created' && Recorded(policy, parse, open, turns + [turn], created')
    ensures error.None? ==>
      Progress(policy, Rows(store.documents), others, chat, parse, open, before, turns + [turn], messages', requests', created')
    ensures forall i :: i in created' ==> i in created || fresh(i)
    ensures old(UniqueOpenConflicts(policy.issues)) ==> UniqueOpenConflicts(policy.issues)
  {
    ghost var rows := Rows(store.documents);
    var sent, made;
    turn, error, sent, made := TakeTurn(policy, store, others, chat, parse, open, turns, messages, requests);
    assert Rows(store.documents) == rows;
    requests' := requests + sent;
    Sequences.Associative(before, created, made);
    RecordTurn(policy, parse, open, turns, turn, created, made);
    created', messages' := created + made, messages;
    if error.None? {
      LogTurn(chat, rows, others, parse, open, turns, turn);
      messages' := messages + TurnMessages(turn);
    }
  }

  /**
   * One pass of scan's loop: the iteration check, a round, then the end of the loop when the round
   * raised or its reply asked for no tools. `stop` is how the scan ended, if it did; `turns'` the
   * rounds it then answered.
   */
  method Iteration(policy: PolicyDocument, store: Store, others: map<int, string>, chat: Chat,
                   parse: string -> JsonParse<ToolArgs>, ghost open: set<int>, iterations: nat, ghost turns: seq<Turn>,
                   messages: seq<Message>, requests: nat, created: seq<Issue>, ghost before: seq<Issue>)
    returns (iterations': nat, turn: Turn, messages': seq<Message>, requests': nat, created': seq<Issue>,
             stop: Option<Outcome>, ghost turns': seq<Turn>)
    requires store.Valid() && Progress(policy, Rows(store.documents), others, chat, parse, open, before, turns, messages, requests, created)
    requires iterations == |turns| <= MaxIterations && AskedForTools(turns)
    modifies policy`issues
    ensures iterations' == iterations + 1 && requests <= requests' <= requests + MaxRetries + 1
    ensures stop.Some? ==>
      Ended(policy, Rows(store.documents), others, chat, parse, open, before, stop.value, requests', messages', turns', turn, created')
    ensures stop.None? ==>
      turns' == turns + [turn] && |turns'| == iterations' <= MaxIterations && AskedForTools(turns')
      && Progress(policy, Rows(store.documents), others, chat, parse, open, before, turns', messages', requests', created')
    ensures forall i :: i in created' ==> i in created || fresh(i)
    ensures old(UniqueOpenConflicts(policy.issues)) ==> UniqueOpenConflicts(policy.issues)
  {
    iterations', turn, turns' := iterations + 1, Turn(AssistantMessage(None, None), 0, []), turns;
    if iterations' > MaxIterations {
      messages', requests', created', stop := messages, requests, created, Some(Done);
      Concluded(policy, Rows(store.documents), others, chat, parse, open, before, turns, messages, requests, turn, created);
      return;
    }
    var error;
    turn, messages', requests', created', error := Round(policy, store, others, chat, parse, open, turns, messages, requests, created, before);
    turns' := turns + [turn];
    if error.Some? {
      stop, turns' := Some(Failure(error.value)), turns;
      Abandoned(policy, Rows(store.documents), others, chat, parse, open, before, turns, messages', requests', turn, error.value, created');
    } else if !HasToolCalls(turn.reply) {
      stop := Some(Done);
      assert turns'[..|turns|] == turns;
      Concluded(policy, Rows(store.documents), others, chat, parse, open, before, turns', messages', requests', turn, created');
    } else {
      stop := None;
      assert turns'[..|turns|] == turns;
    }
  }

  /**
   * The loop of scan: up to 50 rounds of chat_with_retry, each reply appended to the transcript
   * with one tool message per tool call, until a reply asks for no tools.
   */
  method Converse(policy: PolicyDocument, store: Store, others: map<int, string>, chat: Chat,
                  parse: string -> JsonParse<ToolArgs>, ghost open: set<int>)
    returns (outcome: Outcome, requests: nat, messages: seq<Message>, created: seq<Issue>,
             ghost turns: seq<Turn>, ghost failed: Turn)
    requires store.Valid() && open == OpenTargets(policy.issues)
    modifies policy`issues
    ensures Ended(policy, Rows(store.documents), others, chat, parse, open, old(policy.issues), outcome, requests, messages, turns, failed, created)
    ensures forall i :: i in created ==> fresh(i)
    ensures old(UniqueOpenConflicts(policy.issues)) ==> UniqueOpenConflicts(policy.issues)
  {
    outcome, requests, messages, created, turns := Done, 0, [SystemPrompt, UserPrompt], [], [];
    failed := Turn(AssistantMessage(None, None), 0, []);
    var iterations := 0;
    Started(policy, Rows(store.documents), others, chat, parse, open);
    while true
      invariant iterations == |turns| <= MaxIterations && AskedForTools(turns)
      invariant Progress(policy, Rows(store.documents), others, chat, parse, open, old(policy.issues), turns, messages, requests, created)
      invariant forall i :: i in created ==> fresh(i)
      invariant old(UniqueOpenConflicts(policy.issues)) ==> UniqueOpenConflicts(policy.issues)
      decreases MaxIterations - iterations
    {
      var turn, stop;
      iterations, turn, messages, requests, created, stop, turns :=
        Iteration(policy, store, others, chat, parse, open, iterations, turns, messages, requests, created, old(policy.issues));
      if stop.Some? {
        outcome, failed := stop.value, turn;
        return;
      }
    }
  }
}

/**
 * The Active Record models of the scan-and-remediate core: policy documents with their scan
 * status, issues with their auto-resolve check, suggested changes that edit a policy's content,
 * accounts and onboarding policies. Rows whose fields the core updates are classes; the
 * policy_documents table is a Store.
 */
module Models {
  import opened Wrappers
  import opened Strings
  import Edits

  /** A recorded `Time.current`. */
  type Timestamp = int

  /** A `published_at` date, kept as an uninterpreted value. */
  datatype Date = Date(year: int, month: int, day: int)

  datatype ScanStatus = Idle | Scanning | Completed | Failed
  datatype IssueType = Conflict | Spelling | CqcCompliance
  datatype IssueStatus = Open | Resolved | Dismissed
  datatype ActionType = ReplaceText | InsertText | DeleteText
  datatype ChangeStatus = Pending | Applied | Dismissed
  datatype OnboardingStatus = Pending | Processing | Completed | Failed

  /** The uploaded file of an onboarding policy, as Active Storage presents it. */
  datatype Attachment = Unattached | Attached(contentType: string)

  // =============================================================================================
  // Scan status of a policy document

  /** The three columns the scan status machine writes. */
  datatype ScanState = ScanState(status: ScanStatus, error: Option<string>, lastScannedAt: Option<Timestamp>)

  /** start_scan!: whether it started, and the state after it. */
  function AfterStart(s: ScanState): (bool, ScanState) {
    if s.status == ScanStatus.Scanning then (false, s)
    else (true, s.(status := ScanStatus.Scanning, error := None))
  }

  /** complete_scan! at time `now`. */
  function AfterComplete(s: ScanState, now: Timestamp): ScanState {
    s.(status := ScanStatus.Completed, lastScannedAt := Some(now))
  }

  /** fail_scan!(message) at time `now`. */
  function AfterFail(s: ScanState, message: string, now: Timestamp): ScanState {
    ScanState(ScanStatus.Failed, Some(message), Some(now))
  }

  /** start_scan! is a check-and-set gate: it refuses, changing nothing, exactly while scanning. */
  lemma StartScanGate(s: ScanState)
    ensures AfterStart(s).0 <==> s.status != ScanStatus.Scanning
    ensures !AfterStart(s).0 ==> AfterStart(s).1 == s
    ensures AfterStart(s).0 ==>
      AfterStart(s).1 == ScanState(ScanStatus.Scanning, None, s.lastScannedAt)
  {
  }

  /** A second start_scan! after a successful one returns false. */
  lemma StartScanExclusive(s: ScanState)
    requires AfterStart(s).0
    ensures !AfterStart(AfterStart(s).1).0
  {
  }

  /** complete_scan! keeps whatever scan_error the document had; fail_scan! records its message. */
  lemma FinishingScans(s: ScanState, message: string, now: Timestamp)
    ensures AfterComplete(s, now).error == s.error
    ensures AfterComplete(s, now).status == ScanStatus.Completed && AfterComplete(s, now).lastScannedAt == Some(now)
    ensures AfterFail(s, message, now).error == Some(message) && AfterFail(s, message, now).status == ScanStatus.Failed
    ensures AfterStart(AfterComplete(s, now)).0 && AfterStart(AfterFail(s, message, now)).0
  {
  }

  /** A completion straight after a failure shows `completed` with the old failure's message. */
  lemma CompleteAfterFailKeepsStaleError(s: ScanState, message: string, t1: Timestamp, t2: Timestamp)
    ensures AfterComplete(AfterFail(s, message, t1), t2) == ScanState(ScanStatus.Completed, Some(message), Some(t2))
  {
  }

  // =============================================================================================
  // Issue auto-resolve

  /** resolve_if_complete!: `resolved` once no child change is pending; otherwise the status stays. */
  function ResolvedStatus(prior: IssueStatus, children: seq<ChangeStatus>): IssueStatus {
    if ChangeStatus.Pending in children then prior else IssueStatus.Resolved
  }

  predicate NoPending(children: seq<ChangeStatus>) {
    forall i :: 0 <= i < |children| ==> children[i] != ChangeStatus.Pending
  }

  /** The check resolves the issue if and only if no child is pending, and otherwise leaves it be. */
  lemma ResolveIffNoPending(prior: IssueStatus, children: seq<ChangeStatus>)
    ensures NoPending(children) ==> ResolvedStatus(prior, children) == IssueStatus.Resolved
    ensures !NoPending(children) ==> ResolvedStatus(prior, children) == prior
  {
    if !NoPending(children) {
      var i :| 0 <= i < |children| && children[i] == ChangeStatus.Pending;
      assert ChangeStatus.Pending in children;
    }
  }

  /** An issue without suggested changes is resolved by the check. */
  lemma ResolveWithoutChildren(prior: IssueStatus)
    ensures ResolvedStatus(prior, []) == IssueStatus.Resolved
  {
  }

  /** Running the check twice leaves what running it once left. */
  lemma ResolveIdempotent(prior: IssueStatus, children: seq<ChangeStatus>)
    ensures ResolvedStatus(ResolvedStatus(prior, children), children) == ResolvedStatus(prior, children)
  {
  }

  /** Once no child is pending the prior status does not matter, even `dismissed`. */
  lemma ResolveIgnoresPriorStatus(p1: IssueStatus, p2: IssueStatus, children: seq<ChangeStatus>)
    requires NoPending(children)
    ensures ResolvedStatus(p1, children) == ResolvedStatus(p2, children) == IssueStatus.Resolved
  {
    ResolveIffNoPending(p1, children);
    ResolveIffNoPending(p2, children);
  }

  /** Settling (applying or dismissing) the last pending change resolves the issue. */
  lemma SettlingLastPendingResolves(prior: IssueStatus, children: seq<ChangeStatus>, k: nat, settled: ChangeStatus)
    requires k < |children| && settled != ChangeStatus.Pending
    requires forall i :: 0 <= i < |children| && i != k ==> children[i] != ChangeStatus.Pending
    ensures ResolvedStatus(prior, children[k := settled]) == IssueStatus.Resolved
  {
    assert NoPending(children[k := settled]);
    ResolveIffNoPending(prior, children[k := settled]);
  }

  /** The statuses of a list of suggested changes, in order. */
  function StatusesOf(cs: seq<SuggestedChange>): (r: seq<ChangeStatus>)
    reads set c | c in cs
    ensures |r| == |cs| && forall i :: 0 <= i < |cs| ==> r[i] == cs[i].status
  {
    if cs == [] then [] else StatusesOf(cs[..|cs| - 1]) + [cs[|cs| - 1].status]
  }

  // =============================================================================================
  // Applying a suggested change

  /** The case dispatch of apply!: the new content, or what the edit raised. */
  function ApplyEdit(action: ActionType, content: Option<string>, original: Option<string>, suggested: string): Result<string, Exception> {
    match action
    case ReplaceText => Edits.ApplyReplace(content, original, suggested)
    case InsertText => Success(Edits.ApplyInsert(content, suggested))
    case DeleteText => Edits.ApplyDelete(content, original)
  }

  /** Replace and delete fail on a stale suggestion; insert never fails. */
  lemma ApplyEditOutcomes(action: ActionType, content: string, original: Option<string>, suggested: string)
    ensures action != ActionType.InsertText && original.Some? && !Contains(content, original.value) ==>
      ApplyEdit(action, Some(content), original, suggested) == Failure(Edits.Stale)
    ensures action == ActionType.InsertText ==>
      ApplyEdit(action, Some(content), original, suggested) == Success(content + "\n\n" + suggested)
    ensures action == ActionType.DeleteText && original.Some? && Contains(content, original.value) ==>
      ApplyEdit(action, Some(content), original, suggested) == Success(ReplaceFirst(content, original.value, ""))
  {
  }

  // =============================================================================================
  // Records

  class Account {
    const id: nat
    var onboardingCompletedAt: Option<Timestamp>
    var onboardingPolicies: seq<OnboardingPolicy>

    constructor (id: nat)
      ensures this.id == id && onboardingCompletedAt == None && onboardingPolicies == []
    {
      this.id := id;
      onboardingCompletedAt := None;
      onboardingPolicies := [];
    }

    /** The onboarding policy statuses of this account, in order. */
    function OnboardingStatuses(): (r: seq<OnboardingStatus>)
      reads this, set p | p in onboardingPolicies
      ensures |r| == |onboardingPolicies|
      ensures forall i :: 0 <= i < |r| ==> r[i] == onboardingPolicies[i].status
    {
      OnboardingStatusesOf(onboardingPolicies)
    }
  }

  function OnboardingStatusesOf(ps: seq<OnboardingPolicy>): (r: seq<OnboardingStatus>)
    reads set p | p in ps
    ensures |r| == |ps| && forall i :: 0 <= i < |ps| ==> r[i] == ps[i].status
  {
    if ps == [] then [] else OnboardingStatusesOf(ps[..|ps| - 1]) + [ps[|ps| - 1].status]
  }

  /** An Onboarding::Policy: an uploaded file waiting to become a policy document. */
  class OnboardingPolicy {
    const id: nat
    const account: Account
    const name: string
    const document: Attachment
    var status: OnboardingStatus

    constructor (id: nat, account: Account, name: string, document: Attachment)
      ensures this.id == id && this.account == account && this.name == name && this.document == document
      ensures status == OnboardingStatus.Pending
    {
      this.id := id;
      this.account := account;
      this.name := name;
      this.document := document;
      status := OnboardingStatus.Pending;
    }
  }

  class PolicyDocument {
    const id: nat
    const account: Account
    const name: string
    var content: Option<string>
    var publishedAt: Option<Date>
    var scanStatus: ScanStatus
    var scanError: Option<string>
    var lastScannedAt: Option<Timestamp>
    var issues: seq<Issue>

    /** A freshly inserted row: idle, never scanned, no issues. */
    constructor (id: nat, account: Account, name: string, content: Option<string>, publishedAt: Option<Date>)
      ensures this.id == id && this.account == account && this.name == name
      ensures this.content == content && this.publishedAt == publishedAt
      ensures State() == ScanState(ScanStatus.Idle, None, None) && issues == []
    {
      this.id := id;
      this.account := account;
      this.name := name;
      this.content := content;
      this.publishedAt := publishedAt;
      scanStatus := ScanStatus.Idle;
      scanError := None;
      lastScannedAt := None;
      issues := [];
    }

    /** The scan columns of this row. */
    function State(): ScanState
      reads this
    {
      ScanState(scanStatus, scanError, lastScannedAt)
    }

    /** can_scan? */
    predicate CanScan()
      reads this
    {
      scanStatus != ScanStatus.Scanning
    }

    /** start_scan!: refuses while scanning; otherwise marks the document scanning and clears the error. */
    method StartScan() returns (started: bool)
      modifies this`scanStatus, this`scanError
      ensures started == old(CanScan()) == AfterStart(old(State())).0
      ensures State() == AfterStart(old(State())).1
      ensures started ==> !CanScan()
    {
      if scanStatus == ScanStatus.Scanning {
        return false;
      }
      scanStatus, scanError := ScanStatus.Scanning, None;
      started := true;
    }

    /** complete_scan! */
    method CompleteScan(now: Timestamp)
      modifies this`scanStatus, this`lastScannedAt
      ensures State() == AfterComplete(old(State()), now)
    {
      scanStatus, lastScannedAt := ScanStatus.Completed, Some(now);
    }

    /** fail_scan!(message) */
    method FailScan(message: string, now: Timestamp)
      modifies this`scanStatus, this`scanError, this`lastScannedAt
      ensures State() == AfterFail(old(State()), message, now)
    {
      scanStatus, scanError, lastScannedAt := ScanStatus.Failed, Some(message), Some(now);
    }
  }

  class Issue {
    const policyDocument: PolicyDocument
    const account: Account
    const issueType: IssueType
    const description: string
    const excerpt: Option<string>
    var status: IssueStatus
    var relatedPolicies: seq<PolicyDocument>
    var suggestedChanges: seq<SuggestedChange>

    /**
     * The row `create!` inserts once validation passed; `set_account` gives it the document's
     * account when none was given and keeps the given one otherwise.
     */
    constructor (policyDocument: PolicyDocument, account: Account?, issueType: IssueType, description: string, excerpt: Option<string>)
      ensures this.policyDocument == policyDocument && this.issueType == issueType
      ensures this.description == description && this.excerpt == excerpt
      ensures account != null ==> this.account == account
      ensures account == null ==> this.account == policyDocument.account
      ensures status == IssueStatus.Open && relatedPolicies == [] && suggestedChanges == []
    {
      this.policyDocument := policyDocument;
      this.account := if account != null then account else policyDocument.account;
      this.issueType := issueType;
      this.description := description;
      this.excerpt := excerpt;
      status := IssueStatus.Open;
      relatedPolicies := [];
      suggestedChanges := [];
    }

    function ChangeStatuses(): seq<ChangeStatus>
      reads this, set c | c in suggestedChanges
    {
      StatusesOf(suggestedChanges)
    }

    /** resolve_if_complete!: re-reads the children and resolves when none is pending. */
    method ResolveIfComplete()
      modifies this`status
      ensures status == ResolvedStatus(old(status), ChangeStatuses())
      ensures !NoPending(ChangeStatuses()) ==> status == old(status)
      ensures NoPending(ChangeStatuses()) ==> status == IssueStatus.Resolved
    {
      ResolveIffNoPending(status, ChangeStatuses());
      if !NoPending(ChangeStatuses()) {
        return;
      }
      status := IssueStatus.Resolved;
    }
  }

  class SuggestedChange {
    const issue: Issue
    const originalText: Option<string>
    const suggestedText: string
    const actionType: ActionType
    var status: ChangeStatus

    /** The row `create!` inserts once validation passed: a pending change. */
    constructor (issue: Issue, originalText: Option<string>, suggestedText: string, actionType: ActionType)
      ensures this.issue == issue && this.originalText == originalText
      ensures this.suggestedText == suggestedText && this.actionType == actionType
      ensures status == ChangeStatus.Pending
    {
      this.issue := issue;
      this.originalText := originalText;
      this.suggestedText := suggestedText;
      this.actionType := actionType;
      status := ChangeStatus.Pending;
    }

    /**
     * apply!: computes the edit first; if it raises, nothing has been written. Otherwise the
     * policy's content becomes the edited text, this change becomes `applied` and the issue's
     * resolve check runs. There is no guard on the change's current status.
     */
    method Apply() returns (outcome: Outcome)
      modifies issue.policyDocument`content, this`status, issue`status
      ensures var edit := ApplyEdit(actionType, old(issue.policyDocument.content), originalText, suggestedText);
        if edit.Failure? then
          outcome == Failure(edit.error)
          && issue.policyDocument.content == old(issue.policyDocument.content)
          && status == old(status) && issue.status == old(issue.status)
        else
          outcome == Done
          && issue.policyDocument.content == Some(edit.value)
          && status == ChangeStatus.Applied
          && issue.status == ResolvedStatus(old(issue.status), issue.ChangeStatuses())
    {
      var policy := issue.policyDocument;
      var edit := ApplyEdit(actionType, policy.content, originalText, suggestedText);
      if edit.Failure? {
        return Failure(edit.error);
      }
      policy.content := Some(edit.value);
      status := ChangeStatus.Applied;
      issue.ResolveIfComplete();
      outcome := Done;
    }

    /** dismiss!: this change becomes `dismissed`, whatever it was, and the resolve check runs. */
    method Dismiss()
      modifies this`status, issue`status
      ensures status == ChangeStatus.Dismissed
      ensures issue.status == ResolvedStatus(old(issue.status), issue.ChangeStatuses())
    {
      status := ChangeStatus.Dismissed;
      issue.ResolveIfComplete();
    }
  }

  /** The policy_documents table, with ids handed out in increasing order. */
  class Store {
    var documents: seq<PolicyDocument>
    var nextId: nat

    ghost predicate Valid()
      reads this
    {
      forall i :: 0 <= i < |documents| ==>
        (documents[i].id < nextId && forall j :: 0 <= j < i ==> documents[j].id < documents[i].id)
    }

    constructor ()
      ensures Valid() && documents == [] && nextId == 1
    {
      documents := [];
      nextId := 1;
    }

    /** `PolicyDocument.find_by(id:)`: the row with that id, if there is one. */
    function FindBy(id: int): (r: Option<PolicyDocument>)
      reads this
      requires Valid()
      ensures r.Some? ==> r.value in documents && r.value.id == id
      ensures r.None? ==> forall i :: 0 <= i < |documents| ==> documents[i].id != id
    {
      FindIn(documents, id)
    }

    /** `create!` of a validated document row: appended with the next id. */
    method Insert(account: Account, name: string, content: Option<string>, publishedAt: Option<Date>) returns (d: PolicyDocument)
      requires Valid()
      modifies this
      ensures Valid() && fresh(d) && documents == old(documents) + [d]
      ensures d.id == old(nextId) && d.account == account && d.name == name
      ensures d.content == content && d.publishedAt == publishedAt
      ensures d.State() == ScanState(ScanStatus.Idle, None, None) && d.issues == []
    {
      d := new PolicyDocument(nextId, account, name, content, publishedAt);
      documents := documents + [d];
      nextId := nextId + 1;
    }
  }

  function FindIn(docs: seq<PolicyDocument>, id: int): (r: Option<PolicyDocument>)
    ensures r.Some? ==> r.value in docs && r.value.id == id
    ensures r.None? ==> forall i :: 0 <= i < |docs| ==> docs[i].id != id
  {
    if docs == [] then None
    else if docs[0].id == id then Some(docs[0])
    else FindIn(docs[1..], id)
  }
}

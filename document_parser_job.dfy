/**
 * DocumentParserJob: parses one uploaded onboarding policy into a policy document and, once every
 * onboarding policy of the account is completed, marks the account's onboarding complete. The
 * database, the parser's outside tools and the final broadcast are inputs: `insertFailure` is what
 * the row insert raises, if anything, and `broadcast` what the progress broadcast raises.
 */
module DocumentParserJob {
  import opened Wrappers
  import opened Strings
  import opened Models
  import DocumentParser

  /** `Onboarding::Policy.find(id)`: the first policy with that id. */
  function FindPolicy(policies: seq<OnboardingPolicy>, id: int): (r: Option<OnboardingPolicy>)
    ensures r.Some? ==> r.value in policies && r.value.id == id
    ensures r.None? ==> forall i :: 0 <= i < |policies| ==> policies[i].id != id
  {
    FindPolicyFrom(policies, id, 0)
  }

  function FindPolicyFrom(policies: seq<OnboardingPolicy>, id: int, i: nat): (r: Option<OnboardingPolicy>)
    requires i <= |policies|
    ensures r.Some? ==> r.value in policies && r.value.id == id
    ensures r.None? ==> forall k :: i <= k < |policies| ==> policies[k].id != id
    decreases |policies| - i
  {
    if i == |policies| then None
    else if policies[i].id == id then Some(policies[i])
    else FindPolicyFrom(policies, id, i + 1)
  }

  function RecordNotFound(id: int): Exception {
    Exception("ActiveRecord::RecordNotFound", "Couldn't find Onboarding::Policy with 'id'=" + IntToString(id))
  }

  /** Onboarding::Policy's validations, which every `update!` runs: a present name and an attached document. */
  function ValidationErrors(policy: OnboardingPolicy): (r: seq<string>)
    ensures r == [] <==> Present(Some(policy.name)) && policy.document.Attached?
  {
    (if Blank(Some(policy.name)) then ["Name can't be blank"] else [])
    + (if policy.document.Unattached? then ["Document can't be blank"] else [])
  }

  function RecordInvalid(errors: seq<string>): Exception {
    Exception("ActiveRecord::RecordInvalid", "Validation failed: " + Join(errors, ", "))
  }

  /**
   * What a text column stores for an assigned value: nil stays nil, true and false become "t" and
   * "f", anything else its `to_s`.
   */
  function TextColumn(v: DocumentParser.JsonValue): (r: Option<string>)
    ensures r.None? <==> v.JNull?
    ensures v.JString? ==> r == Some(v.s)
  {
    match v
    case JNull => None
    case JBool(b) => Some(if b then "t" else "f")
    case JNumber(shown) => Some(shown)
    case JString(s) => Some(s)
    case JArray(_, shown) => Some(shown)
    case JObject(_, shown) => Some(shown)
  }

  /** The content and date `create!` is given: `result&.content` and `result&.published_at`. */
  function RowContent(result: Option<DocumentParser.ParseResult>): Option<string> {
    if result.None? then None else TextColumn(result.value.content)
  }

  function RowPublishedAt(result: Option<DocumentParser.ParseResult>): Option<Date> {
    if result.None? then None else result.value.publishedAt
  }

  /** Every status is `completed`: `where.not(status: :completed).empty?`. */
  predicate AllCompleted(statuses: seq<OnboardingStatus>) {
    forall i :: 0 <= i < |statuses| ==> statuses[i] == OnboardingStatus.Completed
  }

  /**
   * What a run does to the policy it found: the status writes in order, whether a policy document
   * was created, whether the account was marked complete, and what the job raised.
   */
  datatype Run = Run(writes: seq<OnboardingStatus>, created: bool, accountCompleted: bool, raised: Option<Exception>)

  /**
   * The run for a found policy with validation errors `errors`, given what the insert raises,
   * whether the account's other onboarding policies are all completed, and what the broadcast raises.
   * With errors, `processing!` raises and so does `failed!` in the rescue, with the same message.
   */
  function JobRun(errors: seq<string>, insertFailure: Option<Exception>, othersCompleted: bool,
                  broadcast: Option<Exception>): Run
  {
    if errors != [] then Run([], false, false, Some(RecordInvalid(errors)))
    else if insertFailure.Some? then Run([OnboardingStatus.Processing, OnboardingStatus.Failed], false, false, insertFailure)
    else if !othersCompleted then Run([OnboardingStatus.Processing, OnboardingStatus.Completed], true, false, None)
    else if broadcast.None? then Run([OnboardingStatus.Processing, OnboardingStatus.Completed], true, true, None)
    else Run([OnboardingStatus.Processing, OnboardingStatus.Completed, OnboardingStatus.Failed], true, true, broadcast)
  }

  /** The status a run leaves: its last write, or the old one when it wrote none. */
  function FinalStatus(run: Run, prior: OnboardingStatus): OnboardingStatus {
    if run.writes == [] then prior else run.writes[|run.writes| - 1]
  }

  // ---------------------------------------------------------------------------------------------
  // What a run promises

  /**
   * A valid policy is set to processing before anything else; the run ends completed exactly when
   * nothing was raised, and failed otherwise.
   */
  lemma RunStatuses(errors: seq<string>, insertFailure: Option<Exception>, othersCompleted: bool,
                    broadcast: Option<Exception>, prior: OnboardingStatus)
    requires errors == []
    ensures var run := JobRun(errors, insertFailure, othersCompleted, broadcast);
      run.writes != [] && run.writes[0] == OnboardingStatus.Processing
      && (FinalStatus(run, prior) == OnboardingStatus.Completed <==> run.raised.None?)
      && (FinalStatus(run, prior) == OnboardingStatus.Failed <==> run.raised.Some?)
  {
  }

  /**
   * A policy document is created exactly when the policy is valid and the insert succeeds, and it
   * is created together with the completed status.
   */
  lemma DocumentWithCompletion(errors: seq<string>, insertFailure: Option<Exception>, othersCompleted: bool,
                               broadcast: Option<Exception>)
    ensures var run := JobRun(errors, insertFailure, othersCompleted, broadcast);
      (run.created <==> errors == [] && insertFailure.None?)
      && (run.created ==> OnboardingStatus.Completed in run.writes)
      && (!run.created ==> OnboardingStatus.Completed !in run.writes)
  {
  }

  /** The account is marked complete only when every other onboarding policy is completed, and then always. */
  lemma AccountCompletion(errors: seq<string>, insertFailure: Option<Exception>, othersCompleted: bool,
                          broadcast: Option<Exception>)
    ensures var run := JobRun(errors, insertFailure, othersCompleted, broadcast);
      run.accountCompleted <==> run.created && othersCompleted
  {
  }

  /** Whatever fails is re-raised, and an invalid policy keeps its status. */
  lemma FailuresReRaised(errors: seq<string>, insertFailure: Option<Exception>, othersCompleted: bool,
                         broadcast: Option<Exception>, prior: OnboardingStatus)
    ensures var run := JobRun(errors, insertFailure, othersCompleted, broadcast);
      (errors != [] ==> run.raised == Some(RecordInvalid(errors)) && FinalStatus(run, prior) == prior)
      && (errors == [] && insertFailure.Some? ==> run.raised == insertFailure)
      && (errors == [] && insertFailure.None? && othersCompleted ==> run.raised == broadcast)
  {
  }

  // ---------------------------------------------------------------------------------------------
  // perform

  /** Every onboarding policy of `account` other than `policy` is completed. */
  predicate OthersCompleted(account: Account, policy: OnboardingPolicy)
    reads account, set p | p in account.onboardingPolicies
  {
    forall i :: 0 <= i < |account.onboardingPolicies| ==>
      account.onboardingPolicies[i] == policy || account.onboardingPolicies[i].status == OnboardingStatus.Completed
  }

  /**
   * check_onboarding_completion(account): once every onboarding policy of the account is
   * completed, the account's onboarding is marked complete and the completion is broadcast.
   */
  method CheckOnboardingCompletion(account: Account, broadcast: Option<Exception>, now: Timestamp)
    returns (raised: Option<Exception>)
    modifies account`onboardingCompletedAt
    ensures var all := AllCompleted(account.OnboardingStatuses());
      account.onboardingCompletedAt == (if all then Some(now) else old(account.onboardingCompletedAt))
      && raised == (if all then broadcast else None)
  {
    raised := None;
    if AllCompleted(account.OnboardingStatuses()) {
      account.onboardingCompletedAt := Some(now);
      raised := broadcast;
    }
  }

  /** With `policy` completed, the account is all completed exactly when the others are. */
  lemma AllCompletedWhenOthers(account: Account, policy: OnboardingPolicy)
    requires policy.status == OnboardingStatus.Completed
    ensures AllCompleted(account.OnboardingStatuses()) == OthersCompleted(account, policy)
  {
  }

  /** DocumentParserJob#perform(onboarding_policy_id). */
  method Perform(policies: seq<OnboardingPolicy>, id: int, store: Store, tools: DocumentParser.Tools,
                 insertFailure: Option<Exception>, broadcast: Option<Exception>, now: Timestamp)
    returns (outcome: Outcome, ghost run: Option<Run>, ghost created: seq<PolicyDocument>)
    requires store.Valid()
    modifies store, (set p | p in policies)`status, (set p | p in policies :: p.account)`onboardingCompletedAt
    ensures store.Valid() && store.documents == old(store.documents) + created
    ensures FindPolicy(policies, id).None? ==>
      outcome == Failure(RecordNotFound(id)) && run == None && created == []
      && unchanged((set p | p in policies)`status, (set p | p in policies :: p.account)`onboardingCompletedAt)
    ensures FindPolicy(policies, id).Some? ==>
      var q := FindPolicy(policies, id).value;
      var r := JobRun(ValidationErrors(q), insertFailure, old(OthersCompleted(q.account, q)), broadcast);
      run == Some(r)
      && outcome == (if r.raised.Some? then Failure(r.raised.value) else Done)
      && q.status == FinalStatus(r, old(q.status))
      && q.account.onboardingCompletedAt == (if r.accountCompleted then Some(now) else old(q.account.onboardingCompletedAt))
      && Created(created, r, q, DocumentParser.Parse(q.document, tools))
      && unchanged((set p | p in policies && p != q)`status)
      && unchanged((set p | p in policies && p.account != q.account :: p.account)`onboardingCompletedAt)
  {
    var found := FindPolicy(policies, id);
    if found.None? {
      return Failure(RecordNotFound(id)), None, [];
    }
    var q := found.value;
    outcome, run, created := Process(q, store, tools, insertFailure, broadcast, now);
  }

  /** The documents a run created: one, for the policy and with its parse result, when it created any. */
  ghost predicate Created(created: seq<PolicyDocument>, r: Run, q: OnboardingPolicy, result: Option<DocumentParser.ParseResult>)
    reads set d | d in created
  {
    |created| == (if r.created then 1 else 0)
    && (r.created ==>
          created[0].account == q.account && created[0].name == q.name
          && created[0].content == RowContent(result) && created[0].publishedAt == RowPublishedAt(result))
  }

  /** perform's body once the policy is found. */
  method Process(q: OnboardingPolicy, store: Store, tools: DocumentParser.Tools,
                 insertFailure: Option<Exception>, broadcast: Option<Exception>, now: Timestamp)
    returns (outcome: Outcome, ghost run: Option<Run>, ghost created: seq<PolicyDocument>)
    requires store.Valid()
    modifies store, q`status, q.account`onboardingCompletedAt
    ensures store.Valid() && store.documents == old(store.documents) + created
    ensures var r := JobRun(ValidationErrors(q), insertFailure, old(OthersCompleted(q.account, q)), broadcast);
      run == Some(r)
      && outcome == (if r.raised.Some? then Failure(r.raised.value) else Done)
      && q.status == FinalStatus(r, old(q.status))
      && q.account.onboardingCompletedAt == (if r.accountCompleted then Some(now) else old(q.account.onboardingCompletedAt))
      && Created(created, r, q, DocumentParser.Parse(q.document, tools))
      && forall d :: d in created ==> fresh(d)
  {
    var errors := ValidationErrors(q);
    ghost var othersCompleted := OthersCompleted(q.account, q);
    run := Some(JobRun(errors, insertFailure, othersCompleted, broadcast));
    if errors != [] {
      return Failure(RecordInvalid(errors)), run, [];
    }
    q.status := OnboardingStatus.Processing;
    var result := DocumentParser.ParseDocument(q.document, tools);
    outcome, created := Store(q, store, result, insertFailure, broadcast, now);
  }

  /**
   * The transaction and check_onboarding_completion, for a valid policy that is processing and the
   * parse result `result`.
   */
  method Store(q: OnboardingPolicy, store: Store, result: Option<DocumentParser.ParseResult>,
               insertFailure: Option<Exception>, broadcast: Option<Exception>, now: Timestamp)
    returns (outcome: Outcome, ghost created: seq<PolicyDocument>)
    requires store.Valid()
    modifies store, q`status, q.account`onboardingCompletedAt
    ensures store.Valid() && store.documents == old(store.documents) + created
    ensures var r := JobRun([], insertFailure, old(OthersCompleted(q.account, q)), broadcast);
      outcome == (if r.raised.Some? then Failure(r.raised.value) else Done)
      && q.status == FinalStatus(r, old(q.status))
      && q.account.onboardingCompletedAt == (if r.accountCompleted then Some(now) else old(q.account.onboardingCompletedAt))
      && Created(created, r, q, result)
      && forall d :: d in created ==> fresh(d)
  {
    ghost var othersCompleted := OthersCompleted(q.account, q);
    ghost var r := JobRun([], insertFailure, othersCompleted, broadcast);
    if insertFailure.Some? {
      q.status := OnboardingStatus.Failed;
      assert r == Run([OnboardingStatus.Processing, OnboardingStatus.Failed], false, false, insertFailure);
      return Failure(insertFailure.value), [];
    }
    var d := store.Insert(q.account, q.name, RowContent(result), RowPublishedAt(result));
    created := [d];
    q.status := OnboardingStatus.Completed;
    assert OthersCompleted(q.account, q) == othersCompleted;
    AllCompletedWhenOthers(q.account, q);
    var raised := CheckOnboardingCompletion(q.account, broadcast, now);
    assert r.created && r.raised == raised && r.accountCompleted == othersCompleted;
    if raised.Some? {
      q.status := OnboardingStatus.Failed;
      assert FinalStatus(r, OnboardingStatus.Processing) == OnboardingStatus.Failed;
      return Failure(raised.value), created;
    }
    assert FinalStatus(r, OnboardingStatus.Processing) == OnboardingStatus.Completed;
    outcome := Done;
  }
}

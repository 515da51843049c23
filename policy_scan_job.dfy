/**
 * PolicyScanJob#perform: the three scanners run one after another on one policy document, each
 * announced by a status broadcast; scanner errors are collected, and the document ends completed
 * or failed. Anything raised outside a scanner (a broadcast, say) is rescued: the scan is failed
 * with its message and an error notice is broadcast, and what that rescue raises leaves the job.
 */
module PolicyScanJob {
  import opened Wrappers
  import opened Strings
  import opened Models
  import opened ReasoningService
  import BaseScanner
  import SpellingScanner
  import CqcComplianceScanner
  import ConflictScanner
  import ConflictRetry
  import Sequences

  /** A Turbo Streams update on the document's `policy_scan_<id>` channel. */
  datatype Event =
    | Progress(message: string)   // broadcast_status: the spinner with its message
    | Complete                    // "Scan complete" in the scan-status target
    | ErrorNotice(message: string) // broadcast_error's message in the scan-status target
    | IssuesList                  // the issues-list partial with the document's open issues

  /**
   * The broadcast service: whether the broadcast numbered `k` (counting from 0 in the order the
   * job sends them) raises, and what.
   */
  type Broadcasts = nat -> Option<Exception>

  /** The status messages announcing the scanners, in the order they run. */
  const StatusTexts: seq<string> := ["Checking spelling...", "Checking CQC compliance...", "Checking for conflicts..."]

  /** The class names that prefix each scanner's error line. */
  const ScannerNames: seq<string> := ["SpellingScanner", "CqcComplianceScanner", "ConflictScanner"]

  /** What `PolicyDocument.find` leaves to the rescue when the id is unknown: `@policy.fail_scan!` on nil. */
  const NilPolicy: Exception := Exception("NoMethodError", "undefined method 'fail_scan!' for nil")

  /**
   * The answers of the outside services the scanners ask: the completion and JSON.parse of the
   * spelling and of the CQC compliance scanner, the chat and JSON.parse of the conflict scanner.
   */
  datatype Replies = Replies(spelling: Completion, spellingParse: string -> BaseScanner.JsonParse<BaseScanner.ScanJson>,
                             cqc: Completion, cqcParse: string -> BaseScanner.JsonParse<BaseScanner.ScanJson>,
                             chat: Chat, toolParse: string -> BaseScanner.JsonParse<ConflictScanner.ToolArgs>)

  /**
   * What the scanners that ran on a document saw and did: its content, the table and the other
   * policies the conflict scanner reads, the replies, and for each scanner in the order they ran
   * the issues the document had when it started, its outcome and its new issues.
   */
  datatype History = History(content: Option<string>, rows: seq<ConflictScanner.Row>, others: map<int, string>,
                             replies: Replies, befores: seq<seq<Issue>>, outcomes: seq<Outcome>, created: seq<seq<Issue>>)
  {
    /** The history with one more scanner, which started on `b`, gave `o` and created `c`. */
    function Then(b: seq<Issue>, o: Outcome, c: seq<Issue>): History {
      this.(befores := befores + [b], outcomes := outcomes + [o], created := created + [c])
    }
  }

  /** The issues a document that had `issues` has when each scanner starts, after those before it created theirs. */
  function Befores(issues: seq<Issue>, created: seq<seq<Issue>>): (r: seq<seq<Issue>>)
    ensures |r| == |created|
  {
    if created == [] then []
    else Befores(issues, created[..|created| - 1]) + [issues + Sequences.Concat(created[..|created| - 1])]
  }

  // =============================================================================================
  // The job as a function of its inputs

  /** How many scanners run: the first status broadcast that raises stops the sequence before its scanner. */
  function FirstFailure(b: Broadcasts): nat {
    if b(0).Some? then 0 else if b(1).Some? then 1 else if b(2).Some? then 2 else 3
  }

  /** The status broadcasts sent for the first `n` scanners. */
  function Progresses(n: nat): (r: seq<Event>)
    requires n <= 3
  {
    [Progress(StatusTexts[0]), Progress(StatusTexts[1]), Progress(StatusTexts[2])][..n]
  }

  /** run_scanner's rescue: one "<class name>: <message>" line per scanner that raised, in order. */
  function ErrorLines(outcomes: seq<Outcome>): seq<string>
    requires |outcomes| <= 3
    decreases |outcomes|
  {
    if outcomes == [] then []
    else
      var i := |outcomes| - 1;
      var rest := ErrorLines(outcomes[..i]);
      if outcomes[i].Failure? then rest + [ErrorLine(i, outcomes[i].error.message)] else rest
  }

  function ErrorLine(i: nat, message: string): string
    requires i < 3
  {
    ScannerNames[i] + ": " + message
  }

  /** Some broadcasts, in order, and what the one that stopped them raised. */
  datatype Sent = Sent(events: seq<Event>, failure: Option<Exception>)

  /**
   * broadcast_complete and broadcast_error: the status update numbered `k`, then the issues list;
   * a broadcast that raises ends the method.
   */
  function Notice(status: Event, k: nat, b: Broadcasts): (r: Sent) {
    if b(k).Some? then Sent([status], b(k))
    else Sent([status, IssuesList], b(k + 1))
  }

  /** The job's effect on one document. */
  datatype JobRun = JobRun(ran: nat, errors: seq<string>, state: ScanState, sent: seq<Event>, raised: Option<Exception>)

  /** The rescue clause of perform, entered with `e` after the broadcasts `sent`. */
  function Rescue(ran: nat, errors: seq<string>, s: ScanState, sent: seq<Event>, e: Exception, b: Broadcasts, now: Timestamp): JobRun {
    var n := Notice(ErrorNotice("Scan failed: " + e.message), |sent|, b);
    JobRun(ran, errors, AfterFail(s, e.message, now), sent + n.events, n.failure)
  }

  /**
   * perform on a document in scan state `s`, when the scanners would end with `outcomes` (an
   * outcome past the last scanner that ran is not looked at).
   */
  function Job(s: ScanState, outcomes: seq<Outcome>, b: Broadcasts, now: Timestamp): JobRun
    requires |outcomes| == 3
  {
    var n := FirstFailure(b);
    var errors := ErrorLines(outcomes[..n]);
    if n < 3 then Rescue(n, errors, s, Progresses(n + 1), b(n).value, b, now)
    else Finish(s, errors, b, now)
  }

  /** The end of perform once the three scanners ran with `errors`: fail or complete, then notify. */
  function Finish(s: ScanState, errors: seq<string>, b: Broadcasts, now: Timestamp): JobRun {
    var s1 := if errors == [] then AfterComplete(s, now) else AfterFail(s, Join(errors, "; "), now);
    var m := Notice(if errors == [] then Complete else ErrorNotice("Scan completed with errors"), 3, b);
    if m.failure.None? then JobRun(3, errors, s1, Progresses(3) + m.events, None)
    else Rescue(3, errors, s1, Progresses(3) + m.events, m.failure.value, b, now)
  }

  // =============================================================================================
  // Properties of the job

  /** The error lines name exactly the scanners that raised, each with its own message. */
  lemma {:induction false} ErrorLinesMeaning(outcomes: seq<Outcome>, i: nat, message: string)
    requires |outcomes| <= 3 && i < |outcomes|
    ensures ErrorLine(i, message) in ErrorLines(outcomes) <==>
      outcomes[i].Failure? && outcomes[i].error.message == message
    decreases |outcomes|
  {
    var j := |outcomes| - 1;
    var rest := ErrorLines(outcomes[..j]);
    assert outcomes[..j][..i] == outcomes[..i] && (i < j ==> outcomes[..j][i] == outcomes[i]);
    if i < j {
      ErrorLinesMeaning(outcomes[..j], i, message);
      if outcomes[j].Failure? {
        DistinctLines(i, j, message, outcomes[j].error.message);
      }
    } else {
      var line := ErrorLine(i, message);
      if line in rest {
        LinesOfEarlierScanners(outcomes[..j], line);
        var k: nat, m :| k < j && line == ErrorLine(k, m);
        DistinctLines(k, i, m, message);
      }
      if outcomes[i].Failure? {
        SameScannerLines(i, message, outcomes[i].error.message);
      }
    }
  }

  /** Two lines of the same scanner are equal only when the messages are. */
  lemma SameScannerLines(i: nat, m: string, n: string)
    requires i < 3
    ensures ErrorLine(i, m) == ErrorLine(i, n) <==> m == n
  {
    var k := |ScannerNames[i]| + 2;
    if ErrorLine(i, m) == ErrorLine(i, n) {
      assert ErrorLine(i, m)[k..] == m && ErrorLine(i, n)[k..] == n;
    }
  }

  /** Lines of different scanners differ, whatever the messages. */
  lemma DistinctLines(i: nat, j: nat, m: string, n: string)
    requires i < 3 && j < 3 && i != j
    ensures ErrorLine(i, m) != ErrorLine(j, n)
  {
    var a, c := ErrorLine(i, m), ErrorLine(j, n);
    assert a[0] == ScannerNames[i][0] && a[1] == ScannerNames[i][1];
    assert c[0] == ScannerNames[j][0] && c[1] == ScannerNames[j][1];
  }

  /** Every line of the first scanners' errors is a line of one of them. */
  lemma {:induction false} LinesOfEarlierScanners(outcomes: seq<Outcome>, line: string)
    requires |outcomes| <= 3 && line in ErrorLines(outcomes)
    ensures exists k: nat, m :: k < |outcomes| && line == ErrorLine(k, m)
    decreases |outcomes|
  {
    var j := |outcomes| - 1;
    if line !in ErrorLines(outcomes[..j]) {
      assert line == ErrorLine(j, outcomes[j].error.message);
    } else {
      LinesOfEarlierScanners(outcomes[..j], line);
    }
  }

  /** The number of scanners that raised. */
  function Failures(outcomes: seq<Outcome>): nat {
    if outcomes == [] then 0
    else Failures(outcomes[..|outcomes| - 1]) + (if outcomes[|outcomes| - 1].Failure? then 1 else 0)
  }

  /**
   * One line per scanner that raised, so at most one per scanner that ran, and none exactly when
   * every scanner succeeded.
   */
  lemma {:induction false} ErrorLinesCount(outcomes: seq<Outcome>)
    requires |outcomes| <= 3
    ensures |ErrorLines(outcomes)| == Failures(outcomes) <= |outcomes|
    ensures ErrorLines(outcomes) == [] <==> forall i :: 0 <= i < |outcomes| ==> outcomes[i].Success?
    decreases |outcomes|
  {
    if outcomes != [] {
      var j := |outcomes| - 1;
      ErrorLinesCount(outcomes[..j]);
      assert forall i :: 0 <= i < j ==> outcomes[..j][i] == outcomes[i];
    }
  }

  /**
   * Each scanner runs after its own status broadcast and only if that broadcast went out; a
   * scanner that raises does not stop the next one.
   */
  lemma ScannersInOrder(s: ScanState, outcomes: seq<Outcome>, b: Broadcasts, now: Timestamp)
    requires |outcomes| == 3
    ensures var r := Job(s, outcomes, b, now);
      r.ran <= 3 && |r.sent| > r.ran
      && (forall i :: 0 <= i < r.ran ==> b(i).None? && r.sent[i] == Progress(StatusTexts[i]))
      && (r.ran < 3 ==> b(r.ran).Some? && r.sent[r.ran] == Progress(StatusTexts[r.ran]))
      && (b(0).None? && b(1).None? && b(2).None? ==> r.ran == 3)
      && r.errors == ErrorLines(outcomes[..r.ran])
  {
  }

  /**
   * The job never leaves the document scanning: it always records a finish time, and the scan is
   * completed exactly when every scanner and the first two closing broadcasts succeeded.
   */
  lemma JobSettles(s: ScanState, outcomes: seq<Outcome>, b: Broadcasts, now: Timestamp)
    requires |outcomes| == 3
    ensures var r := Job(s, outcomes, b, now);
      r.state.lastScannedAt == Some(now)
      && (r.state.status == ScanStatus.Completed || r.state.status == ScanStatus.Failed)
      && (r.state.status == ScanStatus.Completed <==>
            r.ran == 3 && (forall i :: 0 <= i < 3 ==> outcomes[i].Success?) && b(3).None? && b(4).None?)
      && (r.raised.Some? ==> r.state.status == ScanStatus.Failed)
  {
    var r := Job(s, outcomes, b, now);
    ErrorLinesCount(outcomes[..r.ran]);
    assert r.ran == 3 ==> outcomes[..r.ran] == outcomes;
  }

  /** A clean run: three progress updates, "Scan complete", the issues list, and a completed scan. */
  lemma CleanRun(s: ScanState, outcomes: seq<Outcome>, b: Broadcasts, now: Timestamp)
    requires |outcomes| == 3 && forall i :: 0 <= i < 3 ==> outcomes[i].Success?
    requires forall k :: 0 <= k < 5 ==> b(k).None?
    ensures Job(s, outcomes, b, now) ==
      JobRun(3, [], AfterComplete(s, now),
             [Progress("Checking spelling..."), Progress("Checking CQC compliance..."),
              Progress("Checking for conflicts..."), Complete, IssuesList], None)
  {
    assert b(0).None? && b(1).None? && b(2).None? && b(3).None? && b(4).None?;
    ErrorLinesCount(outcomes);
    assert outcomes[..3] == outcomes;
  }

  /**
   * Scanner errors fail the scan with their lines joined by "; ", and the notice says the scan
   * completed with errors; the job itself does not raise.
   */
  lemma ScannerErrorsFailTheScan(s: ScanState, outcomes: seq<Outcome>, b: Broadcasts, now: Timestamp)
    requires |outcomes| == 3 && exists i :: 0 <= i < 3 && outcomes[i].Failure?
    requires forall k :: 0 <= k < 5 ==> b(k).None?
    ensures var r := Job(s, outcomes, b, now);
      r.errors == ErrorLines(outcomes) && r.errors != []
      && r.state == AfterFail(s, Join(r.errors, "; "), now)
      && r.sent == Progresses(3) + [ErrorNotice("Scan completed with errors"), IssuesList]
      && r.raised == None
  {
    assert b(0).None? && b(1).None? && b(2).None? && b(3).None? && b(4).None?;
    ErrorLinesCount(outcomes);
    assert outcomes[..3] == outcomes;
  }

  /**
   * When a broadcast raises, the scan is failed with that broadcast's message, "Scan failed: " and
   * the message are broadcast, and the job raises only what those last broadcasts raise.
   */
  lemma BroadcastFailureIsRescued(s: ScanState, outcomes: seq<Outcome>, b: Broadcasts, now: Timestamp, k: nat)
    requires |outcomes| == 3 && k < 5
    requires b(k).Some? && forall j :: 0 <= j < k ==> b(j).None?
    ensures var r := Job(s, outcomes, b, now);
      r.state.error == Some(b(k).value.message)
      && |r.sent| > k + 1 && r.sent[k + 1] == ErrorNotice("Scan failed: " + b(k).value.message)
      && r.raised == (if b(k + 1).Some? then b(k + 1) else b(k + 2))
  {
    if k < 3 {
      assert FirstFailure(b) == k;
    } else {
      assert b(0).None? && b(1).None? && b(2).None?;
      if k == 4 {
        assert b(3).None?;
      }
    }
  }

  // =============================================================================================
  // The job

  /** broadcast_complete or broadcast_error: the status update, then the issues list, until one raises. */
  method NotifyStatus(status: Event, sent: seq<Event>, b: Broadcasts) returns (sent': seq<Event>, failure: Option<Exception>)
    ensures sent' == sent + Notice(status, |sent|, b).events && failure == Notice(status, |sent|, b).failure
  {
    sent', failure := sent + [status], b(|sent|);
    if failure.Some? {
      return;
    }
    sent', failure := sent' + [IssuesList], b(|sent| + 1);
  }

  /** The rescue clause: fail_scan! with the message, then broadcast_error("Scan failed: ..."). */
  method RescueScan(policy: PolicyDocument, ran: nat, errors: seq<string>, sent: seq<Event>, e: Exception, b: Broadcasts,
                    now: Timestamp, ghost history: History)
    returns (run: JobRun)
    requires ScannersRan(policy, history)
    modifies policy`scanStatus, policy`scanError, policy`lastScannedAt
    ensures run == Rescue(ran, errors, old(policy.State()), sent, e, b, now) && policy.State() == run.state
    ensures run.ran == ran
    ensures ScannersRan(policy, history)
  {
    policy.FailScan(e.message, now);
    var sent', failure := NotifyStatus(ErrorNotice("Scan failed: " + e.message), sent, b);
    run := JobRun(ran, errors, policy.State(), sent', failure);
  }

  /**
   * perform(policy_document_id). An unknown id raises from the rescue clause itself and changes
   * nothing. Otherwise the document ends in the state Job describes, the scanners that ran gave
   * the outcomes and created the issues their own contracts state, one after the other, their
   * issues were appended, and no other document changed.
   */
  method Perform(store: Store, id: int, replies: Replies, b: Broadcasts, now: Timestamp)
    returns (run: Result<JobRun, Exception>, outcomes: seq<Outcome>, created: seq<seq<Issue>>)
    requires store.Valid()
    modifies store.documents`issues, store.documents`scanStatus, store.documents`scanError, store.documents`lastScannedAt
    ensures |outcomes| == 3
    ensures store.FindBy(id).None? ==> run == Failure(NilPolicy) && created == []
    ensures store.FindBy(id).Some? ==>
      var p := store.FindBy(id).value;
      run == Success(Job(old(p.State()), outcomes, b, now)) && p.State() == run.value.state
      && |created| == run.value.ran && p.issues == old(p.issues) + Sequences.Concat(created)
      && ScannersRan(p, History(p.content, old(ConflictScanner.Rows(store.documents)),
                                old(ConflictScanner.OtherPolicies(store.documents, p)), replies,
                                Befores(old(p.issues), created), outcomes[..run.value.ran], created))
      && (forall i :: run.value.ran <= i < 3 ==> outcomes[i] == Done)
    ensures forall d :: d in store.documents && store.FindBy(id) != Some(d) ==>
      d.issues == old(d.issues) && d.State() == old(d.State())
  {
    var found := store.FindBy(id);
    if found.None? {
      return Failure(NilPolicy), [Done, Done, Done], [];
    }
    var r;
    r, outcomes, created := ScanDocument(found.value, store, replies, b, now);
    run := Success(r);
  }

  /** perform once `find` returned the document: the scanners, then completion or the rescue clause. */
  method ScanDocument(policy: PolicyDocument, store: Store, replies: Replies, b: Broadcasts, now: Timestamp)
    returns (run: JobRun, outcomes: seq<Outcome>, created: seq<seq<Issue>>)
    requires store.Valid()
    modifies policy`issues, policy`scanStatus, policy`scanError, policy`lastScannedAt
    ensures |outcomes| == 3 && run == Job(old(policy.State()), outcomes, b, now) && policy.State() == run.state
    ensures |created| == run.ran && policy.issues == old(policy.issues) + Sequences.Concat(created)
    ensures ScannersRan(policy, History(old(policy.content), old(ConflictScanner.Rows(store.documents)),
                                       old(ConflictScanner.OtherPolicies(store.documents, policy)), replies,
                                       Befores(old(policy.issues), created), outcomes[..run.ran], created))
    ensures forall i :: run.ran <= i < 3 ==> outcomes[i] == Done
  {
    ghost var s := policy.State();
    var errors, done, sent, stop;
    errors, done, created, sent, stop := RunScanners(policy, store, replies, b);
    ghost var h := History(old(policy.content), old(ConflictScanner.Rows(store.documents)),
                           old(ConflictScanner.OtherPolicies(store.documents, policy)), replies,
                           Befores(old(policy.issues), created), done, created);
    outcomes := Padded(done);
    if stop.Some? {
      JobStops(s, done, b, now);
      run := RescueScan(policy, |done|, errors, sent, stop.value, b, now, h);
    } else {
      assert outcomes == done;
      JobFinishes(s, done, b, now);
      run := FinishScan(policy, errors, sent, b, now, h);
    }
  }

  /**
   * The three status broadcasts, each followed by its scanner, until a broadcast raises: `stop` is
   * what it raised, and `done` the outcomes of the scanners that ran before it, in order, with the
   * issues each created, as ScannersRan states.
   */
  method RunScanners(policy: PolicyDocument, store: Store, replies: Replies, b: Broadcasts)
    returns (errors: seq<string>, done: seq<Outcome>, created: seq<seq<Issue>>, sent: seq<Event>,
             stop: Option<Exception>)
    requires store.Valid()
    modifies policy`issues
    ensures |done| == |created| == FirstFailure(b) && errors == ErrorLines(done)
    ensures if |done| < 3 then stop == b(|done|) && sent == Progresses(|done| + 1) else stop.None? && sent == Progresses(3)
    ensures policy.issues == old(policy.issues) + Sequences.Concat(created)
    ensures ScannersRan(policy, History(old(policy.content), old(ConflictScanner.Rows(store.documents)),
                                       old(ConflictScanner.OtherPolicies(store.documents, policy)), replies,
                                       Befores(old(policy.issues), created), done, created))
  {
    ghost var issues0, content := policy.issues, policy.content;
    ghost var rows, others := ConflictScanner.Rows(store.documents), ConflictScanner.OtherPolicies(store.documents, policy);
    errors, done, created, sent := [], [], [], [];
    errors, done, created, sent, stop := Step(0, policy, store, replies, b, errors, done, created, sent, issues0, content, rows, others);
    if stop.Some? {
      return;
    }
    errors, done, created, sent, stop := Step(1, policy, store, replies, b, errors, done, created, sent, issues0, content, rows, others);
    if stop.Some? {
      return;
    }
    errors, done, created, sent, stop := Step(2, policy, store, replies, b, errors, done, created, sent, issues0, content, rows, others);
  }

  /**
   * broadcast_status for scanner `k`, then, unless it raised, run_scanner: the scanners before `k`
   * ran as `done` and `created` state, on a document that had `issues0` and `content`, with the
   * conflict table `rows` and the other policies `others`; afterwards scanner `k` has too.
   */
  method Step(k: nat, policy: PolicyDocument, store: Store, replies: Replies, b: Broadcasts, errors: seq<string>,
              done: seq<Outcome>, created: seq<seq<Issue>>, sent: seq<Event>, ghost issues0: seq<Issue>,
              ghost content: Option<string>, ghost rows: seq<ConflictScanner.Row>, ghost others: map<int, string>)
    returns (errors': seq<string>, done': seq<Outcome>, created': seq<seq<Issue>>, sent': seq<Event>,
             stop: Option<Exception>)
    requires k == |done| == |created| < 3 && store.Valid()
    requires errors == ErrorLines(done) && sent == Progresses(k)
    requires content == policy.content && rows == ConflictScanner.Rows(store.documents)
    requires others == ConflictScanner.OtherPolicies(store.documents, policy)
    requires policy.issues == issues0 + Sequences.Concat(created)
    requires ScannersRan(policy, History(content, rows, others, replies, Befores(issues0, created), done, created))
    modifies policy`issues
    ensures sent' == Progresses(k + 1) && stop == b(k)
    ensures |done'| == |created'| == (if stop.Some? then k else k + 1)
    ensures errors' == ErrorLines(done')
    ensures rows == ConflictScanner.Rows(store.documents) && others == ConflictScanner.OtherPolicies(store.documents, policy)
    ensures policy.issues == issues0 + Sequences.Concat(created')
    ensures ScannersRan(policy, History(content, rows, others, replies, Befores(issues0, created'), done', created'))
  {
    sent', stop := sent + [Progress(StatusTexts[k])], b(k);
    assert sent' == Progresses(k + 1);
    errors', done', created' := errors, done, created;
    if stop.Some? {
      return;
    }
    var outcome, c;
    errors', outcome, c := RunNext(k, policy, store, errors, replies, issues0,
                                   History(content, rows, others, replies, Befores(issues0, created), done, created));
    ErrorLinesSnoc(done, outcome);
    done', created' := done + [outcome], created + [c];
  }

  /** The outcomes of the scanners that ran, followed by Done for those that did not. */
  function Padded(done: seq<Outcome>): (r: seq<Outcome>)
    requires |done| <= 3
    ensures |r| == 3 && r[..|done|] == done && forall i :: |done| <= i < 3 ==> r[i] == Done
  {
    (done + [Done, Done, Done])[..3]
  }

  /** A status broadcast that raises before scanner |done| sends the job to its rescue clause. */
  lemma JobStops(s: ScanState, done: seq<Outcome>, b: Broadcasts, now: Timestamp)
    requires |done| == FirstFailure(b) < 3
    ensures b(|done|).Some?
    ensures Job(s, Padded(done), b, now)
      == Rescue(|done|, ErrorLines(done), s, Progresses(|done| + 1), b(|done|).value, b, now)
  {
  }

  /** With every status broadcast sent, all three scanners ran and the job finishes. */
  lemma JobFinishes(s: ScanState, done: seq<Outcome>, b: Broadcasts, now: Timestamp)
    requires |done| == FirstFailure(b) == 3
    ensures Job(s, done, b, now) == Finish(s, ErrorLines(done), b, now)
  {
    assert done[..3] == done;
  }

  /** An error line is appended exactly for each scanner that raised. */
  lemma ErrorLinesSnoc(done: seq<Outcome>, o: Outcome)
    requires |done| < 3
    ensures ErrorLines(done + [o]) == ErrorLines(done) + (if o.Failure? then [ErrorLine(|done|, o.error.message)] else [])
  {
    assert (done + [o])[..|done|] == done;
  }

  /**
   * What scanner `i` (spelling, CQC compliance, conflicts) did to a document with `content`, as its
   * own contract states: the outcome it gave and the issues it created. The conflict scanner saw
   * the table `rows`, the other policies' contents and the conflicts open among `before`, the
   * issues the document had when it started.
   */
  ghost predicate ScannerRan(i: nat, policy: PolicyDocument, content: Option<string>, rows: seq<ConflictScanner.Row>,
                             others: map<int, string>, replies: Replies, before: seq<Issue>, outcome: Outcome,
                             created: seq<Issue>)
    reads (set j | j in before), (set j | j in created)
  {
    if i == 0 then
      outcome == BaseScanner.ScanOutcome(content, replies.spelling, replies.spellingParse, SpellingScanner.ToInput)
      && BaseScanner.CreatedFrom(created, policy,
           BaseScanner.MapEntries(BaseScanner.ScanEntries(content, replies.spelling, replies.spellingParse),
                                  SpellingScanner.ToInput))
    else if i == 1 then
      outcome == BaseScanner.ScanOutcome(content, replies.cqc, replies.cqcParse, CqcComplianceScanner.ToInput)
      && BaseScanner.CreatedFrom(created, policy,
           BaseScanner.MapEntries(BaseScanner.ScanEntries(content, replies.cqc, replies.cqcParse),
                                  CqcComplianceScanner.ToInput))
    else
      ConflictScanner.ScannedWith(policy, content, rows, others, replies.chat, replies.toolParse,
                                  ConflictScanner.OpenTargets(before), outcome, created)
  }

  /** Each scanner of the history ran as ScannerRan states, on the issues the document had when it started. */
  ghost predicate ScannersRan(policy: PolicyDocument, h: History)
    reads (set b, j | b in h.befores && j in b :: j), (set c, j | c in h.created && j in c :: j)
  {
    |h.befores| == |h.outcomes| == |h.created|
    && forall i :: 0 <= i < |h.created| ==>
         ScannerRan(i, policy, h.content, h.rows, h.others, h.replies, h.befores[i], h.outcomes[i], h.created[i])
  }

  /** A scanner that ran after those of the history extends it. */
  lemma ScannersRanThen(policy: PolicyDocument, h: History, b: seq<Issue>, o: Outcome, c: seq<Issue>)
    requires ScannersRan(policy, h)
    requires ScannerRan(|h.created|, policy, h.content, h.rows, h.others, h.replies, b, o, c)
    ensures ScannersRan(policy, h.Then(b, o, c))
  {
    var h' := h.Then(b, o, c);
    forall i | 0 <= i < |h'.created|
      ensures ScannerRan(i, policy, h.content, h.rows, h.others, h.replies, h'.befores[i], h'.outcomes[i], h'.created[i])
    {
      if i < |h.created| {
        assert h'.befores[i] == h.befores[i] && h'.outcomes[i] == h.outcomes[i] && h'.created[i] == h.created[i];
      }
    }
  }

  /** The next scanner starts on the issues the document had, then those of every scanner before it. */
  lemma BeforesSnoc(issues: seq<Issue>, created: seq<seq<Issue>>, c: seq<Issue>)
    ensures Befores(issues, created + [c]) == Befores(issues, created) + [issues + Sequences.Concat(created)]
  {
    assert (created + [c])[..|created|] == created;
  }

  /**
   * run_scanner for the next scanner, `i`, after those of `history`, on the document they left
   * behind, which had `issues` before the first: it extends the history with what scanner `i` did.
   */
  method RunNext(i: nat, policy: PolicyDocument, store: Store, errors: seq<string>, replies: Replies,
                 ghost issues: seq<Issue>, ghost history: History)
    returns (errors': seq<string>, outcome: Outcome, created: seq<Issue>)
    requires i == |history.created| < 3 && store.Valid() && history.replies == replies
    requires history.content == policy.content && history.rows == ConflictScanner.Rows(store.documents)
    requires history.others == ConflictScanner.OtherPolicies(store.documents, policy)
    requires history.befores == Befores(issues, history.created)
    requires policy.issues == issues + Sequences.Concat(history.created)
    requires ScannersRan(policy, history)
    modifies policy`issues
    ensures errors' == errors + (if outcome.Failure? then [ErrorLine(i, outcome.error.message)] else [])
    ensures history.rows == ConflictScanner.Rows(store.documents)
    ensures history.others == ConflictScanner.OtherPolicies(store.documents, policy)
    ensures policy.issues == issues + Sequences.Concat(history.created + [created])
    ensures ScannersRan(policy, History(history.content, history.rows, history.others, replies,
                                        Befores(issues, history.created + [created]), history.outcomes + [outcome],
                                        history.created + [created]))
  {
    errors', outcome, created := RunScanner(i, policy, history.content, store, errors, replies);
    ScannersRanThen(policy, history, old(policy.issues), outcome, created);
    BeforesSnoc(issues, history.created, created);
    Sequences.ConcatSnoc(history.created, created);
    Sequences.Associative(issues, Sequences.Concat(history.created), created);
  }

  /**
   * run_scanner(scanner_class): scanner `i` scans the document; what it raises becomes one more
   * error line.
   */
  method RunScanner(i: nat, policy: PolicyDocument, ghost content: Option<string>, store: Store, errors: seq<string>,
                    replies: Replies)
    returns (errors': seq<string>, outcome: Outcome, created: seq<Issue>)
    requires i < 3 && store.Valid() && content == policy.content
    modifies policy`issues
    ensures errors' == errors + (if outcome.Failure? then [ErrorLine(i, outcome.error.message)] else [])
    ensures ScannerRan(i, policy, content, ConflictScanner.Rows(store.documents),
                       ConflictScanner.OtherPolicies(store.documents, policy), replies, old(policy.issues), outcome, created)
    ensures ConflictScanner.Rows(store.documents) == old(ConflictScanner.Rows(store.documents))
    ensures ConflictScanner.OtherPolicies(store.documents, policy) == old(ConflictScanner.OtherPolicies(store.documents, policy))
    ensures policy.issues == old(policy.issues) + created
  {
    if i == 0 {
      var _, o, c := SpellingScanner.Scan(policy, replies.spelling, replies.spellingParse);
      outcome, created := o, c;
    } else if i == 1 {
      var _, o, c := CqcComplianceScanner.Scan(policy, replies.cqc, replies.cqcParse);
      outcome, created := o, c;
    } else {
      var o, requests, messages, c;
      ghost var turns, failed;
      o, requests, messages, c, turns, failed := ConflictScanner.Scan(policy, store, replies.chat, replies.toolParse);
      outcome, created := o, c;
    }
    errors' := errors;
    if outcome.Failure? {
      errors' := errors' + [ErrorLine(i, outcome.error.message)];
    }
  }

  /** complete_scan! or fail_scan! with the joined errors, then the closing broadcasts. */
  method FinishScan(policy: PolicyDocument, errors: seq<string>, sent: seq<Event>, b: Broadcasts, now: Timestamp,
                    ghost history: History)
    returns (run: JobRun)
    requires sent == Progresses(3) && ScannersRan(policy, history)
    modifies policy`scanStatus, policy`scanError, policy`lastScannedAt
    ensures run == Finish(old(policy.State()), errors, b, now) && policy.State() == run.state
    ensures run.ran == 3
    ensures ScannersRan(policy, history)
  {
    var notice := Complete;
    if errors == [] {
      policy.CompleteScan(now);
    } else {
      policy.FailScan(Join(errors, "; "), now);
      notice := ErrorNotice("Scan completed with errors");
    }
    var sent', failure := NotifyStatus(notice, sent, b);
    if failure.Some? {
      run := RescueScan(policy, 3, errors, sent', failure.value, b, now, history);
      return;
    }
    run := JobRun(3, errors, policy.State(), sent', None);
  }
}

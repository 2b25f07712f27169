/** What every run of submit, rejudge, relay, judge and delivery keeps. */
module JudgingSafety {
  import opened Verdicts
  import opened GoText
  import opened JudgingProtocol
  import opened JudgingTables

  type Cleaner = Option<string> -> Option<string>

  // ---- The invariant ----

  /** Submissions and attempts point at each other; only the current attempt can be open. */
  ghost predicate Linked(s: State) {
    && s.nextId >= 1
    && (forall id :: id in s.submissions ==>
          && 1 <= id < s.nextId
          && s.submissions[id].currentAttemptId in s.attempts
          && s.attempts[s.submissions[id].currentAttemptId].submissionId == id
          && s.attempts[s.submissions[id].currentAttemptId].status == s.submissions[id].status)
    && (forall a :: a in s.attempts ==>
          && a != "" && Trimmed(a)
          && s.attempts[a].submissionId in s.submissions
          && (s.submissions[s.attempts[a].submissionId].currentAttemptId != a ==> IsTerminal(s.attempts[a].status)))
  }

  /** A submission without a verdict is as good as new. */
  ghost predicate NoLeftovers(s: State) {
    forall id :: id in s.submissions && !IsTerminal(s.submissions[id].status) ==>
        s.submissions[id] == NewSubmission(s.submissions[id].work, s.submissions[id].currentAttemptId)
  }

  /** The result gave the attempt its status, provenance and rows, and, if the attempt is
      current, gave the submission its whole verdict. */
  ghost predicate Explains(clean: Cleaner, s: State, a: string, m: ResultMessage)
    requires a in s.attempts
  {
    var id := s.attempts[a].submissionId;
    && m.attemptId == a && m.submissionId == id && TerminalStatus(m.report.status).Some?
    && s.attempts[a] == CompletedAttempt(s.attempts[a], m.report)
    && (id, a) in s.rows && s.rows[(id, a)] == m.report.testCases
    && (id in s.submissions && s.submissions[id].currentAttemptId == a ==>
          s.submissions[id] == Completed(clean, NewSubmission(s.submissions[id].work, a), m.report))
  }

  ghost predicate Explained(clean: Cleaner, s: State) {
    forall a :: a in s.attempts && IsTerminal(s.attempts[a].status) ==>
        exists k :: 0 <= k < |s.results| && Explains(clean, s, a, s.results[k])
  }

  /** The job of an attempt carries the submission's own work. */
  ghost predicate Genuine(s: State, j: Job) {
    && j.attemptId in s.attempts
    && s.attempts[j.attemptId].submissionId == j.submissionId
    && j.submissionId in s.submissions
    && s.submissions[j.submissionId].work == j.work
  }

  ghost predicate AllGenuine(s: State) {
    && (forall i :: 0 <= i < |s.outbox| ==> Genuine(s, s.outbox[i].job))
    && (forall i :: 0 <= i < |s.jobs| ==> Genuine(s, s.jobs[i]))
  }

  /** Every attempt has exactly one outbox record. */
  ghost predicate OneRecordEach(outbox: seq<OutboxMessage>, attempts: set<string>) {
    && (forall i, j :: 0 <= i < j < |outbox| ==> outbox[i].job.attemptId != outbox[j].job.attemptId)
    && (forall a :: a in attempts ==> exists i :: 0 <= i < |outbox| && outbox[i].job.attemptId == a)
  }

  /** Every result answers a published job. */
  ghost predicate Sourced(jobs: seq<Job>, results: seq<ResultMessage>) {
    forall i :: 0 <= i < |results| ==> Answered(results[i], jobs)
  }

  ghost predicate Answered(m: ResultMessage, jobs: seq<Job>) {
    exists j :: 0 <= j < |jobs| && Answers(m, jobs[j])
  }

  predicate Answers(m: ResultMessage, j: Job) {
    m.attemptId == j.attemptId && m.submissionId == j.submissionId
  }

  /** Every published job was committed to the outbox. */
  ghost predicate Committed(jobs: seq<Job>, outbox: seq<OutboxMessage>) {
    forall i :: 0 <= i < |jobs| ==> Kept(jobs[i], outbox)
  }

  ghost predicate Kept(job: Job, outbox: seq<OutboxMessage>) {
    exists j :: 0 <= j < |outbox| && outbox[j].job == job
  }

  /** A record is marked published only after its job was sent, and gives up after five failures. */
  ghost predicate Sent(outbox: seq<OutboxMessage>, jobs: seq<Job>) {
    forall i :: 0 <= i < |outbox| ==>
        && (outbox[i].published ==> outbox[i].job in jobs)
        && outbox[i].retryCount <= MAX_PUBLISH_RETRIES
  }

  ghost predicate Piped(s: State) {
    && Sent(s.outbox, s.jobs)
    && AllGenuine(s)
    && OneRecordEach(s.outbox, s.attempts.Keys)
    && Committed(s.jobs, s.outbox)
    && Sourced(s.jobs, s.results)
  }

  /** The event hub hears of an attempt at most once, and what it hears is the attempt's verdict. */
  ghost predicate Notified(s: State) {
    && (forall i :: 0 <= i < |s.events| ==>
          && s.events[i].attemptId in s.attempts
          && s.attempts[s.events[i].attemptId].submissionId == s.events[i].submissionId
          && s.attempts[s.events[i].attemptId].status == s.events[i].status
          && IsTerminal(s.events[i].status))
    && (forall i, j :: 0 <= i < j < |s.events| ==> s.events[i].attemptId != s.events[j].attemptId)
  }

  ghost predicate Inv(clean: Cleaner, s: State) {
    Linked(s) && NoLeftovers(s) && Explained(clean, s) && Piped(s) && Notified(s)
  }

  // ---- Every action keeps it ----

  /** The result is for an open submission and carries its current attempt. */
  ghost predicate Hits(s: State, m: ResultMessage) {
    && m.submissionId in s.submissions
    && s.submissions[m.submissionId].currentAttemptId == m.attemptId
    && !IsTerminal(s.submissions[m.submissionId].status)
    && m.attemptId in s.attempts
    && s.attempts[m.attemptId].submissionId == m.submissionId
    && TerminalStatus(m.report.status).Some?
  }

  /** What applying changes: one submission, one attempt, one set of rows. */
  function Changed(clean: Cleaner, s: State, m: ResultMessage): State
    requires m.submissionId in s.submissions && m.attemptId in s.attempts && TerminalStatus(m.report.status).Some?
  {
    s.(submissions := s.submissions[m.submissionId := Completed(clean, s.submissions[m.submissionId], m.report)],
       attempts := s.attempts[m.attemptId := CompletedAttempt(s.attempts[m.attemptId], m.report)],
       rows := s.rows[(m.submissionId, m.attemptId) := m.report.testCases])
  }

  /** An applied result hits the open current attempt, and changes just that. */
  lemma ApplyHits(clean: Cleaner, s: State, m: ResultMessage, survives: bool)
    requires Linked(s) && Answer(s, m) == Done
    ensures Hits(s, m)
    ensures Apply(clean, s, m, survives) == Changed(clean, s, m).(events :=
              if survives
              then s.events + [Event(m.submissionId, m.attemptId, TerminalStatus(m.report.status).value)]
              else s.events)
  {
    hide TrimSpace, ParseStatus, TerminalStatus, OutputFields, Validate, CompletedAttempt;
    ValidHasStatus(m);
    TrimSpaceTrims(m.attemptId);
    assert s.submissions[m.submissionId].currentAttemptId in s.attempts;
  }

  lemma ApplyLinked(clean: Cleaner, s: State, m: ResultMessage)
    requires Linked(s) && NoLeftovers(s) && Hits(s, m)
    ensures Linked(Changed(clean, s, m)) && NoLeftovers(Changed(clean, s, m))
  {
    hide Trimmed, TerminalStatus, OutputFields;
  }

  lemma ExplainsNew(clean: Cleaner, s: State, m: ResultMessage)
    requires NoLeftovers(s) && Hits(s, m)
    ensures Explains(clean, Changed(clean, s, m), m.attemptId, m)
  {
    hide TerminalStatus, OutputFields;
  }

  lemma ExplainsOld(clean: Cleaner, s: State, m: ResultMessage, a: string, earlier: ResultMessage)
    requires Hits(s, m) && a in s.attempts && a != m.attemptId && Explains(clean, s, a, earlier)
    ensures Explains(clean, Changed(clean, s, m), a, earlier)
  {
    hide TerminalStatus, OutputFields;
  }

  lemma ApplyExplained(clean: Cleaner, s: State, k: nat)
    requires NoLeftovers(s) && Explained(clean, s) && k < |s.results| && Hits(s, s.results[k])
    ensures Explained(clean, Changed(clean, s, s.results[k]))
  {
    hide NoLeftovers, Explains, TerminalStatus, OutputFields;
    var m := s.results[k];
    var t := Changed(clean, s, m);
    ExplainsNew(clean, s, m);
    forall a | a in t.attempts && IsTerminal(t.attempts[a].status)
      ensures exists i :: 0 <= i < |t.results| && Explains(clean, t, a, t.results[i])
    {
      if a == m.attemptId {
        assert Explains(clean, t, a, t.results[k]);
      } else {
        var i :| 0 <= i < |s.results| && Explains(clean, s, a, s.results[i]);
        ExplainsOld(clean, s, m, a, s.results[i]);
        assert Explains(clean, t, a, t.results[i]);
      }
    }
  }

  lemma ApplyPiped(clean: Cleaner, s: State, m: ResultMessage)
    requires Piped(s) && Hits(s, m)
    ensures Piped(Changed(clean, s, m))
  {
    hide OneRecordEach, Committed, Sourced, TerminalStatus, OutputFields;
    var t := Changed(clean, s, m);
    assert t.attempts.Keys == s.attempts.Keys;
    assert AllGenuine(t);
  }

  lemma ApplyNotified(clean: Cleaner, s: State, m: ResultMessage, e: Event)
    requires Linked(s) && Notified(s) && Hits(s, m)
    requires e == Event(m.submissionId, m.attemptId, TerminalStatus(m.report.status).value)
    ensures Notified(Changed(clean, s, m)) && Notified(Changed(clean, s, m).(events := s.events + [e]))
  {
    hide Trimmed, TerminalStatus, OutputFields;
  }

  /** Events play no part in the rest of the invariant. */
  lemma EventsApart(clean: Cleaner, s: State, t: State)
    requires t == s.(events := t.events)
    requires Linked(s) && NoLeftovers(s) && Piped(s) && Explained(clean, s)
    ensures Linked(t) && NoLeftovers(t) && Piped(t) && Explained(clean, t)
  {
    hide Trimmed, OneRecordEach, Committed, Sourced, Explained;
    ExplainedContinues(clean, s, t);
  }

  lemma ApplyInv(clean: Cleaner, s: State, k: nat, survives: bool)
    requires Inv(clean, s) && k < |s.results|
    ensures Inv(clean, Apply(clean, s, s.results[k], survives))
  {
    hide Linked, NoLeftovers, Explained, Piped, Notified, Answer, TerminalStatus, CompletedAttempt,
         JudgingProtocol.Completed;
    var m := s.results[k];
    if Answer(s, m) == Done {
      ApplyHits(clean, s, m, survives);
      ApplyLinked(clean, s, m);
      ApplyExplained(clean, s, k);
      ApplyPiped(clean, s, m);
      ApplyNotified(clean, s, m, Event(m.submissionId, m.attemptId, TerminalStatus(m.report.status).value));
      EventsApart(clean, Changed(clean, s, m), Apply(clean, s, m, survives));
    }
  }

  /** A submission or a rejudge: one submission row, one fresh attempt and one outbox record. */
  function Opened(s: State, id: int, a: string, attempt: Attempt, work: Work): State {
    s.(nextId := if id == s.nextId then id + 1 else s.nextId,
       submissions := s.submissions[id := NewSubmission(work, a)],
       attempts := s.attempts[a := attempt],
       outbox := s.outbox + [OutboxMessage(Job(id, a, work), false, 0)])
  }

  /** It is a new submission, or one that has its verdict, with the work it always had. */
  ghost predicate MayOpen(s: State, id: int, a: string, attempt: Attempt, work: Work) {
    && a != "" && Trimmed(a) && a !in s.attempts
    && attempt.submissionId == id && attempt.status == Pending
    && (if id in s.submissions then IsTerminal(s.submissions[id].status) && s.submissions[id].work == work
        else id == s.nextId)
  }

  lemma OpenLinked(s: State, id: int, a: string, attempt: Attempt, work: Work)
    requires Linked(s) && MayOpen(s, id, a, attempt, work)
    ensures Linked(Opened(s, id, a, attempt, work))
  {
    hide Trimmed;
  }

  lemma OpenNoLeftovers(s: State, id: int, a: string, attempt: Attempt, work: Work)
    requires NoLeftovers(s)
    ensures NoLeftovers(Opened(s, id, a, attempt, work))
  {}

  lemma OpenExplained(clean: Cleaner, s: State, id: int, a: string, attempt: Attempt, work: Work)
    requires Linked(s) && Explained(clean, s) && MayOpen(s, id, a, attempt, work)
    ensures Explained(clean, Opened(s, id, a, attempt, work))
  {
    hide Trimmed, TerminalStatus, OutputFields, Linked;
    var t := Opened(s, id, a, attempt, work);
    forall b | b in t.attempts && IsTerminal(t.attempts[b].status)
      ensures exists i :: 0 <= i < |t.results| && Explains(clean, t, b, t.results[i])
    {
      var i :| 0 <= i < |s.results| && Explains(clean, s, b, s.results[i]);
      assert Explains(clean, t, b, t.results[i]);
    }
  }

  /** The outbox may grow, and its flags may change. */
  ghost predicate Continues(outbox: seq<OutboxMessage>, later: seq<OutboxMessage>) {
    |outbox| <= |later| && forall k :: 0 <= k < |outbox| ==> later[k].job == outbox[k].job
  }

  lemma CommittedContinues(jobs: seq<Job>, outbox: seq<OutboxMessage>, later: seq<OutboxMessage>)
    requires Committed(jobs, outbox) && Continues(outbox, later)
    ensures Committed(jobs, later)
  {
    forall i | 0 <= i < |jobs| ensures Kept(jobs[i], later) {
      var j :| 0 <= j < |outbox| && outbox[j].job == jobs[i];
      assert later[j].job == jobs[i];
    }
  }

  lemma RecordsContinue(outbox: seq<OutboxMessage>, later: seq<OutboxMessage>, attempts: set<string>)
    requires OneRecordEach(outbox, attempts) && Continues(outbox, later) && |later| == |outbox|
    ensures OneRecordEach(later, attempts)
  {
    forall a | a in attempts ensures exists i :: 0 <= i < |later| && later[i].job.attemptId == a {
      var i :| 0 <= i < |outbox| && outbox[i].job.attemptId == a;
      assert later[i].job.attemptId == a;
    }
  }

  lemma SourcedContinues(jobs: seq<Job>, later: seq<Job>, results: seq<ResultMessage>)
    requires Sourced(jobs, results) && jobs <= later
    ensures Sourced(later, results)
  {
    forall i | 0 <= i < |results| ensures Answered(results[i], later) {
      var j :| 0 <= j < |jobs| && Answers(results[i], jobs[j]);
      assert Answers(results[i], later[j]);
    }
  }

  lemma OpenGenuine(s: State, id: int, a: string, attempt: Attempt, work: Work)
    requires AllGenuine(s) && MayOpen(s, id, a, attempt, work)
    ensures AllGenuine(Opened(s, id, a, attempt, work))
  {
    hide Trimmed;
  }

  lemma OpenPiped(s: State, id: int, a: string, attempt: Attempt, work: Work)
    requires Piped(s) && MayOpen(s, id, a, attempt, work)
    ensures Piped(Opened(s, id, a, attempt, work))
  {
    hide Trimmed, Sourced, Committed, OneRecordEach;
    var t := Opened(s, id, a, attempt, work);
    OpenGenuine(s, id, a, attempt, work);
    assert forall i :: 0 <= i < |s.outbox| ==> Genuine(s, s.outbox[i].job);
    OneMoreRecord(s.outbox, s.attempts.Keys, OutboxMessage(Job(id, a, work), false, 0));
    assert t.attempts.Keys == s.attempts.Keys + {a};
    CommittedContinues(s.jobs, s.outbox, t.outbox);
  }

  lemma OneMoreRecord(outbox: seq<OutboxMessage>, attempts: set<string>, record: OutboxMessage)
    requires OneRecordEach(outbox, attempts) && record.job.attemptId !in attempts
    requires forall i :: 0 <= i < |outbox| ==> outbox[i].job.attemptId in attempts
    ensures OneRecordEach(outbox + [record], attempts + {record.job.attemptId})
  {
    var more := outbox + [record];
    forall a | a in attempts + {record.job.attemptId}
      ensures exists i :: 0 <= i < |more| && more[i].job.attemptId == a
    {
      if a in attempts {
        var i :| 0 <= i < |outbox| && outbox[i].job.attemptId == a;
        assert more[i].job.attemptId == a;
      } else {
        assert more[|outbox|].job.attemptId == a;
      }
    }
  }

  lemma OpenInv(clean: Cleaner, s: State, id: int, a: string, attempt: Attempt, work: Work)
    requires Inv(clean, s) && MayOpen(s, id, a, attempt, work)
    ensures Inv(clean, Opened(s, id, a, attempt, work))
  {
    hide Linked, NoLeftovers, Explained, Piped;
    OpenLinked(s, id, a, attempt, work);
    OpenNoLeftovers(s, id, a, attempt, work);
    OpenExplained(clean, s, id, a, attempt, work);
    OpenPiped(s, id, a, attempt, work);
    assert Notified(Opened(s, id, a, attempt, work));
  }

  lemma SubmitInv(clean: Cleaner, s: State, work: Work, rawAttemptId: string)
    requires Inv(clean, s)
    ensures Inv(clean, Submit(s, work, rawAttemptId))
  {
    hide TrimSpace, NoLeftovers, Explained, Piped, Notified, Trimmed, NonBlank;
    if FreshAttempt(s, rawAttemptId) {
      var a := TrimSpace(rawAttemptId);
      TrimSpaceTrims(rawAttemptId);
      OpenInv(clean, s, s.nextId, a, NewAttempt(s.nextId, BySubmission, work.userId), work);
    }
  }

  lemma RejudgeInv(clean: Cleaner, s: State, submissionId: int, rawAttemptId: string, admin: string)
    requires Inv(clean, s)
    ensures Inv(clean, Rejudge(s, submissionId, rawAttemptId, admin))
  {
    hide TrimSpace, NoLeftovers, Explained, Piped, Notified, Trimmed, NonBlank;
    if FreshAttempt(s, rawAttemptId) && MayRejudge(s, submissionId) {
      var a := TrimSpace(rawAttemptId);
      TrimSpaceTrims(rawAttemptId);
      var work := s.submissions[submissionId].work;
      OpenInv(clean, s, submissionId, a, NewAttempt(submissionId, ByAdminRejudge, admin), work);
    }
  }

  /** The topics and the outbox flags play no part in the tables. */
  lemma TopicsApart(clean: Cleaner, s: State, t: State)
    requires Inv(clean, s) && t == s.(outbox := t.outbox, jobs := t.jobs, results := t.results)
    requires s.results <= t.results
    ensures Linked(t) && NoLeftovers(t) && Explained(clean, t) && Notified(t)
  {
    hide Trimmed, Explained, Piped;
    ExplainedContinues(clean, s, t);
  }

  lemma ExplainedContinues(clean: Cleaner, s: State, t: State)
    requires Explained(clean, s) && s.results <= t.results
    requires t.submissions == s.submissions && t.attempts == s.attempts && t.rows == s.rows
    ensures Explained(clean, t)
  {
    hide TerminalStatus, OutputFields;
    forall a | a in t.attempts && IsTerminal(t.attempts[a].status)
      ensures exists i :: 0 <= i < |t.results| && Explains(clean, t, a, t.results[i])
    {
      var i :| 0 <= i < |s.results| && Explains(clean, s, a, s.results[i]);
      assert t.results[i] == s.results[i];
      assert Explains(clean, t, a, t.results[i]);
    }
  }

  lemma RelayInv(clean: Cleaner, s: State, i: nat, sent: bool, marked: bool)
    requires Inv(clean, s)
    ensures Inv(clean, Relay(s, i, sent, marked))
  {
    hide Linked, NoLeftovers, Explained, Notified;
    TopicsApart(clean, s, Relay(s, i, sent, marked));
    RelayPiped(s, i, sent, marked);
  }

  lemma RelayPiped(s: State, i: nat, sent: bool, marked: bool)
    requires Piped(s)
    ensures Piped(Relay(s, i, sent, marked))
  {
    hide Sourced, Committed, OneRecordEach, Sent;
    var t := Relay(s, i, sent, marked);
    RelaySent(s, i, sent, marked);
    assert Continues(s.outbox, t.outbox);
    RecordsContinue(s.outbox, t.outbox, s.attempts.Keys);
    CommittedContinues(s.jobs, s.outbox, t.outbox);
    SourcedContinues(s.jobs, t.jobs, s.results);
    if t.jobs != s.jobs {
      OneMoreCommitted(s.jobs, t.outbox, i);
    }
  }

  lemma RelaySent(s: State, i: nat, sent: bool, marked: bool)
    requires Sent(s.outbox, s.jobs)
    ensures Sent(Relay(s, i, sent, marked).outbox, Relay(s, i, sent, marked).jobs)
  {
    var t := Relay(s, i, sent, marked);
    assert sent && i < |s.outbox| && t.jobs != s.jobs ==> t.jobs[|s.jobs|] == s.outbox[i].job;
    assert forall j :: j in s.jobs ==> j in t.jobs;
  }

  lemma OneMoreCommitted(jobs: seq<Job>, outbox: seq<OutboxMessage>, i: nat)
    requires Committed(jobs, outbox) && i < |outbox|
    ensures Committed(jobs + [outbox[i].job], outbox)
  {
    var more := jobs + [outbox[i].job];
    forall k | 0 <= k < |more| ensures Kept(more[k], outbox) {
      if k < |jobs| {
        var j :| 0 <= j < |outbox| && outbox[j].job == jobs[k];
        assert outbox[j].job == more[k];
      } else {
        assert outbox[i].job == more[k];
      }
    }
  }

  lemma JudgeInv(clean: Cleaner, s: State, i: nat, report: Report)
    requires Inv(clean, s)
    ensures Inv(clean, Judge(s, i, report))
  {
    hide Linked, NoLeftovers, Explained, Notified, OneRecordEach, Committed;
    var t := Judge(s, i, report);
    TopicsApart(clean, s, t);
    if i < |s.jobs| {
      forall k | 0 <= k < |t.results| ensures Answered(t.results[k], t.jobs) {
        if k < |s.results| {
          var j :| 0 <= j < |s.jobs| && Answers(s.results[k], s.jobs[j]);
          assert Answers(t.results[k], t.jobs[j]);
        } else {
          assert Answers(t.results[k], t.jobs[i]);
        }
      }
    }
  }

  lemma StepInv(clean: Cleaner, s: State, a: Action)
    requires Inv(clean, s)
    ensures Inv(clean, Step(clean, s, a))
  {
    hide Inv;
    match a
    case SubmitWork(work, rawAttemptId) => SubmitInv(clean, s, work, rawAttemptId);
    case RejudgeOne(submissionId, rawAttemptId, admin) => RejudgeInv(clean, s, submissionId, rawAttemptId, admin);
    case RelayOne(i, sent, marked) => RelayInv(clean, s, i, sent, marked);
    case JudgeOne(i, report) => JudgeInv(clean, s, i, report);
    case DeliverOne(i, survives) =>
      if i < |s.results| {
        ApplyInv(clean, s, i, survives);
      }
  }

  lemma {:induction false} RunInv(clean: Cleaner, s: State, actions: seq<Action>)
    requires Inv(clean, s)
    ensures Inv(clean, RunFrom(clean, s, actions))
    decreases |actions|
  {
    if actions != [] {
      StepInv(clean, s, actions[0]);
      RunInv(clean, Step(clean, s, actions[0]), actions[1..]);
    }
  }

  lemma EmptyInv(clean: Cleaner)
    ensures Inv(clean, EMPTY)
  {}

  // ---- Main results over whole runs ----

  function Run(clean: Cleaner, actions: seq<Action>): State {
    RunFrom(clean, EMPTY, actions)
  }

  lemma ReachableInv(clean: Cleaner, actions: seq<Action>)
    ensures Inv(clean, Run(clean, actions))
  {
    EmptyInv(clean);
    RunInv(clean, EMPTY, actions);
  }

  /** Submission and attempt hold the status, measurements, texts and provenance of the report. */
  predicate Carries(clean: Cleaner, sub: Submission, attempt: Attempt, r: Report) {
    && r.status == StatusText(sub.status) && attempt.status == sub.status && TextsOf(clean, sub, r)
    && sub.executionTime == r.executionTime && sub.memoryUsed == r.memoryUsed
    && attempt.testcaseVersion == r.testcaseVersion && attempt.testCount == r.testCount
    && attempt.datasetChecksum == r.datasetChecksum
  }

  lemma ExplainsCarries(clean: Cleaner, s: State, a: string, m: ResultMessage)
    requires a in s.attempts && s.attempts[a].submissionId in s.submissions
    requires s.submissions[s.attempts[a].submissionId].currentAttemptId == a && Explains(clean, s, a, m)
    ensures Carries(clean, s.submissions[s.attempts[a].submissionId], s.attempts[a], m.report)
  {
    hide TerminalStatus, OutputFields, StatusText, TextsOf;
    CompletedTexts(clean, NewSubmission(s.submissions[s.attempts[a].submissionId].work, a), m.report);
  }

  /** In every run a verdict, which is one of eight, with all its measurements and texts, the attempt's provenance and
      the stored rows come from one result that carries the current attempt id and the text of that verdict and
      answers a published job; a submission without a verdict is pending and holds no measurement and no text. */
  lemma VerdictHasOneSource(clean: Cleaner, actions: seq<Action>, id: int)
    ensures
      var s := Run(clean, actions);
      id in s.submissions ==>
        var sub := s.submissions[id];
        && sub.currentAttemptId in s.attempts && s.attempts[sub.currentAttemptId].submissionId == id
        && if sub.status in VERDICTS
           then exists k :: 0 <= k < |s.results| && Answered(s.results[k], s.jobs) &&
                  Explains(clean, s, sub.currentAttemptId, s.results[k]) &&
                  Carries(clean, sub, s.attempts[sub.currentAttemptId], s.results[k].report)
           else && sub.status == Pending && sub.executionTime == None && sub.memoryUsed == None
                && sub.compileOutput == None && sub.errorMessage == None
  {
    hide Explains, RunFrom, Answered, Carries;
    ReachableInv(clean, actions);
    var s := Run(clean, actions);
    if id in s.submissions && IsTerminal(s.submissions[id].status) {
      var a := s.submissions[id].currentAttemptId;
      var k :| 0 <= k < |s.results| && Explains(clean, s, a, s.results[k]);
      assert Answered(s.results[k], s.jobs);
      ExplainsCarries(clean, s, a, s.results[k]);
    }
  }

  /** In every run a result is applied exactly when it is acceptable, names a submission, carries its current attempt id
      and the submission has no verdict yet; an unknown submission and a result that comes too late are told apart,
      and whatever is not applied changes nothing. */
  lemma AppliedExactly(clean: Cleaner, actions: seq<Action>, m: ResultMessage, survives: bool)
    ensures
      var s := Run(clean, actions);
      var known := m.submissionId in s.submissions;
      var current := known && s.submissions[m.submissionId].currentAttemptId == m.attemptId &&
                     s.submissions[m.submissionId].status !in VERDICTS;
      && (Answer(s, m) == Done <==> Acceptable(m) && current)
      && (Answer(s, m) == NotFound <==> Acceptable(m) && !known)
      && (Answer(s, m) == Ignored <==> Acceptable(m) && known && !current)
      && (Answer(s, m) != Done ==> Apply(clean, s, m, survives) == s)
  {
    hide RunFrom, Explained, Piped, NoLeftovers, Notified, Validate, Acceptable, TrimSpace, Trimmed;
    ReachableInv(clean, actions);
    ValidateExactly(m);
    var s := Run(clean, actions);
    if m.submissionId in s.submissions {
      TrimSpaceTrims(s.submissions[m.submissionId].currentAttemptId);
    }
  }

  /** No job is invented: every attempt has exactly one outbox record, and every record and every published job carries
      the work of the attempt's own submission. A record may be given up, see StrandedExactly. */
  lemma OneJobPerAttempt(clean: Cleaner, actions: seq<Action>)
    ensures
      var s := Run(clean, actions);
      && OneRecordEach(s.outbox, s.attempts.Keys)
      && Sent(s.outbox, s.jobs)
      && (forall i :: 0 <= i < |s.outbox| ==> Genuine(s, s.outbox[i].job))
      && (forall i :: 0 <= i < |s.jobs| ==> Genuine(s, s.jobs[i]) && Kept(s.jobs[i], s.outbox))
  {
    hide RunFrom, Explained, Linked, Notified, NoLeftovers;
    ReachableInv(clean, actions);
  }

  /** The event hub is told of each attempt at most once, and never anything but its verdict. */
  lemma EventsTruthful(clean: Cleaner, actions: seq<Action>, i: nat, j: nat)
    ensures
      var s := Run(clean, actions);
      i <= j < |s.events| ==>
        && s.events[i].attemptId in s.attempts
        && s.attempts[s.events[i].attemptId].status == s.events[i].status && IsTerminal(s.events[i].status)
        && (s.events[i].attemptId == s.events[j].attemptId ==> i == j)
  {
    hide RunFrom, Explained, Linked, Piped, NoLeftovers;
    ReachableInv(clean, actions);
  }

  /** What never changes back: completed attempts with their rows, the work of a submission,
      and that an attempt has been superseded. */
  ghost predicate Later(s: State, t: State) {
    && (forall a :: a in s.attempts ==>
          && a in t.attempts && t.attempts[a].submissionId == s.attempts[a].submissionId
          && (IsTerminal(s.attempts[a].status) ==> t.attempts[a] == s.attempts[a] && SameRows(s, t, a)))
    && (forall id :: id in s.submissions ==>
          id in t.submissions && t.submissions[id].work == s.submissions[id].work)
    && (forall a :: a in s.attempts && Superseded(s, a) ==> Superseded(t, a))
  }

  ghost predicate SameRows(s: State, t: State, a: string)
    requires a in s.attempts
  {
    var key := (s.attempts[a].submissionId, a);
    key in s.rows ==> key in t.rows && t.rows[key] == s.rows[key]
  }

  /** Another attempt has become current. */
  ghost predicate Superseded(s: State, a: string) {
    && a in s.attempts && s.attempts[a].submissionId in s.submissions
    && s.submissions[s.attempts[a].submissionId].currentAttemptId != a
  }

  lemma ChangedLater(clean: Cleaner, s: State, m: ResultMessage)
    requires Hits(s, m) && !IsTerminal(s.attempts[m.attemptId].status)
    ensures Later(s, Changed(clean, s, m))
  {
    hide TerminalStatus, OutputFields;
  }

  /** Later speaks of the tables only. */
  lemma SameTables(s: State, t: State, u: State)
    requires Later(s, t) && u.submissions == t.submissions && u.attempts == t.attempts && u.rows == t.rows
    ensures Later(s, u)
  {}

  lemma ApplyLater(clean: Cleaner, s: State, m: ResultMessage, survives: bool)
    requires Linked(s)
    ensures Later(s, Apply(clean, s, m, survives))
  {
    hide Later, Trimmed, TerminalStatus, OutputFields, Answer;
    NothingLater(s);
    if Answer(s, m) == Done {
      ApplyHits(clean, s, m, survives);
      ChangedLater(clean, s, m);
      SameTables(s, Changed(clean, s, m), Apply(clean, s, m, survives));
    }
  }

  lemma NothingLater(s: State)
    ensures Later(s, s)
  {}

  lemma OpenLater(s: State, id: int, a: string, attempt: Attempt, work: Work)
    requires Linked(s) && MayOpen(s, id, a, attempt, work)
    ensures Later(s, Opened(s, id, a, attempt, work))
  {
    hide Trimmed, Superseded, Linked;
    forall b | b in s.attempts && Superseded(s, b) ensures Superseded(Opened(s, id, a, attempt, work), b) {
      OpenKeepsSuperseded(s, id, a, attempt, work, b);
    }
  }

  lemma OpenKeepsSuperseded(s: State, id: int, a: string, attempt: Attempt, work: Work, b: string)
    requires MayOpen(s, id, a, attempt, work) && Superseded(s, b)
    ensures Superseded(Opened(s, id, a, attempt, work), b)
  {
    hide Trimmed;
  }

  lemma StepLater(clean: Cleaner, s: State, a: Action)
    requires Inv(clean, s)
    ensures Later(s, Step(clean, s, a))
  {
    hide Later, Explained, Piped, Notified, NoLeftovers, TrimSpace, Trimmed, NonBlank, Apply;
    NothingLater(s);
    match a
    case SubmitWork(work, rawAttemptId) =>
      if FreshAttempt(s, rawAttemptId) {
        TrimSpaceTrims(rawAttemptId);
        OpenLater(s, s.nextId, TrimSpace(rawAttemptId), NewAttempt(s.nextId, BySubmission, work.userId), work);
      }
    case RejudgeOne(id, rawAttemptId, admin) =>
      if FreshAttempt(s, rawAttemptId) && MayRejudge(s, id) {
        TrimSpaceTrims(rawAttemptId);
        OpenLater(s, id, TrimSpace(rawAttemptId), NewAttempt(id, ByAdminRejudge, admin), s.submissions[id].work);
      }
    case RelayOne(i, sent, marked) => SameTables(s, s, Relay(s, i, sent, marked));
    case JudgeOne(i, report) => SameTables(s, s, Judge(s, i, report));
    case DeliverOne(i, survives) =>
      if i < |s.results| {
        ApplyLater(clean, s, s.results[i], survives);
      }
  }

  lemma LaterTransitive(s: State, t: State, u: State)
    requires Later(s, t) && Later(t, u)
    ensures Later(s, u)
  {}

  lemma {:induction false} RunLater(clean: Cleaner, s: State, actions: seq<Action>)
    requires Inv(clean, s)
    ensures Later(s, RunFrom(clean, s, actions))
    decreases |actions|
  {
    hide Inv, Step;
    if actions != [] {
      var t := Step(clean, s, actions[0]);
      StepInv(clean, s, actions[0]);
      StepLater(clean, s, actions[0]);
      RunLater(clean, t, actions[1..]);
      LaterTransitive(s, t, RunFrom(clean, t, actions[1..]));
    }
  }

  /** A completed attempt and its rows are the same at every later point of every run. */
  lemma CompletedAttemptIsFinal(clean: Cleaner, before: seq<Action>, after: seq<Action>, a: string)
    requires a in Run(clean, before).attempts && IsTerminal(Run(clean, before).attempts[a].status)
    ensures
      var s := Run(clean, before); var t := RunFrom(clean, s, after);
      a in t.attempts && t.attempts[a] == s.attempts[a] && SameRows(s, t, a)
  {
    hide Inv, RunFrom;
    ReachableInv(clean, before);
    RunLater(clean, Run(clean, before), after);
  }

  /** Every stream connection opens with a snapshot of the row. Whatever clients hear of an attempt, by snapshots taken
      at any two points of a run or through the event hub, is one and the same verdict. */
  lemma ClientsHearOneVerdict(clean: Cleaner, before: seq<Action>, after: seq<Action>, id: int)
    ensures
      var s := Run(clean, before); var t := RunFrom(clean, s, after);
      id in s.submissions && IsTerminal(s.submissions[id].status) ==>
        var sub := s.submissions[id];
        && id in t.submissions
        && (t.submissions[id].currentAttemptId == sub.currentAttemptId ==> t.submissions[id].status == sub.status)
        && forall i :: 0 <= i < |t.events| && t.events[i].attemptId == sub.currentAttemptId ==>
             t.events[i].status == sub.status && t.events[i].submissionId == id
  {
    hide RunFrom, Explained, Piped, NoLeftovers, Trimmed;
    var s := Run(clean, before);
    ReachableInv(clean, before);
    RunInv(clean, s, after);
    RunLater(clean, s, after);
  }

  /** Results of a superseded attempt change nothing, at any later point of any run. */
  lemma SupersededResultsIgnored(
      clean: Cleaner, before: seq<Action>, after: seq<Action>, m: ResultMessage, survives: bool)
    ensures
      var s := Run(clean, before); var t := RunFrom(clean, s, after);
      Superseded(s, m.attemptId) ==> Apply(clean, t, m, survives) == t
  {
    hide RunFrom, TrimSpace, Validate, Later, Explained, Piped, Notified, NoLeftovers;
    var s := Run(clean, before);
    ReachableInv(clean, before);
    RunLater(clean, s, after);
    RunInv(clean, s, after);
    var t := RunFrom(clean, s, after);
    if Superseded(s, m.attemptId) {
      SupersededLater(s, t, m.attemptId);
      if Answer(t, m) == Done {
        ApplyHits(clean, t, m, survives);
      }
    }
  }

  lemma SupersededLater(s: State, t: State, a: string)
    requires Later(s, t) && a in s.attempts && Superseded(s, a)
    ensures Superseded(t, a)
  {}

  /** The action applies a result to the attempt. */
  ghost predicate Completes(s: State, act: Action, a: string) {
    act.DeliverOne? && act.i < |s.results| && s.results[act.i].attemptId == a && Answer(s, s.results[act.i]) == Done
  }

  ghost function Completions(clean: Cleaner, s: State, actions: seq<Action>, a: string): nat
    decreases |actions|
  {
    if actions == [] then 0
    else
      (if Completes(s, actions[0], a) then 1 else 0) +
      Completions(clean, Step(clean, s, actions[0]), actions[1..], a)
  }

  ghost predicate Closed(s: State, a: string) {
    a in s.attempts && IsTerminal(s.attempts[a].status)
  }

  lemma CompletesCloses(clean: Cleaner, s: State, act: Action, a: string)
    requires Inv(clean, s) && Completes(s, act, a)
    ensures !Closed(s, a) && Closed(Step(clean, s, act), a)
  {
    hide TrimSpace, Trimmed, TerminalStatus, OutputFields, Validate, Explained, Piped, Notified, NoLeftovers, Answer,
         Apply;
    var m := s.results[act.i];
    ApplyHits(clean, s, m, act.survives);
    TerminalIsTerminal(m.report.status);
  }

  lemma TerminalIsTerminal(raw: string)
    ensures TerminalStatus(raw).Some? ==> IsTerminal(TerminalStatus(raw).value)
  {}

  /** Whatever is repeated or reordered, each attempt is completed at most once. */
  lemma {:induction false} CompletesAtMostOnce(clean: Cleaner, s: State, actions: seq<Action>, a: string)
    requires Inv(clean, s)
    ensures Completions(clean, s, actions, a) <= if Closed(s, a) then 0 else 1
    decreases |actions|
  {
    hide Inv, Step, Completes, Later;
    if actions != [] {
      var act, t := actions[0], Step(clean, s, actions[0]);
      StepInv(clean, s, act);
      StepLater(clean, s, act);
      ClosedLater(s, t, a);
      CompletesAtMostOnce(clean, t, actions[1..], a);
      if Completes(s, act, a) {
        CompletesCloses(clean, s, act, a);
      }
    }
  }

  lemma ClosedLater(s: State, t: State, a: string)
    requires Later(s, t)
    ensures Closed(s, a) ==> Closed(t, a)
  {}

  lemma EachAttemptCompletesAtMostOnce(clean: Cleaner, actions: seq<Action>, a: string)
    ensures Completions(clean, EMPTY, actions, a) <= 1
  {
    EmptyInv(clean);
    CompletesAtMostOnce(clean, EMPTY, actions, a);
  }

  /** A verdict stands until the submission is rejudged: no delivery, relay, submission or other rejudge touches it. */
  lemma {:induction false} VerdictStands(clean: Cleaner, s: State, actions: seq<Action>, id: int)
    requires Inv(clean, s) && id in s.submissions && IsTerminal(s.submissions[id].status)
    requires forall k :: 0 <= k < |actions| ==> !(actions[k].RejudgeOne? && actions[k].submissionId == id)
    ensures id in RunFrom(clean, s, actions).submissions &&
            RunFrom(clean, s, actions).submissions[id] == s.submissions[id]
    decreases |actions|
  {
    hide Inv, Step;
    if actions != [] {
      StepInv(clean, s, actions[0]);
      StepKeepsVerdict(clean, s, actions[0], id);
      VerdictStands(clean, Step(clean, s, actions[0]), actions[1..], id);
    }
  }

  lemma StepKeepsVerdict(clean: Cleaner, s: State, a: Action, id: int)
    requires Inv(clean, s) && id in s.submissions && IsTerminal(s.submissions[id].status)
    requires !(a.RejudgeOne? && a.submissionId == id)
    ensures id in Step(clean, s, a).submissions && Step(clean, s, a).submissions[id] == s.submissions[id]
  {
    hide Explained, Piped, Notified, NoLeftovers, TrimSpace, Trimmed, Validate, TerminalStatus, OutputFields;
  }

  lemma VerdictStandsUntilRejudge(clean: Cleaner, before: seq<Action>, after: seq<Action>, id: int)
    requires id in Run(clean, before).submissions && IsTerminal(Run(clean, before).submissions[id].status)
    requires forall k :: 0 <= k < |after| ==> !(after[k].RejudgeOne? && after[k].submissionId == id)
    ensures
      var s := Run(clean, before); var t := RunFrom(clean, s, after);
      id in t.submissions && t.submissions[id] == s.submissions[id]
  {
    hide Inv, RunFrom;
    ReachableInv(clean, before);
    VerdictStands(clean, Run(clean, before), after, id);
  }

  /** In every run the texts shown with a submission fit its verdict: compiler output only with a compilation error, an
      explanation with every exceeded limit, nothing with an accepted or wrong answer, and for a system error
      one fixed sentence whatever the worker reported. */
  lemma MessagesFitVerdicts(clean: Cleaner, actions: seq<Action>, id: int)
    ensures
      var s := Run(clean, actions);
      id in s.submissions ==>
        var sub := s.submissions[id];
        && (sub.compileOutput.Some? ==> sub.status == CompilationError && TrimSpace(sub.compileOutput.value) != "")
        && (sub.status in {TimeLimitExceeded, MemoryLimitExceeded, OutputLimitExceeded} ==> sub.errorMessage.Some?)
        && (sub.status in {Pending, Accepted, WrongAnswer, CompilationError} ==> sub.errorMessage == None)
        && (sub.status == SystemError ==> sub.errorMessage == Some("The judge could not complete this submission."))
  {
    hide RunFrom, TrimSpace, TerminalStatus, Answered;
    VerdictHasOneSource(clean, actions, id);
    var s := Run(clean, actions);
    if id in s.submissions && IsTerminal(s.submissions[id].status) {
      var a := s.submissions[id].currentAttemptId;
      var k :| 0 <= k < |s.results| && Explains(clean, s, a, s.results[k]);
    }
  }
}

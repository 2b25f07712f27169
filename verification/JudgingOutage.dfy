/** Outbox records that were given up, and the submissions they strand. */
module JudgingOutage {
  import opened Verdicts
  import opened GoText
  import opened JudgingProtocol
  import opened JudgingSafety

  predicate IsOpen(s: State, id: int) {
    id in s.submissions && !IsTerminal(s.submissions[id].status)
  }

  /** The record at an index is that of the submission's current attempt, and its job was never sent. */
  ghost predicate Unsent(s: State, id: int, i: nat) {
    && id in s.submissions && i < |s.outbox|
    && s.outbox[i].job.attemptId == s.submissions[id].currentAttemptId
    && s.outbox[i].job !in s.jobs
  }

  /** The record was given up besides. */
  ghost predicate GivenUp(s: State, id: int, i: nat) {
    Unsent(s, id, i) && s.outbox[i].retryCount >= 5
  }

  ghost predicate Stranded(s: State, id: int) {
    IsOpen(s, id) && exists i: nat :: GivenUp(s, id, i)
  }

  /** No result names an attempt whose job was never sent. */
  lemma NoResultFor(s: State, id: int, i: nat, m: ResultMessage)
    requires Piped(s) && Unsent(s, id, i) && m in s.results
    ensures m.attemptId != s.submissions[id].currentAttemptId
  {
    hide Sent, AllGenuine;
  }

  /** The relay acts on the record at i. */
  predicate ActsOn(s: State, a: Action, i: nat) {
    a.RelayOne? && a.i == i && i < |s.outbox| && !s.outbox[i].published && s.outbox[i].retryCount < MAX_PUBLISH_RETRIES
  }

  /** The relay sends other records only. */
  lemma RelayLeavesUnsent(s: State, id: int, i: nat, j: nat, sent: bool, marked: bool)
    requires OneRecordEach(s.outbox, s.attempts.Keys) && Unsent(s, id, i)
    requires !ActsOn(s, RelayOne(j, sent, marked), i)
    ensures
      var t := Relay(s, j, sent, marked);
      Unsent(t, id, i) && t.outbox[i] == s.outbox[i]
  {}

  /** As long as the relay does not act on its record, nothing happens to a submission whose job was never sent. */
  lemma StepKeepsUnsent(clean: Cleaner, s: State, a: Action, id: int, i: nat)
    requires Inv(clean, s) && IsOpen(s, id) && Unsent(s, id, i) && !ActsOn(s, a, i)
    ensures
      var t := Step(clean, s, a);
      Unsent(t, id, i) && t.outbox[i] == s.outbox[i] && t.submissions[id] == s.submissions[id]
  {
    hide Explained, Notified, NoLeftovers, Sent, AllGenuine, Committed, Sourced, TrimSpace, Trimmed, Validate,
      NonBlank, Apply;
    match a
    case RelayOne(j, sent, marked) => RelayLeavesUnsent(s, id, i, j, sent, marked);
    case DeliverOne(j, survives) =>
      if j < |s.results| {
        ApplyLeavesUnsent(clean, s, id, i, s.results[j], survives);
      }
    case _ =>
  }

  lemma ApplyLeavesUnsent(clean: Cleaner, s: State, id: int, i: nat, m: ResultMessage, survives: bool)
    requires Piped(s) && Unsent(s, id, i) && m in s.results
    ensures
      var t := Apply(clean, s, m, survives);
      Unsent(t, id, i) && t.outbox == s.outbox && t.submissions[id] == s.submissions[id]
  {
    hide Piped, Validate, TrimSpace, TerminalStatus, OutputFields;
    NoResultFor(s, id, i, m);
  }

  lemma {:induction false} StrandedStays(clean: Cleaner, s: State, actions: seq<Action>, id: int, i: nat)
    requires Inv(clean, s) && IsOpen(s, id) && GivenUp(s, id, i)
    ensures id in RunFrom(clean, s, actions).submissions &&
            RunFrom(clean, s, actions).submissions[id] == s.submissions[id]
    decreases |actions|
  {
    hide Inv, Step;
    if actions != [] {
      StepInv(clean, s, actions[0]);
      StepKeepsUnsent(clean, s, actions[0], id, i);
      StrandedStays(clean, Step(clean, s, actions[0]), actions[1..], id, i);
    }
  }

  const ACCEPTING := Report("ACCEPTED", None, None, None, None, None, None, None, [])

  lemma AcceptingIsValid(m: ResultMessage)
    requires m.submissionId >= 1 && m.attemptId != "" && Trimmed(m.attemptId) && m.report == ACCEPTING
    ensures Validate(m) == Done
  {
    hide TrimSpace;
    TrimSpaceTrims(m.attemptId);
  }

  /** A job that was sent can still be answered: judging and delivering it gives the submission its verdict. */
  lemma SentCompletes(clean: Cleaner, s: State, id: int, j: nat)
    requires Inv(clean, s) && IsOpen(s, id) && j < |s.jobs|
    requires s.jobs[j].attemptId == s.submissions[id].currentAttemptId
    ensures
      var t := RunFrom(clean, s, [JudgeOne(j, ACCEPTING), DeliverOne(|s.results|, true)]);
      id in t.submissions && IsTerminal(t.submissions[id].status)
  {
    hide Explained, Notified, NoLeftovers, TrimSpace, Trimmed, Validate, RunFrom, Sent, OneRecordEach, Committed,
      Sourced, Apply;
    var m := ResultMessage(s.jobs[j].submissionId, s.jobs[j].attemptId, ACCEPTING);
    var q := Judge(s, j, ACCEPTING);
    assert Genuine(s, s.jobs[j]);
    TrimSpaceTrims(m.attemptId);
    AcceptingIsValid(m);
    assert Answer(q, m) == Done;
    DoneGivesVerdict(clean, q, m, true);
    var judge, deliver := JudgeOne(j, ACCEPTING), DeliverOne(|s.results|, true);
    assert [judge] + [deliver] == [judge, deliver];
    RunFirst(clean, s, judge, [deliver]);
    RunFirst(clean, q, deliver, []);
  }

  lemma DoneGivesVerdict(clean: Cleaner, s: State, m: ResultMessage, survives: bool)
    requires Answer(s, m) == Done
    ensures
      var t := Apply(clean, s, m, survives);
      m.submissionId in t.submissions && IsTerminal(t.submissions[m.submissionId].status)
  {
    hide Validate, TrimSpace, OutputFields, TerminalStatus;
    ValidHasStatus(m);
    TerminalIsTerminal(m.report.status);
  }

  lemma RunFirst(clean: Cleaner, s: State, a: Action, rest: seq<Action>)
    ensures RunFrom(clean, s, [a] + rest) == RunFrom(clean, Step(clean, s, a), rest)
    ensures RunFrom(clean, s, [a]) == Step(clean, s, a)
  {
    hide Step;
    assert ([a] + rest)[1..] == rest;
  }

  /** Every submission has its outbox record. */
  lemma RecordOf(clean: Cleaner, s: State, id: int) returns (i: nat)
    requires Inv(clean, s) && id in s.submissions
    ensures i < |s.outbox| && s.outbox[i].job.attemptId == s.submissions[id].currentAttemptId
    ensures s.outbox[i].job !in s.jobs ==> !s.outbox[i].published
  {
    hide Explained, Notified, NoLeftovers, Trimmed;
    i :| 0 <= i < |s.outbox| && s.outbox[i].job.attemptId == s.submissions[id].currentAttemptId;
  }

  /** An open submission that is not stranded can still get a verdict. */
  lemma OpenCanComplete(clean: Cleaner, s: State, id: int) returns (after: seq<Action>)
    requires Inv(clean, s) && IsOpen(s, id) && !Stranded(s, id)
    ensures id in RunFrom(clean, s, after).submissions && IsTerminal(RunFrom(clean, s, after).submissions[id].status)
  {
    hide Inv, RunFrom, Step;
    var i := RecordOf(clean, s, id);
    assert !GivenUp(s, id, i);
    if s.outbox[i].job in s.jobs {
      var j :| 0 <= j < |s.jobs| && s.jobs[j] == s.outbox[i].job;
      SentCompletes(clean, s, id, j);
      after := [JudgeOne(j, ACCEPTING), DeliverOne(|s.results|, true)];
    } else {
      var send, t := RelayOne(i, true, true), Relay(s, i, true, true);
      StepIsRelay(clean, s, i, true);
      RelayInv(clean, s, i, true, true);
      SentCompletes(clean, t, id, |s.jobs|);
      var rest := [JudgeOne(|s.jobs|, ACCEPTING), DeliverOne(|t.results|, true)];
      after := [send] + rest;
      RunFirst(clean, s, send, rest);
    }
  }

  lemma StepIsRelay(clean: Cleaner, s: State, i: nat, sent: bool)
    ensures Step(clean, s, RelayOne(i, sent, true)) == Relay(s, i, sent, true)
  {}

  /** In every run, as long as the database may return any pending record to the relay, an open submission is out of
      reach of any verdict exactly when the record of its current attempt was given up unsent: then it stays as it
      is in every continuation, and otherwise some continuation completes it. */
  lemma StrandedExactly(clean: Cleaner, before: seq<Action>, id: int)
    ensures
      var s := Run(clean, before);
      IsOpen(s, id) ==>
        && (Stranded(s, id) ==> forall after :: var t := RunFrom(clean, s, after);
              id in t.submissions && t.submissions[id] == s.submissions[id])
        && (!Stranded(s, id) ==> exists after :: var t := RunFrom(clean, s, after);
              id in t.submissions && IsTerminal(t.submissions[id].status))
  {
    hide Inv, RunFrom, GivenUp;
    ReachableInv(clean, before);
    var s := Run(clean, before);
    if IsOpen(s, id) {
      if Stranded(s, id) {
        var i: nat :| GivenUp(s, id, i);
        forall after
          ensures var t := RunFrom(clean, s, after); id in t.submissions && t.submissions[id] == s.submissions[id]
        {
          StrandedStays(clean, s, after, id, i);
        }
      } else {
        var after := OpenCanComplete(clean, s, id);
      }
    }
  }

  function Failures(i: nat, n: nat): seq<Action> {
    if n == 0 then [] else [RelayOne(i, false, true)] + Failures(i, n - 1)
  }

  lemma {:induction false} FailuresCount(clean: Cleaner, s: State, i: nat, n: nat)
    requires i < |s.outbox| && !s.outbox[i].published && s.outbox[i].retryCount + n <= MAX_PUBLISH_RETRIES
    ensures RunFrom(clean, s, Failures(i, n)) ==
            s.(outbox := s.outbox[i := s.outbox[i].(retryCount := s.outbox[i].retryCount + n)])
    decreases n
  {
    hide RunFrom, Step;
    if n == 0 {
      RunFromNothing(clean, s);
      assert s.outbox[i := s.outbox[i].(retryCount := s.outbox[i].retryCount + 0)] == s.outbox;
    } else {
      var t := Relay(s, i, false, true);
      StepIsRelay(clean, s, i, false);
      RunFirst(clean, s, RelayOne(i, false, true), Failures(i, n - 1));
      FailuresCount(clean, t, i, n - 1);
    }
  }

  /** Stranding is one outage away: in every run, as long as an open submission's job has not been sent, the failures
      its record has left strand it. */
  lemma FailuresStrand(clean: Cleaner, before: seq<Action>, id: int, i: nat)
    requires
      var s := Run(clean, before);
      IsOpen(s, id) && Unsent(s, id, i)
    ensures
      var s := Run(clean, before);
      && s.outbox[i].retryCount <= MAX_PUBLISH_RETRIES
      && Stranded(RunFrom(clean, s, Failures(i, MAX_PUBLISH_RETRIES - s.outbox[i].retryCount)), id)
  {
    hide RunFrom, Linked, NoLeftovers, Explained, Notified, Failures;
    var s := Run(clean, before);
    ReachableInv(clean, before);
    FailuresCount(clean, s, i, MAX_PUBLISH_RETRIES - s.outbox[i].retryCount);
    var t := RunFrom(clean, s, Failures(i, MAX_PUBLISH_RETRIES - s.outbox[i].retryCount));
    assert GivenUp(t, id, i);
  }

  /** The shortest such run. */
  lemma FiveFailuresStrand(clean: Cleaner, work: Work)
    ensures Stranded(RunFrom(clean, Run(clean, [SubmitWork(work, "a")]), Failures(0, 5)), 1)
  {
    hide RunFrom, TrimSpace, NewAttempt, Stranded, Failures;
    TrimSpaceTrims("a");
    RunFirst(clean, EMPTY, SubmitWork(work, "a"), []);
    FailuresStrand(clean, [SubmitWork(work, "a")], 1, 0);
  }
}

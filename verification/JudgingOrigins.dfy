/** Where attempts come from. */
module JudgingOrigins {
  import opened Verdicts
  import opened GoText
  import opened JudgingProtocol
  import opened JudgingSafety

  /** Record i is the first of its submission. */
  predicate First(outbox: seq<OutboxMessage>, i: nat)
    requires i < |outbox|
  {
    forall j :: 0 <= j < i ==> outbox[j].job.submissionId != outbox[i].job.submissionId
  }

  /** The attempt of a record was triggered by the submission itself, and by its author, exactly when it is the
      submission's first. */
  ghost predicate Told(s: State, i: nat)
    requires i < |s.outbox|
  {
    var job := s.outbox[i].job;
    && job.attemptId in s.attempts
    && var attempt := s.attempts[job.attemptId];
    && (attempt.trigger == BySubmission <==> First(s.outbox, i))
    && (attempt.trigger == BySubmission ==>
          attempt.triggeredBy == if AllSpace(job.work.userId) then None else Some(TrimSpace(job.work.userId)))
  }

  ghost predicate AllTold(s: State) {
    forall i: nat :: i < |s.outbox| ==> Told(s, i)
  }

  /** Nothing but the flags of records and the results of attempts has changed. */
  ghost predicate SameOrigins(s: State, t: State) {
    && |t.outbox| == |s.outbox| && (forall i :: 0 <= i < |s.outbox| ==> t.outbox[i].job == s.outbox[i].job)
    && forall a :: a in s.attempts ==>
         a in t.attempts && t.attempts[a].trigger == s.attempts[a].trigger &&
         t.attempts[a].triggeredBy == s.attempts[a].triggeredBy
  }

  lemma SameTold(s: State, t: State)
    requires AllTold(s) && SameOrigins(s, t)
    ensures AllTold(t)
  {
    hide AllSpace, TrimSpace;
    forall i: nat | i < |t.outbox| ensures Told(t, i) {
      assert Told(s, i);
      FirstContinues(s.outbox, t.outbox, i);
    }
  }

  lemma FirstContinues(outbox: seq<OutboxMessage>, later: seq<OutboxMessage>, i: nat)
    requires i < |outbox| <= |later| && forall j :: 0 <= j < |outbox| ==> later[j].job == outbox[j].job
    ensures First(later, i) <==> First(outbox, i)
  {
    if First(later, i) {
      forall j | 0 <= j < i ensures outbox[j].job.submissionId != outbox[i].job.submissionId {
        assert later[j].job == outbox[j].job && later[i].job == outbox[i].job;
      }
    }
  }

  /** A new record after the old ones. */
  lemma OpenTold(s: State, id: int, a: string, attempt: Attempt, work: Work)
    requires AllTold(s) && a !in s.attempts
    requires
      var t := Opened(s, id, a, attempt, work);
      Told(t, |s.outbox|)
    ensures AllTold(Opened(s, id, a, attempt, work))
  {
    hide AllSpace, TrimSpace;
    var t := Opened(s, id, a, attempt, work);
    forall i: nat | i < |t.outbox| ensures Told(t, i) {
      if i < |s.outbox| {
        assert Told(s, i) && t.outbox[i] == s.outbox[i];
        FirstContinues(s.outbox, t.outbox, i);
      }
    }
  }

  lemma SubmitTold(clean: Cleaner, s: State, work: Work, rawAttemptId: string)
    requires Inv(clean, s) && AllTold(s)
    ensures AllTold(Submit(s, work, rawAttemptId))
  {
    hide Explained, Notified, NoLeftovers, TrimSpace, AllSpace, Trimmed, AllTold;
    if FreshAttempt(s, rawAttemptId) {
      var a, attempt := TrimSpace(rawAttemptId), NewAttempt(s.nextId, BySubmission, work.userId);
      TrimmedVisible(work.userId);
      assert forall i :: 0 <= i < |s.outbox| ==> Genuine(s, s.outbox[i].job);
      OpenTold(s, s.nextId, a, attempt, work);
    }
  }

  lemma RejudgeTold(clean: Cleaner, s: State, id: int, rawAttemptId: string, admin: string)
    requires Inv(clean, s) && AllTold(s)
    ensures AllTold(Rejudge(s, id, rawAttemptId, admin))
  {
    hide Explained, Notified, NoLeftovers, TrimSpace, AllSpace, Trimmed, AllTold, Linked, Piped;
    if FreshAttempt(s, rawAttemptId) && MayRejudge(s, id) {
      var a, attempt := TrimSpace(rawAttemptId), NewAttempt(id, ByAdminRejudge, admin);
      var work := s.submissions[id].work;
      var t := Opened(s, id, a, attempt, work);
      var i := RecordIndex(s, id);
      assert t.outbox[i].job.submissionId == t.outbox[|s.outbox|].job.submissionId;
      OpenTold(s, id, a, attempt, work);
    }
  }

  /** Every submission has an outbox record. */
  lemma RecordIndex(s: State, id: int) returns (i: nat)
    requires Linked(s) && Piped(s) && id in s.submissions
    ensures i < |s.outbox| && s.outbox[i].job.submissionId == id && id < s.nextId
  {
    hide Trimmed, Sent, Committed, Sourced;
    var a := s.submissions[id].currentAttemptId;
    i :| 0 <= i < |s.outbox| && s.outbox[i].job.attemptId == a;
    assert Genuine(s, s.outbox[i].job);
  }

  lemma ApplyOrigins(clean: Cleaner, s: State, m: ResultMessage, survives: bool)
    ensures SameOrigins(s, Apply(clean, s, m, survives))
  {
    hide Answer, TrimSpace, TerminalStatus, OutputFields;
    if Answer(s, m) == Done {
      DoneHasStatus(s, m);
    }
  }

  lemma DoneHasStatus(s: State, m: ResultMessage)
    requires Answer(s, m) == Done
    ensures m.submissionId in s.submissions && TerminalStatus(m.report.status).Some?
  {}

  lemma StepTold(clean: Cleaner, s: State, a: Action)
    requires Inv(clean, s) && AllTold(s)
    ensures AllTold(Step(clean, s, a))
  {
    hide Inv, AllTold, Apply, Submit, Rejudge;
    match a
    case SubmitWork(work, rawAttemptId) => SubmitTold(clean, s, work, rawAttemptId);
    case RejudgeOne(id, rawAttemptId, admin) => RejudgeTold(clean, s, id, rawAttemptId, admin);
    case RelayOne(i, sent, marked) => SameTold(s, Relay(s, i, sent, marked));
    case JudgeOne(i, report) => SameTold(s, Judge(s, i, report));
    case DeliverOne(i, survives) =>
      if i < |s.results| {
        ApplyOrigins(clean, s, s.results[i], survives);
        SameTold(s, Apply(clean, s, s.results[i], survives));
      }
  }

  lemma {:induction false} RunTold(clean: Cleaner, s: State, actions: seq<Action>)
    requires Inv(clean, s) && AllTold(s)
    ensures AllTold(RunFrom(clean, s, actions))
    decreases |actions|
  {
    hide Inv, AllTold, Step;
    if actions != [] {
      StepInv(clean, s, actions[0]);
      StepTold(clean, s, actions[0]);
      RunTold(clean, Step(clean, s, actions[0]), actions[1..]);
    }
  }

  /** In every run, in the order of the outbox, the first attempt of each submission is the one triggered by submitting
      it, in the name of its author, and every later one was triggered by a rejudge. */
  lemma TriggersTell(clean: Cleaner, actions: seq<Action>, i: nat)
    ensures
      var s := Run(clean, actions);
      i < |s.outbox| ==> Told(s, i)
  {
    hide Inv, RunFrom, Told;
    EmptyInv(clean);
    RunTold(clean, EMPTY, actions);
  }
}

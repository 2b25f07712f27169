/** Attempt-aware judging: submissions, attempts and outbox records written in one transaction,
    jobs and results carried at least once, results applied under the attempt guard. */
module JudgingProtocol {
  import opened Verdicts
  import opened GoText

  const MAX_PUBLISH_RETRIES := 5

  /** What is to be judged; never changes after submission. */
  datatype Work = Work(problemId: int, userId: string, language: string, sourceCode: string)

  datatype Submission = Submission(
    work: Work,
    currentAttemptId: string,
    status: Status,
    executionTime: Option<int>,
    memoryUsed: Option<int>,
    compileOutput: Option<string>,
    errorMessage: Option<string>)

  datatype Trigger = BySubmission | ByAdminRejudge

  datatype Attempt = Attempt(
    submissionId: int,
    trigger: Trigger,
    triggeredBy: Option<string>,
    status: Status,
    testcaseVersion: Option<int>,
    testCount: Option<int>,
    datasetChecksum: Option<string>)

  datatype TestItem = TestItem(index: int, status: string, actualOutput: Option<string>)

  datatype Job = Job(submissionId: int, attemptId: string, work: Work)

  datatype OutboxMessage = OutboxMessage(job: Job, published: bool, retryCount: nat)

  /** What the worker says about a job, apart from the two ids it copies from the job. */
  datatype Report = Report(
    status: string,
    executionTime: Option<int>,
    memoryUsed: Option<int>,
    compileOutput: Option<string>,
    errorMessage: Option<string>,
    testcaseVersion: Option<int>,
    testCount: Option<int>,
    datasetChecksum: Option<string>,
    testCases: seq<TestItem>)

  datatype ResultMessage = ResultMessage(submissionId: int, attemptId: string, report: Report)

  datatype Event = Event(submissionId: int, attemptId: string, status: Status)

  datatype State = State(
    // submission_db
    nextId: int,
    submissions: map<int, Submission>,
    attempts: map<string, Attempt>,
    rows: map<(int, string), seq<TestItem>>,
    outbox: seq<OutboxMessage>,
    // Kafka topics, as the logs they are
    jobs: seq<Job>,
    results: seq<ResultMessage>,
    // events handed to live clients
    events: seq<Event>)

  const EMPTY := State(1, map[], map[], map[], [], [], [], [])

  // ---- Entities ----

  function ParseStatus(value: string): Option<Status> {
    if value == "PENDING" then Some(Pending)
    else if value == "JUDGING" then Some(Judging)
    else if value == "ACCEPTED" then Some(Accepted)
    else if value == "WRONG_ANSWER" then Some(WrongAnswer)
    else if value == "TIME_LIMIT_EXCEEDED" then Some(TimeLimitExceeded)
    else if value == "MEMORY_LIMIT_EXCEEDED" then Some(MemoryLimitExceeded)
    else if value == "OUTPUT_LIMIT_EXCEEDED" then Some(OutputLimitExceeded)
    else if value == "RUNTIME_ERROR" then Some(RuntimeError)
    else if value == "COMPILATION_ERROR" then Some(CompilationError)
    else if value == "SYSTEM_ERROR" then Some(SystemError)
    else None
  }

  function NonBlank(value: string): Option<string> {
    if TrimSpace(value) == "" then None else Some(TrimSpace(value))
  }

  function NewAttempt(submissionId: int, trigger: Trigger, triggeredBy: string): Attempt {
    Attempt(submissionId, trigger, NonBlank(triggeredBy), Pending, None, None, None)
  }

  function NewSubmission(work: Work, attemptId: string): Submission {
    Submission(work, attemptId, Pending, None, None, None, None)
  }

  function AsJudging(sub: Submission): Submission {
    sub.(status := Judging)
  }

  /** The submission entity with the methods that update it in place. */
  class SubmissionEntity {
    const work: Work
    var currentAttemptId: string
    var status: Status
    var executionTime: Option<int>
    var memoryUsed: Option<int>
    var compileOutput: Option<string>
    var errorMessage: Option<string>

    function Row(): Submission
      reads this
    {
      Submission(work, currentAttemptId, status, executionTime, memoryUsed, compileOutput, errorMessage)
    }

    /** Loading a row. */
    constructor (row: Submission)
      ensures Row() == row
    {
      work, currentAttemptId, status := row.work, row.currentAttemptId, row.status;
      executionTime, memoryUsed := row.executionTime, row.memoryUsed;
      compileOutput, errorMessage := row.compileOutput, row.errorMessage;
    }

    method MarkJudging()
      modifies this`status
      ensures Row() == AsJudging(old(Row())) && status == Judging
    {
      status := Judging;
    }

    method MarkCompleted(status: Status, timeUsed: Option<int>, memoryUsed: Option<int>,
                         compileOutput: Option<string>, errorMessage: Option<string>)
      modifies this
      ensures Row() ==
              Submission(work, old(currentAttemptId), status, timeUsed, memoryUsed, compileOutput, errorMessage)
    {
      this.status := status;
      this.executionTime := timeUsed;
      this.memoryUsed := memoryUsed;
      this.compileOutput := compileOutput;
      this.errorMessage := errorMessage;
    }

    method ResetForRejudge()
      modifies this
      ensures Row() == NewSubmission(work, old(currentAttemptId))
      ensures status == Pending && executionTime == None && memoryUsed == None
      ensures compileOutput == None && errorMessage == None && currentAttemptId == old(currentAttemptId)
    {
      status := Pending;
      executionTime := None;
      memoryUsed := None;
      compileOutput := None;
      errorMessage := None;
    }
  }

  // ---- Applying a result ----

  datatype Applied = InvalidResult | InvalidStatus | NotFound | Ignored | Done

  /** mapTerminalSubmissionStatus. */
  function TerminalStatus(raw: string): (r: Option<Status>)
    ensures r.Some? ==> IsTerminal(r.value)
  {
    match ParseStatus(raw)
    case Some(status) => if IsTerminal(status) then Some(status) else None
    case None => None
  }

  predicate IsHexDigest(s: string) {
    |s| == 64 && forall k :: 0 <= k < |s| ==> '0' <= s[k] <= '9' || 'a' <= s[k] <= 'f'
  }

  predicate ValidTest(t: TestItem) {
    && t.index > 0
    && TerminalStatus(t.status).Some?
    && t.status != "COMPILATION_ERROR"
  }

  /** The checks made before the transaction, in the order of the source. */
  function Validate(m: ResultMessage): Applied {
    if m.submissionId <= 0 || TrimSpace(m.attemptId) == "" then InvalidResult
    else if TerminalStatus(m.report.status).None? then InvalidStatus
    else if m.report.datasetChecksum.Some? && !IsHexDigest(m.report.datasetChecksum.value) then InvalidResult
    else if exists k :: 0 <= k < |m.report.testCases| && !ValidTest(m.report.testCases[k]) then InvalidResult
    else Done
  }

  lemma ValidHasStatus(m: ResultMessage)
    ensures Validate(m) == Done ==> TerminalStatus(m.report.status).Some?
  {}

  function OrElse(message: Option<string>, fallback: string): Option<string> {
    if message.Some? then message else Some(fallback)
  }

  /** judgeOutputFields, given the cleaning of worker messages. */
  function OutputFields(clean: Option<string> -> Option<string>, status: Status, r: Report)
    : (Option<string>, Option<string>)
  {
    match status
    case CompilationError =>
      (if r.compileOutput.Some? && TrimSpace(r.compileOutput.value) != "" then r.compileOutput else None, None)
    case RuntimeError => (None, clean(r.errorMessage))
    case TimeLimitExceeded =>
      (None, OrElse(clean(r.errorMessage), "Execution exceeded the time limit."))
    case MemoryLimitExceeded =>
      (None, OrElse(clean(r.errorMessage), "Execution exceeded the memory limit."))
    case OutputLimitExceeded =>
      (None, OrElse(clean(r.errorMessage), "Execution exceeded the output limit."))
    case SystemError => (None, Some("The judge could not complete this submission."))
    case _ => (None, None)
  }

  /** The verdict row a valid report gives a submission. */
  function Completed(clean: Option<string> -> Option<string>, sub: Submission, r: Report): Submission
    requires TerminalStatus(r.status).Some?
  {
    var status := TerminalStatus(r.status).value;
    var fields := OutputFields(clean, status, r);
    sub.(status := status, executionTime := r.executionTime, memoryUsed := r.memoryUsed,
         compileOutput := fields.0, errorMessage := fields.1)
  }

  function CompletedAttempt(a: Attempt, r: Report): Attempt
    requires TerminalStatus(r.status).Some?
  {
    a.(status := TerminalStatus(r.status).value, testcaseVersion := r.testcaseVersion,
       testCount := r.testCount, datasetChecksum := r.datasetChecksum)
  }

  /** What one execution of the use case answers; Done means the result was applied. */
  function Answer(s: State, m: ResultMessage): Applied {
    if Validate(m) != Done then Validate(m)
    else if m.submissionId !in s.submissions then NotFound
    else
      var sub := s.submissions[m.submissionId];
      if TrimSpace(sub.currentAttemptId) == "" || sub.currentAttemptId != m.attemptId then Ignored
      else if IsTerminal(sub.status) then Ignored
      else Done
  }

  /** The committed effect of one execution. `survives` is false when the process stops
      between the commit and the notification. */
  function Apply(clean: Option<string> -> Option<string>, s: State, m: ResultMessage, survives: bool): State {
    if Answer(s, m) != Done then s
    else
      var sub := Completed(clean, s.submissions[m.submissionId], m.report);
      var id := TrimSpace(m.attemptId);
      s.(submissions := s.submissions[m.submissionId := sub],
         rows := s.rows[(m.submissionId, id) := m.report.testCases],
         attempts :=
           if id in s.attempts then s.attempts[id := CompletedAttempt(s.attempts[id], m.report)] else s.attempts,
         events := if survives then s.events + [Event(m.submissionId, sub.currentAttemptId, sub.status)] else s.events)
  }

  // ---- Submitting, rejudging, relaying ----

  /** Attempt ids are unique in the database: a repeated one rolls the transaction back. */
  predicate FreshAttempt(s: State, raw: string) {
    TrimSpace(raw) != "" && TrimSpace(raw) !in s.attempts
  }

  function Submit(s: State, work: Work, rawAttemptId: string): State {
    var id := TrimSpace(rawAttemptId);
    if !FreshAttempt(s, rawAttemptId) then s
    else s.(nextId := s.nextId + 1,
            submissions := s.submissions[s.nextId := NewSubmission(work, id)],
            attempts := s.attempts[id := NewAttempt(s.nextId, BySubmission, work.userId)],
            outbox := s.outbox + [OutboxMessage(Job(s.nextId, id, work), false, 0)])
  }

  predicate MayRejudge(s: State, submissionId: int) {
    submissionId in s.submissions && IsTerminal(s.submissions[submissionId].status)
  }

  function Rejudge(s: State, submissionId: int, rawAttemptId: string, admin: string): State {
    var id := TrimSpace(rawAttemptId);
    if !FreshAttempt(s, rawAttemptId) || !MayRejudge(s, submissionId) then s
    else
      var work := s.submissions[submissionId].work;
      s.(submissions := s.submissions[submissionId := NewSubmission(work, id)],
         attempts := s.attempts[id := NewAttempt(submissionId, ByAdminRejudge, admin)],
         outbox := s.outbox + [OutboxMessage(Job(submissionId, id, work), false, 0)])
  }

  /** One pending record: sending and marking may each fail. */
  function Relay(s: State, i: nat, sent: bool, marked: bool): State {
    if i >= |s.outbox| || s.outbox[i].published || s.outbox[i].retryCount >= MAX_PUBLISH_RETRIES then s
    else
      var record := s.outbox[i];
      var q := if sent then s.(jobs := s.jobs + [record.job]) else s;
      if !marked then q
      else
        var noted := if sent then record.(published := true) else record.(retryCount := record.retryCount + 1);
        q.(outbox := s.outbox[i := noted])
  }

  /** The worker answers a job, with whatever report, as often as it is delivered. */
  function Judge(s: State, i: nat, report: Report): State {
    if i >= |s.jobs| then s
    else s.(results := s.results + [ResultMessage(s.jobs[i].submissionId, s.jobs[i].attemptId, report)])
  }

  // ---- Runs ----

  datatype Action =
    | SubmitWork(work: Work, rawAttemptId: string)
    | RejudgeOne(submissionId: int, rawAttemptId: string, admin: string)
    | RelayOne(i: nat, sent: bool, marked: bool)
    | JudgeOne(i: nat, report: Report)
    | DeliverOne(i: nat, survives: bool)

  function Step(clean: Option<string> -> Option<string>, s: State, a: Action): State {
    match a
    case SubmitWork(work, rawAttemptId) => Submit(s, work, rawAttemptId)
    case RejudgeOne(submissionId, rawAttemptId, admin) => Rejudge(s, submissionId, rawAttemptId, admin)
    case RelayOne(i, sent, marked) => Relay(s, i, sent, marked)
    case JudgeOne(i, report) => Judge(s, i, report)
    case DeliverOne(i, survives) => if i < |s.results| then Apply(clean, s, s.results[i], survives) else s
  }

  function RunFrom(clean: Option<string> -> Option<string>, s: State, actions: seq<Action>): State
    decreases |actions|
  {
    if actions == [] then s else RunFrom(clean, Step(clean, s, actions[0]), actions[1..])
  }

  /** Whether sending a record and marking it succeed. */
  datatype Outcome = Outcome(sent: bool, marked: bool)

  /** The relay works through the rows it has read. */
  function Relays(rows: seq<nat>, outcomes: seq<Outcome>): seq<Action>
    requires |outcomes| == |rows|
  {
    seq(|rows|, k requires 0 <= k < |rows| => RelayOne(rows[k], outcomes[k].sent, outcomes[k].marked))
  }

  lemma {:induction false} RunFromSnoc(
      clean: Option<string> -> Option<string>, s: State, actions: seq<Action>, a: Action)
    ensures RunFrom(clean, s, actions + [a]) == Step(clean, RunFrom(clean, s, actions), a)
    decreases |actions|
  {
    hide Step;
    if actions == [] {
      assert actions + [a] == [a];
    } else {
      assert (actions + [a])[1..] == actions[1..] + [a];
      RunFromSnoc(clean, Step(clean, s, actions[0]), actions[1..], a);
    }
  }

  lemma RunFromNothing(clean: Option<string> -> Option<string>, s: State)
    ensures RunFrom(clean, s, []) == s
  {}

  // ---- The use cases as the service runs them ----

  class SubmissionService {
    const clean: Option<string> -> Option<string>
    var state: State

    constructor (clean: Option<string> -> Option<string>)
      ensures state == EMPTY && this.clean == clean
    {
      this.clean := clean;
      state := EMPTY;
    }

    /** CreateSubmission: submission, attempt and outbox record in one transaction. */
    method CreateSubmission(work: Work, rawAttemptId: string) returns (id: Option<int>)
      modifies this`state
      ensures id == if FreshAttempt(old(state), rawAttemptId) then Some(old(state).nextId) else None
      ensures state == Submit(old(state), work, rawAttemptId)
      ensures
        var attemptId, author := TrimSpace(rawAttemptId), TrimSpace(work.userId);
        if attemptId == "" || attemptId in old(state).attempts then id == None && state == old(state)
        else
          && id == Some(old(state).nextId) && state.nextId == id.value + 1
          && state.submissions ==
               old(state).submissions[id.value := Submission(work, attemptId, Pending, None, None, None, None)]
          && state.attempts == old(state).attempts[attemptId :=
               Attempt(id.value, BySubmission, if author == "" then None else Some(author), Pending, None, None, None)]
          && state.outbox == old(state).outbox + [OutboxMessage(Job(id.value, attemptId, work), false, 0)]
    {
      hide TrimSpace;
      var attemptId := TrimSpace(rawAttemptId);
      if attemptId == "" || attemptId in state.attempts {
        return None;
      }
      var submission := new SubmissionEntity(NewSubmission(work, attemptId));
      var newId := state.nextId;
      state := state.(nextId := newId + 1,
                      submissions := state.submissions[newId := submission.Row()],
                      attempts := state.attempts[attemptId := NewAttempt(newId, BySubmission, work.userId)],
                      outbox := state.outbox + [OutboxMessage(Job(newId, attemptId, work), false, 0)]);
      return Some(newId);
    }

    /** ApplyJudgeResult: validate, lock the row, check the guard, write submission, rows and attempt, notify. */
    method ApplyJudgeResult(m: ResultMessage, survives: bool) returns (answer: Applied)
      modifies this`state
      ensures answer == Answer(old(state), m)
      ensures state == Apply(clean, old(state), m, survives)
    {
      hide TrimSpace, Validate, ParseStatus, OutputFields;
      ValidHasStatus(m);
      answer := Validate(m);
      if answer != Done {
        return;
      }
      if m.submissionId !in state.submissions {
        return NotFound;
      }
      var submission := new SubmissionEntity(state.submissions[m.submissionId]);
      if TrimSpace(submission.currentAttemptId) == "" {
        return Ignored;
      }
      if submission.currentAttemptId != m.attemptId {
        return Ignored;
      }
      if IsTerminal(submission.status) {
        return Ignored;
      }
      var status := TerminalStatus(m.report.status).value;
      var fields := OutputFields(clean, status, m.report);
      submission.MarkCompleted(status, m.report.executionTime, m.report.memoryUsed, fields.0, fields.1);
      var tx := state.(submissions := state.submissions[m.submissionId := submission.Row()]);
      var id := TrimSpace(m.attemptId);
      tx := tx.(rows := tx.rows[(m.submissionId, id) := m.report.testCases]);
      if id in tx.attempts {
        tx := tx.(attempts := tx.attempts[id := CompletedAttempt(tx.attempts[id], m.report)]);
      }
      state := tx;
      if survives {
        var event := Event(m.submissionId, submission.currentAttemptId, submission.status);
        state := state.(events := state.events + [event]);
      }
    }

    method RejudgeSubmission(submissionId: int, rawAttemptId: string, admin: string) returns (ok: bool)
      modifies this`state
      ensures ok == (FreshAttempt(old(state), rawAttemptId) && MayRejudge(old(state), submissionId))
      ensures state == Rejudge(old(state), submissionId, rawAttemptId, admin)
      ensures
        var attemptId, judge := TrimSpace(rawAttemptId), TrimSpace(admin);
        if attemptId == "" || attemptId in old(state).attempts || submissionId !in old(state).submissions ||
           old(state).submissions[submissionId].status in {Pending, Judging}
        then !ok && state == old(state)
        else
          var work := old(state).submissions[submissionId].work;
          && ok
          && state.submissions ==
               old(state).submissions[submissionId := Submission(work, attemptId, Pending, None, None, None, None)]
          && state.attempts == old(state).attempts[attemptId :=
               Attempt(submissionId, ByAdminRejudge, if judge == "" then None else Some(judge), Pending,
                       None, None, None)]
          && state.outbox == old(state).outbox + [OutboxMessage(Job(submissionId, attemptId, work), false, 0)]
    {
      hide TrimSpace;
      if !MayRejudge(state, submissionId) {
        return false;
      }
      var id := TrimSpace(rawAttemptId);
      if id == "" {
        return false;
      }
      var submission := new SubmissionEntity(state.submissions[submissionId]);
      submission.currentAttemptId := id;
      submission.ResetForRejudge();
      if id in state.attempts {
        return false;
      }
      state := state.(submissions := state.submissions[submissionId := submission.Row()],
                      attempts := state.attempts[id := NewAttempt(submissionId, ByAdminRejudge, admin)],
                      outbox := state.outbox + [OutboxMessage(Job(submissionId, id, submission.work), false, 0)]);
      return true;
    }

    /** processPendingMessages: the rows of one poll, as they were read, each sent and marked; a cancelled context ends
        the loop early. */
    method ProcessPendingMessages(rows: seq<nat>, outcomes: seq<Outcome>)
      requires |outcomes| <= |rows|
      requires forall k :: 0 <= k < |rows| ==> rows[k] < |state.outbox| && !state.outbox[rows[k]].published
      requires forall k, l :: 0 <= k < l < |rows| ==> rows[k] != rows[l]
      modifies this`state
      ensures state == RunFrom(clean, old(state), Relays(rows[..|outcomes|], outcomes))
    {
      hide RunFrom;
      var outbox := state.outbox;
      var messages := seq(|rows|, k requires 0 <= k < |rows| => outbox[rows[k]]);
      RunFromNothing(clean, state);
      assert Relays(rows[..0], outcomes[..0]) == [];
      for k := 0 to |outcomes|
        invariant |state.outbox| == |old(state).outbox|
        invariant forall l :: k <= l < |rows| ==> rows[l] < |state.outbox| && state.outbox[rows[l]] == messages[l]
        invariant state == RunFrom(clean, old(state), Relays(rows[..k], outcomes[..k]))
      {
        RunFromSnoc(clean, old(state), Relays(rows[..k], outcomes[..k]),
                    RelayOne(rows[k], outcomes[k].sent, outcomes[k].marked));
        assert Relays(rows[..k + 1], outcomes[..k + 1]) ==
               Relays(rows[..k], outcomes[..k]) + [RelayOne(rows[k], outcomes[k].sent, outcomes[k].marked)];
        var message := messages[k];
        if message.retryCount >= MAX_PUBLISH_RETRIES {
          continue;
        }
        if !outcomes[k].sent {
          if outcomes[k].marked {
            var failed := message.(retryCount := message.retryCount + 1);
            state := state.(outbox := state.outbox[rows[k] := failed]);
          }
          continue;
        }
        state := state.(jobs := state.jobs + [message.job]);
        if outcomes[k].marked {
          state := state.(outbox := state.outbox[rows[k] := message.(published := true)]);
        }
      }
      assert outcomes[..|outcomes|] == outcomes;
    }
  }
}

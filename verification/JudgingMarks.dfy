/** Marking submissions as being judged, mixed into the runs of the protocol. */
module JudgingMarks {
  import opened Verdicts
  import opened GoText
  import opened JudgingProtocol
  import opened JudgingSafety
  import opened JudgingOutage

  function Marked(s: State, id: int): State
    requires id in s.submissions
  {
    s.(submissions := s.submissions[id := AsJudging(s.submissions[id])])
  }

  /** In every run marking a submission leaves the answer to every result as it is exactly when the submission is open:
      a marked verdict would accept a result of its attempt once more. */
  lemma MarkingHarmlessExactly(clean: Cleaner, actions: seq<Action>, id: int)
    requires id in Run(clean, actions).submissions
    ensures
      var s := Run(clean, actions);
      (forall m :: Answer(Marked(s, id), m) == Answer(s, m)) <==> IsOpen(s, id)
  {
    hide RunFrom, Validate, TrimSpace, Explained, Notified, NoLeftovers, Piped;
    ReachableInv(clean, actions);
    var s := Run(clean, actions);
    if !IsOpen(s, id) {
      var m := ResultMessage(id, s.submissions[id].currentAttemptId, ACCEPTING);
      AcceptingIsValid(m);
      TrimSpaceTrims(m.attemptId);
      assert Answer(Marked(s, id), m) == Done;
    }
  }

  /** A run in which the worker's start is recorded: open submissions may be marked at any point. */
  datatype Move = Act(action: Action) | Mark(id: int)

  function MoveOne(clean: Cleaner, s: State, m: Move): State {
    match m
    case Act(action) => Step(clean, s, action)
    case Mark(id) => if IsOpen(s, id) then Marked(s, id) else s
  }

  function MoveFrom(clean: Cleaner, s: State, moves: seq<Move>): State
    decreases |moves|
  {
    if moves == [] then s else MoveFrom(clean, MoveOne(clean, s, moves[0]), moves[1..])
  }

  function Actions(moves: seq<Move>): seq<Action> {
    if moves == [] then [] else (if moves[0].Act? then [moves[0].action] else []) + Actions(moves[1..])
  }

  function Unmarked(sub: Submission): Submission {
    if sub.status == Judging then sub.(status := Pending) else sub
  }

  /** The state with JUDGING read as PENDING. */
  function Unmark(s: State): State {
    s.(submissions := map id | id in s.submissions :: Unmarked(s.submissions[id]))
  }

  lemma UnmarkAnswer(s: State, m: ResultMessage)
    ensures Answer(Unmark(s), m) == Answer(s, m)
  {
    hide Validate, TrimSpace;
  }

  lemma UnmarkApply(clean: Cleaner, s: State, m: ResultMessage, survives: bool)
    ensures Unmark(Apply(clean, s, m, survives)) == Apply(clean, Unmark(s), m, survives)
  {
    hide Answer, TrimSpace, TerminalStatus, OutputFields, Validate;
    UnmarkAnswer(s, m);
    if Answer(s, m) == Done {
      DoneIsValid(s, m);
      TerminalIsTerminal(m.report.status);
      var t := Apply(clean, s, m, survives);
      assert Unmark(t).submissions == Apply(clean, Unmark(s), m, survives).submissions;
    }
  }

  lemma DoneIsValid(s: State, m: ResultMessage)
    requires Answer(s, m) == Done
    ensures m.submissionId in s.submissions && TerminalStatus(m.report.status).Some?
  {}

  /** Replacing a submission by a new one. */
  lemma UnmarkNew(s: State, id: int, work: Work, attemptId: string)
    ensures
      var t := s.(submissions := s.submissions[id := NewSubmission(work, attemptId)]);
      Unmark(t).submissions == Unmark(s).submissions[id := NewSubmission(work, attemptId)]
  {}

  lemma UnmarkStep(clean: Cleaner, s: State, a: Action)
    ensures Unmark(Step(clean, s, a)) == Step(clean, Unmark(s), a)
  {
    hide Apply, TrimSpace, NewAttempt;
    match a
    case DeliverOne(i, survives) =>
      if i < |s.results| {
        UnmarkApply(clean, s, s.results[i], survives);
      }
    case SubmitWork(work, rawAttemptId) =>
      UnmarkNew(s, s.nextId, work, TrimSpace(rawAttemptId));
    case RejudgeOne(id, rawAttemptId, _) =>
      if id in s.submissions {
        UnmarkNew(s, id, s.submissions[id].work, TrimSpace(rawAttemptId));
      }
    case _ =>
  }

  lemma UnmarkMark(s: State, id: int)
    requires IsOpen(s, id)
    ensures Unmark(Marked(s, id)) == Unmark(s)
  {
    assert Unmark(Marked(s, id)).submissions == Unmark(s).submissions;
  }

  lemma {:induction false} MarksInvisible(clean: Cleaner, s: State, moves: seq<Move>)
    ensures Unmark(MoveFrom(clean, s, moves)) == RunFrom(clean, Unmark(s), Actions(moves))
    decreases |moves|
  {
    hide Step, Unmark;
    if moves != [] {
      var t := MoveOne(clean, s, moves[0]);
      MarksInvisible(clean, t, moves[1..]);
      match moves[0]
      case Act(action) =>
        UnmarkStep(clean, s, action);
        RunFirst(clean, Unmark(s), action, Actions(moves[1..]));
      case Mark(id) =>
        assert Actions(moves) == Actions(moves[1..]);
        if IsOpen(s, id) {
          UnmarkMark(s, id);
        }
    }
  }

  /** Marking open submissions is invisible to the protocol: however marks are mixed into a run, its state with JUDGING
      read as PENDING is that of the run without them. */
  lemma MarkingIsInvisible(clean: Cleaner, moves: seq<Move>)
    ensures Unmark(MoveFrom(clean, EMPTY, moves)) == Run(clean, Actions(moves))
  {
    hide MoveFrom, RunFrom, Actions;
    MarksInvisible(clean, EMPTY, moves);
    assert Unmark(EMPTY).submissions == map[];
  }
}

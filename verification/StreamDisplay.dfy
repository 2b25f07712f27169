/** What the hook shows: the phase and the error, from what has happened so far. */
module StreamDisplay {
  import opened Verdicts
  import opened SubmissionStream
  import opened StreamSafety

  // ---- What the display depends on ----

  /** Browser ids are handed out in order. */
  ghost predicate Numbered(s: State) {
    && (forall id :: id in s.browser.sources ==> id < s.browser.nextId)
    && (forall id :: id in s.browser.timers ==> id < s.browser.nextId)
  }

  /** The effect asks for a connection: it is enabled and has an id other than 0. */
  predicate Wants(scope: Scope) {
    scope.enabled && scope.submissionId !in {None, Some(0)}
  }

  /** The outcome the generation has reached, by its last act. */
  ghost function Outcome(s: State): Option<Act>
    requires Owned(s)
  {
    Read(Of(s.trace, s.generation)).last
  }

  /** The phase while an effort is under way, given whether its source has opened and its timer follows an error. */
  ghost predicate ShowsEffort(s: State, sourceOpened: bool, afterError: bool)
    requires Owned(s)
  {
    match Live(s)
    case Nothing => true
    case AwaitingTicket(k) => s.phase == if k == 0 then RequestingTicket else Reconnecting
    case Listening(_) => s.phase == if sourceOpened then Open else Connecting
    case BackingOff(k) => s.phase == if k == 1 && !afterError then RequestingTicket else Reconnecting
  }

  /** The error shown, and the phase without an effort. */
  ghost predicate ShowsOutcome(s: State)
    requires Owned(s)
  {
    s.mounted.Some? ==>
      if !Wants(s.mounted.value) then s.phase == Idle && s.error == None
      else match Outcome(s)
        case Some(ErrorSent(_, kind)) => s.phase == Failed && s.error == Some(kind)
        case Some(TerminalSent(_, _)) => s.phase == Phase.Completed && s.error == None
        case _ => s.phase !in {Idle, Failed, Phase.Completed} && s.error == None
  }

  // ---- One step ----

  /** The source of the new state has opened: it had before, or opens now. */
  predicate OpensNow(s: State, e: Stimulus, t: State, sourceOpened: bool) {
    t.eventSource.Some? && t.eventSource == s.eventSource && (sourceOpened || e == SourceOpens(t.eventSource.value))
  }

  predicate ErrsNow(s: State, e: Stimulus, t: State, afterError: bool) {
    t.reconnectTimer.Some? && if t.reconnectTimer == s.reconnectTimer then afterError else e.SourceErrors?
  }

  /** What a step does to the ids and to the display of the effort. */
  ghost predicate EffortShown(s: State, e: Stimulus, t: State, sourceOpened: bool, afterError: bool)
    requires Owned(t)
  {
    && Numbered(t) && s.browser.nextId <= t.browser.nextId
    && ShowsEffort(t, OpensNow(s, e, t, sourceOpened), ErrsNow(s, e, t, afterError))
  }

  lemma ReactShowsEffort(s: State, e: Stimulus, sourceOpened: bool, afterError: bool)
    requires Sound(s) && Numbered(s) && ShowsEffort(s, sourceOpened, afterError)
    requires (e.Start? || e.Cleanup?) && Enabled(s, e) && Owned(Step(s, e))
    ensures EffortShown(s, e, Step(s, e), sourceOpened, afterError)
  {}

  lemma TicketShowsEffort(s: State, e: Stimulus, sourceOpened: bool, afterError: bool)
    requires Sound(s) && Numbered(s) && ShowsEffort(s, sourceOpened, afterError)
    requires (e.TicketIssued? || e.TicketRejected?) && Enabled(s, e) && Owned(Step(s, e))
    ensures EffortShown(s, e, Step(s, e), sourceOpened, afterError)
  {
    hide ReconnectDelay;
    UnsettledTicket(s, e.id);
  }

  lemma SourceShowsEffort(s: State, e: Stimulus, sourceOpened: bool, afterError: bool)
    requires Sound(s) && Numbered(s) && ShowsEffort(s, sourceOpened, afterError)
    requires (e.SourceOpens? || e.SourceErrors?) && Enabled(s, e) && Owned(Step(s, e))
    ensures EffortShown(s, e, Step(s, e), sourceOpened, afterError)
  {
    hide ReconnectDelay;
  }

  lemma MessageShowsEffort(s: State, e: Stimulus, sourceOpened: bool, afterError: bool)
    requires Sound(s) && Numbered(s) && ShowsEffort(s, sourceOpened, afterError)
    requires e.SourceMessage? && Enabled(s, e) && Owned(Step(s, e))
    ensures EffortShown(s, e, Step(s, e), sourceOpened, afterError)
  {}

  lemma TimerShowsEffort(s: State, e: Stimulus, sourceOpened: bool, afterError: bool)
    requires Sound(s) && Numbered(s) && ShowsEffort(s, sourceOpened, afterError)
    requires e.TimerFires? && Enabled(s, e) && Owned(Step(s, e))
    ensures EffortShown(s, e, Step(s, e), sourceOpened, afterError)
  {}

  lemma NothingShowsEffort(s: State, e: Stimulus, sourceOpened: bool, afterError: bool)
    requires Owned(s) && Numbered(s) && ShowsEffort(s, sourceOpened, afterError) && !Enabled(s, e)
    ensures EffortShown(s, e, s, sourceOpened, afterError)
  {}

  lemma StepShowsEffort(s: State, e: Stimulus, sourceOpened: bool, afterError: bool)
    requires Inv(s) && Numbered(s) && ShowsEffort(s, sourceOpened, afterError)
    ensures
      var t := Step(s, e);
      && Inv(t) && Numbered(t) && s.browser.nextId <= t.browser.nextId
      && ShowsEffort(t, OpensNow(s, e, t, sourceOpened), ErrsNow(s, e, t, afterError))
  {
    hide Recorded, ShowsEffort, Owned, Phased, Numbered, OpensNow, ErrsNow, Live;
    StepInv(s, e);
    if !Enabled(s, e) {
      NothingShowsEffort(s, e, sourceOpened, afterError);
    } else {
      match e
      case Start(_, _, _) => ReactShowsEffort(s, e, sourceOpened, afterError);
      case Cleanup => ReactShowsEffort(s, e, sourceOpened, afterError);
      case TicketIssued(_) => TicketShowsEffort(s, e, sourceOpened, afterError);
      case TicketRejected(_, _) => TicketShowsEffort(s, e, sourceOpened, afterError);
      case SourceOpens(_) => SourceShowsEffort(s, e, sourceOpened, afterError);
      case SourceErrors(_, _) => SourceShowsEffort(s, e, sourceOpened, afterError);
      case SourceMessage(_, _) => MessageShowsEffort(s, e, sourceOpened, afterError);
      case TimerFires(_) => TimerShowsEffort(s, e, sourceOpened, afterError);
    }
  }

  lemma SilentOutcome(s: State, t: State)
    requires Owned(s) && Owned(t) && t.trace == s.trace && t.generation == s.generation
    ensures Outcome(t) == Outcome(s)
  {}

  lemma SpokenOutcome(s: State, t: State, a: Act)
    requires Owned(s) && Owned(t) && t.trace == s.trace + [a] && a.scope.generation == t.generation
    ensures Outcome(t) == Some(a)
  {
    ReadAppend(s.trace, a, t.generation);
  }

  lemma NewGeneration(s: State, t: State)
    requires Inv(s) && Owned(t) && t.trace == s.trace && t.generation == s.generation + 1
    ensures Outcome(t) == None
  {
    NothingYet(t.trace, t.generation);
  }

  lemma StepShowsOutcome(s: State, e: Stimulus)
    requires Inv(s) && ShowsOutcome(s)
    ensures Inv(Step(s, e)) && ShowsOutcome(Step(s, e))
  {
    hide Recorded, Owned, Phased, OnTicketIssued, OnTicketRejected, OnSourceOpens, OnSourceErrors, OnSourceMessage,
      OnTimerFires, OnStart, Outcome;
    StepInv(s, e);
    if Enabled(s, e) {
      match e
      case Start(enabled, submissionId, initialAttemptId) => StartShows(s, enabled, submissionId, initialAttemptId);
      case Cleanup =>
      case TicketIssued(id) => TicketIssuedShows(s, id);
      case TicketRejected(id, jitter) => TicketRejectedShows(s, id, jitter);
      case SourceOpens(id) => SourceOpensShows(s, id);
      case SourceErrors(id, jitter) => SourceErrorsShows(s, id, jitter);
      case SourceMessage(id, payload) => SourceMessageShows(s, id, payload);
      case TimerFires(id) => TimerFiresShows(s, id);
    }
  }

  lemma StartShows(s: State, enabled: bool, submissionId: Option<int>, initialAttemptId: Option<string>)
    requires Inv(s) && s.mounted.None? && Inv(OnStart(s, enabled, submissionId, initialAttemptId))
    ensures ShowsOutcome(OnStart(s, enabled, submissionId, initialAttemptId))
  {
    hide Recorded, Read, Of;
    StartSound(s, enabled, submissionId, initialAttemptId);
    var scope := Scope(s.generation + 1, enabled, submissionId, initialAttemptId);
    if scope.Connects() {
      SpokenOutcome(s, OnStart(s, enabled, submissionId, initialAttemptId), Requested(scope));
    }
  }

  lemma TicketIssuedShows(s: State, id: nat)
    requires Inv(s) && ShowsOutcome(s) && id in s.browser.tickets && Inv(OnTicketIssued(s, id))
    ensures ShowsOutcome(OnTicketIssued(s, id))
  {
    hide Recorded, Read, Of;
    TicketIssuedSound(s, id);
    var t := OnTicketIssued(s, id);
    if s.ticketAbort == Some(id) {
      SpokenOutcome(s, t, Opened(s.browser.tickets[id].scope));
    } else {
      SilentOutcome(s, t);
    }
  }

  lemma TicketRejectedShows(s: State, id: nat, jitter: Jitter)
    requires Inv(s) && ShowsOutcome(s) && id in s.browser.tickets && Inv(OnTicketRejected(s, id, jitter))
    ensures ShowsOutcome(OnTicketRejected(s, id, jitter))
  {
    hide Recorded, Read, Of, ReconnectDelay;
    TicketRejectedSound(s, id, jitter);
    UnsettledTicket(s, id);
    var t, job := OnTicketRejected(s, id, jitter), s.browser.tickets[id];
    if s.ticketAbort == Some(id) {
      SpokenOutcome(s, t, if job.attempt < MAX_RECONNECT_ATTEMPTS
                          then Scheduled(job.scope, ReconnectDelay(job.attempt + 1, jitter))
                          else ErrorSent(job.scope, TicketError));
    } else {
      SilentOutcome(s, t);
    }
  }

  lemma SourceOpensShows(s: State, id: nat)
    requires Inv(s) && ShowsOutcome(s) && id in s.browser.sources && Inv(OnSourceOpens(s, id))
    ensures ShowsOutcome(OnSourceOpens(s, id))
  {
    hide Recorded, Read, Of;
    SourceOpensSound(s, id);
    SilentOutcome(s, OnSourceOpens(s, id));
  }

  lemma SourceErrorsShows(s: State, id: nat, jitter: Jitter)
    requires Inv(s) && ShowsOutcome(s) && id in s.browser.sources && Inv(OnSourceErrors(s, id, jitter))
    ensures ShowsOutcome(OnSourceErrors(s, id, jitter))
  {
    hide Recorded, Read, Of, ReconnectDelay;
    SourceErrorsSound(s, id, jitter);
    var t, job := OnSourceErrors(s, id, jitter), s.browser.sources[id];
    SpokenOutcome(s, t, if job.attempt < MAX_RECONNECT_ATTEMPTS
                        then Scheduled(job.scope, ReconnectDelay(job.attempt + 1, jitter))
                        else ErrorSent(job.scope, StreamError));
  }

  lemma SourceMessageShows(s: State, id: nat, payload: Payload)
    requires Inv(s) && ShowsOutcome(s) && id in s.browser.sources && Inv(OnSourceMessage(s, id, payload))
    ensures ShowsOutcome(OnSourceMessage(s, id, payload))
  {
    hide Recorded, Read, Of;
    SourceMessageSound(s, id, payload);
    var t, scope := OnSourceMessage(s, id, payload), s.browser.sources[id].scope;
    if t.trace == s.trace {
      SilentOutcome(s, t);
    } else if !payload.Parsed? {
      SpokenOutcome(s, t, ErrorSent(scope, MalformedEvent));
    } else if IsTerminal(payload.event.status) {
      var told := Forward(s, scope, payload.event);
      SpokenOutcome(told, t, TerminalSent(scope, payload.event));
    } else {
      SpokenOutcome(s, t, StatusSent(scope, payload.event));
    }
  }

  lemma TimerFiresShows(s: State, id: nat)
    requires Inv(s) && ShowsOutcome(s) && id in s.browser.timers && Inv(OnTimerFires(s, id))
    ensures ShowsOutcome(OnTimerFires(s, id))
  {
    hide Recorded, Read, Of;
    TimerFiresSound(s, id);
    SpokenOutcome(s, OnTimerFires(s, id), Requested(s.browser.timers[id].scope));
  }

  // ---- Whole runs ----

  /** Stimulus k is the browser's report that the source is open. */
  ghost predicate OpensAt(initial: Option<string>, es: seq<Stimulus>, k: nat, source: nat)
    requires k < |es|
  {
    es[k] == SourceOpens(source) && source in Run(initial, es[..k]).browser.sources
  }

  /** At some point of the run the browser reported the source open. */
  ghost predicate HasOpened(initial: Option<string>, es: seq<Stimulus>, source: nat) {
    exists k: nat :: k < |es| && OpensAt(initial, es, k, source)
  }

  /** Stimulus k is a source error, and it sets the timer. */
  ghost predicate ErrsAt(initial: Option<string>, es: seq<Stimulus>, k: nat, timer: nat)
    requires k < |es|
  {
    && es[k].SourceErrors? && Run(initial, es[..k]).browser.nextId == timer
    && timer in Run(initial, es[..k + 1]).browser.timers
  }

  /** The timer was set when a source reported an error. */
  ghost predicate FollowsError(initial: Option<string>, es: seq<Stimulus>, timer: nat) {
    exists k: nat :: k < |es| && ErrsAt(initial, es, k, timer)
  }

  ghost predicate SourceHasOpened(initial: Option<string>, es: seq<Stimulus>) {
    var s := Run(initial, es);
    s.eventSource.Some? && HasOpened(initial, es, s.eventSource.value)
  }

  ghost predicate TimerFollowsError(initial: Option<string>, es: seq<Stimulus>) {
    var s := Run(initial, es);
    s.reconnectTimer.Some? && FollowsError(initial, es, s.reconnectTimer.value)
  }

  lemma AtPrefix(initial: Option<string>, es: seq<Stimulus>, e: Stimulus, k: nat, id: nat)
    requires k < |es|
    ensures OpensAt(initial, es + [e], k, id) <==> OpensAt(initial, es, k, id)
    ensures ErrsAt(initial, es + [e], k, id) <==> ErrsAt(initial, es, k, id)
  {
    hide Run;
    var more := es + [e];
    assert more[k] == es[k] && more[..k] == es[..k] && more[..k + 1] == es[..k + 1];
  }

  lemma AtEnd(initial: Option<string>, es: seq<Stimulus>, e: Stimulus, id: nat)
    ensures OpensAt(initial, es + [e], |es|, id) <==> e == SourceOpens(id) && id in Run(initial, es).browser.sources
    ensures ErrsAt(initial, es + [e], |es|, id) <==>
            && e.SourceErrors? && Run(initial, es).browser.nextId == id
            && id in Run(initial, es + [e]).browser.timers
  {
    hide Run;
    var more := es + [e];
    assert more[..|es|] == es && more[..|es| + 1] == more && more[|es|] == e;
  }

  lemma HasOpenedNext(initial: Option<string>, es: seq<Stimulus>, e: Stimulus, source: nat)
    ensures HasOpened(initial, es + [e], source) <==>
            HasOpened(initial, es, source) || (e == SourceOpens(source) && source in Run(initial, es).browser.sources)
  {
    hide Run, OpensAt;
    AtEnd(initial, es, e, source);
    forall k: nat | k < |es| ensures OpensAt(initial, es + [e], k, source) <==> OpensAt(initial, es, k, source) {
      AtPrefix(initial, es, e, k, source);
    }
  }

  lemma FollowsErrorNext(initial: Option<string>, es: seq<Stimulus>, e: Stimulus, timer: nat)
    ensures FollowsError(initial, es + [e], timer) <==>
            || FollowsError(initial, es, timer)
            || (e.SourceErrors? && Run(initial, es).browser.nextId == timer &&
                timer in Run(initial, es + [e]).browser.timers)
  {
    hide Run, ErrsAt;
    AtEnd(initial, es, e, timer);
    forall k: nat | k < |es| ensures ErrsAt(initial, es + [e], k, timer) <==> ErrsAt(initial, es, k, timer) {
      AtPrefix(initial, es, e, k, timer);
    }
  }

  /** The past speaks only of ids that were handed out. */
  ghost predicate PastNumbered(initial: Option<string>, es: seq<Stimulus>) {
    && (forall id: nat :: HasOpened(initial, es, id) ==> id < Run(initial, es).browser.nextId)
    && (forall id: nat :: FollowsError(initial, es, id) ==> id < Run(initial, es).browser.nextId)
  }

  lemma RunNext(initial: Option<string>, es: seq<Stimulus>, e: Stimulus)
    ensures Run(initial, es + [e]) == Step(Run(initial, es), e)
  {
    hide Step;
    assert (es + [e])[..|es|] == es;
  }

  lemma PastNext(initial: Option<string>, es: seq<Stimulus>, e: Stimulus)
    requires PastNumbered(initial, es) && Numbered(Run(initial, es))
    requires
      var s, t := Run(initial, es), Run(initial, es + [e]);
      s.browser.nextId <= t.browser.nextId && Numbered(t)
    ensures PastNumbered(initial, es + [e])
  {
    hide Run, HasOpened, FollowsError;
    forall id: nat | HasOpened(initial, es + [e], id) ensures id < Run(initial, es + [e]).browser.nextId {
      HasOpenedNext(initial, es, e, id);
    }
    forall id: nat | FollowsError(initial, es + [e], id) ensures id < Run(initial, es + [e]).browser.nextId {
      FollowsErrorNext(initial, es, e, id);
    }
  }

  /** A source or timer that is new in a step has the next id. */
  lemma NewIsNext(s: State, e: Stimulus)
    requires Inv(s)
    ensures
      var t := Step(s, e);
      && (t.eventSource.Some? && t.eventSource != s.eventSource ==> t.eventSource.value >= s.browser.nextId)
      && (t.reconnectTimer.Some? && t.reconnectTimer != s.reconnectTimer ==>
            t.reconnectTimer.value == s.browser.nextId && t.reconnectTimer.value in t.browser.timers)
      && (e.SourceOpens? && Enabled(s, e) ==> s.eventSource == Some(e.id))
      && (e.SourceOpens? ==> t.eventSource == s.eventSource)
  {
    hide Recorded;
    if Enabled(s, e) {
      match e
      case TicketIssued(id) => UnsettledTicket(s, id);
      case TicketRejected(id, _) => UnsettledTicket(s, id);
      case _ =>
    }
  }

  lemma OpenedMatches(initial: Option<string>, es: seq<Stimulus>, e: Stimulus)
    requires Inv(Run(initial, es)) && PastNumbered(initial, es)
    ensures
      var s, t := Run(initial, es), Run(initial, es + [e]);
      SourceHasOpened(initial, es + [e]) <==> OpensNow(s, e, t, SourceHasOpened(initial, es))
  {
    hide Run, HasOpened, FollowsError, Step, Inv, Enabled;
    var s := Run(initial, es);
    RunNext(initial, es, e);
    var t := Run(initial, es + [e]);
    NewIsNext(s, e);
    if t.eventSource.Some? {
      HasOpenedNext(initial, es, e, t.eventSource.value);
      SourceEnabled(s, e);
    }
  }

  lemma SourceEnabled(s: State, e: Stimulus)
    requires Inv(s)
    ensures e.SourceOpens? ==> (e.id in s.browser.sources <==> s.eventSource == Some(e.id))
  {}

  lemma ErrorMatches(initial: Option<string>, es: seq<Stimulus>, e: Stimulus)
    requires Inv(Run(initial, es)) && PastNumbered(initial, es)
    requires
      var s := Run(initial, es);
      s.reconnectTimer.Some? ==> s.reconnectTimer.value < s.browser.nextId
    ensures
      var s, t := Run(initial, es), Run(initial, es + [e]);
      TimerFollowsError(initial, es + [e]) <==> ErrsNow(s, e, t, TimerFollowsError(initial, es))
  {
    hide Run, HasOpened, FollowsError, Step, Inv, Enabled;
    var s := Run(initial, es);
    RunNext(initial, es, e);
    var t := Run(initial, es + [e]);
    NewIsNext(s, e);
    if t.reconnectTimer.Some? {
      FollowsErrorNext(initial, es, e, t.reconnectTimer.value);
    }
  }

  lemma TimerNumbered(s: State)
    requires Inv(s) && Numbered(s)
    ensures s.reconnectTimer.Some? ==> s.reconnectTimer.value < s.browser.nextId
  {
    assert s.reconnectTimer.Some? ==> s.reconnectTimer.value in s.browser.timers;
  }

  ghost predicate Shown(initial: Option<string>, es: seq<Stimulus>) {
    var s := Run(initial, es);
    && Inv(s) && Numbered(s) && PastNumbered(initial, es)
    && ShowsOutcome(s) && ShowsEffort(s, SourceHasOpened(initial, es), TimerFollowsError(initial, es))
  }

  lemma ShownAtFirst(initial: Option<string>)
    ensures Shown(initial, [])
  {
    RunInv(initial, []);
  }

  lemma ShownNext(initial: Option<string>, es: seq<Stimulus>, e: Stimulus)
    requires Shown(initial, es)
    ensures Shown(initial, es + [e])
  {
    hide Run, Inv, Step, HasOpened, FollowsError, Owned, Live, ShowsOutcome, ShowsEffort, Numbered, PastNumbered,
      SourceHasOpened, TimerFollowsError, OpensNow, ErrsNow;
    var s := Run(initial, es);
    InvOwned(s);
    RunNext(initial, es, e);
    TimerNumbered(s);
    StepShowsEffort(s, e, SourceHasOpened(initial, es), TimerFollowsError(initial, es));
    StepShowsOutcome(s, e);
    PastNext(initial, es, e);
    OpenedMatches(initial, es, e);
    ErrorMatches(initial, es, e);
  }

  lemma InvOwned(s: State)
    ensures Inv(s) ==> Owned(s)
  {}

  lemma {:induction false} AllShown(initial: Option<string>, es: seq<Stimulus>)
    ensures Shown(initial, es)
  {
    hide Shown;
    if es == [] {
      ShownAtFirst(initial);
    } else {
      var init, e := es[..|es| - 1], es[|es| - 1];
      AllShown(initial, init);
      ShownNext(initial, init, e);
      assert init + [e] == es;
    }
  }

  /** The phase and the error that the hook shows while it is mounted, in every run. A pending request shows
      requesting_ticket the first time and reconnecting later; a live source shows open exactly once the browser has
      reported it open, and connecting before; a pending timer shows reconnecting, except that the first ticket
      having been rejected still shows requesting_ticket. Without an effort the hook shows idle if it wants no
      connection, and else the outcome told to the user. An error is shown exactly in the phase error, the one told. */
  lemma DisplayExactly(initial: Option<string>, es: seq<Stimulus>)
    ensures
      var s := Run(initial, es);
      && Owned(s)
      && (s.mounted.Some? ==>
            var acts := Of(s.trace, s.mounted.value.generation);
            if s.ticketAbort.Some? then
              s.phase ==
                (if s.browser.tickets[s.ticketAbort.value].attempt == 0 then RequestingTicket else Reconnecting)
            else if s.eventSource.Some? then
              s.phase == (if HasOpened(initial, es, s.eventSource.value) then Open else Connecting)
            else if s.reconnectTimer.Some? then
              s.phase == (if s.browser.timers[s.reconnectTimer.value].attempt == 1 &&
                             !FollowsError(initial, es, s.reconnectTimer.value) then RequestingTicket else Reconnecting)
            else if !s.mounted.value.enabled || s.mounted.value.submissionId in {None, Some(0)} then s.phase == Idle
            else acts != [] && match acts[|acts| - 1]
                 case ErrorSent(_, kind) => s.phase == Failed && s.error == Some(kind)
                 case TerminalSent(_, _) => s.phase == Phase.Completed
                 case _ => false)
      && (s.mounted.Some? && s.phase != Failed ==> s.error == None)
  {
    hide Run, HasOpened, FollowsError, PastNumbered;
    AllShown(initial, es);
    var s := Run(initial, es);
    LastIsRead(Of(s.trace, s.generation));
  }

  lemma LastIsRead(acts: seq<Act>)
    ensures Read(acts).last == if acts == [] then None else Some(acts[|acts| - 1])
  {}

  /** Before the first effect the hook shows idle. */
  lemma IdleAtFirst(initial: Option<string>)
    ensures Run(initial, []).phase == Idle && Run(initial, []).error == None
  {}

  /** Cleaning up leaves the phase and the error as they were. */
  lemma CleanupKeepsDisplay(s: State)
    ensures Step(s, Cleanup).phase == s.phase && Step(s, Cleanup).error == s.error
  {}
}

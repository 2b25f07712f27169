/** What every run of the live-update client keeps, whatever the interleaving. */
module StreamSafety {
  import opened Verdicts
  import opened SubmissionStream

  // ---- Ownership: the refs name exactly what is live in the browser ----

  ghost function Ids(r: Option<nat>): set<nat> {
    if r.Some? then {r.value} else {}
  }

  /** The job calls back into the effect that is mounted now. */
  ghost predicate Mine(s: State, job: Job) {
    s.mounted == Some(job.scope) && job.scope.Connects() && job.attempt <= MAX_RECONNECT_ATTEMPTS
  }

  ghost predicate AtMostOne(a: Option<nat>, b: Option<nat>, c: Option<nat>) {
    !(a.Some? && b.Some?) && !(a.Some? && c.Some?) && !(b.Some? && c.Some?)
  }

  ghost predicate Owned(s: State) {
    var b := s.browser;
    && b.sources.Keys == Ids(s.eventSource)
    && b.timers.Keys == Ids(s.reconnectTimer)
    && b.tickets.Keys - b.aborted == Ids(s.ticketAbort)
    && AtMostOne(s.ticketAbort, s.eventSource, s.reconnectTimer)
    && (forall id :: id in b.tickets || id in b.aborted ==> id < b.nextId)
    && (forall id :: id in b.tickets && id in b.aborted ==> b.tickets[id].scope.generation < s.generation)
    && (s.mounted.Some? ==> s.mounted.value.generation == s.generation)
    && (s.ticketAbort.Some? ==> Mine(s, b.tickets[s.ticketAbort.value]))
    && (s.eventSource.Some? ==> Mine(s, b.sources[s.eventSource.value]))
    && (s.reconnectTimer.Some? ==>
          Mine(s, b.timers[s.reconnectTimer.value]) && b.timers[s.reconnectTimer.value].attempt >= 1)
  }

  /** The one connection effort under way, with its attempt number. */
  datatype Effort = Nothing | AwaitingTicket(attempt: nat) | Listening(attempt: nat) | BackingOff(attempt: nat)

  ghost function Live(s: State): Effort
    requires Owned(s)
  {
    if s.ticketAbort.Some? then AwaitingTicket(s.browser.tickets[s.ticketAbort.value].attempt)
    else if s.eventSource.Some? then Listening(s.browser.sources[s.eventSource.value].attempt)
    else if s.reconnectTimer.Some? then BackingOff(s.browser.timers[s.reconnectTimer.value].attempt)
    else Nothing
  }

  ghost predicate Done(p: Phase) {
    p.Completed? || p.Failed?
  }

  /** The phase shown agrees with the effort under way; a connecting effect without an effort is done. */
  ghost predicate Phased(s: State)
    requires Owned(s)
  {
    match s.mounted
    case None => Live(s).Nothing?
    case Some(scope) =>
      if !scope.Connects() then Live(s).Nothing? && s.phase.Idle? && !s.terminalHandled
      else
        && (s.terminalHandled <==> s.phase.Completed?)
        && match Live(s)
           case Nothing => Done(s.phase)
           case AwaitingTicket(_) => s.phase.RequestingTicket? || s.phase.Reconnecting?
           case Listening(_) => s.phase.Connecting? || s.phase.Open?
           case BackingOff(_) => s.phase.RequestingTicket? || s.phase.Reconnecting?
  }

  ghost predicate Sound(s: State) {
    Owned(s) && Phased(s)
  }

  /** An unsettled request is either the one in the ref or an aborted one of an older generation. */
  lemma UnsettledTicket(s: State, id: nat)
    requires Owned(s) && id in s.browser.tickets
    ensures s.ticketAbort == Some(id) ||
            (id in s.browser.aborted && s.browser.tickets[id].scope.generation < s.generation)
    ensures id in s.browser.aborted ==> s.ticketAbort != Some(id)
  {
    assert id in s.browser.tickets.Keys - s.browser.aborted <==> id !in s.browser.aborted;
  }

  /** What the history depends on: the state with the browser's bookkeeping reduced to the live effort. */
  datatype Ledger = Ledger(
    generation: nat, mounted: Option<Scope>, active: Option<string>, live: Effort, trace: seq<Act>)
  {
    /** The ledger after one more act, with another effort under way. */
    function Then(a: Act, effort: Effort): Ledger {
      this.(trace := trace + [a], live := effort)
    }
  }

  ghost function View(s: State): Ledger
    requires Owned(s)
  {
    Ledger(s.generation, s.mounted, s.activeAttempt, Live(s), s.trace)
  }

  lemma StartSound(s: State, enabled: bool, submissionId: Option<int>, initialAttemptId: Option<string>)
    requires Sound(s) && s.mounted.None?
    ensures
      var t := OnStart(s, enabled, submissionId, initialAttemptId);
      var scope := Scope(s.generation + 1, enabled, submissionId, initialAttemptId);
      && Sound(t)
      && View(t) == Ledger(s.generation + 1, Some(scope), initialAttemptId,
                           if scope.Connects() then AwaitingTicket(0) else Nothing,
                           s.trace + if scope.Connects() then [Requested(scope)] else [])
  {}

  lemma CleanupSound(s: State)
    requires Sound(s)
    ensures Sound(OnCleanup(s))
    ensures View(OnCleanup(s)) == View(s).(generation := s.generation + 1, mounted := None, live := Nothing)
  {}

  lemma TicketIssuedSound(s: State, id: nat)
    requires Sound(s) && id in s.browser.tickets
    ensures
      var t, job := OnTicketIssued(s, id), s.browser.tickets[id];
      && Sound(t)
      && (if s.ticketAbort == Some(id)
          then s.mounted == Some(job.scope) && View(t) == View(s).Then(Opened(job.scope), Listening(job.attempt))
          else t == s.(browser := t.browser) && View(t) == View(s))
  {
    UnsettledTicket(s, id);
  }

  /** The effort and the act after a failed attempt. */
  function Retry(l: Ledger, job: Job, jitter: Jitter, kind: ErrorKind): Ledger {
    if job.attempt < MAX_RECONNECT_ATTEMPTS
    then l.Then(Scheduled(job.scope, ReconnectDelay(job.attempt + 1, jitter)), BackingOff(job.attempt + 1))
    else l.Then(ErrorSent(job.scope, kind), Nothing)
  }

  lemma TicketRejectedSound(s: State, id: nat, jitter: Jitter)
    requires Sound(s) && id in s.browser.tickets
    ensures
      var t, job := OnTicketRejected(s, id, jitter), s.browser.tickets[id];
      && Sound(t)
      && (if s.ticketAbort == Some(id)
          then s.mounted == Some(job.scope) && View(t) == Retry(View(s), job, jitter, TicketError)
          else t == s.(browser := t.browser) && View(t) == View(s))
  {
    UnsettledTicket(s, id);
  }

  lemma SourceOpensSound(s: State, id: nat)
    requires Sound(s) && id in s.browser.sources
    ensures Sound(OnSourceOpens(s, id)) && View(OnSourceOpens(s, id)) == View(s)
  {}

  lemma SourceErrorsSound(s: State, id: nat, jitter: Jitter)
    requires Sound(s) && id in s.browser.sources
    ensures
      var t, job := OnSourceErrors(s, id, jitter), s.browser.sources[id];
      && Sound(t)
      && s.mounted == Some(job.scope) && Live(s) == Listening(job.attempt)
      && View(t) == Retry(View(s), job, jitter, StreamError)
  {}

  /** The filter and the outcome of one message, on the ledger. */
  function Heard(l: Ledger, scope: Scope, payload: Payload): Ledger {
    if !payload.Parsed? then l.Then(ErrorSent(scope, MalformedEvent), Nothing)
    else if !Passes(l, scope, payload.event) then l
    else
      var told := Told(l, scope, payload.event);
      if IsTerminal(payload.event.status) then told.Then(TerminalSent(scope, payload.event), Nothing) else told
  }

  predicate Passes(l: Ledger, scope: Scope, event: Event) {
    && scope.submissionId == Some(event.submissionId)
    && (Falsy(l.active) || l.active == Some(event.attemptId))
  }

  function Told(l: Ledger, scope: Scope, event: Event): Ledger {
    l.Then(StatusSent(scope, event), l.live).(active := if Falsy(l.active) then Some(event.attemptId) else l.active)
  }

  lemma SourceMessageSound(s: State, id: nat, payload: Payload)
    requires Sound(s) && id in s.browser.sources
    ensures
      var t, job := OnSourceMessage(s, id, payload), s.browser.sources[id];
      && Sound(t)
      && s.mounted == Some(job.scope) && Live(s) == Listening(job.attempt)
      && View(t) == Heard(View(s), job.scope, payload)
  {}

  lemma TimerFiresSound(s: State, id: nat)
    requires Sound(s) && id in s.browser.timers
    ensures
      var t, job := OnTimerFires(s, id), s.browser.timers[id];
      && Sound(t)
      && s.mounted == Some(job.scope) && Live(s) == BackingOff(job.attempt)
      && View(t) == View(s).Then(Requested(job.scope), AwaitingTicket(job.attempt))
  {}

  // ---- History: what a generation does to the outside ----

  /** The acts of one generation, in order. */
  function Of(trace: seq<Act>, g: nat): seq<Act> {
    if trace == [] then []
    else
      var init, last := Of(trace[..|trace| - 1], g), trace[|trace| - 1];
      if last.scope.generation == g then init + [last] else init
  }

  predicate IsOutcome(a: Act) {
    a.TerminalSent? || a.ErrorSent?
  }

  predicate Forwards(a: Act) {
    a.StatusSent? || a.TerminalSent?
  }

  /** The event belongs to the submission of its effect and to the attempt the effect was given, if any. */
  predicate Fits(a: Act)
    requires Forwards(a)
  {
    && a.scope.submissionId == Some(a.event.submissionId)
    && (a.scope.initialAttemptId in {None, Some("")} || a.scope.initialAttemptId == Some(a.event.attemptId))
  }

  /** A monitor reading the acts of one generation: what was used up, the first non-empty
      attempt id forwarded, the last act, and whether every act so far was lawful. */
  datatype Digest = Digest(
    requests: nat, sources: nat, backoff: nat, scope: Option<Scope>, chosen: string, last: Option<Act>, lawful: bool)

  /** The wait before retry k, in milliseconds and without jitter. */
  function Wait(k: nat): nat {
    if k <= 1 then 1000 else if k == 2 then 2000 else if k == 3 then 4000 else if k == 4 then 8000 else 10_000
  }

  /** The stream is being listened to. */
  predicate Hears(last: Option<Act>) {
    last.Some? && (last.value.Opened? || last.value.StatusSent?)
  }

  /** The order of acts: a request, after each ticket a source, events while it is heard, after a rejected ticket or a
      source error one of five waits and the next request, and the errors only after the sixth request. */
  predicate InOrder(d: Digest, a: Act) {
    match a
    case Requested(_) => d.last == None || d.last.value.Scheduled?
    case Opened(_) => d.last.Some? && d.last.value.Requested?
    case Scheduled(_, delay) =>
      && (Hears(d.last) || (d.last.Some? && d.last.value.Requested?))
      && 1 <= d.requests <= 5 && Wait(d.requests) <= delay <= Wait(d.requests) + 249
    case StatusSent(_, _) => Hears(d.last)
    case TerminalSent(_, _) => d.last.Some? && d.last.value.StatusSent?
    case ErrorSent(_, kind) =>
      match kind
      case TicketError => d.last.Some? && d.last.value.Requested? && d.requests == 6
      case StreamError => Hears(d.last) && d.requests == 6
      case MalformedEvent => Hears(d.last)
  }

  const UNREAD := Digest(0, 0, 0, None, "", None, true)

  /** Lawful: same effect as before, nothing after an outcome, an event of this effect and of the
      chosen attempt, and a terminal callback right after the status callback with the same event. */
  predicate Lawful(d: Digest, a: Act) {
    && d.scope in {None, Some(a.scope)}
    && (d.last.Some? ==> !IsOutcome(d.last.value))
    && (Forwards(a) ==> Fits(a) && (d.chosen == "" || d.chosen == a.event.attemptId))
    && (a.TerminalSent? ==>
          a.event.status !in {Pending, Judging} && d.last == Some(StatusSent(a.scope, a.event)))
    && InOrder(d, a)
  }

  function Note(d: Digest, a: Act): Digest {
    Digest(d.requests + (if a.Requested? then 1 else 0),
           d.sources + (if a.Opened? then 1 else 0),
           d.backoff + (if a.Scheduled? then a.delay else 0),
           Some(a.scope),
           if Forwards(a) && d.chosen == "" then a.event.attemptId else d.chosen,
           Some(a),
           d.lawful && Lawful(d, a))
  }

  function Read(acts: seq<Act>): Digest {
    if acts == [] then UNREAD else Note(Read(acts[..|acts| - 1]), acts[|acts| - 1])
  }

  /** The longest total backoff before attempt k. */
  function MaxBackoff(k: nat): nat {
    if k == 0 then 0 else MaxBackoff(k - 1) + ReconnectDelay(k, 249)
  }

  predicate WithinBudget(d: Digest) {
    && d.requests <= 1 + MAX_RECONNECT_ATTEMPTS
    && d.sources <= 1 + MAX_RECONNECT_ATTEMPTS
    && d.backoff <= MaxBackoff(MAX_RECONNECT_ATTEMPTS)
  }

  /** What has been used up, given the effort under way. */
  predicate Spent(l: Effort, d: Digest) {
    match l
    case Nothing => WithinBudget(d)
    case AwaitingTicket(k) =>
      && d.requests == k + 1 && d.sources <= k && d.backoff <= MaxBackoff(k)
      && d.last.Some? && d.last.value.Requested?
    case Listening(k) => d.requests == k + 1 && d.sources <= k + 1 && d.backoff <= MaxBackoff(k) && Hears(d.last)
    case BackingOff(k) =>
      && d.requests == k && d.sources <= k && d.backoff <= MaxBackoff(k)
      && d.last.Some? && d.last.value.Scheduled?
  }

  /** What the monitor knows of the current generation, against the effort under way. */
  predicate Current(l: Ledger, d: Digest) {
    match l.mounted
    case None => d == UNREAD
    case Some(scope) =>
      && d.lawful
      && d.scope in {None, Some(scope)}
      && (!Falsy(scope.initialAttemptId) ==> l.active == scope.initialAttemptId)
      && (d.chosen != "" ==> l.active == Some(d.chosen))
      && Spent(l.live, d)
      && (scope.Connects() && l.live.Nothing? <==> d.last.Some? && IsOutcome(d.last.value))
  }

  /** Every generation before the given one is finished properly. */
  ghost predicate AllProper(trace: seq<Act>, before: nat) {
    forall g: nat :: g < before ==> Read(Of(trace, g)).lawful && WithinBudget(Read(Of(trace, g)))
  }

  ghost predicate Recorded(l: Ledger) {
    && (l.mounted.Some? ==> l.mounted.value.generation == l.generation)
    && (!l.live.Nothing? ==> l.mounted.Some? && l.mounted.value.Connects() && l.live.attempt <= MAX_RECONNECT_ATTEMPTS)
    && (forall i :: 0 <= i < |l.trace| ==> l.trace[i].scope.generation <= l.generation)
    && AllProper(l.trace, l.generation)
    && Current(l, Read(Of(l.trace, l.generation)))
  }

  lemma ReadAppend(trace: seq<Act>, a: Act, g: nat)
    ensures Read(Of(trace + [a], g)) ==
            if a.scope.generation == g then Note(Read(Of(trace, g)), a) else Read(Of(trace, g))
  {
    assert (trace + [a])[..|trace|] == trace;
    var acts := Of(trace, g);
    assert (acts + [a])[..|acts|] == acts;
  }

  lemma AllProperAppend(trace: seq<Act>, a: Act, before: nat)
    requires AllProper(trace, before) && a.scope.generation >= before
    ensures AllProper(trace + [a], before)
  {
    forall g: nat | g < before ensures Read(Of(trace + [a], g)) == Read(Of(trace, g)) {
      ReadAppend(trace, a, g);
    }
  }

  lemma BudgetGrows(k: nat)
    requires k <= MAX_RECONNECT_ATTEMPTS
    ensures MaxBackoff(k) <= MaxBackoff(MAX_RECONNECT_ATTEMPTS)
    decreases MAX_RECONNECT_ATTEMPTS - k
  {
    if k < MAX_RECONNECT_ATTEMPTS {
      BudgetGrows(k + 1);
    }
  }

  /** Whatever the effort, what it has used up is within the budget. */
  lemma SpentWithinBudget(l: Effort, d: Digest)
    requires Spent(l, d) && (!l.Nothing? ==> l.attempt <= MAX_RECONNECT_ATTEMPTS)
    ensures WithinBudget(d)
  {
    if !l.Nothing? {
      BudgetGrows(l.attempt);
    }
  }

  lemma CurrentIsProper(l: Ledger)
    requires Recorded(l)
    ensures AllProper(l.trace, l.generation + 1)
  {
    if l.mounted.Some? {
      SpentWithinBudget(l.live, Read(Of(l.trace, l.generation)));
    }
  }

  lemma NothingYet(trace: seq<Act>, g: nat)
    requires forall i :: 0 <= i < |trace| ==> trace[i].scope.generation < g
    ensures Of(trace, g) == []
  {}

  /** Opening a generation in silence. */
  lemma NextGeneration(l: Ledger, m: Ledger)
    requires Recorded(l) && m.generation == l.generation + 1 && m.trace == l.trace
    requires m.mounted.Some? ==> m.mounted.value.generation == m.generation
    requires m.live.Nothing? && Current(m, UNREAD)
    ensures Recorded(m)
  {
    CurrentIsProper(l);
    NothingYet(m.trace, m.generation);
  }

  /** One more act of the current generation. */
  lemma Speaks(l: Ledger, a: Act, m: Ledger)
    requires Recorded(l) && a.scope.generation == l.generation
    requires m.generation == l.generation && m.mounted == Some(a.scope) && m.trace == l.trace + [a]
    requires !m.live.Nothing? ==> a.scope.Connects() && m.live.attempt <= MAX_RECONNECT_ATTEMPTS
    requires Current(m, Note(Read(Of(l.trace, l.generation)), a))
    ensures Recorded(m)
  {
    hide Note, Read, Of;
    AllProperAppend(l.trace, a, l.generation);
    ReadAppend(l.trace, a, l.generation);
  }

  /** Opening a generation with its first request. */
  lemma OpensWithRequest(l: Ledger, scope: Scope)
    requires Recorded(l) && scope.generation == l.generation + 1 && scope.Connects()
    ensures Recorded(Ledger(scope.generation, Some(scope), scope.initialAttemptId, AwaitingTicket(0),
            l.trace + [Requested(scope)]))
  {
    var blank := Ledger(scope.generation, None, None, Nothing, l.trace);
    NextGeneration(l, blank);
    Speaks(blank, Requested(scope),
           Ledger(scope.generation, Some(scope), scope.initialAttemptId, AwaitingTicket(0),
             l.trace + [Requested(scope)]));
  }

  lemma DelayBounded(k: nat, jitter: Jitter)
    requires k >= 1
    ensures MaxBackoff(k - 1) + ReconnectDelay(k, jitter) <= MaxBackoff(k)
    ensures Wait(k) <= ReconnectDelay(k, jitter) <= Wait(k) + 249
  {
    RetryDelays(k, jitter);
  }

  lemma RetryRecorded(l: Ledger, job: Job, jitter: Jitter, kind: ErrorKind)
    requires Recorded(l) && l.mounted == Some(job.scope)
    requires
      || (kind == TicketError && l.live == AwaitingTicket(job.attempt))
      || (kind == StreamError && l.live == Listening(job.attempt))
    ensures Recorded(Retry(l, job, jitter, kind))
  {
    hide Of, Read, AllProper, ReconnectDelay, MaxBackoff, Wait;
    if job.attempt < MAX_RECONNECT_ATTEMPTS {
      DelayBounded(job.attempt + 1, jitter);
      Speaks(l, Scheduled(job.scope, ReconnectDelay(job.attempt + 1, jitter)), Retry(l, job, jitter, kind));
    } else {
      GiveUpRecorded(l, job.scope, kind);
    }
  }

  lemma GiveUpRecorded(l: Ledger, scope: Scope, kind: ErrorKind)
    requires Recorded(l) && l.mounted == Some(scope)
    requires match kind
             case TicketError => l.live == AwaitingTicket(5)
             case StreamError => l.live == Listening(5)
             case MalformedEvent => l.live.Listening?
    ensures Recorded(l.Then(ErrorSent(scope, kind), Nothing))
  {
    SpentWithinBudget(l.live, Read(Of(l.trace, l.generation)));
    Speaks(l, ErrorSent(scope, kind), l.Then(ErrorSent(scope, kind), Nothing));
  }

  lemma HeardRecorded(l: Ledger, scope: Scope, payload: Payload)
    requires Recorded(l) && l.mounted == Some(scope) && l.live.Listening?
    ensures Recorded(Heard(l, scope, payload))
  {
    if !payload.Parsed? {
      GiveUpRecorded(l, scope, MalformedEvent);
    } else if Passes(l, scope, payload.event) {
      var told, d := Told(l, scope, payload.event), Read(Of(l.trace, l.generation));
      Speaks(l, StatusSent(scope, payload.event), told);
      if IsTerminal(payload.event.status) {
        TerminalRecorded(told, scope, payload.event);
      }
    }
  }

  /** The terminal callback right after its status callback. */
  lemma TerminalRecorded(l: Ledger, scope: Scope, event: Event)
    requires Recorded(l) && l.mounted == Some(scope) && l.live.Listening? && IsTerminal(event.status)
    requires l.trace != [] && l.trace[|l.trace| - 1] == StatusSent(scope, event)
    ensures Recorded(l.Then(TerminalSent(scope, event), Nothing))
  {
    SpentWithinBudget(l.live, Read(Of(l.trace, l.generation)));
    Speaks(l, TerminalSent(scope, event), l.Then(TerminalSent(scope, event), Nothing));
  }

  ghost predicate Inv(s: State) {
    Sound(s) && Recorded(View(s))
  }

  lemma StartInv(s: State, enabled: bool, submissionId: Option<int>, initialAttemptId: Option<string>)
    requires Inv(s) && s.mounted.None?
    ensures Inv(OnStart(s, enabled, submissionId, initialAttemptId))
  {
    StartSound(s, enabled, submissionId, initialAttemptId);
    var scope := Scope(s.generation + 1, enabled, submissionId, initialAttemptId);
    if scope.Connects() {
      OpensWithRequest(View(s), scope);
    } else {
      NextGeneration(View(s), View(OnStart(s, enabled, submissionId, initialAttemptId)));
    }
  }

  lemma CleanupInv(s: State)
    requires Inv(s)
    ensures Inv(OnCleanup(s))
  {
    CleanupSound(s);
    NextGeneration(View(s), View(OnCleanup(s)));
  }

  lemma TicketIssuedInv(s: State, id: nat)
    requires Inv(s) && id in s.browser.tickets
    ensures Inv(OnTicketIssued(s, id))
  {
    TicketIssuedSound(s, id);
    if s.ticketAbort == Some(id) {
      Speaks(View(s), Opened(s.browser.tickets[id].scope), View(OnTicketIssued(s, id)));
    }
  }

  lemma TicketRejectedInv(s: State, id: nat, jitter: Jitter)
    requires Inv(s) && id in s.browser.tickets
    ensures Inv(OnTicketRejected(s, id, jitter))
  {
    TicketRejectedSound(s, id, jitter);
    if s.ticketAbort == Some(id) {
      RetryRecorded(View(s), s.browser.tickets[id], jitter, TicketError);
    }
  }

  lemma TimerFiresInv(s: State, id: nat)
    requires Inv(s) && id in s.browser.timers
    ensures Inv(OnTimerFires(s, id))
  {
    TimerFiresSound(s, id);
    Speaks(View(s), Requested(s.browser.timers[id].scope), View(OnTimerFires(s, id)));
  }

  lemma SourceOpensInv(s: State, id: nat)
    requires Inv(s) && id in s.browser.sources
    ensures Inv(OnSourceOpens(s, id))
  {
    SourceOpensSound(s, id);
  }

  lemma SourceErrorsInv(s: State, id: nat, jitter: Jitter)
    requires Inv(s) && id in s.browser.sources
    ensures Inv(OnSourceErrors(s, id, jitter))
  {
    SourceErrorsSound(s, id, jitter);
    RetryRecorded(View(s), s.browser.sources[id], jitter, StreamError);
  }

  lemma SourceMessageInv(s: State, id: nat, payload: Payload)
    requires Inv(s) && id in s.browser.sources
    ensures Inv(OnSourceMessage(s, id, payload))
  {
    SourceMessageSound(s, id, payload);
    HeardRecorded(View(s), s.browser.sources[id].scope, payload);
  }

  /** Every callback keeps the invariant. */
  lemma StepInv(s: State, e: Stimulus)
    requires Inv(s)
    ensures Inv(Step(s, e))
  {
    hide Sound, Recorded, View;
    if Enabled(s, e) {
      match e
      case Start(enabled, submissionId, initialAttemptId) => StartInv(s, enabled, submissionId, initialAttemptId);
      case Cleanup => CleanupInv(s);
      case TicketIssued(id) => TicketIssuedInv(s, id);
      case TicketRejected(id, jitter) => TicketRejectedInv(s, id, jitter);
      case SourceOpens(id) => SourceOpensInv(s, id);
      case SourceErrors(id, jitter) => SourceErrorsInv(s, id, jitter);
      case SourceMessage(id, payload) => SourceMessageInv(s, id, payload);
      case TimerFires(id) => TimerFiresInv(s, id);
    }
  }

  lemma {:induction false} RunInv(initial: Option<string>, es: seq<Stimulus>)
    ensures Inv(Run(initial, es))
  {
    if es != [] {
      RunInv(initial, es[..|es| - 1]);
      StepInv(Run(initial, es[..|es| - 1]), es[|es| - 1]);
    }
  }

  // ---- What the monitor's verdict means ----

  lemma {:induction false} LawfulPrefix(acts: seq<Act>, n: nat)
    requires Read(acts).lawful && n <= |acts|
    ensures Read(acts[..n]).lawful
    ensures n < |acts| ==> Lawful(Read(acts[..n]), acts[n])
  {
    if n == |acts| {
      assert acts[..n] == acts;
    } else {
      var init := acts[..|acts| - 1];
      LawfulPrefix(init, n);
      assert init[..n] == acts[..n];
    }
  }

  lemma {:induction false} ChosenIsForwarded(acts: seq<Act>, i: nat)
    requires Read(acts).lawful && i < |acts| && Forwards(acts[i]) && acts[i].event.attemptId != ""
    ensures Read(acts).chosen == acts[i].event.attemptId
  {
    var init := acts[..|acts| - 1];
    if i < |init| {
      assert init[i] == acts[i];
      ChosenIsForwarded(init, i);
    }
  }

  lemma {:induction false} ScopeIsRead(acts: seq<Act>, i: nat)
    requires Read(acts).lawful && i < |acts|
    ensures Read(acts).scope == Some(acts[i].scope)
  {
    var init := acts[..|acts| - 1];
    if i < |init| {
      assert init[i] == acts[i];
      ScopeIsRead(init, i);
    }
  }

  // ---- Main results: every run, every interleaving ----

  /** In every reachable state at most one of ticket request, source and timer is live, each is
      the one its ref names and belongs to the mounted effect, and every other unsettled request
      is an aborted one of an older generation. */
  lemma OneConnection(initial: Option<string>, es: seq<Stimulus>)
    ensures
      var s := Run(initial, es); var b := s.browser;
      && AtMostOne(s.ticketAbort, s.eventSource, s.reconnectTimer)
      && b.sources.Keys == Ids(s.eventSource)
      && b.timers.Keys == Ids(s.reconnectTimer)
      && b.tickets.Keys - b.aborted == Ids(s.ticketAbort)
      && (forall id :: id in b.sources ==> s.mounted == Some(b.sources[id].scope))
      && (forall id :: id in b.timers ==> s.mounted == Some(b.timers[id].scope))
      && (forall id :: id in b.tickets && id !in b.aborted ==> s.mounted == Some(b.tickets[id].scope))
      && (forall id :: id in b.tickets && id in b.aborted ==> b.tickets[id].scope.generation < s.generation)
  {
    RunInv(initial, es);
    var s := Run(initial, es);
    forall id | id in s.browser.tickets && id !in s.browser.aborted ensures s.ticketAbort == Some(id) {
      UnsettledTicket(s, id);
    }
  }

  /** A mounted effect that wants a connection is never stuck: it has an effort under way
      unless it has completed or failed, and then it has none. */
  lemma NeverStuck(initial: Option<string>, es: seq<Stimulus>)
    ensures
      var s := Run(initial, es);
      s.mounted.Some? && s.mounted.value.Connects() ==>
        (s.ticketAbort.Some? || s.eventSource.Some? || s.reconnectTimer.Some? <==> !Done(s.phase))
  {
    RunInv(initial, es);
  }

  /** In every generation of every run the acts follow one another as they should: an act is of the same effect as those
      before it, nothing follows an outcome, and the orders, waits and limits of InOrder hold. */
  lemma ActsInOrder(initial: Option<string>, es: seq<Stimulus>, g: nat, i: nat)
    ensures
      var acts := Of(Run(initial, es).trace, g);
      i < |acts| ==> Lawful(Read(acts[..i]), acts[i])
  {
    hide Run, Of, Read, Lawful, WithinBudget;
    var acts := Of(Run(initial, es).trace, g);
    EveryGenerationProper(initial, es, g);
    if i < |acts| {
      LawfulPrefix(acts, i);
    }
  }

  /** The user hears at most one outcome per generation, it is the last thing the generation does,
      and a terminal outcome repeats the event that was just sent as a status. */
  lemma OutcomeOnce(initial: Option<string>, es: seq<Stimulus>, g: nat, i: nat)
    ensures
      var acts := Of(Run(initial, es).trace, g);
      i < |acts| && IsOutcome(acts[i]) ==>
        && i == |acts| - 1
        && (acts[i].TerminalSent? ==>
              i > 0 && acts[i].event.status !in {Pending, Judging} &&
              acts[i - 1] == StatusSent(acts[i].scope, acts[i].event))
  {
    var acts := Of(Run(initial, es).trace, g);
    EveryGenerationProper(initial, es, g);
    if i < |acts| && IsOutcome(acts[i]) {
      LawfulPrefix(acts, i);
      if i < |acts| - 1 {
        LawfulPrefix(acts, i + 1);
        assert false;
      }
      if i > 0 {
        assert Read(acts[..i]).last == Some(acts[i - 1]);
      }
    }
  }

  lemma EveryGenerationProper(initial: Option<string>, es: seq<Stimulus>, g: nat)
    ensures Read(Of(Run(initial, es).trace, g)).lawful && WithinBudget(Read(Of(Run(initial, es).trace, g)))
  {
    RunInv(initial, es);
    var l := View(Run(initial, es));
    CurrentIsProper(l);
    if g > l.generation {
      NothingYet(l.trace, g);
    }
  }

  /** Within a generation every forwarded event is of the effect's submission, of the initial attempt
      when one was given, and of the first non-empty attempt id that was forwarded. */
  lemma OneAttemptPerGeneration(initial: Option<string>, es: seq<Stimulus>, g: nat, i: nat, j: nat)
    ensures
      var acts := Of(Run(initial, es).trace, g);
      i <= j < |acts| ==>
        && acts[i].scope == acts[j].scope
        && (Forwards(acts[j]) ==> Fits(acts[j]))
        && (Forwards(acts[i]) && Forwards(acts[j]) && acts[i].event.attemptId != "" ==>
              acts[j].event.attemptId == acts[i].event.attemptId)
  {
    var acts := Of(Run(initial, es).trace, g);
    EveryGenerationProper(initial, es, g);
    if i <= j < |acts| {
      ScopeIsRead(acts, i);
      ScopeIsRead(acts, j);
      LawfulPrefix(acts, j);
      if i < j && Forwards(acts[i]) && acts[i].event.attemptId != "" {
        assert acts[..j][i] == acts[i];
        ChosenIsForwarded(acts[..j], i);
      }
    }
  }

  /** Six ticket requests, six sources and 26,245 ms of scheduled backoff bound every generation. */
  lemma ConnectionBudget(initial: Option<string>, es: seq<Stimulus>, g: nat)
    ensures
      var d := Read(Of(Run(initial, es).trace, g));
      d.requests <= 6 && d.sources <= 6 && d.backoff <= 26_245
  {
    EveryGenerationProper(initial, es, g);
    assert MaxBackoff(1) == 1249;
    assert MaxBackoff(2) == 3498;
    assert MaxBackoff(3) == 7747;
    assert MaxBackoff(4) == 15_996;
    assert MaxBackoff(5) == 26_245;
  }

  /** The state without the browser's bookkeeping: the refs, the phase shown and everything sent out. */
  function Visible(s: State): State {
    s.(browser := NEW_BROWSER)
  }

  /** 'completed' and 'error' are absorbing: until the effect is cleaned up no callback changes a ref,
      the phase or the error, or reaches the user. */
  lemma OutcomeAbsorbing(initial: Option<string>, es: seq<Stimulus>, e: Stimulus)
    requires Done(Run(initial, es).phase) && Run(initial, es).mounted.Some? && !e.Cleanup?
    ensures Visible(Step(Run(initial, es), e)) == Visible(Run(initial, es))
  {
    RunInv(initial, es);
    StaleOrSilent(Run(initial, es), e);
  }

  /** Nothing is live: only aborted requests can still call back. */
  lemma StaleOrSilent(s: State, e: Stimulus)
    requires Inv(s) && Live(s).Nothing? && s.mounted.Some? && !e.Cleanup?
    ensures Visible(Step(s, e)) == Visible(s)
  {
    if Enabled(s, e) {
      match e
      case TicketIssued(id) => TicketIssuedSound(s, id);
      case TicketRejected(id, jitter) => TicketRejectedSound(s, id, jitter);
      case _ =>
    }
  }

  /** The closure that a callback runs in; none for React's own calls. */
  function Origin(s: State, e: Stimulus): Option<Scope>
    requires Enabled(s, e)
  {
    match e
    case Start(_, _, _) => None
    case Cleanup => None
    case TicketIssued(id) => Some(s.browser.tickets[id].scope)
    case TicketRejected(id, _) => Some(s.browser.tickets[id].scope)
    case SourceOpens(id) => Some(s.browser.sources[id].scope)
    case SourceErrors(id, _) => Some(s.browser.sources[id].scope)
    case SourceMessage(id, _) => Some(s.browser.sources[id].scope)
    case TimerFires(id) => Some(s.browser.timers[id].scope)
  }

  /** A callback created by an earlier effect run changes no ref and no state and reaches no user callback. */
  lemma StaleCallbackInvisible(initial: Option<string>, es: seq<Stimulus>, e: Stimulus)
    requires Enabled(Run(initial, es), e) && Origin(Run(initial, es), e).Some? &&
             Run(initial, es).mounted != Origin(Run(initial, es), e)
    ensures Visible(Step(Run(initial, es), e)) == Visible(Run(initial, es))
  {
    RunInv(initial, es);
    var s := Run(initial, es);
    match e
    case TicketIssued(id) => TicketIssuedSound(s, id);
    case TicketRejected(id, jitter) => TicketRejectedSound(s, id, jitter);
    case _ => OneConnection(initial, es);
  }

  // ---- Termination of the connection efforts of one generation ----

  /** Lexicographic in the remaining attempts and the phase of the attempt. */
  function Rank(l: Effort): int {
    match l
    case Nothing => 0
    case BackingOff(k) => 3 * (MAX_RECONNECT_ATTEMPTS - k) + 4
    case AwaitingTicket(k) => 3 * (MAX_RECONNECT_ATTEMPTS - k) + 3
    case Listening(k) => 3 * (MAX_RECONNECT_ATTEMPTS - k) + 2
  }

  /** A callback that moves the connection of the mounted effect along. */
  predicate Moves(s: State, e: Stimulus) {
    && Enabled(s, e)
    && (e.TicketIssued? || e.TicketRejected? || e.SourceErrors? || e.TimerFires?)
    && Origin(s, e) == s.mounted
  }

  lemma RankDecreases(s: State, e: Stimulus)
    requires Sound(s) && !e.Start? && !e.Cleanup?
    ensures Sound(Step(s, e))
    ensures Rank(Live(Step(s, e))) <= Rank(Live(s)) - if Moves(s, e) then 1 else 0
  {
    hide Phased, OnTicketIssued, OnTicketRejected, OnSourceOpens, OnSourceErrors, OnSourceMessage, OnTimerFires;
    if Enabled(s, e) {
      match e
      case TicketIssued(id) => UnsettledTicket(s, id); TicketIssuedSound(s, id);
      case TicketRejected(id, jitter) => UnsettledTicket(s, id); TicketRejectedSound(s, id, jitter);
      case SourceOpens(id) => SourceOpensSound(s, id);
      case SourceErrors(id, jitter) => SourceErrorsSound(s, id, jitter);
      case SourceMessage(id, payload) => SourceMessageSound(s, id, payload);
      case TimerFires(id) => TimerFiresSound(s, id);
    }
  }

  /** How many callbacks of the run move the connection along. */
  function Movements(s: State, es: seq<Stimulus>): nat
    decreases |es|
  {
    if es == [] then 0 else (if Moves(s, es[0]) then 1 else 0) + Movements(Step(s, es[0]), es[1..])
  }

  lemma {:induction false} MovementsBounded(s: State, es: seq<Stimulus>)
    requires Sound(s)
    requires forall i :: 0 <= i < |es| ==> !es[i].Start? && !es[i].Cleanup?
    ensures Movements(s, es) <= Rank(Live(s)) <= 18
    decreases |es|
  {
    if es != [] {
      RankDecreases(s, es[0]);
      MovementsBounded(Step(s, es[0]), es[1..]);
    }
  }

  /** However long a generation lasts, at most eighteen callbacks move its connection. */
  lemma GenerationTerminates(initial: Option<string>, es: seq<Stimulus>, more: seq<Stimulus>)
    requires forall i :: 0 <= i < |more| ==> !more[i].Start? && !more[i].Cleanup?
    ensures Movements(Run(initial, es), more) <= 18
  {
    RunInv(initial, es);
    MovementsBounded(Run(initial, es), more);
  }

  // ---- What is forwarded, and how long a retry waits ----

  /** An event that arrives on the open source is forwarded exactly when it is of the effect's submission and of the
      bound attempt, or no attempt is bound yet, which it then binds; a terminal status also completes the stream.
      Any other event changes nothing at all. */
  lemma EventFilterExact(initial: Option<string>, es: seq<Stimulus>, id: nat, event: Event)
    requires id in Run(initial, es).browser.sources
    ensures
      var s := Run(initial, es);
      var t := Step(s, SourceMessage(id, Parsed(event)));
      var scope := s.browser.sources[id].scope;
      if scope.submissionId == Some(event.submissionId) &&
         s.activeAttempt in {None, Some(""), Some(event.attemptId)} then
        var verdict := event.status !in {Pending, Judging};
        && t.trace == s.trace + [StatusSent(scope, event)] + (if verdict then [TerminalSent(scope, event)] else [])
        && t.activeAttempt == Some(event.attemptId)
        && (t.phase == if verdict then Phase.Completed else s.phase)
      else t == s
  {
    hide Run, Recorded;
    RunInv(initial, es);
    SourceMessageSound(Run(initial, es), id, Parsed(event));
  }

  /** Retry k waits 1, 2, 4, 8 and then always 10 seconds, plus the jitter. */
  lemma RetryDelays(k: nat, jitter: Jitter)
    ensures ReconnectDelay(k, jitter) - jitter == Wait(k)
  {
    if k >= 5 {
      PowersGrow(k - 1);
    } else {
      assert Pow2(0) == 1 && Pow2(1) == 2 && Pow2(2) == 4 && Pow2(3) == 8;
    }
  }

  lemma {:induction false} PowersGrow(n: nat)
    requires n >= 4
    ensures Pow2(n) >= 16
  {
    if n == 4 {
      assert Pow2(1) == 2 && Pow2(2) == 4 && Pow2(3) == 8;
    } else {
      PowersGrow(n - 1);
    }
  }
}

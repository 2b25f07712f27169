/** The live-update client as a state machine: every browser callback is one atomic step
    over the refs of the hook, and the browser may interleave callbacks as it likes.
    The only assumption on the browser is that a closed source, a cleared timer and a
    settled ticket request call back no more. */
module SubmissionStream {
  import opened Verdicts

  const MAX_RECONNECT_ATTEMPTS := 5
  const BASE_RECONNECT_DELAY_MS := 1000
  const MAX_RECONNECT_DELAY_MS := 10_000

  type Jitter = j: int | 0 <= j < 250

  datatype Phase = Idle | RequestingTicket | Connecting | Open | Reconnecting | Completed | Failed

  datatype ErrorKind = TicketError | StreamError | MalformedEvent

  datatype Event = Event(submissionId: int, attemptId: string, status: Status)

  /** What arrives on a source: text that is not JSON, JSON off the contract, or an event. */
  datatype Payload = NotJson | OffContract | Parsed(event: Event)

  /** What one run of the effect closes over. */
  datatype Scope = Scope(generation: nat, enabled: bool, submissionId: Option<int>, initialAttemptId: Option<string>)
  {
    /** `enabled && submissionId`: an id of 0 is falsy. */
    predicate Connects() {
      enabled && submissionId.Some? && submissionId.value != 0
    }
  }

  /** A ticket request, event source or timer, with the closure it calls back into. */
  datatype Job = Job(scope: Scope, attempt: nat)

  /** The browser: unsettled ticket requests, aborted ones, open sources, pending timers. */
  datatype Browser = Browser(
    nextId: nat,
    tickets: map<nat, Job>,
    aborted: set<nat>,
    sources: map<nat, Job>,
    timers: map<nat, Job>)
  {
    function Request(job: Job): Browser {
      this.(tickets := tickets[nextId := job], nextId := nextId + 1)
    }

    function Settle(id: nat): Browser {
      this.(tickets := tickets - {id})
    }

    function Abort(id: nat): Browser {
      this.(aborted := aborted + {id})
    }

    function OpenSource(job: Job): Browser {
      this.(sources := sources[nextId := job], nextId := nextId + 1)
    }

    function CloseSource(id: nat): Browser {
      this.(sources := sources - {id})
    }

    function SetTimer(job: Job): Browser {
      this.(timers := timers[nextId := job], nextId := nextId + 1)
    }

    function ClearTimer(id: nat): Browser {
      this.(timers := timers - {id})
    }
  }

  /** What the hook does to the outside, in order. */
  datatype Act =
    | Requested(scope: Scope)
    | Opened(scope: Scope)
    | Scheduled(scope: Scope, delay: nat)
    | StatusSent(scope: Scope, event: Event)
    | TerminalSent(scope: Scope, event: Event)
    | ErrorSent(scope: Scope, kind: ErrorKind)

  datatype State = State(
    // the refs and the React state of the hook
    generation: nat,
    terminalHandled: bool,
    activeAttempt: Option<string>,
    eventSource: Option<nat>,
    ticketAbort: Option<nat>,
    reconnectTimer: Option<nat>,
    phase: Phase,
    error: Option<ErrorKind>,
    // the mounted effect, as React remembers it
    mounted: Option<Scope>,
    browser: Browser,
    trace: seq<Act>)

  datatype Stimulus =
    | Start(enabled: bool, submissionId: Option<int>, initialAttemptId: Option<string>)
    | Cleanup
    | TicketIssued(id: nat)
    | TicketRejected(id: nat, jitter: Jitter)
    | SourceOpens(id: nat)
    | SourceErrors(id: nat, jitter: Jitter)
    | SourceMessage(id: nat, payload: Payload)
    | TimerFires(id: nat)

  const NEW_BROWSER := Browser(0, map[], {}, map[], map[])

  /** A hook before its first effect. */
  function NewHook(initialAttemptId: Option<string>): State {
    State(0, false, initialAttemptId, None, None, None, Idle, None, None, NEW_BROWSER, [])
  }

  function Pow2(n: nat): nat {
    if n == 0 then 1 else 2 * Pow2(n - 1)
  }

  function ReconnectDelay(attempt: nat, jitter: Jitter): nat {
    var grown := BASE_RECONNECT_DELAY_MS * Pow2(if attempt == 0 then 0 else attempt - 1);
    (if grown < MAX_RECONNECT_DELAY_MS then grown else MAX_RECONNECT_DELAY_MS) + jitter
  }

  predicate Falsy(id: Option<string>) {
    id == None || id == Some("")
  }

  // ---- The closures of one effect run ----

  function ClearReconnectTimer(s: State): State {
    if s.reconnectTimer.Some?
    then s.(browser := s.browser.ClearTimer(s.reconnectTimer.value), reconnectTimer := None)
    else s
  }

  function CloseEventSource(s: State): State {
    if s.eventSource.Some?
    then s.(browser := s.browser.CloseSource(s.eventSource.value), eventSource := None)
    else s
  }

  function AbortTicketRequest(s: State): State {
    if s.ticketAbort.Some?
    then s.(browser := s.browser.Abort(s.ticketAbort.value), ticketAbort := None)
    else s
  }

  function ReportError(s: State, scope: Scope, kind: ErrorKind): State {
    s.(phase := Failed, error := Some(kind), trace := s.trace + [ErrorSent(scope, kind)])
  }

  function Connect(s: State, job: Job): State {
    if !job.scope.Connects() || s.generation != job.scope.generation then s
    else
      var q := ClearReconnectTimer(CloseEventSource(AbortTicketRequest(s)));
      q.(phase := if job.attempt == 0 then RequestingTicket else Reconnecting,
         error := None,
         ticketAbort := Some(q.browser.nextId),
         browser := q.browser.Request(job),
         trace := q.trace + [Requested(job.scope)])
  }

  function ScheduleRetry(s: State, job: Job, jitter: Jitter): State {
    s.(reconnectTimer := Some(s.browser.nextId),
       browser := s.browser.SetTimer(Job(job.scope, job.attempt + 1)),
       trace := s.trace + [Scheduled(job.scope, ReconnectDelay(job.attempt + 1, jitter))])
  }

  /** The `finally` of the ticket request. */
  function Settle(s: State, id: nat): State {
    s.(browser := s.browser.Settle(id), ticketAbort := if s.ticketAbort == Some(id) then None else s.ticketAbort)
  }

  function OnTicketIssued(s: State, id: nat): State
    requires id in s.browser.tickets
  {
    var job, q := s.browser.tickets[id], Settle(s, id);
    if q.generation != job.scope.generation || q.terminalHandled then q
    else q.(phase := Connecting,
            eventSource := Some(q.browser.nextId),
            browser := q.browser.OpenSource(job),
            trace := q.trace + [Opened(job.scope)])
  }

  function OnTicketRejected(s: State, id: nat, jitter: Jitter): State
    requires id in s.browser.tickets
  {
    var job, q := s.browser.tickets[id], Settle(s, id);
    if id in q.browser.aborted || q.generation != job.scope.generation then q
    else if job.attempt < MAX_RECONNECT_ATTEMPTS then ScheduleRetry(q, job, jitter)
    else ReportError(q, job.scope, TicketError)
  }

  function OnSourceOpens(s: State, id: nat): State
    requires id in s.browser.sources
  {
    if s.generation != s.browser.sources[id].scope.generation || s.terminalHandled then s else s.(phase := Open)
  }

  function OnSourceErrors(s: State, id: nat, jitter: Jitter): State
    requires id in s.browser.sources
  {
    var job, q := s.browser.sources[id], s.(browser := s.browser.CloseSource(id));
    if q.generation != job.scope.generation || q.terminalHandled then q
    else
      var r := q.(eventSource := if q.eventSource == Some(id) then None else q.eventSource);
      if job.attempt < MAX_RECONNECT_ATTEMPTS
      then ScheduleRetry(r.(phase := Reconnecting), job, jitter)
      else ReportError(r, job.scope, StreamError)
  }

  function Complete(s: State, scope: Scope, event: Event): State {
    if s.terminalHandled then s
    else
      var q := ClearReconnectTimer(CloseEventSource(s.(terminalHandled := true)));
      q.(phase := Completed, trace := q.trace + [TerminalSent(scope, event)])
  }

  /** `validateEvent`: the event is for this submission and this attempt. */
  predicate Accepts(s: State, scope: Scope, event: Event) {
    && scope.submissionId == Some(event.submissionId)
    && (Falsy(s.activeAttempt) || s.activeAttempt == Some(event.attemptId))
  }

  function Forward(s: State, scope: Scope, event: Event): State {
    s.(activeAttempt := if Falsy(s.activeAttempt) then Some(event.attemptId) else s.activeAttempt,
       trace := s.trace + [StatusSent(scope, event)])
  }

  function OnSourceMessage(s: State, id: nat, payload: Payload): State
    requires id in s.browser.sources
  {
    var scope := s.browser.sources[id].scope;
    if s.generation != scope.generation then s
    else match payload
      case NotJson => ReportError(CloseEventSource(s), scope, MalformedEvent)
      case OffContract => ReportError(CloseEventSource(s), scope, MalformedEvent)
      case Parsed(event) =>
        if !Accepts(s, scope, event) then s
        else if IsTerminal(event.status) then Complete(Forward(s, scope, event), scope, event)
        else Forward(s, scope, event)
  }

  function OnTimerFires(s: State, id: nat): State
    requires id in s.browser.timers
  {
    Connect(s.(browser := s.browser.ClearTimer(id)), s.browser.timers[id])
  }

  function Mount(s: State, scope: Scope): State {
    s.(generation := scope.generation, mounted := Some(scope), terminalHandled := false,
       activeAttempt := scope.initialAttemptId, error := None)
  }

  function OnStart(s: State, enabled: bool, submissionId: Option<int>, initialAttemptId: Option<string>): State {
    var scope := Scope(s.generation + 1, enabled, submissionId, initialAttemptId);
    var q := Mount(s, scope);
    if scope.Connects() then Connect(q, Job(scope, 0)) else q.(phase := Idle)
  }

  function OnCleanup(s: State): State {
    var q := s.(generation := s.generation + 1, mounted := None);
    ClearReconnectTimer(CloseEventSource(AbortTicketRequest(q)))
  }

  // ---- Runs ----

  /** Which stimuli the browser and React can deliver in a state. */
  predicate Enabled(s: State, e: Stimulus) {
    match e
    case Start(_, _, _) => s.mounted.None?
    case Cleanup => s.mounted.Some?
    case TicketIssued(id) => id in s.browser.tickets
    case TicketRejected(id, _) => id in s.browser.tickets
    case SourceOpens(id) => id in s.browser.sources
    case SourceErrors(id, _) => id in s.browser.sources
    case SourceMessage(id, _) => id in s.browser.sources
    case TimerFires(id) => id in s.browser.timers
  }

  /** One atomic callback; a stimulus the browser cannot deliver does nothing. */
  function Step(s: State, e: Stimulus): State {
    if !Enabled(s, e) then s
    else match e
      case Start(enabled, submissionId, initialAttemptId) => OnStart(s, enabled, submissionId, initialAttemptId)
      case Cleanup => OnCleanup(s)
      case TicketIssued(id) => OnTicketIssued(s, id)
      case TicketRejected(id, jitter) => OnTicketRejected(s, id, jitter)
      case SourceOpens(id) => OnSourceOpens(s, id)
      case SourceErrors(id, jitter) => OnSourceErrors(s, id, jitter)
      case SourceMessage(id, payload) => OnSourceMessage(s, id, payload)
      case TimerFires(id) => OnTimerFires(s, id)
  }

  function Run(initial: Option<string>, es: seq<Stimulus>): State {
    if es == [] then NewHook(initial) else Step(Run(initial, es[..|es| - 1]), es[|es| - 1])
  }

  // ---- The hook itself, written as the source writes it ----

  class StreamClient {
    var generation: nat
    var terminalHandled: bool
    var activeAttempt: Option<string>
    var eventSource: Option<nat>
    var ticketAbort: Option<nat>
    var reconnectTimer: Option<nat>
    var phase: Phase
    var error: Option<ErrorKind>
    var mounted: Option<Scope>
    var browser: Browser
    var trace: seq<Act>

    function Snapshot(): State
      reads this
    {
      State(generation, terminalHandled, activeAttempt, eventSource, ticketAbort, reconnectTimer, phase, error,
            mounted, browser, trace)
    }

    constructor (initialAttemptId: Option<string>)
      ensures Snapshot() == NewHook(initialAttemptId)
      ensures generation == 0 && !terminalHandled && activeAttempt == initialAttemptId && mounted == None
      ensures eventSource == None && ticketAbort == None && reconnectTimer == None
      ensures phase == Idle && error == None && trace == []
    {
      generation, terminalHandled, activeAttempt := 0, false, initialAttemptId;
      eventSource, ticketAbort, reconnectTimer := None, None, None;
      phase, error, mounted := Idle, None, None;
      browser, trace := NEW_BROWSER, [];
    }

    method ClearTimer()
      modifies this`browser, this`reconnectTimer
      ensures Snapshot() == ClearReconnectTimer(old(Snapshot()))
    {
      if reconnectTimer.Some? {
        browser := browser.ClearTimer(reconnectTimer.value);
        reconnectTimer := None;
      }
    }

    method CloseSource()
      modifies this`browser, this`eventSource
      ensures Snapshot() == CloseEventSource(old(Snapshot()))
    {
      if eventSource.Some? {
        browser := browser.CloseSource(eventSource.value);
        eventSource := None;
      }
    }

    method AbortTicket()
      modifies this`browser, this`ticketAbort
      ensures Snapshot() == AbortTicketRequest(old(Snapshot()))
    {
      if ticketAbort.Some? {
        browser := browser.Abort(ticketAbort.value);
        ticketAbort := None;
      }
    }

    method Fail(scope: Scope, kind: ErrorKind)
      modifies this`phase, this`error, this`trace
      ensures Snapshot() == ReportError(old(Snapshot()), scope, kind)
    {
      phase := Failed;
      error := Some(kind);
      trace := trace + [ErrorSent(scope, kind)];
    }

    /** The three calls that open `connect` and close the effect. */
    method ReleaseAll()
      modifies this`browser, this`ticketAbort, this`eventSource, this`reconnectTimer
      ensures Snapshot() == ClearReconnectTimer(CloseEventSource(AbortTicketRequest(old(Snapshot()))))
    {
      AbortTicket();
      CloseSource();
      ClearTimer();
    }

    method ConnectNow(job: Job)
      modifies this
      ensures Snapshot() == Connect(old(Snapshot()), job)
    {
      if !job.scope.Connects() || generation != job.scope.generation {
        return;
      }
      ReleaseAll();
      phase := if job.attempt == 0 then RequestingTicket else Reconnecting;
      error := None;
      ticketAbort := Some(browser.nextId);
      browser := browser.Request(job);
      trace := trace + [Requested(job.scope)];
    }

    method SetRetryTimer(job: Job, jitter: Jitter)
      modifies this`browser, this`reconnectTimer, this`trace
      ensures Snapshot() == ScheduleRetry(old(Snapshot()), job, jitter)
    {
      reconnectTimer := Some(browser.nextId);
      browser := browser.SetTimer(Job(job.scope, job.attempt + 1));
      trace := trace + [Scheduled(job.scope, ReconnectDelay(job.attempt + 1, jitter))];
    }

    method Dispatch(e: Stimulus)
      modifies this
      ensures Snapshot() == Step(old(Snapshot()), e)
    {
      if !Enabled(Snapshot(), e) {
        return;
      }
      match e {
        case Start(enabled, submissionId, initialAttemptId) =>
          StartEffect(enabled, submissionId, initialAttemptId);
        case Cleanup =>
          CleanUp();
        case TicketIssued(id) =>
          HandleTicketIssued(id);
        case TicketRejected(id, jitter) =>
          HandleTicketRejected(id, jitter);
        case SourceOpens(id) =>
          HandleSourceOpen(id);
        case SourceErrors(id, jitter) =>
          HandleSourceError(id, jitter);
        case SourceMessage(id, payload) =>
          HandleRawEvent(id, payload);
        case TimerFires(id) =>
          FireTimer(id);
      }
    }

    method StartEffect(enabled: bool, submissionId: Option<int>, initialAttemptId: Option<string>)
      modifies this
      ensures Snapshot() == OnStart(old(Snapshot()), enabled, submissionId, initialAttemptId)
    {
      var scope := Scope(generation + 1, enabled, submissionId, initialAttemptId);
      ResetRefs(scope);
      if scope.Connects() {
        ConnectNow(Job(scope, 0));
      } else {
        phase := Idle;
      }
    }

    method ResetRefs(scope: Scope)
      modifies this`generation, this`mounted, this`terminalHandled, this`activeAttempt, this`error
      ensures Snapshot() == Mount(old(Snapshot()), scope)
    {
      generation := scope.generation;
      mounted := Some(scope);
      terminalHandled := false;
      activeAttempt := scope.initialAttemptId;
      error := None;
    }

    method CleanUp()
      modifies this
      ensures Snapshot() == OnCleanup(old(Snapshot()))
    {
      mounted := None;
      generation := generation + 1;
      ReleaseAll();
    }

    method HandleSourceOpen(id: nat)
      requires id in browser.sources
      modifies this`phase
      ensures Snapshot() == OnSourceOpens(old(Snapshot()), id)
    {
      if generation != browser.sources[id].scope.generation || terminalHandled {
        return;
      }
      phase := Open;
    }

    method FireTimer(id: nat)
      requires id in browser.timers
      modifies this
      ensures Snapshot() == OnTimerFires(old(Snapshot()), id)
    {
      var job := browser.timers[id];
      browser := browser.ClearTimer(id);
      ConnectNow(job);
    }

    method HandleTicketIssued(id: nat)
      requires id in browser.tickets
      modifies this
      ensures Snapshot() == OnTicketIssued(old(Snapshot()), id)
    {
      var job := browser.tickets[id];
      browser := browser.Settle(id);
      if ticketAbort == Some(id) {
        ticketAbort := None;
      }
      if generation != job.scope.generation || terminalHandled {
        return;
      }
      phase := Connecting;
      eventSource := Some(browser.nextId);
      browser := browser.OpenSource(job);
      trace := trace + [Opened(job.scope)];
    }

    method HandleTicketRejected(id: nat, jitter: Jitter)
      requires id in browser.tickets
      modifies this
      ensures Snapshot() == OnTicketRejected(old(Snapshot()), id, jitter)
    {
      var job := browser.tickets[id];
      browser := browser.Settle(id);
      if !(id in browser.aborted || generation != job.scope.generation) {
        if job.attempt < MAX_RECONNECT_ATTEMPTS {
          SetRetryTimer(job, jitter);
        } else {
          Fail(job.scope, TicketError);
        }
      }
      if ticketAbort == Some(id) {
        ticketAbort := None;
      }
    }

    method HandleSourceError(id: nat, jitter: Jitter)
      requires id in browser.sources
      modifies this
      ensures Snapshot() == OnSourceErrors(old(Snapshot()), id, jitter)
    {
      var job := browser.sources[id];
      browser := browser.CloseSource(id);
      if generation != job.scope.generation || terminalHandled {
        return;
      }
      if eventSource == Some(id) {
        eventSource := None;
      }
      if job.attempt < MAX_RECONNECT_ATTEMPTS {
        phase := Reconnecting;
        SetRetryTimer(job, jitter);
        return;
      }
      Fail(job.scope, StreamError);
    }

    method HandleRawEvent(id: nat, payload: Payload)
      requires id in browser.sources
      modifies this
      ensures Snapshot() == OnSourceMessage(old(Snapshot()), id, payload)
    {
      var scope := browser.sources[id].scope;
      if generation != scope.generation {
        return;
      }
      if !payload.Parsed? {
        CloseSource();
        Fail(scope, MalformedEvent);
        return;
      }
      var event := payload.event;
      if scope.submissionId != Some(event.submissionId) {
        return;
      }
      if Falsy(activeAttempt) {
        activeAttempt := Some(event.attemptId);
      } else if activeAttempt != Some(event.attemptId) {
        return;
      }
      trace := trace + [StatusSent(scope, event)];
      if IsTerminal(event.status) {
        CompleteWith(scope, event);
      }
    }

    method CompleteWith(scope: Scope, event: Event)
      modifies this`terminalHandled, this`browser, this`eventSource, this`reconnectTimer, this`phase, this`trace
      ensures Snapshot() == Complete(old(Snapshot()), scope, event)
    {
      if terminalHandled {
        return;
      }
      terminalHandled := true;
      CloseSource();
      ClearTimer();
      phase := Completed;
      trace := trace + [TerminalSent(scope, event)];
    }
  }
}

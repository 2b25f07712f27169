/** The page of pending records that the relay reads at each poll, and the submissions it leaves out of reach. */
module RelayPage {
  import opened Verdicts
  import opened GoText
  import opened JudgingProtocol
  import opened JudgingSafety
  import opened JudgingOutage

  const RELAY_PAGE := 100

  /** The order in which the database returns rows: the rank of each row. Insertion order ranks a row by its index. */
  type Order = nat -> int

  predicate Pending(outbox: seq<OutboxMessage>, i: nat) {
    i < |outbox| && !outbox[i].published
  }

  /** Given up: still pending, and skipped at every poll. */
  predicate Dead(outbox: seq<OutboxMessage>, i: nat) {
    Pending(outbox, i) && outbox[i].retryCount >= 5
  }

  predicate Live(outbox: seq<OutboxMessage>, i: nat) {
    Pending(outbox, i) && outbox[i].retryCount < 5
  }

  function Ahead(order: Order, outbox: seq<OutboxMessage>, i: nat): set<nat> {
    set j: nat | j < |outbox| && Pending(outbox, j) && order(j) < order(i)
  }

  function DeadAhead(order: Order, outbox: seq<OutboxMessage>, i: nat): set<nat> {
    set j: nat | j < |outbox| && Dead(outbox, j) && order(j) < order(i)
  }

  function LiveAhead(order: Order, outbox: seq<OutboxMessage>, i: nat): set<nat> {
    set j: nat | j < |outbox| && Live(outbox, j) && order(j) < order(i)
  }

  /** `GetPending`: a pending row is returned when fewer than a page of pending rows come before it. */
  predicate InPage(order: Order, outbox: seq<OutboxMessage>, i: nat) {
    Pending(outbox, i) && |Ahead(order, outbox, i)| < RELAY_PAGE
  }

  // ---- The page is that of the query ----

  lemma SubsetSize<T>(a: set<T>, b: set<T>)
    requires a <= b
    ensures |a| <= |b|
  {
    assert b == a + (b - a);
  }

  ghost predicate Injective(order: Order) {
    forall i, j :: order(i) == order(j) ==> i == j
  }

  lemma {:induction false} Greatest(order: Order, s: set<nat>) returns (m: nat)
    requires s != {}
    ensures m in s && forall j :: j in s ==> order(j) <= order(m)
    decreases |s|
  {
    m :| m in s;
    if s != {m} {
      var n := Greatest(order, s - {m});
      if order(m) < order(n) {
        m := n;
      }
    }
  }

  lemma Least(order: Order, s: set<nat>) returns (m: nat)
    requires s != {}
    ensures m in s && forall j :: j in s ==> order(m) <= order(j)
  {
    m := Greatest((i: nat) => -order(i), s);
  }

  /** The rows of the page: at most a hundred, the first ones, and a hundred unless they are all pending rows. */
  lemma PageOfQuery(order: Order, outbox: seq<OutboxMessage>)
    requires Injective(order)
    ensures
      var pending := set i: nat | i < |outbox| && Pending(outbox, i);
      var page := set i: nat | i < |outbox| && InPage(order, outbox, i);
      && page <= pending && |page| <= 100
      && (page == pending || |page| == 100)
      && forall i, j :: i in page && j in pending && order(j) < order(i) ==> j in page
  {
    hide Pending;
    var pending := set i: nat | i < |outbox| && Pending(outbox, i);
    var page := set i: nat | i < |outbox| && InPage(order, outbox, i);
    if page != {} {
      var m := Greatest(order, page);
      assert page - {m} <= Ahead(order, outbox, m);
      SubsetSize(page - {m}, Ahead(order, outbox, m));
    }
    if page != pending {
      var m := Least(order, pending - page);
      assert Ahead(order, outbox, m) <= page;
      SubsetSize(Ahead(order, outbox, m), page);
    }
    forall i, j | i in page && j in pending && order(j) < order(i) ensures j in page {
      SubsetSize(Ahead(order, outbox, j), Ahead(order, outbox, i));
    }
  }

  // ---- Runs with the page ----

  /** The relay reaches only the records of the page. */
  function PagedStep(clean: Cleaner, order: Order, s: State, a: Action): State {
    if a.RelayOne? && !InPage(order, s.outbox, a.i) then s else Step(clean, s, a)
  }

  function PagedFrom(clean: Cleaner, order: Order, s: State, actions: seq<Action>): State
    decreases |actions|
  {
    if actions == [] then s else PagedFrom(clean, order, PagedStep(clean, order, s, actions[0]), actions[1..])
  }

  function PagedRun(clean: Cleaner, order: Order, actions: seq<Action>): State {
    PagedFrom(clean, order, EMPTY, actions)
  }

  /** The actions of a run that the page lets through. */
  function Effective(clean: Cleaner, order: Order, s: State, actions: seq<Action>): seq<Action>
    decreases |actions|
  {
    if actions == [] then []
    else
      var rest := Effective(clean, order, PagedStep(clean, order, s, actions[0]), actions[1..]);
      if actions[0].RelayOne? && !InPage(order, s.outbox, actions[0].i) then rest else [actions[0]] + rest
  }

  /** Every run with the page is a run of the protocol, so all that holds of every run holds of it. */
  lemma {:induction false} PagedRunsAreRuns(clean: Cleaner, order: Order, s: State, actions: seq<Action>)
    ensures PagedFrom(clean, order, s, actions) == RunFrom(clean, s, Effective(clean, order, s, actions))
    decreases |actions|
  {
    hide Step, InPage;
    if actions != [] {
      var t := PagedStep(clean, order, s, actions[0]);
      PagedRunsAreRuns(clean, order, t, actions[1..]);
      RunFirst(clean, s, actions[0], Effective(clean, order, t, actions[1..]));
    }
  }

  lemma PagedInv(clean: Cleaner, order: Order, s: State, actions: seq<Action>)
    requires Inv(clean, s)
    ensures Inv(clean, PagedFrom(clean, order, s, actions))
  {
    hide Inv, RunFrom, PagedFrom, Effective;
    PagedRunsAreRuns(clean, order, s, actions);
    RunInv(clean, s, Effective(clean, order, s, actions));
  }

  lemma {:induction false} PagedConcat(clean: Cleaner, order: Order, s: State, a: seq<Action>, b: seq<Action>)
    ensures PagedFrom(clean, order, s, a + b) == PagedFrom(clean, order, PagedFrom(clean, order, s, a), b)
    decreases |a|
  {
    hide PagedStep;
    if a == [] {
      assert a + b == b;
    } else {
      assert (a + b)[1..] == a[1..] + b;
      PagedConcat(clean, order, PagedStep(clean, order, s, a[0]), a[1..], b);
    }
  }

  lemma PagedOne(clean: Cleaner, order: Order, s: State, a: Action)
    ensures PagedFrom(clean, order, s, [a]) == PagedStep(clean, order, s, a)
  {
    hide PagedStep;
  }

  // ---- One poll ----

  /** What the relay does to a record leaves every other record's place, or moves it forward. */
  lemma RelayKeepsPage(order: Order, s: State, j: nat, sent: bool, marked: bool, i: nat)
    requires i != j && InPage(order, s.outbox, i)
    ensures InPage(order, Relay(s, j, sent, marked).outbox, i)
  {
    var t := Relay(s, j, sent, marked);
    assert Ahead(order, t.outbox, i) <= Ahead(order, s.outbox, i);
    SubsetSize(Ahead(order, t.outbox, i), Ahead(order, s.outbox, i));
  }

  /** A poll works on the rows it has read, and each is still within the page when its turn comes. */
  lemma {:induction false} PollStaysInPage(
      clean: Cleaner, order: Order, s: State, rows: seq<nat>, outcomes: seq<Outcome>)
    requires |outcomes| == |rows| && forall k :: 0 <= k < |rows| ==> InPage(order, s.outbox, rows[k])
    requires forall k, l :: 0 <= k < l < |rows| ==> rows[k] != rows[l]
    ensures PagedFrom(clean, order, s, Relays(rows, outcomes)) == RunFrom(clean, s, Relays(rows, outcomes))
    decreases |rows|
  {
    hide InPage, Relay;
    if rows != [] {
      var i, o := rows[0], outcomes[0];
      var t := Relay(s, i, o.sent, o.marked);
      var first, rest := RelayOne(i, o.sent, o.marked), Relays(rows[1..], outcomes[1..]);
      forall k | 0 <= k < |rows[1..]| ensures InPage(order, t.outbox, rows[1..][k]) {
        RelayKeepsPage(order, s, i, o.sent, o.marked, rows[1..][k]);
      }
      PollStaysInPage(clean, order, t, rows[1..], outcomes[1..]);
      assert Relays(rows, outcomes) == [first] + rest;
      RunFirst(clean, s, first, rest);
      PagedConcat(clean, order, s, [first], rest);
      PagedOne(clean, order, s, first);
    }
  }

  // ---- Out of reach ----

  /** The record of the submission's current attempt was never sent, and it was given up or a whole page of given-up
      records comes before it. */
  ghost predicate Blocked(order: Order, s: State, id: int, i: nat) {
    && Unsent(s, id, i)
    && (s.outbox[i].retryCount >= 5 || |DeadAhead(order, s.outbox, i)| >= 100)
  }

  ghost predicate OutOfReach(order: Order, s: State, id: int) {
    IsOpen(s, id) && exists i: nat :: Blocked(order, s, id, i)
  }

  /** Records die, and stay dead. */
  lemma DeadStays(clean: Cleaner, order: Order, s: State, a: Action, i: nat)
    ensures DeadAhead(order, s.outbox, i) <= DeadAhead(order, Step(clean, s, a).outbox, i)
  {
    hide TrimSpace, Answer, Completed, CompletedAttempt, NewAttempt;
  }

  /** The relay does not get at a blocked record. */
  lemma BlockedIsSkipped(order: Order, s: State, id: int, i: nat)
    requires Blocked(order, s, id, i)
    ensures InPage(order, s.outbox, i) ==> !Live(s.outbox, i)
  {
    assert DeadAhead(order, s.outbox, i) <= Ahead(order, s.outbox, i);
    SubsetSize(DeadAhead(order, s.outbox, i), Ahead(order, s.outbox, i));
  }

  lemma StepKeepsBlocked(clean: Cleaner, order: Order, s: State, a: Action, id: int, i: nat)
    requires Inv(clean, s) && IsOpen(s, id) && Blocked(order, s, id, i)
    ensures
      var t := PagedStep(clean, order, s, a);
      Blocked(order, t, id, i) && t.submissions[id] == s.submissions[id]
  {
    hide Inv, Step, InPage, DeadAhead;
    BlockedIsSkipped(order, s, id, i);
    if !(a.RelayOne? && !InPage(order, s.outbox, a.i)) {
      StepKeepsUnsent(clean, s, a, id, i);
      DeadStays(clean, order, s, a, i);
      SubsetSize(DeadAhead(order, s.outbox, i), DeadAhead(order, Step(clean, s, a).outbox, i));
    }
  }

  lemma {:induction false} BlockedStays(
      clean: Cleaner, order: Order, s: State, actions: seq<Action>, id: int, i: nat)
    requires Inv(clean, s) && IsOpen(s, id) && Blocked(order, s, id, i)
    ensures
      var t := PagedFrom(clean, order, s, actions);
      id in t.submissions && t.submissions[id] == s.submissions[id]
    decreases |actions|
  {
    hide Inv, Step, InPage, Blocked;
    BlockedIsCurrent(order, s, id, i);
    if actions != [] {
      StepKeepsBlocked(clean, order, s, actions[0], id, i);
      StepInv(clean, s, actions[0]);
      BlockedIsCurrent(order, PagedStep(clean, order, s, actions[0]), id, i);
      BlockedStays(clean, order, PagedStep(clean, order, s, actions[0]), actions[1..], id, i);
    }
  }

  lemma BlockedIsCurrent(order: Order, s: State, id: int, i: nat)
    requires Blocked(order, s, id, i)
    ensures id in s.submissions
  {}

  // ---- Within reach ----

  /** The first live record at or ahead of one. */
  lemma {:induction false} FirstLive(order: Order, outbox: seq<OutboxMessage>, i: nat) returns (j: nat)
    requires Live(outbox, i)
    ensures Live(outbox, j) && LiveAhead(order, outbox, j) == {} && (j == i || order(j) < order(i))
    decreases |LiveAhead(order, outbox, i)|
  {
    j := i;
    if LiveAhead(order, outbox, i) != {} {
      var k :| k in LiveAhead(order, outbox, i);
      assert LiveAhead(order, outbox, k) <= LiveAhead(order, outbox, i) - {k};
      SubsetSize(LiveAhead(order, outbox, k), LiveAhead(order, outbox, i) - {k});
      j := FirstLive(order, outbox, k);
    }
  }

  /** With less than a page of dead records ahead, the first live record is in the page. */
  lemma FirstLiveInPage(order: Order, outbox: seq<OutboxMessage>, i: nat, j: nat)
    requires Live(outbox, j) && LiveAhead(order, outbox, j) == {} && (j == i || order(j) < order(i))
    requires |DeadAhead(order, outbox, i)| < 100
    ensures InPage(order, outbox, j)
  {
    forall k | k in Ahead(order, outbox, j) ensures k in DeadAhead(order, outbox, i) {
      assert k !in LiveAhead(order, outbox, j);
    }
    SubsetSize(Ahead(order, outbox, j), DeadAhead(order, outbox, i));
  }

  /** Sending and marking a live record leaves the dead as they are and one live record less. */
  lemma SentIsGone(order: Order, s: State, j: nat, i: nat)
    requires Live(s.outbox, j)
    ensures
      var t := Relay(s, j, true, true);
      && DeadAhead(order, t.outbox, i) == DeadAhead(order, s.outbox, i)
      && LiveAhead(order, t.outbox, i) == LiveAhead(order, s.outbox, i) - {j}
      && (i != j && Live(s.outbox, i) ==> Live(t.outbox, i) && t.outbox[i].job == s.outbox[i].job)
      && s.outbox[j].job in t.jobs && t.submissions == s.submissions
  {
    var t := Relay(s, j, true, true);
    assert t.jobs[|s.jobs|] == s.outbox[j].job;
  }

  /** Sending and marking the live records ahead of it, first ones first, and then the record itself. */
  lemma {:induction false} SendUpTo(clean: Cleaner, order: Order, s: State, i: nat) returns (actions: seq<Action>)
    requires Live(s.outbox, i) && |DeadAhead(order, s.outbox, i)| < 100
    ensures
      var t := PagedFrom(clean, order, s, actions);
      s.outbox[i].job in t.jobs && t.submissions == s.submissions
    decreases |LiveAhead(order, s.outbox, i)|
  {
    hide PagedFrom, Live, InPage, DeadAhead, LiveAhead, Relay;
    var j := FirstLive(order, s.outbox, i);
    FirstLiveInPage(order, s.outbox, i, j);
    var send, t := RelayOne(j, true, true), Relay(s, j, true, true);
    PagedOne(clean, order, s, send);
    SentIsGone(order, s, j, i);
    actions := [send];
    if j != i {
      LiveAheadHas(order, s.outbox, i, j);
      var rest := SendUpTo(clean, order, t, i);
      PagedConcat(clean, order, s, [send], rest);
      actions := [send] + rest;
    }
  }

  lemma LiveAheadHas(order: Order, outbox: seq<OutboxMessage>, i: nat, j: nat)
    requires Live(outbox, j) && order(j) < order(i)
    ensures j in LiveAhead(order, outbox, i)
    ensures |LiveAhead(order, outbox, i) - {j}| < |LiveAhead(order, outbox, i)|
  {}

  lemma PagedAnswers(clean: Cleaner, order: Order, s: State, i: nat, report: Report, j: nat)
    ensures
      var actions := [JudgeOne(i, report), DeliverOne(j, true)];
      PagedFrom(clean, order, s, actions) == RunFrom(clean, s, actions)
  {
    hide Step, RunFrom, PagedFrom;
    var a, b := JudgeOne(i, report), DeliverOne(j, true);
    assert [a] + [b] == [a, b];
    RunFirst(clean, s, a, [b]);
    RunFirst(clean, Step(clean, s, a), b, []);
    PagedConcat(clean, order, s, [a], [b]);
    PagedOne(clean, order, s, a);
    PagedOne(clean, order, Step(clean, s, a), b);
  }

  /** An open submission that is not out of reach can still get a verdict. */
  lemma ReachCompletes(clean: Cleaner, order: Order, s: State, id: int) returns (after: seq<Action>)
    requires Inv(clean, s) && IsOpen(s, id) && !OutOfReach(order, s, id)
    ensures
      var t := PagedFrom(clean, order, s, after);
      id in t.submissions && IsTerminal(t.submissions[id].status)
  {
    hide Inv, PagedFrom, RunFrom, DeadAhead;
    var i := RecordOf(clean, s, id);
    var send: seq<Action> := [];
    RunsNothing(clean, order, s);
    if s.outbox[i].job !in s.jobs {
      assert !Blocked(order, s, id, i);
      send := SendUpTo(clean, order, s, i);
    }
    var t := PagedFrom(clean, order, s, send);
    PagedInv(clean, order, s, send);
    var j :| 0 <= j < |t.jobs| && t.jobs[j] == s.outbox[i].job;
    var answer := [JudgeOne(j, ACCEPTING), DeliverOne(|t.results|, true)];
    SentCompletes(clean, t, id, j);
    PagedAnswers(clean, order, t, j, ACCEPTING, |t.results|);
    PagedConcat(clean, order, s, send, answer);
    after := send + answer;
  }

  lemma RunsNothing(clean: Cleaner, order: Order, s: State)
    ensures PagedFrom(clean, order, s, []) == s
  {}

  /** With the relay's page of a hundred and any fixed order of the rows, in every run an open submission is out of
      reach of any verdict exactly when its job was never sent and its record was given up or comes after a hundred
      given-up records: then it stays as it is in every continuation, and otherwise some continuation completes it. */
  lemma OutOfReachExactly(clean: Cleaner, order: Order, before: seq<Action>, id: int)
    ensures
      var s := PagedRun(clean, order, before);
      IsOpen(s, id) ==>
        && (OutOfReach(order, s, id) ==> forall after :: var t := PagedFrom(clean, order, s, after);
              id in t.submissions && t.submissions[id] == s.submissions[id])
        && (!OutOfReach(order, s, id) ==> exists after :: var t := PagedFrom(clean, order, s, after);
              id in t.submissions && IsTerminal(t.submissions[id].status))
  {
    hide Inv, PagedFrom, Blocked;
    EmptyInv(clean);
    PagedInv(clean, order, EMPTY, before);
    var s := PagedRun(clean, order, before);
    if IsOpen(s, id) {
      if OutOfReach(order, s, id) {
        var i: nat :| Blocked(order, s, id, i);
        forall after
          ensures
            var t := PagedFrom(clean, order, s, after); id in t.submissions && t.submissions[id] == s.submissions[id]
        {
          BlockedStays(clean, order, s, after, id, i);
        }
      } else {
        var after := ReachCompletes(clean, order, s, id);
      }
    }
  }

  // ---- An outage fills the page ----

  lemma PagedFailures(clean: Cleaner, order: Order, s: State, j: nat, n: nat)
    requires InPage(order, s.outbox, j) && s.outbox[j].retryCount + n <= MAX_PUBLISH_RETRIES
    ensures PagedFrom(clean, order, s, Failures(j, n)) ==
            s.(outbox := s.outbox[j := s.outbox[j].(retryCount := s.outbox[j].retryCount + n)])
    decreases n
  {
    hide PagedFrom, InPage, Ahead;
    InPageIsPending(order, s.outbox, j);
    if n == 0 {
      RunsNothing(clean, order, s);
      assert s.outbox[j := s.outbox[j].(retryCount := s.outbox[j].retryCount + 0)] == s.outbox;
    } else {
      var fail, t := RelayOne(j, false, true), Relay(s, j, false, true);
      PagedOne(clean, order, s, fail);
      FailureKeepsPage(order, s, j);
      PagedFailures(clean, order, t, j, n - 1);
      PagedConcat(clean, order, s, [fail], Failures(j, n - 1));
    }
  }

  lemma InPageIsPending(order: Order, outbox: seq<OutboxMessage>, j: nat)
    requires InPage(order, outbox, j)
    ensures Pending(outbox, j)
  {}

  lemma FailureKeepsPage(order: Order, s: State, j: nat)
    requires InPage(order, s.outbox, j)
    ensures InPage(order, Relay(s, j, false, true).outbox, j)
  {
    assert Ahead(order, Relay(s, j, false, true).outbox, j) == Ahead(order, s.outbox, j);
  }

  /** A live record that dies. */
  lemma DyingAhead(order: Order, outbox: seq<OutboxMessage>, i: nat, j: nat)
    requires Live(outbox, j)
    ensures
      var later := outbox[j := outbox[j].(retryCount := MAX_PUBLISH_RETRIES)];
      && Ahead(order, later, i) == Ahead(order, outbox, i)
      && LiveAhead(order, later, i) == LiveAhead(order, outbox, i) - {j}
  {}

  lemma SomeLiveAhead(order: Order, outbox: seq<OutboxMessage>, i: nat) returns (j: nat)
    requires |DeadAhead(order, outbox, i)| < 100 <= |Ahead(order, outbox, i)|
    ensures Live(outbox, j) && order(j) < order(i)
  {
    if LiveAhead(order, outbox, i) == {} {
      forall k | k in Ahead(order, outbox, i) ensures k in DeadAhead(order, outbox, i) {
        assert k !in LiveAhead(order, outbox, i);
      }
      SubsetSize(Ahead(order, outbox, i), DeadAhead(order, outbox, i));
      assert false;
    }
    j :| j in LiveAhead(order, outbox, i);
  }

  /** The relay fails to send anything. */
  predicate OnlyFailures(actions: seq<Action>) {
    forall k :: 0 <= k < |actions| ==> actions[k].RelayOne? && !actions[k].sent
  }

  lemma {:induction false} FailuresFail(j: nat, n: nat)
    ensures OnlyFailures(Failures(j, n))
  {
    if n > 0 {
      FailuresFail(j, n - 1);
    }
  }

  /** Failures alone give up a whole page of the records that come before one. */
  lemma {:induction false} FillPage(clean: Cleaner, order: Order, s: State, i: nat) returns (actions: seq<Action>)
    requires i < |s.outbox| && |Ahead(order, s.outbox, i)| >= 100
    ensures OnlyFailures(actions)
    ensures
      var t := PagedFrom(clean, order, s, actions);
      && t == s.(outbox := t.outbox) && |t.outbox| == |s.outbox| && t.outbox[i] == s.outbox[i]
      && |DeadAhead(order, t.outbox, i)| >= 100
    decreases |LiveAhead(order, s.outbox, i)|
  {
    hide PagedFrom, InPage, DeadAhead, LiveAhead, Ahead, Failures;
    if |DeadAhead(order, s.outbox, i)| >= 100 {
      RunsNothing(clean, order, s);
      actions := [];
    } else {
      var k := SomeLiveAhead(order, s.outbox, i);
      var j := FirstLive(order, s.outbox, k);
      FirstLiveInPage(order, s.outbox, i, j);
      var n := MAX_PUBLISH_RETRIES - s.outbox[j].retryCount;
      PagedFailures(clean, order, s, j, n);
      FailuresFail(j, n);
      DyingAhead(order, s.outbox, i, j);
      LiveAheadHas(order, s.outbox, i, j);
      var t := PagedFrom(clean, order, s, Failures(j, n));
      var rest := FillPage(clean, order, t, i);
      PagedConcat(clean, order, s, Failures(j, n), rest);
      actions := Failures(j, n) + rest;
    }
  }

  lemma NotStranded(clean: Cleaner, s: State, id: int, i: nat)
    requires Inv(clean, s) && Unsent(s, id, i) && s.outbox[i].retryCount < 5
    ensures !Stranded(s, id)
  {
    hide Explained, Notified, NoLeftovers, Linked, Sent, AllGenuine, Committed, Sourced;
  }

  /** One outage of the broker is enough: in every run, an open submission whose unsent record comes after a page of
      pending records falls out of reach by failures of the records before it alone, without a single failure
      of its own. */
  lemma OutageStarves(clean: Cleaner, order: Order, before: seq<Action>, id: int, i: nat) returns (after: seq<Action>)
    requires
      var s := PagedRun(clean, order, before);
      IsOpen(s, id) && Unsent(s, id, i) && |Ahead(order, s.outbox, i)| >= 100
    ensures OnlyFailures(after)
    ensures
      var s := PagedRun(clean, order, before);
      var t := PagedFrom(clean, order, s, after);
      && OutOfReach(order, t, id) && |t.outbox| == |s.outbox| && t.outbox[i] == s.outbox[i]
      && (s.outbox[i].retryCount < 5 ==> !Stranded(t, id))
  {
    hide Inv, PagedFrom, DeadAhead, Ahead, Stranded;
    var s := PagedRun(clean, order, before);
    EmptyInv(clean);
    PagedInv(clean, order, EMPTY, before);
    after := FillPage(clean, order, s, i);
    var t := PagedFrom(clean, order, s, after);
    PagedInv(clean, order, s, after);
    assert Blocked(order, t, id, i);
    if s.outbox[i].retryCount < 5 {
      NotStranded(clean, t, id, i);
    }
  }

  // ---- The shortest such run ----

  const INSERTION: Order := (i: nat) => i

  function Name(n: nat): string {
    seq(n, _ => 'a')
  }

  /** Submissions 1 to n. */
  function Crowd(work: Work, n: nat): seq<Action> {
    if n == 0 then [] else Crowd(work, n - 1) + [SubmitWork(work, Name(n))]
  }

  /** They wait in the outbox, and the last of them is submission n. */
  ghost predicate Waiting(s: State, n: nat) {
    && |s.outbox| == n && s.nextId == n + 1 && s.jobs == []
    && (forall a :: a in s.attempts ==> |a| <= n)
    && (forall k :: 0 <= k < n ==> !s.outbox[k].published && s.outbox[k].retryCount == 0)
    && (n > 0 ==> IsOpen(s, n) && s.submissions[n].currentAttemptId == s.outbox[n - 1].job.attemptId)
  }

  lemma NameTrimmed(n: nat)
    requires n >= 1
    ensures TrimSpace(Name(n)) == Name(n)
  {
    hide TrimSpace;
    TrimSpaceTrims(Name(n));
  }

  lemma OneMoreWaits(clean: Cleaner, s: State, work: Work, n: nat)
    requires n >= 1 && Waiting(s, n - 1)
    ensures Waiting(Step(clean, s, SubmitWork(work, Name(n))), n)
  {
    hide TrimSpace, NewAttempt;
    NameTrimmed(n);
  }

  lemma {:induction false} CrowdWaits(clean: Cleaner, order: Order, work: Work, n: nat)
    ensures Waiting(PagedRun(clean, order, Crowd(work, n)), n)
  {
    hide PagedFrom, Step, Name;
    if n == 0 {
      RunsNothing(clean, order, EMPTY);
    } else {
      CrowdWaits(clean, order, work, n - 1);
      var s, a := PagedRun(clean, order, Crowd(work, n - 1)), SubmitWork(work, Name(n));
      OneMoreWaits(clean, s, work, n);
      PagedConcat(clean, order, EMPTY, Crowd(work, n - 1), [a]);
      PagedOne(clean, order, s, a);
    }
  }

  function Below(n: nat): (r: set<nat>)
    ensures |r| == n && forall j: nat :: j in r <==> j < n
  {
    if n == 0 then {} else Below(n - 1) + {n - 1}
  }

  /** More than a hundred submissions wait, and sends fail five times each. Then the last one, though never tried, is
      out of reach. */
  lemma CrowdStarves(clean: Cleaner, work: Work, n: nat) returns (after: seq<Action>)
    requires n > 100
    ensures OnlyFailures(after)
    ensures
      var t := PagedFrom(clean, INSERTION, PagedRun(clean, INSERTION, Crowd(work, n)), after);
      && OutOfReach(INSERTION, t, n) && !Stranded(t, n)
      && |t.outbox| == n && t.outbox[n - 1].retryCount == 0
  {
    hide PagedFrom, Crowd, OutOfReach, Stranded, Waiting, Ahead;
    CrowdWaits(clean, INSERTION, work, n);
    LastWaits(PagedRun(clean, INSERTION, Crowd(work, n)), n);
    after := OutageStarves(clean, INSERTION, Crowd(work, n), n, n - 1);
  }

  lemma LastWaits(s: State, n: nat)
    requires n >= 1 && Waiting(s, n)
    ensures IsOpen(s, n) && Unsent(s, n, n - 1) && s.outbox[n - 1].retryCount == 0 && |s.outbox| == n
    ensures |Ahead(INSERTION, s.outbox, n - 1)| == n - 1
  {
    assert Ahead(INSERTION, s.outbox, n - 1) == Below(n - 1);
  }
}

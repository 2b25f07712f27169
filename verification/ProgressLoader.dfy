/** Loading a user's submission history page by page, and the cache of the load. */
module ProgressLoader {
  import opened Verdicts
  import opened Arithmetic

  const MAX_PAGES := 10
  const PAGE_SIZE := 100
  const TTL_MS := 60_000

  datatype Item = Item(problemId: int, status: Status)

  datatype Progress = Progress(submissions: seq<Item>, solvedIds: set<int>, attemptedIds: set<int>, truncated: bool)

  /** What the service answers for a page of a history: its items and the number of pages. */
  function TotalPages(n: nat): nat {
    if n > 0 then (n + PAGE_SIZE - 1) / PAGE_SIZE else 0
  }

  function Page(history: seq<Item>, page: nat): seq<Item>
    requires page >= 1
  {
    history[Min((page - 1) * PAGE_SIZE, |history|)..Min(page * PAGE_SIZE, |history|)]
  }

  /** The page loop. */
  method LoadPages(history: seq<Item>) returns (submissions: seq<Item>, truncated: bool, fetched: nat)
    ensures fetched == Max(1, Min(10, (|history| + 99) / 100))
    ensures submissions == history[..Min(|history|, 1000)]
    ensures truncated <==> |history| > 1000
  {
    submissions, truncated, fetched := [], false, 0;
    var page := 1;
    while page <= MAX_PAGES
      invariant 1 <= page <= MAX_PAGES + 1
      invariant fetched == page - 1
      invariant page > 1 ==> page - 1 < TotalPages(|history|)
      invariant submissions == history[..Min((page - 1) * PAGE_SIZE, |history|)]
      invariant truncated <==> page == MAX_PAGES + 1
    {
      var items := Page(history, page);
      fetched := fetched + 1;
      assert history[..Min((page - 1) * PAGE_SIZE, |history|)] + items == history[..Min(page * PAGE_SIZE, |history|)];
      submissions := submissions + items;
      if page >= TotalPages(|history|) {
        break;
      }
      if page == MAX_PAGES {
        truncated := true;
      }
      page := page + 1;
    }
  }

  /** The ids derived from the items in one loop. */
  method DeriveIds(submissions: seq<Item>) returns (solvedIds: set<int>, attemptedIds: set<int>)
    ensures attemptedIds == set i | 0 <= i < |submissions| :: submissions[i].problemId
    ensures solvedIds == set i | 0 <= i < |submissions| && submissions[i].status == Accepted :: submissions[i].problemId
  {
    solvedIds, attemptedIds := {}, {};
    for k := 0 to |submissions|
      invariant attemptedIds == set i | 0 <= i < k :: submissions[i].problemId
      invariant solvedIds == set i | 0 <= i < k && submissions[i].status == Accepted :: submissions[i].problemId
    {
      attemptedIds := attemptedIds + {submissions[k].problemId};
      if submissions[k].status == Accepted {
        solvedIds := solvedIds + {submissions[k].problemId};
      }
    }
  }

  /** The loader fetches max(1, min(10, ceil(n / 100))) pages, returns the first min(n, 1000) items in order, reports
      truncation exactly beyond 1000 items, and derives both id sets exactly from what it returns. */
  method LoadProgress(history: seq<Item>) returns (progress: Progress, fetched: nat)
    ensures fetched == Max(1, Min(10, (|history| + 99) / 100))
    ensures progress.submissions == history[..Min(|history|, 1000)]
    ensures progress.truncated <==> |history| > 1000
    ensures
      var items := history[..Min(|history|, 1000)];
      && progress.attemptedIds == (set i | 0 <= i < |items| :: items[i].problemId)
      && progress.solvedIds == (set i | 0 <= i < |items| && items[i].status == Accepted :: items[i].problemId)
  {
    var submissions, truncated, count := LoadPages(history);
    var solvedIds, attemptedIds := DeriveIds(submissions);
    progress, fetched := Progress(submissions, solvedIds, attemptedIds, truncated), count;
  }

  // ---- The cache ----

  /** A cached load: when it was started, and which load it is. */
  datatype Cached = Cached(at: int, load: nat)

  /** The cache, when each load was started, and the loads whose failure was delivered. */
  datatype State = State(cache: Option<Cached>, started: seq<int>, failed: set<nat>)

  datatype Call = Fetch(force: bool, now: int) | Failure(load: nat) | Invalidate

  predicate Fresh(s: State, now: int) {
    s.cache.Some? && now - s.cache.value.at < TTL_MS
  }

  /** The load a fetch hands out. */
  function Served(s: State, force: bool, now: int): nat {
    if !force && Fresh(s, now) then s.cache.value.load else |s.started|
  }

  /** A failing load clears the cache whatever it holds; loads not yet started cannot fail. */
  function Step(s: State, c: Call): State {
    match c
    case Fetch(force, now) =>
      if !force && Fresh(s, now) then s
      else s.(cache := Some(Cached(now, |s.started|)), started := s.started + [now])
    case Failure(load) => if load < |s.started| then s.(cache := None, failed := s.failed + {load}) else s
    case Invalidate => s.(cache := None)
  }

  function RunFrom(s: State, calls: seq<Call>): State
    decreases |calls|
  {
    if calls == [] then s else RunFrom(Step(s, calls[0]), calls[1..])
  }

  const INITIAL := State(None, [], {})

  class ProgressCache {
    var progressCache: Option<Cached>
    var nextLoad: nat
    ghost var started: seq<int>
    ghost var failed: set<nat>

    ghost predicate Valid()
      reads this
    {
      nextLoad == |started|
    }

    ghost function Snapshot(): State
      reads this
    {
      State(progressCache, started, failed)
    }

    constructor ()
      ensures Valid() && Snapshot() == INITIAL
    {
      progressCache, nextLoad, started, failed := None, 0, [], {};
    }

    method FetchProgress(force: bool, now: int) returns (load: nat)
      requires Valid()
      modifies this
      ensures Valid() && load == Served(old(Snapshot()), force, now)
      ensures Snapshot() == Step(old(Snapshot()), Fetch(force, now))
    {
      var recent := progressCache.Some? && now - progressCache.value.at < TTL_MS;
      if !force && recent {
        return progressCache.value.load;
      }
      load := nextLoad;
      nextLoad := nextLoad + 1;
      started := started + [now];
      progressCache := Some(Cached(now, load));
    }

    method LoadFailed(load: nat)
      requires Valid() && load < nextLoad
      modifies this
      ensures Valid() && Snapshot() == Step(old(Snapshot()), Failure(load))
    {
      progressCache := None;
      failed := failed + {load};
    }

    method InvalidateProgress()
      requires Valid()
      modifies this
      ensures Valid() && Snapshot() == Step(old(Snapshot()), Invalidate)
    {
      progressCache := None;
    }
  }

  /** The cache holds a started load, with its start time, that has not failed and is no older than a bound. */
  predicate Clean(s: State, since: nat) {
    && since <= |s.started|
    && (forall l :: l in s.failed ==> l < |s.started|)
    && (s.cache.Some? ==>
          && since <= s.cache.value.load < |s.started| && s.cache.value.load !in s.failed
          && s.started[s.cache.value.load] == s.cache.value.at)
  }

  lemma {:induction false} RunClean(s: State, calls: seq<Call>, since: nat)
    requires Clean(s, since)
    ensures Clean(RunFrom(s, calls), since)
    decreases |calls|
  {
    if calls != [] {
      RunClean(Step(s, calls[0]), calls[1..], since);
    }
  }

  /** Whatever the order of fetches, failures and invalidations, a fetch is served a new load exactly when it is forced
      or the cache holds nothing that was started less than a minute ago; otherwise it is served the cached load,
      whose failure was not delivered. */
  lemma ServesRecentHealthyLoad(calls: seq<Call>, force: bool, now: int)
    ensures
      var s := RunFrom(INITIAL, calls); var load := Served(s, force, now);
      && load !in s.failed
      && (load == |s.started| <==> force || s.cache == None || now - s.cache.value.at >= 60_000)
      && (load != |s.started| ==>
            s.cache.Some? && load == s.cache.value.load < |s.started| && now - s.started[load] < 60_000)
  {
    RunClean(INITIAL, calls, 0);
  }

  /** After an invalidation every fetch is served a load started after it, until the end of the session. */
  lemma InvalidationIsFinal(before: seq<Call>, after: seq<Call>, force: bool, now: int)
    ensures
      var s := RunFrom(INITIAL, before);
      |s.started| <= Served(RunFrom(Step(s, Invalidate), after), force, now)
  {
    var s := RunFrom(INITIAL, before);
    RunClean(INITIAL, before, 0);
    RunClean(Step(s, Invalidate), after, |s.started|);
  }

  // ---- How long a load stays cached ----

  /** The calls that take the cached load away: an invalidation, the failure of any started load, and a fetch
      that is forced or comes too late. */
  predicate Disturbs(s: State, c: Call) {
    match c
    case Fetch(force, now) => force || s.cache == None || now - s.cache.value.at >= 60_000
    case Failure(load) => load < |s.started|
    case Invalidate => true
  }

  /** The load is not cached, and its number is taken: it cannot come back. */
  predicate Gone(s: State, load: nat) {
    load < |s.started| && (s.cache.Some? ==> s.cache.value.load != load)
  }

  lemma {:induction false} GoneForGood(s: State, calls: seq<Call>, load: nat)
    requires Gone(s, load)
    ensures Gone(RunFrom(s, calls), load)
    decreases |calls|
  {
    if calls != [] {
      GoneForGood(Step(s, calls[0]), calls[1..], load);
    }
  }

  lemma {:induction false} KeptExactly(s: State, calls: seq<Call>)
    requires Clean(s, 0) && s.cache.Some?
    ensures RunFrom(s, calls).cache == s.cache <==> forall k :: 0 <= k < |calls| ==> !Disturbs(s, calls[k])
    ensures RunFrom(s, calls).cache == s.cache || Gone(RunFrom(s, calls), s.cache.value.load)
    decreases |calls|
  {
    if calls != [] {
      var t := Step(s, calls[0]);
      if Disturbs(s, calls[0]) {
        GoneForGood(t, calls[1..], s.cache.value.load);
      } else {
        KeptExactly(s, calls[1..]);
        assert forall k :: 1 <= k < |calls| ==> calls[k] == calls[1..][k - 1];
      }
    }
  }

  /** In every run the cached load stays cached through further calls exactly when none of them disturbs it, and
      otherwise it is never served again. Each call is judged against the state before them all. */
  lemma CachedLoadSurvivesExactly(before: seq<Call>, calls: seq<Call>)
    ensures
      var s := RunFrom(INITIAL, before);
      s.cache.Some? ==>
        var t, load := RunFrom(s, calls), s.cache.value.load;
        && (t.cache == s.cache <==> forall k :: 0 <= k < |calls| ==> !Disturbs(s, calls[k]))
        && (t.cache != s.cache ==> forall force, now :: Served(t, force, now) != load)
  {
    RunClean(INITIAL, before, 0);
    if RunFrom(INITIAL, before).cache.Some? {
      KeptExactly(RunFrom(INITIAL, before), calls);
    }
  }

  /** The failure of an older load also drops a newer, healthy one from the cache. */
  lemma OldFailureDropsNewLoad()
    ensures
      var s := RunFrom(INITIAL, [Fetch(false, 0), Fetch(true, 1)]);
      s.cache == Some(Cached(1, 1)) && RunFrom(s, [Failure(0)]).cache == None
  {
    var calls := [Fetch(false, 0), Fetch(true, 1)];
    assert calls[1..] == [Fetch(true, 1)];
    assert RunFrom(INITIAL, calls) == Step(Step(INITIAL, calls[0]), calls[1]);
  }
}

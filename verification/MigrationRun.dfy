/** The explicitly invoked migration over all problems, with other writers around it. */
module MigrationRun {
  import opened Verdicts
  import opened GoText
  import opened FormatBackfill
  import BackfillLaws
  import Lines

  datatype Problem = Problem(id: int, description: string, inputFormat: string, outputFormat: string)

  datatype Counters = Counters(
    scanned: nat, migrated: nat, populated: nat, noHeaders: nat, ambiguous: nat, emptyPart: nat, concurrent: nat)
  {
    function Skipped(): nat {
      populated + noHeaders + ambiguous + emptyPart + concurrent
    }
  }

  datatype Reason = AlreadyPopulated | NotSplit(why: Why) | ChangedConcurrently

  datatype LogLine = Skip(id: int, reason: Reason) | Ready(id: int) | Migrated(id: int)

  /** What happens around one row of the run: rows written by others before it, and whether the update fails. */
  datatype Around = Around(others: map<int, Problem>, fails: bool)

  datatype Progress = Progress(rows: map<int, Problem>, result: Counters, log: seq<LogLine>, failed: bool)

  predicate Populated(p: Problem) {
    TrimSpace(p.inputFormat) != "" || TrimSpace(p.outputFormat) != ""
  }

  /** The decision on a listed row, before anything is written. */
  function Decision(p: Problem): SplitResult {
    SplitLegacy(p.description)
  }

  predicate IsReady(p: Problem) {
    !Populated(p) && Decision(p).Parts?
  }

  /** UpdateFormatsForBackfill: the row changes only while both formats are the empty string. */
  predicate Updatable(rows: map<int, Problem>, id: int) {
    id in rows && rows[id].inputFormat == "" && rows[id].outputFormat == ""
  }

  function WithParts(p: Problem, r: SplitResult): Problem
    requires r.Parts?
  {
    p.(description := r.description, inputFormat := r.input, outputFormat := r.output)
  }

  function CountRefusal(c: Counters, why: Why): Counters {
    match why
    case NoHeadings => c.(noHeaders := c.noHeaders + 1)
    case EmptyPart => c.(emptyPart := c.emptyPart + 1)
    case _ => c.(ambiguous := c.ambiguous + 1)
  }

  /** One row of the run. */
  function Advance(s: Progress, p: Problem, apply: bool, a: Around): Progress {
    var rows := s.rows + a.others;
    if s.failed then s
    else if Populated(p) then
      s.(rows := rows, result := s.result.(populated := s.result.populated + 1),
         log := s.log + [Skip(p.id, AlreadyPopulated)])
    else match Decision(p)
      case Refused(why) =>
        s.(rows := rows, result := CountRefusal(s.result, why), log := s.log + [Skip(p.id, NotSplit(why))])
      case Parts(_, _, _) =>
        if !apply then s.(rows := rows, log := s.log + [Ready(p.id)])
        else if a.fails then s.(rows := rows, failed := true)
        else if !Updatable(rows, p.id) then
          s.(rows := rows, result := s.result.(concurrent := s.result.concurrent + 1),
             log := s.log + [Skip(p.id, ChangedConcurrently)])
        else
          s.(rows := rows[p.id := WithParts(rows[p.id], Decision(p))],
             result := s.result.(migrated := s.result.migrated + 1), log := s.log + [Migrated(p.id)])
  }

  function RunOver(s: Progress, problems: seq<Problem>, apply: bool, around: seq<Around>): Progress
    requires |around| == |problems|
    decreases |problems|
  {
    if problems == [] then s
    else RunOver(Advance(s, problems[0], apply, around[0]), problems[1..], apply, around[1..])
  }

  function Begin(rows: map<int, Problem>, scanned: nat): Progress {
    Progress(rows, Counters(scanned, 0, 0, 0, 0, 0, 0), [], false)
  }

  // ---- The run as the source writes it ----

  class FormatRepository {
    var rows: map<int, Problem>

    method UpdateFormatsForBackfill(id: int, description: string, inputFormat: string, outputFormat: string)
      returns (updated: bool)
      modifies this
      ensures updated == Updatable(old(rows), id)
      ensures !updated ==> rows == old(rows)
      ensures updated ==>
                rows == old(rows)[id := WithParts(old(rows)[id], Parts(description, inputFormat, outputFormat))]
      ensures updated ==>
                && id in rows && rows[id].description == description
                && rows[id].inputFormat == inputFormat && rows[id].outputFormat == outputFormat
    {
      if id !in rows || rows[id].inputFormat != "" || rows[id].outputFormat != "" {
        return false;
      }
      var row := rows[id].(description := description, inputFormat := inputFormat, outputFormat := outputFormat);
      rows := rows[id := row];
      return true;
    }
  }

  lemma {:induction false} RunOverSplit(s: Progress, problems: seq<Problem>, apply: bool, around: seq<Around>, n: nat)
    requires |around| == |problems| && n < |problems|
    ensures RunOver(s, problems[..n + 1], apply, around[..n + 1]) ==
            Advance(RunOver(s, problems[..n], apply, around[..n]), problems[n], apply, around[n])
    decreases n
  {
    hide Advance;
    if n == 0 {
      assert problems[..1][1..] == [] && around[..1][1..] == [];
    } else {
      var t := Advance(s, problems[0], apply, around[0]);
      RunOverSplit(t, problems[1..], apply, around[1..], n - 1);
      assert problems[..n + 1][1..] == problems[1..][..n] && around[..n + 1][1..] == around[1..][..n];
      assert problems[..n][1..] == problems[1..][..n - 1] && around[..n][1..] == around[1..][..n - 1];
    }
  }

  lemma FailedStays(s: Progress, problems: seq<Problem>, apply: bool, around: seq<Around>)
    requires |around| == |problems| && s.failed
    ensures RunOver(s, problems, apply, around) == s
    decreases |problems|
  {
    if problems != [] {
      FailedStays(s, problems[1..], apply, around[1..]);
    }
  }

  lemma {:induction false} RunOverFails(s: Progress, problems: seq<Problem>, apply: bool, around: seq<Around>, n: nat)
    requires |around| == |problems| && n <= |problems| && RunOver(s, problems[..n], apply, around[..n]).failed
    ensures RunOver(s, problems, apply, around) == RunOver(s, problems[..n], apply, around[..n])
    decreases |problems| - n
  {
    hide RunOver, Advance;
    if n == |problems| {
      assert problems[..n] == problems && around[..n] == around;
    } else {
      RunOverSplit(s, problems, apply, around, n);
      AdvanceFailed(RunOver(s, problems[..n], apply, around[..n]), problems[n], apply, around[n]);
      RunOverFails(s, problems, apply, around, n + 1);
    }
  }

  lemma AdvanceFailed(s: Progress, p: Problem, apply: bool, a: Around)
    requires s.failed
    ensures Advance(s, p, apply, a) == s
  {}

  method Run(repository: FormatRepository, problems: seq<Problem>, apply: bool, around: seq<Around>)
    returns (result: Counters, log: seq<LogLine>, failed: bool)
    requires |around| == |problems|
    modifies repository
    ensures Progress(repository.rows, result, log, failed) ==
            RunOver(Begin(old(repository.rows), |problems|), problems, apply, around)
  {
    hide SplitLegacy, Populated, CountRefusal, RunOver;
    result, log, failed := Counters(|problems|, 0, 0, 0, 0, 0, 0), [], false;
    ghost var start := Begin(repository.rows, |problems|);
    RunOverNothing(start, problems, apply, around);
    for k := 0 to |problems|
      invariant !failed
      invariant Progress(repository.rows, result, log, failed) == RunOver(start, problems[..k], apply, around[..k])
    {
      var problem := problems[k];
      RunOverSplit(start, problems, apply, around, k);
      repository.rows := repository.rows + around[k].others;
      if Populated(problem) {
        result := result.(populated := result.populated + 1);
        log := log + [Skip(problem.id, AlreadyPopulated)];
        continue;
      }
      var split := SplitLegacyDescription(problem.description);
      if split.Refused? {
        result := CountRefusal(result, split.why);
        log := log + [Skip(problem.id, NotSplit(split.why))];
        continue;
      }
      if !apply {
        log := log + [Ready(problem.id)];
        continue;
      }
      if around[k].fails {
        failed := true;
        RunOverFails(start, problems, apply, around, k + 1);
        return;
      }
      var updated := repository.UpdateFormatsForBackfill(problem.id, split.description, split.input, split.output);
      if !updated {
        result := result.(concurrent := result.concurrent + 1);
        log := log + [Skip(problem.id, ChangedConcurrently)];
        continue;
      }
      result := result.(migrated := result.migrated + 1);
      log := log + [Migrated(problem.id)];
    }
    assert problems[..|problems|] == problems && around[..|problems|] == around;
  }

  lemma RunOverNothing(s: Progress, problems: seq<Problem>, apply: bool, around: seq<Around>)
    requires |around| == |problems|
    ensures RunOver(s, problems[..0], apply, around[..0]) == s
  {}

  // ---- Accounting ----

  function ReadyIds(log: seq<LogLine>): seq<int> {
    if log == [] then []
    else ReadyIds(log[..|log| - 1]) + if log[|log| - 1].Ready? then [log[|log| - 1].id] else []
  }

  /** The rows the run tried to update: migrated, or found changed. */
  function TriedIds(log: seq<LogLine>): seq<int> {
    if log == [] then []
    else TriedIds(log[..|log| - 1]) +
         var l := log[|log| - 1]; if l.Migrated? || (l.Skip? && l.reason.ChangedConcurrently?) then [l.id] else []
  }

  function ReadyAmong(problems: seq<Problem>): seq<int> {
    if problems == [] then [] else (if IsReady(problems[0]) then [problems[0].id] else []) + ReadyAmong(problems[1..])
  }

  /** How a row moves the counters and the log, whatever others do. */
  lemma AdvanceCounts(s: Progress, p: Problem, apply: bool, a: Around)
    requires !s.failed
    ensures
      var t := Advance(s, p, apply, a);
      && t.result.scanned == s.result.scanned
      && (!t.failed ==>
            && t.result.migrated + t.result.Skipped() + |ReadyIds(t.log)| ==
                 s.result.migrated + s.result.Skipped() + |ReadyIds(s.log)| + 1
            && TriedIds(t.log) == TriedIds(s.log) + (if apply && IsReady(p) then [p.id] else [])
            && ReadyIds(t.log) == ReadyIds(s.log) + (if !apply && IsReady(p) then [p.id] else []))
      && (!apply ==> !t.failed && t.rows == s.rows + a.others)
  {
    hide SplitLegacy, Populated;
    var t := Advance(s, p, apply, a);
    if t.log != s.log {
      assert t.log[..|t.log| - 1] == s.log;
    }
  }

  /** Over a whole run that meets no error, every scanned row is migrated, skipped or reported ready, exactly once;
      an apply run tries exactly the ready rows and a dry run reports exactly them, in the listed order. */
  lemma {:induction false} RunCounts(s: Progress, problems: seq<Problem>, apply: bool, around: seq<Around>)
    requires |around| == |problems| && !s.failed && !RunOver(s, problems, apply, around).failed
    ensures
      var t := RunOver(s, problems, apply, around);
      && t.result.scanned == s.result.scanned
      && t.result.migrated + t.result.Skipped() + |ReadyIds(t.log)| ==
           s.result.migrated + s.result.Skipped() + |ReadyIds(s.log)| + |problems|
      && TriedIds(t.log) == TriedIds(s.log) + (if apply then ReadyAmong(problems) else [])
      && ReadyIds(t.log) == ReadyIds(s.log) + (if apply then [] else ReadyAmong(problems))
    decreases |problems|
  {
    hide Advance, IsReady, TriedIds, ReadyIds;
    if problems != [] {
      var t := Advance(s, problems[0], apply, around[0]);
      AdvanceCounts(s, problems[0], apply, around[0]);
      if t.failed {
        FailedStays(t, problems[1..], apply, around[1..]);
        assert false;
      }
      RunCounts(t, problems[1..], apply, around[1..]);
      var first, rest := if IsReady(problems[0]) then [problems[0].id] else [], ReadyAmong(problems[1..]);
      assert TriedIds(s.log) + first + rest == TriedIds(s.log) + (first + rest);
      assert ReadyIds(s.log) + first + rest == ReadyIds(s.log) + (first + rest);
    }
  }

  /** How many listed rows a decision covers. */
  function Count(problems: seq<Problem>, f: Problem -> bool): nat {
    if problems == [] then 0 else (if f(problems[0]) then 1 else 0) + Count(problems[1..], f)
  }

  predicate RefusedFor(p: Problem, whys: set<Why>) {
    !Populated(p) && Decision(p).Refused? && Decision(p).why in whys
  }

  const AMBIGUOUS := {MultipleInput, MultipleOutput, InputAfterOutput}

  lemma AdvanceTallies(s: Progress, p: Problem, apply: bool, a: Around)
    requires !s.failed
    ensures
      var t := Advance(s, p, apply, a);
      !t.failed ==>
        && t.result.populated == s.result.populated + (if Populated(p) then 1 else 0)
        && t.result.noHeaders == s.result.noHeaders + (if RefusedFor(p, {NoHeadings}) then 1 else 0)
        && t.result.emptyPart == s.result.emptyPart + (if RefusedFor(p, {EmptyPart}) then 1 else 0)
        && t.result.ambiguous == s.result.ambiguous + (if RefusedFor(p, AMBIGUOUS) then 1 else 0)
        && t.result.migrated + t.result.concurrent ==
             s.result.migrated + s.result.concurrent + (if apply && IsReady(p) then 1 else 0)
        && (!apply ==> t.result.migrated == s.result.migrated && t.result.concurrent == s.result.concurrent)
  {
    hide SplitLegacy, Populated;
  }

  /** Each counter of an error-free run is the number of listed rows with that decision: the ready rows of an apply
      run are migrated or found changed, and a dry run counts neither. */
  lemma {:induction false} RunTallies(s: Progress, problems: seq<Problem>, apply: bool, around: seq<Around>)
    requires |around| == |problems| && !s.failed
    ensures
      var t := RunOver(s, problems, apply, around);
      !t.failed ==>
        && t.result.populated == s.result.populated + Count(problems, p => Populated(p))
        && t.result.noHeaders == s.result.noHeaders + Count(problems, p => RefusedFor(p, {NoHeadings}))
        && t.result.emptyPart == s.result.emptyPart + Count(problems, p => RefusedFor(p, {EmptyPart}))
        && t.result.ambiguous == s.result.ambiguous + Count(problems, p => RefusedFor(p, AMBIGUOUS))
        && t.result.migrated + t.result.concurrent ==
             s.result.migrated + s.result.concurrent + (if apply then Count(problems, p => IsReady(p)) else 0)
        && (!apply ==> t.result.migrated == s.result.migrated && t.result.concurrent == s.result.concurrent)
    decreases |problems|
  {
    hide Advance, Populated, RefusedFor, IsReady;
    if problems != [] {
      var t := Advance(s, problems[0], apply, around[0]);
      AdvanceTallies(s, problems[0], apply, around[0]);
      if t.failed {
        FailedStays(t, problems[1..], apply, around[1..]);
      } else {
        RunTallies(t, problems[1..], apply, around[1..]);
      }
    }
  }

  /** An apply run without an error has Scanned = Migrated + Skipped. */
  lemma ApplyAccounts(rows: map<int, Problem>, problems: seq<Problem>, around: seq<Around>)
    requires |around| == |problems|
    ensures
      var end := RunOver(Begin(rows, |problems|), problems, true, around);
      !end.failed ==> end.result.scanned == end.result.migrated + end.result.Skipped()
  {
    hide RunOver, ReadyAmong;
    if !RunOver(Begin(rows, |problems|), problems, true, around).failed {
      RunCounts(Begin(rows, |problems|), problems, true, around);
      assert ReadyIds(Begin(rows, |problems|).log) == [];
    }
  }

  /** A dry run reports ready exactly the rows that an apply run over the same listing tries to update,
      whatever other writers do around either. */
  lemma DryRunPredicts(rows: map<int, Problem>, problems: seq<Problem>, dry: seq<Around>, wet: seq<Around>)
    requires |dry| == |wet| == |problems|
    ensures
      var end := RunOver(Begin(rows, |problems|), problems, true, wet);
      !end.failed ==> ReadyIds(RunOver(Begin(rows, |problems|), problems, false, dry).log) == TriedIds(end.log)
  {
    hide RunOver, ReadyAmong;
    var s := Begin(rows, |problems|);
    if !RunOver(s, problems, true, wet).failed {
      DryRunWritesNothing(s, problems, dry);
      RunCounts(s, problems, false, dry);
      RunCounts(s, problems, true, wet);
      assert ReadyIds(s.log) == [] && TriedIds(s.log) == [];
    }
  }

  /** Everything others wrote, in order. */
  function WrittenByOthers(rows: map<int, Problem>, around: seq<Around>): map<int, Problem>
    decreases |around|
  {
    if around == [] then rows else WrittenByOthers(rows + around[0].others, around[1..])
  }

  /** A dry run never fails and never writes: the rows end as the other writers left them. */
  lemma {:induction false} DryRunWritesNothing(s: Progress, problems: seq<Problem>, around: seq<Around>)
    requires |around| == |problems| && !s.failed
    ensures
      var t := RunOver(s, problems, false, around);
      !t.failed && t.rows == WrittenByOthers(s.rows, around)
    decreases |problems|
  {
    hide Advance, TriedIds, ReadyIds, IsReady;
    if problems != [] {
      AdvanceCounts(s, problems[0], false, around[0]);
      DryRunWritesNothing(Advance(s, problems[0], false, around[0]), problems[1..], around[1..]);
    }
  }

  // ---- A second run ----

  predicate Quiet(around: seq<Around>) {
    forall k :: 0 <= k < |around| ==> around[k] == Around(map[], false)
  }

  function Ids(problems: seq<Problem>): set<int> {
    if problems == [] then {} else {problems[0].id} + Ids(problems[1..])
  }

  predicate Distinct(problems: seq<Problem>) {
    problems != [] ==> problems[0].id !in Ids(problems[1..]) && Distinct(problems[1..])
  }

  /** The listed rows as they stand in the table. */
  predicate Agrees(problems: seq<Problem>, rows: map<int, Problem>) {
    forall k :: 0 <= k < |problems| ==> problems[k].id in rows && rows[problems[k].id] == problems[k]
  }

  /** The listing: every row once, as it stands. */
  predicate Lists(problems: seq<Problem>, rows: map<int, Problem>) {
    Distinct(problems) && Agrees(problems, rows) && Ids(problems) == rows.Keys
  }

  lemma {:induction false} NotAmong(problems: seq<Problem>, id: int, k: nat)
    requires id !in Ids(problems) && k < |problems|
    ensures problems[k].id != id
  {
    if k > 0 {
      NotAmong(problems[1..], id, k - 1);
    }
  }

  /** Nothing is left to do for a row. */
  predicate Settled(p: Problem) {
    !(IsReady(p) && p.inputFormat == "" && p.outputFormat == "")
  }

  /** Ready by the run's own test, which trims the formats, but not by the update's condition, which does not. */
  predicate Stuck(p: Problem) {
    IsReady(p) && Settled(p)
  }

  function Migrate(p: Problem): Problem {
    if Settled(p) then p else WithParts(p, Decision(p))
  }

  lemma MigrateSettles(p: Problem)
    ensures Settled(Migrate(p)) && Migrate(p).id == p.id
  {
    hide SplitLegacy, Populated, TrimSpace;
    if !Settled(p) {
      PartsNonEmpty(p.description);
    }
  }

  lemma PartsNonEmpty(description: string)
    requires SplitLegacy(description).Parts?
    ensures
      var r := SplitLegacy(description);
      r.description != "" && r.input != "" && r.output != ""
  {
    hide PartsAt, Marks, LegacyLines;
    var lines := LegacyLines(description);
    var marks := Marks(Kinds(lines));
    PartsAtNonEmpty(lines, marks[0].0, marks[1].0);
  }

  lemma PartsAtNonEmpty(lines: seq<string>, i: nat, j: nat)
    requires i < j < |lines| && PartsAt(lines, i, j).Parts?
    ensures
      var r := PartsAt(lines, i, j);
      r.description != "" && r.input != "" && r.output != ""
  {
    hide TrimSection, JoinSections, FirstAttribution;
  }

  /** The input part of a split counts as populated. */
  lemma PartsPopulate(description: string)
    requires SplitLegacy(description).Parts?
    ensures TrimSpace(SplitLegacy(description).input) != ""
  {
    hide TrimSpace, JoinSections, Marks, LegacyLines, FirstAttribution, Trimmed;
    PartsNonEmpty(description);
    var lines := LegacyLines(description);
    var marks := Marks(Kinds(lines));
    TrimSpaceTrims(Lines.Join(lines[marks[0].0 + 1..marks[1].0]));
    TrimSpaceTrims(SplitLegacy(description).input);
  }

  /** A quiet row of an apply run. */
  lemma AdvanceQuiet(s: Progress, p: Problem, a: Around)
    requires !s.failed && a == Around(map[], false) && p.id in s.rows && s.rows[p.id] == p
    ensures
      var t := Advance(s, p, true, a);
      && !t.failed && t.rows == s.rows[p.id := Migrate(p)]
      && (Settled(p) ==> t.rows == s.rows)
      && t.result.migrated == s.result.migrated + (if Settled(p) then 0 else 1)
      && t.result.concurrent == s.result.concurrent + (if Stuck(p) then 1 else 0)
  {
    hide SplitLegacy, Populated;
    assert s.rows + map[] == s.rows;
  }

  /** After a quiet apply run the listed rows are migrated and no other is touched. */
  ghost predicate AllMigrated(before: map<int, Problem>, after: map<int, Problem>, ids: set<int>) {
    && after.Keys == before.Keys
    && forall id :: id in before ==> after[id] == if id in ids then Migrate(before[id]) else before[id]
  }

  lemma NothingMigrated(rows: map<int, Problem>)
    ensures AllMigrated(rows, rows, {})
  {}

  lemma OneMoreMigrated(before: map<int, Problem>, after: map<int, Problem>, id: int, ids: set<int>)
    requires id in before && id !in ids && AllMigrated(before[id := Migrate(before[id])], after, ids)
    ensures AllMigrated(before, after, {id} + ids)
  {
    hide Migrate;
  }

  lemma AgreesOnFirst(problems: seq<Problem>, rows: map<int, Problem>)
    requires problems != [] && Agrees(problems, rows)
    ensures problems[0].id in rows && rows[problems[0].id] == problems[0]
  {}

  lemma AgreesOnRest(problems: seq<Problem>, rows: map<int, Problem>, p: Problem)
    requires problems != [] && Distinct(problems) && Agrees(problems, rows)
    ensures Agrees(problems[1..], rows[problems[0].id := p])
  {
    forall k | 0 <= k < |problems[1..]| ensures problems[1..][k].id != problems[0].id {
      NotAmong(problems[1..], problems[0].id, k);
    }
  }

  /** A quiet apply run over a listing that agrees with the table migrates exactly the listed rows that are ready and
      whose formats are both empty, and counts as changed concurrently exactly the ready rows with blank formats. */
  lemma {:induction false} QuietRun(s: Progress, problems: seq<Problem>, around: seq<Around>)
    requires |around| == |problems| && Quiet(around) && !s.failed
    requires Distinct(problems) && Agrees(problems, s.rows)
    ensures
      var t := RunOver(s, problems, true, around);
      && !t.failed && AllMigrated(s.rows, t.rows, Ids(problems))
      && t.result.migrated == s.result.migrated + Count(problems, p => !Settled(p))
      && t.result.concurrent == s.result.concurrent + Count(problems, p => Stuck(p))
    decreases |problems|
  {
    hide Advance, Migrate, AllMigrated, Agrees, Settled, Stuck;
    if problems == [] {
      NothingMigrated(s.rows);
    } else {
      var p := problems[0];
      AgreesOnFirst(problems, s.rows);
      AdvanceQuiet(s, p, around[0]);
      var t := Advance(s, p, true, around[0]);
      AgreesOnRest(problems, s.rows, Migrate(p));
      QuietRun(t, problems[1..], around[1..]);
      OneMoreMigrated(s.rows, RunOver(t, problems[1..], true, around[1..]).rows, p.id, Ids(problems[1..]));
    }
  }

  // ---- Counting rows of the table ----

  /** The rows of a table a decision covers. */
  function Covers(rows: map<int, Problem>, f: Problem -> bool): set<int> {
    set id | id in rows && f(rows[id])
  }

  lemma {:induction false} CountListed(problems: seq<Problem>, rows: map<int, Problem>, f: Problem -> bool)
    requires Distinct(problems) && Agrees(problems, rows)
    ensures Count(problems, f) == |Covers(rows, f) * Ids(problems)|
  {
    hide Covers, Agrees, Ids, Distinct, Count;
    var all := Covers(rows, f);
    CountFirst(problems, f);
    if problems == [] {
      assert all * {} == {};
    } else {
      AgreesOnTail(problems, rows);
      CountListed(problems[1..], rows, f);
      FirstCovered(problems, rows, f);
      MeetOneMore(all, problems[0].id, Ids(problems[1..]));
    }
  }

  lemma CountFirst(problems: seq<Problem>, f: Problem -> bool)
    requires Distinct(problems)
    ensures problems == [] ==> Count(problems, f) == 0 && Ids(problems) == {}
    ensures problems != [] ==>
              && Count(problems, f) == (if f(problems[0]) then 1 else 0) + Count(problems[1..], f)
              && Ids(problems) == {problems[0].id} + Ids(problems[1..])
              && problems[0].id !in Ids(problems[1..]) && Distinct(problems[1..])
  {}

  lemma MeetOneMore(all: set<int>, id: int, ids: set<int>)
    requires id !in ids
    ensures |all * ({id} + ids)| == |all * ids| + if id in all then 1 else 0
  {
    assert all * ({id} + ids) == if id in all then all * ids + {id} else all * ids;
  }

  lemma AgreesOnTail(problems: seq<Problem>, rows: map<int, Problem>)
    requires problems != [] && Agrees(problems, rows)
    ensures Agrees(problems[1..], rows)
  {}

  lemma FirstCovered(problems: seq<Problem>, rows: map<int, Problem>, f: Problem -> bool)
    requires problems != [] && Agrees(problems, rows)
    ensures problems[0].id in Covers(rows, f) <==> f(problems[0])
  {}

  /** Over a whole listing a count is the number of rows of the table, whatever the order of the listing. */
  lemma CountIsCardinality(problems: seq<Problem>, rows: map<int, Problem>, f: Problem -> bool)
    requires Lists(problems, rows)
    ensures Count(problems, f) == |Covers(rows, f)|
  {
    CountListed(problems, rows, f);
    assert Covers(rows, f) * Ids(problems) == Covers(rows, f);
  }

  /** Migrating neither frees a stuck row nor makes one. */
  lemma MigrateKeepsStuck(p: Problem)
    ensures Stuck(Migrate(p)) <==> Stuck(p)
  {
    hide SplitLegacy, TrimSpace;
    if !Settled(p) {
      PartsPopulate(p.description);
    }
  }

  /** Running the migration a second time migrates nothing and leaves every row as it is; the rows it counts as changed
      concurrently are again the ready rows with blank formats, as many as the first time. */
  lemma SecondRunMigratesNothing(
      rows: map<int, Problem>, first: seq<Problem>, around1: seq<Around>, second: seq<Problem>, around2: seq<Around>)
    requires Lists(first, rows) && |around1| == |first| && Quiet(around1)
    requires Lists(second, RunOver(Begin(rows, |first|), first, true, around1).rows)
    requires |around2| == |second| && Quiet(around2)
    ensures
      var once := RunOver(Begin(rows, |first|), first, true, around1);
      var twice := RunOver(Begin(once.rows, |second|), second, true, around2);
      && !twice.failed && twice.result.migrated == 0 && twice.rows == once.rows
      && twice.result.concurrent == once.result.concurrent == |Covers(rows, p => Stuck(p))|
  {
    hide RunOver, Settled, Stuck, Migrate, Quiet, Ids, Distinct, Count;
    QuietRun(Begin(rows, |first|), first, around1);
    var once := RunOver(Begin(rows, |first|), first, true, around1);
    QuietRun(Begin(once.rows, |second|), second, around2);
    CountIsCardinality(first, rows, p => Stuck(p));
    CountIsCardinality(second, once.rows, p => Stuck(p));
    CountIsCardinality(second, once.rows, p => !Settled(p));
    forall id | id in rows
      ensures once.rows[id] == Migrate(rows[id]) && Settled(once.rows[id]) && Migrate(once.rows[id]) == once.rows[id]
      ensures Stuck(once.rows[id]) <==> Stuck(rows[id])
    {
      MigrateSettles(rows[id]);
      MigrateKeepsStuck(rows[id]);
      SettledStays(once.rows[id]);
    }
    assert Covers(once.rows, p => Stuck(p)) == Covers(rows, p => Stuck(p));
    assert Covers(once.rows, p => !Settled(p)) == {};
    var twice := RunOver(Begin(once.rows, |second|), second, true, around2);
    assert forall id :: id in once.rows ==> twice.rows[id] == once.rows[id];
  }

  lemma SettledStays(p: Problem)
    requires Settled(p)
    ensures Migrate(p) == p
  {}

  /** A statement that splits, in a row with a blank for its input format: the dry run calls it ready, and no run ever
      migrates it. */
  lemma BlankFormatIsStuck()
    ensures
      var p := Problem(1, BackfillLaws.SMALLEST, " ", "");
      var dry := RunOver(Begin(map[1 := p], 1), [p], false, [Around(map[], false)]);
      var wet := RunOver(Begin(map[1 := p], 1), [p], true, [Around(map[], false)]);
      && dry.log == [Ready(1)]
      && wet.log == [Skip(1, ChangedConcurrently)] && wet.result.concurrent == 1 && wet.rows == map[1 := p]
  {
    hide SplitLegacy, Populated, RunOver;
    var p, a := Problem(1, BackfillLaws.SMALLEST, " ", ""), Around(map[], false);
    BackfillLaws.SmallestSplits();
    BlankIsEmpty(p);
    var s := Begin(map[1 := p], 1);
    assert s.rows + map[] == s.rows;
    RunOverOne(s, p, false, a);
    RunOverOne(s, p, true, a);
  }

  lemma BlankIsEmpty(p: Problem)
    requires GoText.AllSpace(p.inputFormat) && GoText.AllSpace(p.outputFormat)
    ensures !Populated(p)
  {
    hide IsSpace;
  }

  lemma RunOverOne(s: Progress, p: Problem, apply: bool, a: Around)
    ensures RunOver(s, [p], apply, [a]) == Advance(s, p, apply, a)
  {
    hide Advance;
  }

  // ---- What a migrated row holds ----

  /** The three columns hold the parts of a statement: the input format the text between the two headings, the output
      format the text behind the second up to the attribution, the description the leading text and the
      attribution. */
  ghost predicate Holds(row: Problem, statement: string) {
    exists i: nat, j: nat ::
      BackfillLaws.Conserves(LegacyLines(statement), Parts(row.description, row.inputFormat, row.outputFormat), i, j)
  }

  lemma PartsHold(row: Problem, statement: string)
    requires SplitLegacy(statement) == Parts(row.description, row.inputFormat, row.outputFormat)
    ensures Holds(row, statement)
  {
    hide SplitLegacy, LegacyLines, BackfillLaws.Conserves;
    BackfillLaws.NothingLost(statement);
  }

  /** Whatever other writers do, a row that a run reports as migrated holds the parts of the listed text at that
      point. */
  lemma MigratedHolds(s: Progress, p: Problem, a: Around)
    ensures
      var t := Advance(s, p, true, a);
      t.log == s.log + [Migrated(p.id)] ==> p.id in t.rows && Holds(t.rows[p.id], p.description)
  {
    hide SplitLegacy, Populated, Holds;
    var t := Advance(s, p, true, a);
    if t.log == s.log + [Migrated(p.id)] {
      assert t.log[|s.log|] == Migrated(p.id);
      PartsHold(t.rows[p.id], p.description);
    }
  }

  /** A quiet apply run leaves in every row it migrates the parts of the text that stood there. */
  lemma QuietRunHolds(rows: map<int, Problem>, problems: seq<Problem>, around: seq<Around>, id: int)
    requires |around| == |problems| && Quiet(around) && Lists(problems, rows)
    ensures
      var t := RunOver(Begin(rows, |problems|), problems, true, around);
      id in rows ==>
        && id in t.rows
        && if Settled(rows[id]) then t.rows[id] == rows[id] else Holds(t.rows[id], rows[id].description)
  {
    hide RunOver, Distinct, Agrees, Ids, Count, SplitLegacy, Populated, Holds, Quiet;
    QuietRun(Begin(rows, |problems|), problems, around);
    if id in rows && !Settled(rows[id]) {
      PartsHold(Migrate(rows[id]), rows[id].description);
    }
  }

  /** Formats count as populated exactly when one of them has a visible character. */
  lemma PopulatedExactly(p: Problem)
    ensures Populated(p) <==> !AllSpace(p.inputFormat) || !AllSpace(p.outputFormat)
  {
    hide TrimSpace, AllSpace;
    TrimmedVisible(p.inputFormat);
    TrimmedVisible(p.outputFormat);
  }

  // ---- Edits between the listing and the update ----

  /** The row as it stands when its turn comes, whoever wrote it last. */
  function Standing(s: Progress, p: Problem, a: Around): Option<Problem> {
    var rows := s.rows + a.others;
    if p.id in rows then Some(rows[p.id]) else None
  }

  /** The update tests the formats but not the description: a row migrated in any run is stored as the migration of the
      row as it stands exactly when the text as it stands splits like the listed one. */
  lemma EditSurvivesExactly(s: Progress, p: Problem, a: Around)
    requires !s.failed && IsReady(p) && !a.fails
    requires Standing(s, p, a).Some?
    requires Standing(s, p, a).value.inputFormat == "" && Standing(s, p, a).value.outputFormat == ""
    ensures
      var t, row := Advance(s, p, true, a), Standing(s, p, a).value;
      && t.log == s.log + [Migrated(p.id)]
      && (t.rows[p.id] == Migrate(row) <==> Decision(row) == Decision(p))
  {
    hide SplitLegacy, Populated;
    var row := Standing(s, p, a).value;
    EmptyFormats(row);
    PartsNonEmpty(p.description);
  }

  lemma EmptyFormats(p: Problem)
    requires p.inputFormat == "" && p.outputFormat == ""
    ensures !Populated(p)
  {}

  /** Whatever text an editor saves between the listing and the update, the run stores the parts of the listed text and
      reports the row as migrated: the edit is lost. */
  lemma EditIsLost(p: Problem, edited: string)
    requires !Settled(p)
    ensures
      var end := RunOver(Begin(map[p.id := p], 1), [p], true, [Around(map[p.id := p.(description := edited)], false)]);
      end.rows == map[p.id := Migrate(p)] && end.log == [Migrated(p.id)]
  {
    hide SplitLegacy, Populated, RunOver;
    var s, a := Begin(map[p.id := p], 1), Around(map[p.id := p.(description := edited)], false);
    assert s.rows + a.others == a.others;
    RunOverOne(s, p, true, a);
  }

  lemma SmallestIsPending()
    ensures !Settled(Problem(1, BackfillLaws.SMALLEST, "", ""))
  {
    hide SplitLegacy, Populated;
    BackfillLaws.SmallestSplits();
    EmptyFormats(Problem(1, BackfillLaws.SMALLEST, "", ""));
  }
}

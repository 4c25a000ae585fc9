/** The resumable evaluation grid: its log, its circuit breaker, and any series of interrupted runs. */
module Grid {
  import opened Text

  /** Grid coordinates of one record. */
  datatype Key = Key(scenario: string, model: string, variant: string, idx: int)

  /** `provider`: the error kind is one of the circuit kinds. `text` is the serialised record without its
    * final line feed. */
  datatype Record = Record(key: Key, success: bool, provider: bool, text: string)

  /** What one call of `collect` comes to. */
  datatype Outcome = Raises | Returns(success: bool, provider: bool, text: string)

  /** A stretch of the log file: a record as appended, or anything else (blank, truncated, foreign). */
  datatype Line = Written(record: Record) | Junk

  /** Characters that `str.splitlines` splits at but JSON leaves as they are with ensure_ascii off. */
  predicate Boundary(c: char) { c == '\U{85}' || c == '\U{2028}' || c == '\U{2029}' }

  /** The record comes back from the file as one line. */
  predicate ReadsBack(r: Record) { forall c | c in r.text :: !Boundary(c) }

  function DoneKeys(log: seq<Line>): set<Key> {
    set l | l in log && l.Written? && ReadsBack(l.record) :: l.record.key
  }

  datatype Grid = Grid(done: set<Key>, log: seq<Line>, total: nat, passed: nat, streak: nat, tripped: bool)

  datatype Setup = Setup(model: string, variant: string, threshold: int)

  function KeyOf(u: Setup, cell: (string, int)): Key { Key(cell.0, u.model, u.variant, cell.1) }

  /** One turn of the inner loop; `outcomes` gives what the n-th call of `collect` comes to. */
  function CellStep(u: Setup, g: Grid, cell: (string, int), outcomes: nat -> Outcome): Grid {
    var key := KeyOf(u, cell);
    if g.tripped || key in g.done then g
    else match outcomes(g.total)
      case Raises => g.(total := g.total + 1)
      case Returns(success, provider, text) =>
        var streak := if provider then g.streak + 1 else 0;
        Grid(g.done + {key}, g.log + [Written(Record(key, success, provider, text))], g.total + 1,
             g.passed + if success then 1 else 0, streak, provider && streak >= u.threshold)
  }

  function RunCells(u: Setup, g: Grid, cells: seq<(string, int)>, outcomes: nat -> Outcome): Grid
    decreases |cells|
  {
    if cells == [] then g else RunCells(u, CellStep(u, g, cells[0], outcomes), cells[1..], outcomes)
  }

  /** A run that starts by reading the log back. */
  function Fresh(log: seq<Line>): Grid { Grid(DoneKeys(log), log, 0, 0, 0, false) }

  function Row(sid: string, runs: int): seq<(string, int)>
    decreases runs
  {
    if runs <= 0 then [] else Row(sid, runs - 1) + [(sid, runs)]
  }

  function Cells(ids: seq<string>, runs: int): seq<(string, int)> {
    if ids == [] then [] else Cells(ids[..|ids| - 1], runs) + Row(ids[|ids| - 1], runs)
  }

  lemma {:induction false} RunCellsAppend(u: Setup, g: Grid, a: seq<(string, int)>, b: seq<(string, int)>,
                                          outcomes: nat -> Outcome)
    ensures RunCells(u, g, a + b, outcomes) == RunCells(u, RunCells(u, g, a, outcomes), b, outcomes)
    decreases |a|
  {
    if a == [] {
      assert a + b == b;
    } else {
      assert (a + b)[0] == a[0] && (a + b)[1..] == a[1..] + b;
      RunCellsAppend(u, CellStep(u, g, a[0], outcomes), a[1..], b, outcomes);
    }
  }

  lemma RunCellsLast(u: Setup, g: Grid, cells: seq<(string, int)>, outcomes: nat -> Outcome)
    requires cells != []
    ensures RunCells(u, g, cells, outcomes) ==
      CellStep(u, RunCells(u, g, cells[..|cells| - 1], outcomes), cells[|cells| - 1], outcomes)
  {
    assert cells == cells[..|cells| - 1] + [cells[|cells| - 1]];
    RunCellsAppend(u, g, cells[..|cells| - 1], [cells[|cells| - 1]], outcomes);
  }

  // ---------- the log over any series of runs ----------

  /** A record appended at position `from` or later repeats an earlier key only if that earlier record does
    * not read back. */
  predicate OnlyUnreadableRepeat(log: seq<Line>, from: nat) {
    forall i, j | 0 <= i < j < |log| && from <= j && log[i].Written? && log[j].Written? ::
      log[i].record.key == log[j].record.key ==> !ReadsBack(log[i].record)
  }

  /** Within one run: the keys marked done cover what reads back in the log. */
  predicate RunInv(g: Grid, from: nat) { OnlyUnreadableRepeat(g.log, from) && DoneKeys(g.log) <= g.done }

  lemma CellKeepsLog(u: Setup, g: Grid, from: nat, cell: (string, int), outcomes: nat -> Outcome)
    requires RunInv(g, from)
    ensures RunInv(CellStep(u, g, cell, outcomes), from) && g.log <= CellStep(u, g, cell, outcomes).log
  {
    var t, key := CellStep(u, g, cell, outcomes), KeyOf(u, cell);
    if t.log != g.log {
      forall i | 0 <= i < |g.log| && g.log[i].Written? && g.log[i].record.key == key
        ensures !ReadsBack(g.log[i].record)
      {
        assert ReadsBack(g.log[i].record) ==> key in DoneKeys(g.log);
      }
      assert forall l | l in t.log :: l in g.log || l == t.log[|g.log|];
    }
  }

  lemma {:induction false} RunKeepsLog(u: Setup, g: Grid, from: nat, cells: seq<(string, int)>,
                                       outcomes: nat -> Outcome)
    requires RunInv(g, from)
    ensures RunInv(RunCells(u, g, cells, outcomes), from) && g.log <= RunCells(u, g, cells, outcomes).log
    decreases |cells|
  {
    if cells != [] {
      CellKeepsLog(u, g, from, cells[0], outcomes);
      RunKeepsLog(u, CellStep(u, g, cells[0], outcomes), from, cells[1..], outcomes);
    }
  }

  /** One run of a series: any model and variant, and the cells it got through before it ended, was
    * interrupted, or tripped its breaker. */
  datatype Attempt = Attempt(setup: Setup, cells: seq<(string, int)>, outcomes: nat -> Outcome)

  function Series(log: seq<Line>, attempts: seq<Attempt>): seq<Line>
    decreases |attempts|
  {
    if attempts == [] then log
    else var a := attempts[0]; Series(RunCells(a.setup, Fresh(log), a.cells, a.outcomes).log, attempts[1..])
  }

  /** Over any series of resumed runs, each stopped anywhere, a cell gets a second record only if its
    * earlier one holds a character that breaks its line; the log only ever grows. */
  lemma {:induction false} RepeatsAreUnreadable(log: seq<Line>, from: nat, attempts: seq<Attempt>)
    requires OnlyUnreadableRepeat(log, from)
    ensures OnlyUnreadableRepeat(Series(log, attempts), from) && log <= Series(log, attempts)
    decreases |attempts|
  {
    if attempts != [] {
      var a := attempts[0];
      RunKeepsLog(a.setup, Fresh(log), from, a.cells, a.outcomes);
      RepeatsAreUnreadable(RunCells(a.setup, Fresh(log), a.cells, a.outcomes).log, from, attempts[1..]);
    }
  }

  // ---------- which cells are collected again ----------

  /** The run that led from `log` to `end` appended a record of this key. */
  predicate Appended(log: seq<Line>, end: seq<Line>, key: Key) {
    exists i | |log| <= i < |end| :: end[i].Written? && end[i].record.key == key
  }

  predicate NoneReadsBack(log: seq<Line>, key: Key) {
    forall l | l in log && l.Written? && l.record.key == key :: !ReadsBack(l.record)
  }

  lemma DoneExactly(log: seq<Line>, key: Key)
    ensures key !in DoneKeys(log) <==> NoneReadsBack(log, key)
  {}

  /** Marked done beyond what the log says are exactly the keys appended since. */
  ghost predicate Tracks(log: seq<Line>, g: Grid) {
    && log <= g.log && DoneKeys(log) <= g.done
    && forall key :: Appended(log, g.log, key) <==> key in g.done && key !in DoneKeys(log)
  }

  lemma CellTracks(u: Setup, log: seq<Line>, g: Grid, cell: (string, int), outcomes: nat -> Outcome)
    requires Tracks(log, g)
    ensures Tracks(log, CellStep(u, g, cell, outcomes))
  {
    var t := CellStep(u, g, cell, outcomes);
    if t.log != g.log {
      var n := |g.log|;
      forall key ensures Appended(log, t.log, key) <==> Appended(log, g.log, key) || key == KeyOf(u, cell) {
        assert forall i | |log| <= i < n :: t.log[i] == g.log[i];
        assert t.log[n].record.key == KeyOf(u, cell);
      }
    }
  }

  lemma {:induction false} RunTracks(u: Setup, log: seq<Line>, g: Grid, cells: seq<(string, int)>,
                                     outcomes: nat -> Outcome)
    requires Tracks(log, g)
    ensures Tracks(log, RunCells(u, g, cells, outcomes))
    decreases |cells|
  {
    if cells != [] {
      CellTracks(u, log, g, cells[0], outcomes);
      RunTracks(u, log, CellStep(u, g, cells[0], outcomes), cells[1..], outcomes);
    }
  }

  /** No run, tripped, interrupted or raising, ever appends a record for a key that reads back. */
  lemma ReadableIsNeverRepeated(u: Setup, log: seq<Line>, cells: seq<(string, int)>, outcomes: nat -> Outcome, key: Key)
    requires Appended(log, RunCells(u, Fresh(log), cells, outcomes).log, key)
    ensures NoneReadsBack(log, key)
  {
    RunTracks(u, log, Fresh(log), cells, outcomes);
    DoneExactly(log, key);
  }

  /** The exact condition, for every grid: a resumed run that gets through its cells collects a cell, and
    * collects it again if it had been before, if and only if no record of it reads back. */
  lemma CollectedAgainExactly(u: Setup, log: seq<Line>, cells: seq<(string, int)>, outcomes: nat -> Outcome,
                              cell: (string, int))
    requires cell in cells && !RunCells(u, Fresh(log), cells, outcomes).tripped
    requires forall n | 0 <= n < RunCells(u, Fresh(log), cells, outcomes).total :: outcomes(n).Returns?
    ensures Appended(log, RunCells(u, Fresh(log), cells, outcomes).log, KeyOf(u, cell)) <==>
      NoneReadsBack(log, KeyOf(u, cell))
  {
    RunTracks(u, log, Fresh(log), cells, outcomes);
    UntrippedRunSettles(u, Fresh(log), cells, outcomes);
    DoneExactly(log, KeyOf(u, cell));
  }

  /** So a cell whose record holds any of the three characters is collected twice by two runs in a row. */
  lemma LineSeparatorDuplicates(u: Setup, cell: (string, int), text: string)
    requires '\U{85}' in text || '\U{2028}' in text || '\U{2029}' in text
    ensures var outcomes := (n: nat) => Returns(true, false, text);
      var log := RunCells(u, Fresh([]), [cell], outcomes).log;
      var twice := RunCells(u, Fresh(log), [cell], outcomes).log;
      |log| == 1 && |twice| == 2 && twice[0] == twice[1] == Written(Record(KeyOf(u, cell), true, false, text))
  {
    var outcomes := (n: nat) => Returns(true, false, text);
    var log := RunCells(u, Fresh([]), [cell], outcomes).log;
    assert [cell][..0] == [];
    RunCellsLast(u, Fresh([]), [cell], outcomes);
    assert log == [Written(Record(KeyOf(u, cell), true, false, text))];
    RunCellsLast(u, Fresh(log), [cell], outcomes);
    CollectedAgainExactly(u, log, [cell], outcomes, cell);
  }

  /** When every record reads back - for instance, all text is ASCII - no cell gets a record it has. */
  lemma ReadableLogHasNoRepeats(log: seq<Line>, attempts: seq<Attempt>)
    requires forall l | l in Series(log, attempts) && l.Written? :: ReadsBack(l.record)
    ensures var end := Series(log, attempts);
      && log <= end
      && forall i, j | 0 <= i < j < |end| && |log| <= j && end[i].Written? && end[j].Written? ::
           end[i].record.key != end[j].record.key
  {
    RepeatsAreUnreadable(log, |log|, attempts);
    var end := Series(log, attempts);
    assert forall i | 0 <= i < |end| :: end[i] in end;
  }

  // ---------- the circuit breaker and the counters ----------

  function Trailing(recs: seq<Line>): nat {
    if recs == [] then 0
    else
      var last := recs[|recs| - 1];
      if last.Written? && last.record.provider then Trailing(recs[..|recs| - 1]) + 1 else 0
  }

  /** The breaker fires at the threshold-th consecutive provider failure, at the first one for thresholds
    * below 1. */
  function Fuse(u: Setup): nat { if u.threshold <= 1 then 1 else u.threshold }

  function Successes(recs: seq<Line>): nat {
    if recs == [] then 0
    else
      var last := recs[|recs| - 1];
      Successes(recs[..|recs| - 1]) + if last.Written? && last.record.success then 1 else 0
  }

  /** What the counters say about the records `g.log[from..]` of this run. */
  ghost predicate Counted(u: Setup, g: Grid, from: nat) {
    && from <= |g.log| && g.streak == Trailing(g.log[from..]) && (g.tripped <==> g.streak >= Fuse(u))
    && (forall m | from <= m < |g.log| :: Trailing(g.log[from..m]) < Fuse(u))
    && g.passed == Successes(g.log[from..]) && g.passed <= |g.log| - from <= g.total
  }

  lemma CellCounted(u: Setup, g: Grid, from: nat, cell: (string, int), outcomes: nat -> Outcome)
    requires Counted(u, g, from)
    ensures Counted(u, CellStep(u, g, cell, outcomes), from)
  {
    var t := CellStep(u, g, cell, outcomes);
    if t.log != g.log {
      var recs := t.log[from..];
      assert recs[..|recs| - 1] == g.log[from..];
      forall m | from <= m < |t.log| ensures Trailing(t.log[from..m]) < Fuse(u) {
        assert t.log[from..m] == g.log[from..m];
        assert m == |g.log| ==> g.log[from..m] == g.log[from..];
      }
    }
  }

  lemma {:induction false} RunCounted(u: Setup, g: Grid, from: nat, cells: seq<(string, int)>,
                                      outcomes: nat -> Outcome)
    requires Counted(u, g, from)
    ensures Counted(u, RunCells(u, g, cells, outcomes), from) && g.log <= RunCells(u, g, cells, outcomes).log
    decreases |cells|
  {
    if cells != [] {
      CellCounted(u, g, from, cells[0], outcomes);
      RunCounted(u, CellStep(u, g, cells[0], outcomes), from, cells[1..], outcomes);
    }
  }

  /** The returned counts are of this run's records: successes passed, and every record is an attempt. */
  lemma CountersExact(u: Setup, log: seq<Line>, cells: seq<(string, int)>, outcomes: nat -> Outcome)
    ensures var g := RunCells(u, Fresh(log), cells, outcomes);
      && log <= g.log && Counted(u, g, |log|)
      && g.passed == Successes(g.log[|log|..]) && g.passed <= |g.log| - |log| <= g.total
  {
    assert log[|log|..] == [];
    RunCounted(u, Fresh(log), |log|, cells, outcomes);
  }

  /** The attempts among the first `n` that raised, and what those that did not returned, in order. */
  function Raised(outcomes: nat -> Outcome, n: nat): nat {
    if n == 0 then 0 else Raised(outcomes, n - 1) + if outcomes(n - 1).Raises? then 1 else 0
  }

  function Returned(outcomes: nat -> Outcome, n: nat): seq<Outcome> {
    if n == 0 then [] else Returned(outcomes, n - 1) + if outcomes(n - 1).Raises? then [] else [outcomes(n - 1)]
  }

  /** A record of this run's model and variant that holds what an attempt returned. */
  predicate Holds(u: Setup, line: Line, o: Outcome) {
    && line.Written? && line.record.key.model == u.model && line.record.key.variant == u.variant
    && o == Returns(line.record.success, line.record.provider, line.record.text)
  }

  /** The records from `from` on are what the attempts so far returned. */
  ghost predicate Recorded(u: Setup, g: Grid, from: nat, outcomes: nat -> Outcome) {
    && from <= |g.log| && |g.log| - from == |Returned(outcomes, g.total)|
    && g.total == |g.log| - from + Raised(outcomes, g.total)
    && forall i | 0 <= i < |g.log| - from :: Holds(u, g.log[from + i], Returned(outcomes, g.total)[i])
  }

  lemma CellRecorded(u: Setup, g: Grid, from: nat, cell: (string, int), outcomes: nat -> Outcome)
    requires Recorded(u, g, from, outcomes)
    ensures Recorded(u, CellStep(u, g, cell, outcomes), from, outcomes)
  {
    var t := CellStep(u, g, cell, outcomes);
    if t.log != g.log {
      forall i | 0 <= i < |t.log| - from ensures Holds(u, t.log[from + i], Returned(outcomes, t.total)[i]) {
        if from + i < |g.log| { assert Holds(u, g.log[from + i], Returned(outcomes, g.total)[i]); }
      }
    }
  }

  lemma {:induction false} RunRecorded(u: Setup, g: Grid, from: nat, cells: seq<(string, int)>,
                                       outcomes: nat -> Outcome)
    requires Recorded(u, g, from, outcomes)
    ensures Recorded(u, RunCells(u, g, cells, outcomes), from, outcomes)
    decreases |cells|
  {
    if cells != [] {
      CellRecorded(u, g, from, cells[0], outcomes);
      RunRecorded(u, CellStep(u, g, cells[0], outcomes), from, cells[1..], outcomes);
    }
  }

  /** The records from `from` on are of these cells. */
  predicate OfCells(log: seq<Line>, from: nat, cells: seq<(string, int)>) {
    forall i | from <= i < |log| :: log[i].Written? && (log[i].record.key.scenario, log[i].record.key.idx) in cells
  }

  lemma {:induction false} RecordsOfCells(u: Setup, g: Grid, from: nat, cells: seq<(string, int)>,
                                          all: seq<(string, int)>, outcomes: nat -> Outcome)
    requires OfCells(g.log, from, all) && forall c | c in cells :: c in all
    ensures OfCells(RunCells(u, g, cells, outcomes).log, from, all)
    decreases |cells|
  {
    if cells != [] {
      assert cells[0] in all;
      RecordsOfCells(u, CellStep(u, g, cells[0], outcomes), from, cells[1..], all, outcomes);
    }
  }

  /** Every attempt is counted and nothing else is: the total is this run's records plus the attempts that
    * raised, and the records are, in order, what the others returned. */
  lemma TotalExact(u: Setup, log: seq<Line>, cells: seq<(string, int)>, outcomes: nat -> Outcome)
    ensures var g := RunCells(u, Fresh(log), cells, outcomes);
      && log <= g.log && g.total == |g.log| - |log| + Raised(outcomes, g.total)
      && |g.log| - |log| == |Returned(outcomes, g.total)|
      && (forall i | 0 <= i < |g.log| - |log| :: Holds(u, g.log[|log| + i], Returned(outcomes, g.total)[i]))
      && OfCells(g.log, |log|, cells)
  {
    CountersExact(u, log, cells, outcomes);
    RecordsOfCells(u, Fresh(log), |log|, cells, cells, outcomes);
    var g, n := Fresh(log), Fresh(log).total;
    assert n == 0 && |g.log| == |log|;
    RunRecorded(u, g, |log|, cells, outcomes);
  }

  /** A run stops collecting at the first moment its newest records are `threshold` provider failures in a
    * row - cells skipped and cells that raised neither count nor break the row - and not otherwise. */
  lemma BreakerExact(u: Setup, log: seq<Line>, cells: seq<(string, int)>, more: seq<(string, int)>,
                     outcomes: nat -> Outcome)
    ensures var g := RunCells(u, Fresh(log), cells, outcomes);
      && log <= g.log && (g.tripped <==> Trailing(g.log[|log|..]) >= Fuse(u))
      && (forall m | |log| <= m < |g.log| :: Trailing(g.log[|log|..m]) < Fuse(u))
      && (g.tripped ==> RunCells(u, Fresh(log), cells + more, outcomes) == g)
  {
    CountersExact(u, log, cells, outcomes);
    var g := RunCells(u, Fresh(log), cells, outcomes);
    RunCellsAppend(u, Fresh(log), cells, more, outcomes);
    if g.tripped { TrippedStops(u, g, more, outcomes); }
  }

  lemma {:induction false} TrippedStops(u: Setup, g: Grid, cells: seq<(string, int)>, outcomes: nat -> Outcome)
    requires g.tripped
    ensures RunCells(u, g, cells, outcomes) == g
    decreases |cells|
  {
    if cells != [] { TrippedStops(u, g, cells[1..], outcomes); }
  }

  lemma RowLast(u: Setup, g: Grid, sid: string, idx: nat, outcomes: nat -> Outcome)
    requires idx > 0
    ensures RunCells(u, g, Row(sid, idx), outcomes) ==
      CellStep(u, RunCells(u, g, Row(sid, idx - 1), outcomes), (sid, idx), outcomes)
  {
    assert Row(sid, idx)[..|Row(sid, idx)| - 1] == Row(sid, idx - 1);
    RunCellsLast(u, g, Row(sid, idx), outcomes);
  }

  lemma CellsGrow(u: Setup, g: Grid, ids: seq<string>, i: nat, runs: int, outcomes: nat -> Outcome)
    requires i < |ids|
    ensures RunCells(u, g, Cells(ids[..i + 1], runs), outcomes) ==
      RunCells(u, RunCells(u, g, Cells(ids[..i], runs), outcomes), Row(ids[i], runs), outcomes)
  {
    assert ids[..i + 1][..i] == ids[..i];
    RunCellsAppend(u, g, Cells(ids[..i], runs), Row(ids[i], runs), outcomes);
  }

  /** Rows after a trip change nothing. */
  lemma {:induction false} CellsTail(u: Setup, g: Grid, ids: seq<string>, i: nat, n: nat, runs: int,
                                     outcomes: nat -> Outcome)
    requires i <= n <= |ids| && RunCells(u, g, Cells(ids[..i], runs), outcomes).tripped
    ensures RunCells(u, g, Cells(ids[..n], runs), outcomes) == RunCells(u, g, Cells(ids[..i], runs), outcomes)
    decreases n
  {
    if i < n {
      CellsTail(u, g, ids, i, n - 1, runs, outcomes);
      CellsGrow(u, g, ids, n - 1, runs, outcomes);
      TrippedStops(u, RunCells(u, g, Cells(ids[..n - 1], runs), outcomes), Row(ids[n - 1], runs), outcomes);
    }
  }

  /** What is left of a row after a trip changes nothing. */
  lemma {:induction false} RowTail(u: Setup, g: Grid, sid: string, idx: nat, runs: nat, outcomes: nat -> Outcome)
    requires idx <= runs && RunCells(u, g, Row(sid, idx), outcomes).tripped
    ensures RunCells(u, g, Row(sid, runs), outcomes) == RunCells(u, g, Row(sid, idx), outcomes)
    decreases runs
  {
    if idx < runs {
      RowTail(u, g, sid, idx, runs - 1, outcomes);
      RowLast(u, g, sid, runs, outcomes);
    }
  }

  /** A run that never trips settles every cell it is given: each is done at the end, unless a call of
    * `collect` raised. */
  lemma {:induction false} UntrippedRunSettles(u: Setup, g: Grid, cells: seq<(string, int)>, outcomes: nat -> Outcome)
    requires !RunCells(u, g, cells, outcomes).tripped
    requires forall n | g.total <= n < RunCells(u, g, cells, outcomes).total :: outcomes(n).Returns?
    ensures g.done <= RunCells(u, g, cells, outcomes).done && g.total <= RunCells(u, g, cells, outcomes).total
    ensures forall c | c in cells :: KeyOf(u, c) in RunCells(u, g, cells, outcomes).done
    decreases |cells|
  {
    if cells != [] {
      var t := CellStep(u, g, cells[0], outcomes);
      if g.tripped { TrippedStops(u, g, cells, outcomes); }
      TotalGrows(u, t, cells[1..], outcomes);
      UntrippedRunSettles(u, t, cells[1..], outcomes);
      assert forall c | c in cells :: c == cells[0] || c in cells[1..];
    }
  }

  lemma {:induction false} TotalGrows(u: Setup, g: Grid, cells: seq<(string, int)>, outcomes: nat -> Outcome)
    ensures g.total <= RunCells(u, g, cells, outcomes).total
    decreases |cells|
  {
    if cells != [] { TotalGrows(u, CellStep(u, g, cells[0], outcomes), cells[1..], outcomes); }
  }

  // ---------- the object ----------

  /** How many leading ids are known. */
  function KnownPrefix(ids: seq<string>, known: set<string>): (n: nat)
    ensures n <= |ids|
    ensures forall i | 0 <= i < n :: ids[i] in known
    ensures n < |ids| ==> ids[n] !in known
  {
    if ids == [] || ids[0] !in known then 0 else 1 + KnownPrefix(ids[1..], known)
  }

  class Collector {
    const setup: Setup
    const scenarios: set<string>
    var done: set<Key>
    var log: seq<Line>

    constructor (u: Setup, known: set<string>, file: seq<Line>, resume: bool)
      ensures setup == u && scenarios == known && log == file
      ensures done == if resume then DoneKeys(file) else {}
    {
      setup, scenarios, log, done := u, known, file, {};
      new;
      if resume { done := ReadDone(file); }
    }

    /** `done_keys`: lines that do not parse are skipped. */
    static method ReadDone(file: seq<Line>) returns (keys: set<Key>)
      ensures keys == DoneKeys(file)
    {
      keys := {};
      for i := 0 to |file|
        invariant keys == DoneKeys(file[..i])
      {
        assert file[..i + 1] == file[..i] + [file[i]];
        match file[i] {
          case Junk =>
          case Written(record) => if ReadsBack(record) { keys := keys + {record.key}; }
        }
      }
      assert file[..|file|] == file;
    }

    method ShouldSkip(sid: string, idx: int) returns (skip: bool)
      ensures skip <==> Key(sid, setup.model, setup.variant, idx) in done
    {
      skip := Key(sid, setup.model, setup.variant, idx) in done;
    }

    method MarkDone(sid: string, idx: int)
      modifies this`done
      ensures done == old(done) + {Key(sid, setup.model, setup.variant, idx)}
    {
      done := done + {Key(sid, setup.model, setup.variant, idx)};
    }

    /** `collect` as its callers see it: it appends its record and returns it, or raises and appends none. */
    method Collect(sid: string, idx: int, o: Outcome) returns (rec: Option<Record>)
      modifies this`log
      ensures rec.Some? <==> o.Returns?
      ensures o.Raises? ==> log == old(log)
      ensures o.Returns? ==> log == old(log) + [Written(rec.value)]
      ensures o.Returns? ==>
        rec.value == Record(Key(sid, setup.model, setup.variant, idx), o.success, o.provider, o.text)
    {
      if o.Raises? { return None; }
      rec := Some(Record(Key(sid, setup.model, setup.variant, idx), o.success, o.provider, o.text));
      log := log + [Written(rec.value)];
    }

    ghost function View(total: nat, passed: nat, streak: nat, tripped: bool): Grid
      reads this
    {
      Grid(done, log, total, passed, streak, tripped)
    }

    /** The inner loop: one scenario's runs. */
    method RunRow(sid: string, runs: int, outcomes: nat -> Outcome, total0: nat, passed0: nat, streak0: nat)
        returns (total: nat, passed: nat, streak: nat, tripped: bool)
      modifies this
      ensures View(total, passed, streak, tripped) ==
        RunCells(setup, old(View(total0, passed0, streak0, false)), Row(sid, runs), outcomes)
    {
      ghost var start := View(total0, passed0, streak0, false);
      total, passed, streak, tripped := total0, passed0, streak0, false;
      var idx := 0;
      while idx < runs
        invariant 0 <= idx && (idx <= runs || idx == 0) && !tripped
        invariant View(total, passed, streak, tripped) == RunCells(setup, start, Row(sid, idx), outcomes)
      {
        idx := idx + 1;
        RowLast(setup, start, sid, idx, outcomes);
        ghost var before := View(total, passed, streak, tripped);
        var skip := ShouldSkip(sid, idx);
        if skip { continue; }
        var o := outcomes(total);
        total := total + 1;
        var rec := Collect(sid, idx, o);
        if rec.None? { continue; }
        MarkDone(sid, idx);
        if rec.value.success { passed := passed + 1; }
        if rec.value.provider {
          streak := streak + 1;
          if streak >= setup.threshold {
            tripped := true;
            RowTail(setup, start, sid, idx, runs, outcomes);
            return;
          }
        } else {
          streak := 0;
        }
      }
      assert runs <= 0 ==> Row(sid, runs) == Row(sid, idx) == [];
    }

    /** The nested loops of `run_grid`. An unknown scenario id raises when its row is reached. */
    method RunGrid(ids: seq<string>, runs: int, outcomes: nat -> Outcome)
        returns (passed: nat, total: nat, trippedAt: Option<string>, unknown: Option<string>)
      modifies this
      ensures var n := KnownPrefix(ids, scenarios);
        var g := RunCells(setup, old(View(0, 0, 0, false)), Cells(ids[..n], runs), outcomes);
        && done == g.done && log == g.log && passed == g.passed && total == g.total
        && (trippedAt.Some? <==> g.tripped)
        && unknown == if g.tripped || n == |ids| then None else Some(ids[n])
    {
      var prefix := KnownPrefix(ids, scenarios);
      ghost var start := View(0, 0, 0, false);
      var streak: nat := 0;
      total, passed, trippedAt, unknown := 0, 0, None, None;
      var i := 0;
      while i < |ids|
        invariant 0 <= i <= prefix && unknown.None? && trippedAt.None?
        invariant View(total, passed, streak, false) == RunCells(setup, start, Cells(ids[..i], runs), outcomes)
      {
        var sid := ids[i];
        if sid !in scenarios { unknown := Some(sid); return; }
        CellsGrow(setup, start, ids, i, runs, outcomes);
        var tripped;
        total, passed, streak, tripped := RunRow(sid, runs, outcomes, total, passed, streak);
        i := i + 1;
        if tripped {
          trippedAt := Some(sid);
          CellsTail(setup, start, ids, i, prefix, runs, outcomes);
          return;
        }
      }
    }
  }
}

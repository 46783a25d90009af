/**
 The append-only strategy biography and its idempotent update (scripts/retrospective_dsr.py, 676-733;
 research/biographies/schema.py, 405-443).
 */
module Biography {
  import opened Wrappers
  import opened Classifier

  /** What a retrospective run records for one strategy. */
  datatype Run = Run(runId: string, date: string, tier: Tier, dsrPValue: real)

  datatype ClassificationEntry = ClassificationEntry(date: string, classification: Tier, triggeredBy: string,
                                                     dsrPValue: real)

  datatype Reclassified = Reclassified(before: Option<Tier>, after: Tier, runId: string)

  datatype Record = Record(
    validationHistory: seq<Run>,
    current: Option<Tier>,
    classificationHistory: seq<ClassificationEntry>,
    decisionLog: seq<Reclassified>)

  const EMPTY := Record([], None, [], [])

  predicate HasValidationRun(b: Record, runId: string) {
    exists i :: 0 <= i < |b.validationHistory| && b.validationHistory[i].runId == runId
  }

  predicate HasClassificationChange(b: Record, runId: string) {
    exists i :: 0 <= i < |b.classificationHistory| && b.classificationHistory[i].triggeredBy == runId
  }

  /** The biography after one run. */
  function Written(b: Record, run: Run): Record {
    if HasValidationRun(b, run.runId) then b else
    var recorded := b.(validationHistory := b.validationHistory + [run], current := Some(run.tier));
    if b.current == Some(run.tier) || HasClassificationChange(b, run.runId) then recorded
    else recorded.(
      classificationHistory := b.classificationHistory
        + [ClassificationEntry(run.date, run.tier, run.runId, run.dsrPValue)],
      decisionLog := b.decisionLog + [Reclassified(b.current, run.tier, run.runId)])
  }

  class StrategyBiography {
    var record: Record

    constructor ()
      ensures record == EMPTY
    {
      record := EMPTY;
    }

    /** Append a run's results, once. */
    method WriteBiography(run: Run) returns (updated: bool)
      modifies this
      ensures record == Written(old(record), run)
      ensures updated <==> !HasValidationRun(old(record), run.runId)
    {
      if HasValidationRun(record, run.runId) {
        return false;
      }
      record := record.(validationHistory := record.validationHistory + [run]);
      var previous := record.current;
      record := record.(current := Some(run.tier));
      if previous != Some(run.tier) && !HasClassificationChange(record, run.runId) {
        record := record.(
          classificationHistory := record.classificationHistory
            + [ClassificationEntry(run.date, run.tier, run.runId, run.dsrPValue)],
          decisionLog := record.decisionLog + [Reclassified(previous, run.tier, run.runId)]);
      }
      updated := true;
    }
  }

  /** What one run changes: a new identifier is appended and becomes current; the classification history and
      the decision log each grow by its entry exactly if the tier is not the current one and no earlier
      entry was triggered by it, and nothing that was there changes. */
  lemma WrittenExactly(b: Record, run: Run)
    ensures var after := Written(b, run);
            if exists r :: r in b.validationHistory && r.runId == run.runId then after == b
            else
              && after.validationHistory == b.validationHistory + [run] && after.current == Some(run.tier)
              && if b.current != Some(run.tier)
                    && (forall e :: e in b.classificationHistory ==> e.triggeredBy != run.runId)
                 then && after.classificationHistory == b.classificationHistory
                           + [ClassificationEntry(run.date, run.tier, run.runId, run.dsrPValue)]
                      && after.decisionLog == b.decisionLog + [Reclassified(b.current, run.tier, run.runId)]
                 else after.classificationHistory == b.classificationHistory && after.decisionLog == b.decisionLog
  {
  }

  function Replay(runs: seq<Run>): Record {
    if runs == [] then EMPTY else Written(Replay(runs[..|runs| - 1]), runs[|runs| - 1])
  }

  predicate Mentions(runs: seq<Run>, runId: string) {
    exists i :: 0 <= i < |runs| && runs[i].runId == runId
  }

  /** The runs with every repeated run id dropped after its first use. */
  function FirstOfEach(runs: seq<Run>): seq<Run> {
    if runs == [] then []
    else
      var front := FirstOfEach(runs[..|runs| - 1]);
      if Mentions(front, runs[|runs| - 1].runId) then front else front + [runs[|runs| - 1]]
  }

  ghost predicate ChangesAreRuns(b: Record) {
    forall i :: 0 <= i < |b.classificationHistory| ==> HasValidationRun(b, b.classificationHistory[i].triggeredBy)
  }

  ghost predicate RunsAreUnique(b: Record) {
    forall i, j :: 0 <= i < j < |b.validationHistory| ==> b.validationHistory[i].runId != b.validationHistory[j].runId
  }

  /** The classification that entry i replaced. */
  function Replaced(changes: seq<ClassificationEntry>, i: nat): Option<Tier>
    requires i <= |changes|
  {
    if i == 0 then None else Some(changes[i - 1].classification)
  }

  /** Each log line reports one entry of the classification history and what it replaced. */
  ghost predicate Mirrors(log: seq<Reclassified>, changes: seq<ClassificationEntry>) {
    |log| == |changes| && forall i :: 0 <= i < |log| ==> ReportsEntry(log[i], changes, i)
  }

  ghost predicate ReportsEntry(line: Reclassified, changes: seq<ClassificationEntry>, i: nat)
    requires i < |changes|
  {
    && line.before == Replaced(changes, i)
    && line.after == changes[i].classification
    && line.runId == changes[i].triggeredBy
  }

  ghost predicate LogMirrors(b: Record) {
    Mirrors(b.decisionLog, b.classificationHistory)
  }

  /** The histories of a biography that only this procedure has written. */
  ghost predicate Coherent(b: Record) {
    ChangesAreRuns(b) && RunsAreUnique(b) && LogMirrors(b)
  }

  /** Consecutive classifications differ, and the last is the current one. */
  ghost predicate ChangesOnly(b: Record) {
    && (forall i :: 0 <= i < |b.classificationHistory| - 1 ==>
          b.classificationHistory[i].classification != b.classificationHistory[i + 1].classification)
    && b.current == Replaced(b.classificationHistory, |b.classificationHistory|)
  }

  lemma WrittenKeepsRuns(b: Record, run: Run)
    requires ChangesAreRuns(b) && RunsAreUnique(b)
    ensures ChangesAreRuns(Written(b, run)) && RunsAreUnique(Written(b, run))
  {
    var after := Written(b, run);
    if !HasValidationRun(b, run.runId) {
      forall id | HasValidationRun(b, id) || id == run.runId ensures HasValidationRun(after, id) {
        if id == run.runId {
          assert after.validationHistory[|b.validationHistory|].runId == id;
        } else {
          var i :| 0 <= i < |b.validationHistory| && b.validationHistory[i].runId == id;
          assert after.validationHistory[i].runId == id;
        }
      }
      forall i | 0 <= i < |b.classificationHistory|
        ensures HasValidationRun(after, after.classificationHistory[i].triggeredBy)
      {
        assert after.classificationHistory[i] == b.classificationHistory[i];
      }
    }
  }

  lemma WrittenKeeps(b: Record, run: Run)
    requires Coherent(b) && ChangesOnly(b)
    ensures Coherent(Written(b, run)) && ChangesOnly(Written(b, run))
  {
    hide Written, ChangesAreRuns, RunsAreUnique, LogMirrors, ChangesOnly;
    WrittenKeepsRuns(b, run);
    WrittenKeepsChanges(b, run);
  }

  lemma WrittenKeepsChanges(b: Record, run: Run)
    requires ChangesAreRuns(b) && LogMirrors(b) && ChangesOnly(b)
    ensures LogMirrors(Written(b, run)) && ChangesOnly(Written(b, run))
  {
    if !HasValidationRun(b, run.runId) {
      if b.current != Some(run.tier) {
      }
    }
  }

  /** From an empty biography, after any runs in any order: the classification history records
      exactly the changes, the decision log mirrors it, and no run is recorded twice. */
  lemma {:induction false} ReplayIsCoherent(runs: seq<Run>)
    ensures Coherent(Replay(runs)) && ChangesOnly(Replay(runs))
  {
    hide Written;
    if runs != [] {
      ReplayIsCoherent(runs[..|runs| - 1]);
      WrittenKeeps(Replay(runs[..|runs| - 1]), runs[|runs| - 1]);
    }
  }

  /** The validation history is the list of runs, each at its first use. */
  lemma {:induction false} HistoryIsFirstOfEach(runs: seq<Run>)
    ensures Replay(runs).validationHistory == FirstOfEach(runs)
  {
    if runs != [] {
      HistoryIsFirstOfEach(runs[..|runs| - 1]);
    }
  }

  /** Re-running a crashed or repeated retrospective is harmless: any list of runs leaves the same
      biography as the list without its repeats. */
  lemma {:induction false} ReplayIgnoresRepeats(runs: seq<Run>)
    ensures Replay(runs) == Replay(FirstOfEach(runs))
  {
    if runs != [] {
      var front, last := runs[..|runs| - 1], runs[|runs| - 1];
      ReplayIgnoresRepeats(front);
      HistoryIsFirstOfEach(front);
      assert Mentions(FirstOfEach(front), last.runId) == HasValidationRun(Replay(front), last.runId);
      var firsts := FirstOfEach(front);
      assert (firsts + [last])[..|firsts|] == firsts;
    }
  }
}

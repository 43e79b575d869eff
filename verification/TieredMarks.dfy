/** The commit and applied indexes of the hybrid log: what the main process answers, and what reaches the archive. */
module TieredMarks {
  import opened RaftTypes
  import opened Stores
  import opened TieredLog
  import opened TieredCopy

  // -------------------------------------------------------------- the main process

  /** The highest index marked committed (`commits`) or applied in the first `k` steps. */
  function HighestMark(steps: seq<Step>, k: nat, commits: bool): nat
    requires k <= |steps|
  {
    if k == 0 then 0
    else
      var rest, s := HighestMark(steps, k - 1, commits), steps[k - 1];
      if s.DoMark? then Max(rest, if commits then s.commit else s.applied) else rest
  }

  lemma StepMarks(t: Tiered, step: Step)
    requires Enabled(t, step)
    ensures var h, h' := t.lmdb.head, Act(t, step).lmdb.head;
            if step.DoMark? then h'.commit == Max(h.commit, step.commit) && h'.applied == Max(h.applied, step.applied)
            else h'.commit == h.commit && h'.applied == h.applied
  {
  }

  /** Over every run, careful or not, the hybrid log answers with the highest indexes ever marked: no delete, snapshot
      or copy lowers them. */
  lemma {:induction false} AnswersHighestMarks(run: seq<Tiered>, truth: seq<Truth>, steps: seq<Step>, k: nat)
    requires IsRun(run, truth, steps) && k <= |steps|
    ensures run[k].lmdb.head.commit == HighestMark(steps, k, true)
    ensures run[k].lmdb.head.applied == HighestMark(steps, k, false)
  {
    if k > 0 {
      AnswersHighestMarks(run, truth, steps, k - 1);
      assert Goes(run[k - 1], truth[k - 1], steps[k - 1], run[k], truth[k]);
      StepMarks(run[k - 1], steps[k - 1]);
    }
  }

  // -------------------------------------------------------------- the archive

  lemma {:induction false} InsertsKeepMarks(w: Table, recs: seq<LogRec>)
    ensures var h, h' := w.head, InsertEach(w, recs).table.head;
            h'.commit == h.commit && h'.applied == h.applied && LastIndex(h') >= LastIndex(h)
    decreases |recs|
  {
    if recs != [] && Insert(w, recs[0]).Ok? {
      InsertsKeepMarks(Insert(w, recs[0]).value, recs[1..]);
    }
  }

  /** The marks of `h`, raised to those of the main process as far as the copy has come. */
  ghost predicate CaughtUp(t: Tiered, h: Head, h': Head)
  {
    && h'.commit == Max(h.commit, Min(t.upCommit, LastIndex(h')))
    && h'.applied == Max(h.applied, Min(t.upApplied, LastIndex(h')))
  }

  lemma PassMarks(t: Tiered, size: nat)
    requires t.phase.Copying? && t.phase.myLast < t.limit && !Pass(t, size).phase.Dead?
    ensures var t' := Pass(t, size);
            && t' == t.(sqlite := t'.sqlite, writer := t'.writer, phase := t'.phase) && t'.phase.Copying?
            && CaughtUp(t, t.writer, t'.writer) && LastIndex(t'.writer) >= LastIndex(t.writer)
            && t'.sqlite.head.commit == t'.writer.commit && t'.sqlite.head.applied == t'.writer.applied
  {
    var myLast := t.phase.myLast;
    var rows := Gather(t.lmdb.rows, t.source.maxIndex, myLast, BlockEnd(myLast, t.limit, size));
    InsertsKeepMarks(Table(t.sqlite, t.writer), rows);
  }

  /** After any number of turns that do not raise. */
  lemma {:induction false} PassesMarks(t: Tiered, size: nat, n: nat)
    requires t.phase.Copying? && t.phase.myLast < t.limit && n >= 1 && !Passes(t, size, n).phase.Dead?
    ensures var t' := Passes(t, size, n);
            && CaughtUp(t, t.writer, t'.writer) && LastIndex(t'.writer) >= LastIndex(t.writer)
            && t'.sqlite.head.commit == t'.writer.commit && t'.sqlite.head.applied == t'.writer.applied
    decreases n
  {
    var t1 := Pass(t, size);
    assert Passes(t, size, n) == Passes(t1, size, n - 1);
    PassMarks(t, size);
    if n > 1 {
      if t1.phase.myLast < t.limit {
        PassesMarks(t1, size, n - 1);
      } else {
        var t2 := Pass(t1, size);
        assert t2 == t1.(phase := t2.phase) && t2.phase.Offering?;
        assert Passes(t1, size, n - 1) == Passes(t2, size, n - 2) == t2;
      }
    }
  }

  /** The writer hears of these deletes, one after the other. */
  function NoteAll(t: Tiered, notes: seq<nat>): Tiered
    decreases |notes|
  {
    if notes == [] then t else NoteDelete(NoteAll(t, notes[..|notes| - 1]), notes[|notes| - 1])
  }

  /** `k` is the lowest of `mark` and the new last indexes after these deletes. */
  ghost predicate IsLowest(mark: nat, notes: seq<nat>, k: nat)
  {
    && (k == mark || k in notes) && k <= mark
    && forall i :: 0 <= i < |notes| ==> k <= notes[i]
  }

  lemma {:induction false} NotesLower(t: Tiered, notes: seq<nat>)
    ensures var t' := NoteAll(t, notes);
            && IsLowest(t.upCommit, notes, t'.upCommit) && IsLowest(t.upApplied, notes, t'.upApplied)
            && t' == t.(source := t'.source, upCommit := t'.upCommit, upApplied := t'.upApplied)
    decreases |notes|
  {
    if notes != [] {
      NotesLower(t, notes[..|notes| - 1]);
    }
  }

  /** The archive file after a limit with the marks of the main process, some deletes and `n` turns of the task. */
  function AfterTask(t: Tiered, limit: int, commit: nat, applied: nat, notes: seq<nat>, size: nat, n: nat): Tiered
  {
    Passes(Begin(NoteAll(SetLimit(t, limit, commit, applied), notes)), size, n)
  }

  /** Told how far the main process has committed and applied, and then of deletes, the copy task raises the marks of
      the archive to exactly what it was told, less what the deletes took away, as far as it has copied. */
  lemma ArchiveMarksFollow(t: Tiered, limit: int, commit: nat, applied: nat, notes: seq<nat>, size: nat, n: nat)
    returns (low: nat, lowApplied: nat)
    requires t.phase.Idle? && n >= 1 && !AfterTask(t, limit, commit, applied, notes, size, n).phase.Dead?
    requires Max(1, LastIndex(Refresh(t.sqlite, t.writer))) < limit
    ensures IsLowest(commit, notes, low) && IsLowest(applied, notes, lowApplied)
    ensures var t' := AfterTask(t, limit, commit, applied, notes, size, n);
            && t'.sqlite.head.commit == Max(t.sqlite.head.commit, Min(low, LastIndex(t'.writer)))
            && t'.sqlite.head.applied == Max(t.sqlite.head.applied, Min(lowApplied, LastIndex(t'.writer)))
  {
    var told := SetLimit(t, limit, commit, applied);
    var noted := NoteAll(told, notes);
    NotesLower(told, notes);
    low, lowApplied := noted.upCommit, noted.upApplied;
    PassesMarks(Begin(noted), size, n);
  }
}

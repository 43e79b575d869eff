/** The hybrid log as a step system: the main process owns the LMDB log and a SQLite log object, the writer process
    owns a second SQLite object on the same file and a reader of the LMDB log. Main steps and writer steps
    interleave freely; a copied block, and each archive snapshot offered, is one step. The writer takes no message
    while its copy loop runs, because nothing in that loop suspends. Block and snapshot sizes are settings that may
    differ from step to step. */
module TieredLog {
  import opened RaftTypes
  import opened Stores

  /** Where the writer's copy task stands. */
  datatype Phase = Idle | Starting | Copying(myLast: nat) | Offering(low: nat, high: nat) | Dead

  datatype Tiered = Tiered(
    lmdb: File,                    // written by the main process alone, whose head is the saved one
    sqlite: File,
    main: Head,                    // head of the main process's SQLite object
    writer: Head,                  // head of the writer's SQLite object
    source: Head,                  // head of the writer's LMDB object
    phase: Phase,
    limit: int,
    upCommit: nat,
    upApplied: nat,
    offers: seq<Snapshot>,         // archive snapshots sent and not yet installed
    archived: Option<Snapshot>)    // last_lmdb_snap

  const FRESH := Tiered(File(map[], BLANK), File(map[], BLANK), BLANK, BLANK, BLANK, Idle, 0, 0, 0, [], None)

  function Lmdb(t: Tiered): Table { Table(t.lmdb, t.lmdb.head) }

  function MainSqlite(t: Tiered): Table { Table(t.sqlite, t.main) }

  function Arch(t: Tiered): nat { if t.archived.Some? then t.archived.value.index else 0 }

  predicate Active(t: Tiered) { t.phase.Copying? || t.phase.Offering? }

  // -------------------------------------------------------------- the main process

  function HybridRead(t: Tiered, i: nat): Result<Option<LogRec>>
  {
    if t.archived.Some? && t.archived.value.index >= i then Read(MainSqlite(t), i) else Read(Lmdb(t), i)
  }

  /** read() without an index goes to LMDB alone. */
  function HybridReadLast(t: Tiered): Option<LogRec> { ReadLast(Lmdb(t)) }

  function HybridInsert(t: Tiered, rec: LogRec): Tiered
  {
    var r := Insert(Lmdb(t), rec);
    if r.Ok? then t.(lmdb := r.value.file) else t
  }

  /** The SQLite half of a delete, decided on the main process's own head. */
  predicate Truncates(t: Tiered, i: nat) { FirstIndex(t.main).Some? && i < LastIndex(t.main) }

  function DeleteArchived(t: Tiered, i: nat): Tiered
  {
    if !Truncates(t, i) then t else
    var r := Delete(MainSqlite(t), i);
    if r.Ok? then t.(sqlite := r.value.file, main := r.value.head) else t
  }

  /** The LMDB half: a delete inside the archived range drops everything. */
  function DeleteLocal(t: Tiered, i: nat): Tiered
  {
    var l := Lmdb(t);
    if l.head.snapshot.None? || Base(l.head) < i then
      var r := DeleteKeepingMarks(l, i);
      if r.Ok? then t.(lmdb := r.value.file) else t
    else
      var bare := t.lmdb.(head := t.lmdb.head.(snapshot := None));
      var r := DeleteKeepingMarks(Table(bare, bare.head), 1);
      t.(lmdb := if r.Ok? then r.value.file else bare)
  }

  predicate DeleteLocalRaises(t: Tiered, i: nat)
  {
    if t.lmdb.head.snapshot.None? || Base(t.lmdb.head) < i then DeleteRaises(t.lmdb.head, i)
    else t.lmdb.head.maxIndex < 1
  }

  predicate DeleteRefused(t: Tiered, i: nat) { t.main.snapshot.Some? && i < t.main.snapshot.value.index + 1 }

  function HybridDelete(t: Tiered, i: nat): Tiered
  {
    if DeleteRefused(t, i) then t else DeleteLocal(DeleteArchived(t, i), i)
  }

  /** An application snapshot goes to SQLite, and to LMDB when it lies beyond LMDB's first record. */
  function PruneSqlite(t: Tiered, s: Snapshot): Tiered
  {
    var r := Prune(Table(t.sqlite, Refresh(t.sqlite, t.main)), s);
    t.(sqlite := r.file, main := r.head)
  }

  function PruneLmdb(t: Tiered, s: Snapshot): Tiered
  {
    var h := t.lmdb.head;
    if h.snapshot.Some? && h.snapshot.value.index >= s.index then t
    else if FirstIndex(h).Some? && s.index > FirstIndex(h).value then t.(lmdb := Prune(Lmdb(t), s).file)
    else t
  }

  function HybridInstall(t: Tiered, s: Snapshot): Tiered
  {
    if s.index == 0 then t.(main := Refresh(t.sqlite, t.main)) else PruneLmdb(PruneSqlite(t, s), s)
  }

  /** process_snapshot: an archive snapshot prunes LMDB and moves the routing point of reads. */
  function TakeOffer(t: Tiered): Tiered
    requires t.offers != []
  {
    var o := t.offers[0];
    var t' := t.(offers := t.offers[1..], main := Refresh(t.sqlite, t.main));
    if o.index == 0 then t' else t'.(lmdb := Prune(Lmdb(t), o).file, archived := Some(o))
  }

  /** set_term, set_voted_for, set_broken: the SQLite stats row is rewritten from the main process's head. */
  function SaveMeta(t: Tiered): Tiered { t.(sqlite := SaveStats(t.sqlite, t.main)) }

  // -------------------------------------------------------------- the writer process

  function SetLimit(t: Tiered, limit: int, commit: nat, applied: nat): Tiered
  {
    t.(limit := limit, upCommit := commit, upApplied := applied, phase := if t.phase.Idle? then Starting else t.phase)
  }

  function NoteDelete(t: Tiered, newLast: nat): Tiered
  {
    t.(source := t.lmdb.head, upCommit := Min(newLast, t.upCommit), upApplied := Min(newLast, t.upApplied))
  }

  function Begin(t: Tiered): Tiered
  {
    var writer := Refresh(t.sqlite, t.writer);
    t.(source := t.lmdb.head, writer := writer,
       phase := Copying(if LastIndex(writer) == 0 then 1 else LastIndex(writer)))
  }

  /** The rows `first..last` of the LMDB log that a reader with last index `max` finds. */
  function Gather(rows: map<nat, LogRec>, max: nat, first: nat, last: int): seq<LogRec>
    decreases last - first
  {
    if first > last then []
    else (if first <= max && first in rows then [rows[first]] else []) + Gather(rows, max, first + 1, last)
  }

  datatype Copied = Copied(table: Table, raised: bool)

  function InsertEach(t: Table, recs: seq<LogRec>): Copied
    decreases |recs|
  {
    if recs == [] then Copied(t, false) else
    var r := Insert(t, recs[0]);
    if r.Ok? then InsertEach(r.value, recs[1..]) else Copied(t, true)
  }

  function BlockEnd(myLast: nat, limit: int, size: nat): int { if limit - myLast > size then myLast + size else limit }

  function CopyBlock(t: Tiered, first: nat, last: int): Copied
  {
    if first < 1 && first <= last then Copied(Table(t.sqlite, t.writer), true)
    else InsertEach(Table(t.sqlite, t.writer), Gather(t.lmdb.rows, t.source.maxIndex, first, last))
  }

  /** set_term saves the head once more; then the marks follow the upstream ones as far as the copy has come. */
  function CatchUpMarks(w: Table, upCommit: nat, upApplied: nat): Table
  {
    var last := LastIndex(w.head);
    Mark(Table(SaveStats(w.file, w.head), w.head), Min(upCommit, last), Min(upApplied, last))
  }

  /** One turn of the copy loop, or its end. */
  function Pass(t: Tiered, size: nat): Tiered
    requires t.phase.Copying?
  {
    var myLast := t.phase.myLast;
    if myLast < t.limit then
      var c := CopyBlock(t, myLast, BlockEnd(myLast, t.limit, size));
      if c.raised then t.(sqlite := c.table.file, writer := c.table.head, phase := Dead)
      else
        var w := CatchUpMarks(c.table, t.upCommit, t.upApplied);
        t.(sqlite := w.file, writer := w.head, phase := Copying(LastIndex(w.head)))
    else
      t.(phase := Offering(Base(t.source) + 1, myLast))
  }

  /** One turn of the snapshot loop, or its end. */
  function Offer(t: Tiered, snapSize: nat): Tiered
    requires t.phase.Offering?
  {
    var Offering(low, high) := t.phase;
    if high - low >= snapSize then
      var r := if low + snapSize < 1 then Raised else Read(Table(t.sqlite, t.writer), low + snapSize - 1);
      if r.Raised? || r.value.None? then t.(phase := Dead)
      else
        var rec := r.value.value;
        t.(offers := t.offers + [Snapshot(rec.index, rec.term)], phase := Offering(low + snapSize, high))
    else t.(phase := Idle)
  }

  // -------------------------------------------------------------- steps

  datatype Step =
    | DoInsert(rec: LogRec)
    | DoDelete(from: nat)
    | DoInstall(snap: Snapshot)
    | DoMark(commit: nat, applied: nat)
    | DoSaveMeta
    | DoTakeOffer
    | DoSetLimit(limit: int, upCommit: nat, upApplied: nat)
    | DoNoteDelete(newLast: nat)
    | DoBegin
    | DoPass(size: nat)
    | DoOffer(snapSize: nat)

  predicate Enabled(t: Tiered, step: Step)
  {
    match step
    case DoTakeOffer => t.offers != []
    case DoBegin => t.phase.Starting?
    case DoPass(_) => t.phase.Copying?
    case DoOffer(_) => t.phase.Offering?
    case DoSetLimit(_, _, _) => !t.phase.Dead? && !t.phase.Copying?
    case DoNoteDelete(_) => !t.phase.Dead? && !t.phase.Copying?
    case _ => true
  }

  function Act(t: Tiered, step: Step): Tiered
    requires Enabled(t, step)
  {
    match step
    case DoInsert(rec) => HybridInsert(t, rec)
    case DoDelete(i) => HybridDelete(t, i)
    case DoInstall(s) => HybridInstall(t, s)
    case DoMark(c, a) => t.(lmdb := Mark(Lmdb(t), c, a).file)
    case DoSaveMeta => SaveMeta(t)
    case DoTakeOffer => TakeOffer(t)
    case DoSetLimit(limit, c, a) => SetLimit(t, limit, c, a)
    case DoNoteDelete(newLast) => NoteDelete(t, newLast)
    case DoBegin => Begin(t)
    case DoPass(size) => Pass(t, size)
    case DoOffer(size) => Offer(t, size)
  }

  // -------------------------------------------------------------- the simple log it must look like

  /** Every record last inserted, the application snapshot, and the highest archive snapshot ever offered. */
  datatype Truth = Truth(recs: seq<LogRec>, base: nat, top: nat)

  function PutTruth(recs: seq<LogRec>, rec: LogRec): seq<LogRec>
  {
    if rec.index > |recs| + 1 then recs
    else if rec.index == 0 then recs + [rec.(index := |recs| + 1)]
    else if rec.index == |recs| + 1 then recs + [rec]
    else recs[rec.index - 1 := rec]
  }

  function CutTruth(recs: seq<LogRec>, i: nat): seq<LogRec>
  {
    if i > |recs| then recs else if i == 0 then [] else recs[..i - 1]
  }

  function Offered(top: nat, before: seq<Snapshot>, after: seq<Snapshot>): nat
  {
    if |after| > |before| then Max(top, after[|after| - 1].index) else top
  }

  function TruthAct(t: Tiered, a: Truth, step: Step): Truth
    requires Enabled(t, step)
  {
    match step
    case DoInsert(rec) => a.(recs := PutTruth(a.recs, rec))
    case DoDelete(i) => if t.main.snapshot.Some? && i <= a.base then a else a.(recs := CutTruth(a.recs, i))
    case DoInstall(s) => if s.index == 0 then a else a.(base := s.index)
    case DoOffer(_) => a.(top := Offered(a.top, t.offers, Act(t, step).offers))
    case _ => a
  }

  /** The copy loop of the task is over, or is about to be left. */
  predicate AtOffers(t: Tiered) { t.phase.Offering? || (t.phase.Copying? && t.limit <= t.phase.myLast) }

  /** A record may be rewritten in place only where no copy of it will be relied upon. */
  predicate Rewritable(t: Tiered, a: Truth, i: nat)
  {
    i <= a.base || (i > a.top && i >= t.sqlite.head.maxIndex && (Active(t) ==> i >= t.writer.maxIndex))
  }

  /** What the run must respect, step by step. */
  predicate Careful(t: Tiered, a: Truth, step: Step)
    requires Enabled(t, step)
  {
    match step
    case DoInsert(rec) =>
      rec.index == 0 || rec.index > |a.recs| || a.recs[rec.index - 1] == rec || Rewritable(t, a, rec.index)
    // not while a copy runs, above every offer, and not between the main process's stale last index and the real one
    case DoDelete(i) => !Active(t) && i > a.top && (Truncates(t, i) || t.sqlite.head.maxIndex <= i)
    case DoInstall(s) => a.base <= s.index <= |a.recs|
    // the main process knows of every record that is offered, or can be before the writer saves again
    case DoSaveMeta =>
      a.top <= Max(t.main.maxIndex, a.base) && (AtOffers(t) ==> t.writer.maxIndex <= Max(t.main.maxIndex, a.base) + 1)
    // offers are installed in order
    case DoTakeOffer => Arch(t) <= Max(t.offers[0].index, a.base)
    case _ => true
  }

  ghost predicate Goes(t: Tiered, a: Truth, step: Step, t': Tiered, a': Truth)
  {
    Enabled(t, step) && t' == Act(t, step) && a' == TruthAct(t, a, step)
  }

  ghost predicate IsRun(run: seq<Tiered>, truth: seq<Truth>, steps: seq<Step>)
  {
    && |run| == |truth| == |steps| + 1 && run[0] == FRESH && truth[0] == Truth([], 0, 0)
    && forall k :: 0 <= k < |steps| ==> Goes(run[k], truth[k], steps[k], run[k + 1], truth[k + 1])
  }

  ghost predicate IsCarefulRun(run: seq<Tiered>, truth: seq<Truth>, steps: seq<Step>)
  {
    && IsRun(run, truth, steps)
    && forall k :: 0 <= k < |steps| ==> Enabled(run[k], steps[k]) && Careful(run[k], truth[k], steps[k])
  }
}

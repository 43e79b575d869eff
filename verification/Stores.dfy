/** The record tables of the SQLite and LMDB logs, and the simple log that the LogAPI text describes. A log object
    keeps a head in memory and writes it back to its file; two objects opened on one file share the rows but not
    their heads. */
module Stores {
  import opened RaftTypes

  datatype Snapshot = Snapshot(index: nat, term: nat)

  /** What a log object caches: the stats row and the snapshot row. */
  datatype Head = Head(maxIndex: nat, commit: nat, applied: nat, snapshot: Option<Snapshot>)

  datatype File = File(rows: map<nat, LogRec>, head: Head)

  /** One log object: its file and its own head. */
  datatype Table = Table(file: File, head: Head)

  const BLANK := Head(0, 0, 0, None)

  const EMPTY := Table(File(map[], BLANK), BLANK)

  /** Index of the snapshot, or 0. */
  function Base(h: Head): nat { if h.snapshot.Some? then h.snapshot.value.index else 0 }

  function LastIndex(h: Head): nat { Max(h.maxIndex, Base(h)) }

  function FirstIndex(h: Head): Option<nat>
  {
    if h.maxIndex > Base(h) then Some(Base(h) + 1) else None
  }

  /** save_stats: the stats row is overwritten from memory, the snapshot row is left alone. */
  function SaveStats(f: File, h: Head): File { f.(head := h.(snapshot := f.head.snapshot)) }

  function Refresh(f: File, h: Head): Head
  {
    f.head.(snapshot := if f.head.snapshot.Some? then f.head.snapshot else h.snapshot)
  }

  /** Index 0 stands for a record without one. */
  function Slot(h: Head, rec: LogRec): nat { if rec.index == 0 then h.maxIndex + 1 else rec.index }

  function Insert(t: Table, rec: LogRec): Result<Table>
  {
    if rec.index > t.head.maxIndex + 1 then Raised else
    var slot := Slot(t.head, rec);
    var head := t.head.(maxIndex := Max(slot, t.head.maxIndex));
    Ok(Table(SaveStats(t.file.(rows := t.file.rows[slot := rec.(index := slot)]), head), head))
  }

  function Lookup(rows: map<nat, LogRec>, i: nat): Option<LogRec> { if i in rows then Some(rows[i]) else None }

  function Read(t: Table, i: nat): Result<Option<LogRec>>
  {
    if i < 1 then Raised else if i > t.head.maxIndex then Ok(None) else Ok(Lookup(t.file.rows, i))
  }

  /** read() without an index. */
  function ReadLast(t: Table): Option<LogRec>
  {
    if t.head.maxIndex < 1 then None else Lookup(t.file.rows, t.head.maxIndex)
  }

  function Below(rows: map<nat, LogRec>, i: nat): map<nat, LogRec> { map j | j in rows && j < i :: rows[j] }

  function Above(rows: map<nat, LogRec>, i: nat): map<nat, LogRec> { map j | j in rows && j > i :: rows[j] }

  predicate DeleteRaises(h: Head, i: nat)
  {
    (h.snapshot.Some? && i < h.snapshot.value.index + 1) || h.maxIndex < i
  }

  /** The LMDB log keeps its commit and applied indexes across a delete. */
  function DeleteKeepingMarks(t: Table, i: nat): Result<Table>
  {
    if DeleteRaises(t.head, i) then Raised else
    var head := t.head.(maxIndex := if i > 0 then i - 1 else 0);
    Ok(Table(SaveStats(t.file.(rows := Below(t.file.rows, i)), head), head))
  }

  /** The SQLite log lowers them to the new last index. */
  function Delete(t: Table, i: nat): Result<Table>
  {
    if DeleteRaises(t.head, i) then Raised else
    var last := if i > 0 then i - 1 else 0;
    var head := t.head.(maxIndex := last, commit := Min(last, t.head.commit), applied := Min(last, t.head.applied));
    Ok(Table(SaveStats(t.file.(rows := Below(t.file.rows, i)), head), head))
  }

  /** special_install_snapshot: no validation. */
  function Prune(t: Table, s: Snapshot): Table
  {
    var head := t.head.(maxIndex := Max(s.index, t.head.maxIndex), snapshot := Some(s));
    Table(File(Above(t.file.rows, s.index), head), head)
  }

  function Install(t: Table, s: Snapshot): Result<Table>
  {
    if s.index == 0 then Raised else Ok(Prune(t, s))
  }

  function Mark(t: Table, commit: nat, applied: nat): Table
  {
    var head := t.head.(commit := Max(commit, t.head.commit), applied := Max(applied, t.head.applied));
    if head == t.head then t else Table(SaveStats(t.file, head), head)
  }

  ghost predicate Highest(rows: map<nat, LogRec>, i: nat)
  {
    i in rows && forall j :: j in rows ==> j <= i
  }

  /** What get_last_term answers: the term of the highest row, else of the snapshot, else 0. */
  ghost predicate AnswersLastTerm(t: Table, term: nat)
  {
    if t.file.rows == map[] then term == (if t.head.snapshot.Some? then t.head.snapshot.value.term else 0)
    else exists i :: Highest(t.file.rows, i) && term == t.file.rows[i].term
  }

  // -------------------------------------------------------------- the simple log

  /** The records above the snapshot, in order. */
  datatype Simple = Simple(base: Option<Snapshot>, recs: seq<LogRec>, commit: nat, applied: nat)

  function Start(l: Simple): nat { if l.base.Some? then l.base.value.index else 0 }

  function Last(l: Simple): nat { Start(l) + |l.recs| }

  datatype Op = Put(rec: LogRec) | Cut(from: nat) | Snap(snap: Snapshot) | Marks(commit: nat, applied: nat)

  /** What a caller owes: no record at or below the snapshot, no snapshot below the current one. */
  predicate Legal(l: Simple, op: Op)
  {
    match op
    case Put(rec) => rec.index == 0 || rec.index > Start(l)
    case Snap(s) => s.index >= Start(l)
    case _ => true
  }

  function SimpleStep(l: Simple, op: Op): Result<Simple>
    requires Legal(l, op)
  {
    match op
    case Put(rec) =>
      if rec.index > Last(l) + 1 then Raised
      else if rec.index == 0 then Ok(l.(recs := l.recs + [rec.(index := Last(l) + 1)]))
      else if rec.index == Last(l) + 1 then Ok(l.(recs := l.recs + [rec]))
      else Ok(l.(recs := l.recs[rec.index - Start(l) - 1 := rec]))
    case Cut(i) =>
      if (l.base.Some? && i <= Start(l)) || i > Last(l) then Raised
      else
        var keep := if i == 0 then 0 else i - 1;
        Ok(l.(recs := l.recs[..keep - Start(l)], commit := Min(keep, l.commit), applied := Min(keep, l.applied)))
    case Snap(s) =>
      if s.index == 0 then Raised
      else Ok(l.(base := Some(s), recs := if s.index >= Last(l) then [] else l.recs[s.index - Start(l)..]))
    case Marks(c, a) => Ok(l.(commit := Max(c, l.commit), applied := Max(a, l.applied)))
  }

  function TableStep(t: Table, op: Op): Result<Table>
  {
    match op
    case Put(rec) => Insert(t, rec)
    case Cut(i) => Delete(t, i)
    case Snap(s) => Install(t, s)
    case Marks(c, a) => Ok(Mark(t, c, a))
  }

  /** Exactly the indexes above the snapshot up to `maxIndex` have a row, and each row carries its index. */
  ghost predicate Exact(t: Table)
  {
    && t.file.head == t.head && Base(t.head) <= t.head.maxIndex
    && (forall i :: i in t.file.rows <==> Base(t.head) < i <= t.head.maxIndex)
    && (forall i :: i in t.file.rows ==> t.file.rows[i].index == i)
  }

  /** The simple log that an exact table stores. */
  ghost function Stored(t: Table): Simple
    requires Exact(t)
  {
    Simple(t.head.snapshot, seq(t.head.maxIndex - Base(t.head),
                                k requires 0 <= k < t.head.maxIndex - Base(t.head) =>
                                  t.file.rows[Base(t.head) + 1 + k]),
           t.head.commit, t.head.applied)
  }

  ghost predicate Refines(t: Table, op: Op)
    requires Exact(t) && Legal(Stored(t), op)
  {
    var r := TableStep(t, op);
    var l := SimpleStep(Stored(t), op);
    r.Raised? == l.Raised? && (r.Ok? ==> Exact(r.value) && Stored(r.value) == l.value)
  }

  lemma PutExact(t: Table, rec: LogRec)
    requires Exact(t) && Legal(Stored(t), Put(rec)) && Insert(t, rec).Ok?
    ensures Exact(Insert(t, rec).value)
  {
  }

  lemma PutRow(t: Table, rec: LogRec, k: nat)
    requires Exact(t) && Legal(Stored(t), Put(rec)) && Insert(t, rec).Ok? && Exact(Insert(t, rec).value)
    requires k < |Stored(Insert(t, rec).value).recs|
    ensures var then_ := SimpleStep(Stored(t), Put(rec)).value.recs;
            |then_| == |Stored(Insert(t, rec).value).recs| && Stored(Insert(t, rec).value).recs[k] == then_[k]
  {
    assert k < |Stored(t).recs| ==> Stored(t).recs[k] == t.file.rows[Base(t.head) + 1 + k];
  }

  lemma PutRefines(t: Table, rec: LogRec)
    requires Exact(t) && Legal(Stored(t), Put(rec))
    ensures Refines(t, Put(rec))
  {
    var r := Insert(t, rec);
    if r.Ok? {
      PutExact(t, rec);
      forall k | 0 <= k < |Stored(r.value).recs|
        ensures Stored(r.value).recs[k] == SimpleStep(Stored(t), Put(rec)).value.recs[k]
      {
        PutRow(t, rec, k);
      }
      assert Stored(r.value).recs == SimpleStep(Stored(t), Put(rec)).value.recs;
    }
  }

  lemma CutRefines(t: Table, i: nat)
    requires Exact(t)
    ensures Refines(t, Cut(i))
  {
    var r := Delete(t, i);
    if r.Ok? {
      assert Exact(r.value);
      assert Stored(r.value).recs == SimpleStep(Stored(t), Cut(i)).value.recs;
    }
  }

  /** A delete of the LMDB log keeps and drops the same records, raises alike, and leaves the marks where they were. */
  lemma CutKeepingMarks(t: Table, i: nat)
    requires Exact(t)
    ensures var r, l := DeleteKeepingMarks(t, i), SimpleStep(Stored(t), Cut(i));
            && r.Raised? == l.Raised?
            && (r.Ok? ==> Exact(r.value) &&
                          Stored(r.value) == l.value.(commit := Stored(t).commit, applied := Stored(t).applied))
  {
    var r := DeleteKeepingMarks(t, i);
    if r.Ok? {
      assert Exact(r.value);
      assert Stored(r.value).recs == SimpleStep(Stored(t), Cut(i)).value.recs;
    }
  }

  lemma SnapExact(t: Table, s: Snapshot)
    requires Exact(t) && Legal(Stored(t), Snap(s)) && s.index > 0
    ensures Exact(Prune(t, s))
  {
    var t' := Prune(t, s);
    assert t'.file.rows == Above(t.file.rows, s.index);
  }

  lemma SnapRefines(t: Table, s: Snapshot)
    requires Exact(t) && Legal(Stored(t), Snap(s))
    ensures Refines(t, Snap(s))
  {
    if s.index > 0 {
      SnapExact(t, s);
      var now, then_ := Stored(Prune(t, s)).recs, SimpleStep(Stored(t), Snap(s)).value.recs;
      assert |now| == |then_|;
      forall k | 0 <= k < |now|
        ensures now[k] == then_[k]
      {
        assert now[k] == t.file.rows[s.index + 1 + k];
      }
    }
  }

  /** Raises when the simple log raises, and otherwise stores what the simple log becomes. */
  lemma StepRefines(t: Table, op: Op)
    requires Exact(t) && Legal(Stored(t), op)
    ensures Refines(t, op)
  {
    match op
    case Put(rec) => PutRefines(t, rec);
    case Cut(i) => CutRefines(t, i);
    case Snap(s) => SnapRefines(t, s);
    case Marks(c, a) =>
      assert Stored(Mark(t, c, a)).recs == Stored(t).recs;
  }

  /** The caller's duties are exact: outside them, a call that does not raise leaves a table with a stray or a
      missing row. */
  lemma LegalExactly(t: Table, op: Op)
    requires Exact(t) && TableStep(t, op).Ok?
    ensures Exact(TableStep(t, op).value) <==> Legal(Stored(t), op)
  {
    var t' := TableStep(t, op).value;
    if Legal(Stored(t), op) {
      StepRefines(t, op);
    } else if op.Put? {
      assert op.rec.index in t'.file.rows;
    } else {
      assert op.snap.index + 1 !in t'.file.rows;
    }
  }

  lemma ExactReads(t: Table, i: nat)
    requires Exact(t)
    ensures var l := Stored(t);
            Read(t, i) == if i < 1 then Raised
                          else if Start(l) < i <= Last(l) then Ok(Some(l.recs[i - Start(l) - 1])) else Ok(None)
    ensures var l := Stored(t);
            ReadLast(t) == if l.recs == [] then None else Some(l.recs[|l.recs| - 1])
  {
  }

  lemma ExactIndexes(t: Table)
    requires Exact(t)
    ensures var l := Stored(t);
            && LastIndex(t.head) == Last(l)
            && FirstIndex(t.head) == (if l.recs == [] then None else Some(Start(l) + 1))
            && forall term :: AnswersLastTerm(t, term) <==>
                 term == if l.recs != [] then LastTerm(l.recs) else if l.base.Some? then l.base.value.term else 0
  {
    var l := Stored(t);
    if l.recs == [] {
      assert t.file.rows == map[];
    } else {
      assert Highest(t.file.rows, t.head.maxIndex);
    }
  }

  // -------------------------------------------------------------- runs of one table

  /** `tables` is a run over `ops`: a raising call changes nothing. */
  ghost predicate TableRun(tables: seq<Table>, ops: seq<Op>)
  {
    && |tables| == |ops| + 1 && tables[0] == EMPTY
    && forall k :: 0 <= k < |ops| ==>
         var r := TableStep(tables[k], ops[k]);
         tables[k + 1] == if r.Ok? then r.value else tables[k]
  }

  ghost predicate SimpleRun(logs: seq<Simple>, ops: seq<Op>)
  {
    && |logs| == |ops| + 1 && logs[0] == Simple(None, [], 0, 0)
    && forall k :: 0 <= k < |ops| ==>
         && Legal(logs[k], ops[k])
         && var r := SimpleStep(logs[k], ops[k]);
            logs[k + 1] == if r.Ok? then r.value else logs[k]
  }

  /** Over every legal run the table stores the simple log. */
  lemma {:induction false} TableRefinesSimpleLog(tables: seq<Table>, logs: seq<Simple>, ops: seq<Op>, k: nat)
    requires TableRun(tables, ops) && SimpleRun(logs, ops) && k <= |ops|
    ensures Exact(tables[k]) && Stored(tables[k]) == logs[k]
  {
    if k > 0 {
      TableRefinesSimpleLog(tables, logs, ops, k - 1);
      assert Legal(logs[k - 1], ops[k - 1]);
      StepRefines(tables[k - 1], ops[k - 1]);
    }
  }
}

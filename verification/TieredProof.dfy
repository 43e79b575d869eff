/** The hybrid log reads like one simple log, over every careful run. */
module TieredProof {
  import opened RaftTypes
  import opened Stores
  import opened TieredLog

  /** The SQLite row for index `j` is the record last inserted there. */
  ghost predicate Right(rows: map<nat, LogRec>, recs: seq<LogRec>, j: nat)
  {
    1 <= j <= |recs| && j in rows && rows[j] == recs[j - 1]
  }

  /** Agreement strictly below `k`, above the application snapshot. */
  ghost predicate Good(rows: map<nat, LogRec>, a: Truth, k: nat)
  {
    forall j {:trigger Right(rows, a.recs, j)} :: a.base < j < k ==> Right(rows, a.recs, j)
  }

  /** LMDB holds nothing wrong, and everything that is neither archived nor under the application snapshot. */
  ghost predicate LmdbInv(lmdb: File, arch: nat, a: Truth)
  {
    && lmdb.head.maxIndex == |a.recs| && Base(lmdb.head) <= Max(arch, a.base)
    && (forall j {:trigger Right(lmdb.rows, a.recs, j)} :: j in lmdb.rows ==> Right(lmdb.rows, a.recs, j))
    && (forall j {:trigger Right(lmdb.rows, a.recs, j)} ::
          Max(arch, a.base) < j <= |a.recs| ==> Right(lmdb.rows, a.recs, j))
  }

  /** SQLite agrees below each last index that anybody believes in, and up to every offer. */
  ghost predicate SqliteInv(t: Tiered, a: Truth)
  {
    && Good(t.sqlite.rows, a, t.sqlite.head.maxIndex) && Good(t.sqlite.rows, a, t.main.maxIndex)
    && Good(t.sqlite.rows, a, a.top + 1) && t.main.maxIndex <= Max(t.sqlite.head.maxIndex, a.base)
    && t.sqlite.head.snapshot == t.main.snapshot && Base(t.main) == a.base
    && (forall j {:trigger t.sqlite.rows[j]} :: j in t.sqlite.rows ==> t.sqlite.rows[j].index == j)
  }

  /** The highest offer has been installed, or lies under the application snapshot, or is still under way. */
  ghost predicate TopAccounted(t: Tiered, a: Truth)
  {
    a.top <= Max(Arch(t), a.base) || exists k :: 0 <= k < |t.offers| && t.offers[k].index == a.top
  }

  ghost predicate OfferInv(t: Tiered, a: Truth)
  {
    && Arch(t) <= a.top <= Max(t.sqlite.head.maxIndex, a.base) && a.top <= |a.recs|
    && Arch(t) <= Max(t.main.maxIndex, a.base)
    && a.base <= |a.recs| && Indexed(a.recs)
    && (forall k :: 0 <= k < |t.offers| ==> t.offers[k].index <= a.top)
    && TopAccounted(t, a)
  }

  /** While a task runs, nobody believes in more than the writer does, except under the application snapshot; and what
      the writer can still offer, the file's last index covers. */
  ghost predicate WriterInv(t: Tiered, a: Truth)
  {
    && Base(t.writer) <= a.base
    && (Active(t) ==>
          && Good(t.sqlite.rows, a, t.writer.maxIndex) && a.top <= Max(t.writer.maxIndex, a.base)
          && (AtOffers(t) ==> t.writer.maxIndex <= Max(t.sqlite.head.maxIndex, a.base) + 1)
          && t.sqlite.head.maxIndex <= Max(t.writer.maxIndex, a.base)
          && Base(t.source) <= Max(a.top, a.base))
    && (t.phase.Copying? ==>
          t.phase.myLast == Max(1, LastIndex(t.writer)) || LastIndex(t.writer) == t.phase.myLast == 0)
    && (t.phase.Offering? ==>
          1 <= t.phase.low <= Max(a.top, a.base) + 1 &&
          (t.phase.high == Max(1, LastIndex(t.writer)) || LastIndex(t.writer) == t.phase.high == 0))
  }

  ghost predicate Inv(t: Tiered, a: Truth)
  {
    LmdbInv(t.lmdb, Arch(t), a) && SqliteInv(t, a) && OfferInv(t, a) && WriterInv(t, a)
  }

  // -------------------------------------------------------------- main process steps

  lemma GoodAfter(rows: map<nat, LogRec>, a: Truth, rows': map<nat, LogRec>, a': Truth, k: nat, k': nat)
    requires Good(rows, a, k) && a'.base >= a.base && k' <= k
    requires forall j {:trigger Right(rows', a'.recs, j)} ::
               a'.base < j < k' && Right(rows, a.recs, j) ==> Right(rows', a'.recs, j)
    ensures Good(rows', a', k')
  {
    forall j {:trigger Right(rows', a'.recs, j)} | a'.base < j < k'
      ensures Right(rows', a'.recs, j)
    {
      assert Right(rows, a.recs, j);
    }
  }

  lemma InsertLmdb(t: Tiered, a: Truth, rec: LogRec)
    requires LmdbInv(t.lmdb, Arch(t), a) && a.base <= |a.recs|
    ensures LmdbInv(HybridInsert(t, rec).lmdb, Arch(t), a.(recs := PutTruth(a.recs, rec)))
  {
    var rows := t.lmdb.rows;
    var lmdb' := HybridInsert(t, rec).lmdb;
    var recs' := PutTruth(a.recs, rec);
    forall j: nat {:trigger Right(lmdb'.rows, recs', j)} | j in lmdb'.rows || Max(Arch(t), a.base) < j <= |recs'|
      ensures Right(lmdb'.rows, recs', j)
    {
      assert j in rows ==> Right(rows, a.recs, j);
      assert Max(Arch(t), a.base) < j <= |a.recs| ==> Right(rows, a.recs, j);
    }
  }

  lemma InsertSqlite(t: Tiered, a: Truth, rec: LogRec, k: nat)
    requires Good(t.sqlite.rows, a, k)
    requires rec.index == 0 || rec.index > |a.recs| || a.recs[rec.index - 1] == rec || rec.index <= a.base ||
             rec.index >= k
    ensures Good(t.sqlite.rows, a.(recs := PutTruth(a.recs, rec)), k)
  {
    GoodAfter(t.sqlite.rows, a, t.sqlite.rows, a.(recs := PutTruth(a.recs, rec)), k, k);
  }

  lemma InsertInv(t: Tiered, a: Truth, rec: LogRec)
    requires Inv(t, a) && Careful(t, a, DoInsert(rec))
    ensures Inv(HybridInsert(t, rec), a.(recs := PutTruth(a.recs, rec)))
  {
    InsertLmdb(t, a, rec);
    InsertSqlite(t, a, rec, t.sqlite.head.maxIndex);
    InsertSqlite(t, a, rec, t.main.maxIndex);
    InsertSqlite(t, a, rec, a.top + 1);
    if Active(t) {
      InsertSqlite(t, a, rec, t.writer.maxIndex);
    }
  }

  lemma DeleteLmdb(t: Tiered, a: Truth, i: nat)
    requires LmdbInv(t.lmdb, Arch(t), a) && Max(Arch(t), a.base) < i
    ensures LmdbInv(DeleteLocal(t, i).lmdb, Arch(t), a.(recs := CutTruth(a.recs, i)))
  {
    var rows := t.lmdb.rows;
    var lmdb' := DeleteLocal(t, i).lmdb;
    var recs' := CutTruth(a.recs, i);
    assert DeleteLocal(t, i).lmdb == if i > |a.recs| then t.lmdb else DeleteKeepingMarks(Lmdb(t), i).value.file;
    forall j: nat {:trigger Right(lmdb'.rows, recs', j)} | j in lmdb'.rows || Max(Arch(t), a.base) < j <= |recs'|
      ensures Right(lmdb'.rows, recs', j)
    {
      assert j in rows ==> Right(rows, a.recs, j);
      assert Max(Arch(t), a.base) < j <= |a.recs| ==> Right(rows, a.recs, j);
    }
  }

  lemma DeleteSqlite(t: Tiered, a: Truth, i: nat)
    requires Inv(t, a) && Careful(t, a, DoDelete(i)) && i > a.base
    ensures SqliteInv(DeleteArchived(t, i), a.(recs := CutTruth(a.recs, i)))
    ensures OfferInv(DeleteArchived(t, i), a.(recs := CutTruth(a.recs, i)))
  {
    var t' := DeleteArchived(t, i);
    var a' := a.(recs := CutTruth(a.recs, i));
    assert Truncates(t, i) <==> i < t.main.maxIndex;
    assert Truncates(t, i) ==> Right(t.sqlite.rows, a.recs, i);
    GoodAfter(t.sqlite.rows, a, t'.sqlite.rows, a', if Truncates(t, i) then t.main.maxIndex else t.sqlite.head.maxIndex,
              t'.sqlite.head.maxIndex);
    GoodAfter(t.sqlite.rows, a, t'.sqlite.rows, a', t.main.maxIndex, t'.main.maxIndex);
    GoodAfter(t.sqlite.rows, a, t'.sqlite.rows, a', a.top + 1, a.top + 1);
  }

  lemma DeleteInv(t: Tiered, a: Truth, i: nat)
    requires Inv(t, a) && Careful(t, a, DoDelete(i))
    ensures Inv(HybridDelete(t, i), TruthAct(t, a, DoDelete(i)))
  {
    if !DeleteRefused(t, i) {
      var t1 := DeleteArchived(t, i);
      DeleteSqlite(t, a, i);
      DeleteLmdb(t1, a, i);
      assert DeleteLocal(t1, i) == t1.(lmdb := DeleteLocal(t1, i).lmdb);
    }
  }

  lemma PruneLmdbInv(lmdb: File, arch: nat, a: Truth, s: Snapshot, arch': nat, a': Truth)
    requires LmdbInv(lmdb, arch, a) && a'.recs == a.recs && s.index <= |a.recs|
    requires Max(arch, a.base) <= Max(arch', a'.base) && s.index <= Max(arch', a'.base)
    ensures LmdbInv(Prune(Table(lmdb, lmdb.head), s).file, arch', a')
  {
    var lmdb' := Prune(Table(lmdb, lmdb.head), s).file;
    forall j: nat {:trigger Right(lmdb'.rows, a.recs, j)} | j in lmdb'.rows || Max(arch', a'.base) < j <= |a.recs|
      ensures Right(lmdb'.rows, a.recs, j)
    {
      assert Right(lmdb.rows, a.recs, j);
    }
  }

  lemma PruneSqliteInv(t: Tiered, a: Truth, s: Snapshot)
    requires Inv(t, a) && a.base <= s.index <= |a.recs|
    ensures SqliteInv(PruneSqlite(t, s), a.(base := s.index)) && OfferInv(PruneSqlite(t, s), a.(base := s.index))
    ensures WriterInv(PruneSqlite(t, s), a.(base := s.index))
  {
    var t' := PruneSqlite(t, s);
    var a' := a.(base := s.index);
    var D := t.sqlite.head.maxIndex;
    GoodAfter(t.sqlite.rows, a, t'.sqlite.rows, a', D, D);
    GoodAfter(t.sqlite.rows, a, t'.sqlite.rows, a', a.top + 1, a.top + 1);
    if Active(t) {
      GoodAfter(t.sqlite.rows, a, t'.sqlite.rows, a', t.writer.maxIndex, t.writer.maxIndex);
    }
  }

  lemma InstallInv(t: Tiered, a: Truth, s: Snapshot)
    requires Inv(t, a) && Careful(t, a, DoInstall(s))
    ensures Inv(HybridInstall(t, s), TruthAct(t, a, DoInstall(s)))
  {
    if s.index > 0 {
      PruneSqliteInv(t, a, s);
      PruneLmdbInv(t.lmdb, Arch(t), a, s, Arch(t), a.(base := s.index));
    }
  }

  lemma TakeOfferInv(t: Tiered, a: Truth)
    requires Inv(t, a) && t.offers != [] && Careful(t, a, DoTakeOffer)
    ensures Inv(TakeOffer(t), a)
  {
    var o := t.offers[0];
    if o.index > 0 {
      PruneLmdbInv(t.lmdb, Arch(t), a, o, o.index, a);
    }
    assert forall k :: 0 <= k < |t.offers[1..]| ==> t.offers[1..][k] == t.offers[k + 1];
  }

  lemma SaveMetaInv(t: Tiered, a: Truth)
    requires Inv(t, a) && Careful(t, a, DoSaveMeta)
    ensures Inv(SaveMeta(t), a)
  {
  }

  // -------------------------------------------------------------- writer steps

  lemma BeginInv(t: Tiered, a: Truth)
    requires Inv(t, a)
    ensures Inv(Begin(t), a)
  {
  }

  /** Rows are only ever replaced by right ones. */
  ghost predicate Improves(rows: map<nat, LogRec>, rows': map<nat, LogRec>, recs: seq<LogRec>)
  {
    && (forall j {:trigger Right(rows', recs, j)} :: Right(rows, recs, j) ==> Right(rows', recs, j))
    && (forall j {:trigger rows'[j]} :: j in rows' ==> rows'[j].index == j)
  }

  /** The writer's table half way through a block, about to read index `first` from an LMDB object that knows of
      `max` records: below its last index all is right, and so is the last row itself once the block is past it. */
  ghost predicate Midway(w: Table, a: Truth, first: nat, max: nat)
  {
    && Good(w.file.rows, a, w.head.maxIndex)
    && first >= w.head.maxIndex
    && (w.head.maxIndex < first <= max && first <= |a.recs| ==> Good(w.file.rows, a, w.head.maxIndex + 1))
    && Base(w.head) <= a.base
  }

  lemma CopyOne(w: Table, a: Truth, first: nat, max: nat, lmdb: map<nat, LogRec>)
    requires Midway(w, a, first, max) && Improves(w.file.rows, w.file.rows, a.recs) && Indexed(a.recs)
    requires 1 <= first <= max && Right(lmdb, a.recs, first)
    ensures var r := Insert(w, lmdb[first]);
            r.Ok? ==> && Midway(r.value, a, first + 1, max) && Improves(w.file.rows, r.value.file.rows, a.recs)
                      && r.value.head.snapshot == w.head.snapshot && r.value.head.maxIndex >= w.head.maxIndex
                      && r.value.file.head == r.value.head.(snapshot := w.file.head.snapshot)
  {
    var r := Insert(w, lmdb[first]);
    if r.Ok? {
      var rows' := r.value.file.rows;
      assert lmdb[first].index == first;
      assert Right(rows', a.recs, first);
      forall j {:trigger Right(rows', a.recs, j)} | a.base < j < r.value.head.maxIndex + 1
        ensures Right(rows', a.recs, j)
      {
        assert j < w.head.maxIndex ==> Right(w.file.rows, a.recs, j);
        assert w.head.maxIndex < first && j < w.head.maxIndex + 1 ==> Right(w.file.rows, a.recs, j);
      }
    }
  }

  /** An index that LMDB no longer has was archived before, so SQLite is right there already. */
  lemma SkipOne(w: Table, a: Truth, first: nat, t: Tiered)
    requires first > t.source.maxIndex || first !in t.lmdb.rows
    requires Midway(w, a, first, t.source.maxIndex) && LmdbInv(t.lmdb, Arch(t), a) && OfferInv(t, a)
    requires Good(w.file.rows, a, a.top + 1)
    ensures Midway(w, a, first + 1, t.source.maxIndex)
  {
    var m := w.head.maxIndex;
    assert first == m <= t.source.maxIndex && a.base < m <= |a.recs| ==> m <= Arch(t) by {
      assert Max(Arch(t), a.base) < m <= |a.recs| ==> Right(t.lmdb.rows, a.recs, m);
    }
    assert a.base < m <= a.top ==> Right(w.file.rows, a.recs, m);
  }

  /** From `w` to `c`, part of a block has been stored. */
  ghost predicate Between(w: Table, c: Table, recs: seq<LogRec>)
  {
    && Improves(w.file.rows, c.file.rows, recs)
    && c.head.snapshot == w.head.snapshot && c.file.head.snapshot == w.file.head.snapshot
    && w.head.maxIndex <= c.head.maxIndex
    && (|| c.file.head.maxIndex == c.head.maxIndex
        || (c.file.head.maxIndex == w.file.head.maxIndex && c.head.maxIndex == w.head.maxIndex))
  }

  lemma BetweenBoth(w: Table, m: Table, c: Table, recs: seq<LogRec>)
    requires Between(w, m, recs) && Between(m, c, recs)
    ensures Between(w, c, recs)
  {
  }

  lemma {:induction false} CopyRange(w: Table, a: Truth, first: nat, last: int, t: Tiered) returns (c: Table)
    requires Midway(w, a, first, t.source.maxIndex) && Improves(w.file.rows, w.file.rows, a.recs)
    requires LmdbInv(t.lmdb, Arch(t), a) && OfferInv(t, a) && 1 <= first && Good(w.file.rows, a, a.top + 1)
    ensures c == InsertEach(w, Gather(t.lmdb.rows, t.source.maxIndex, first, last)).table
    ensures Good(c.file.rows, a, c.head.maxIndex) && Between(w, c, a.recs)
    decreases last - first
  {
    var max := t.source.maxIndex;
    c := w;
    if first <= last {
      var rest := Gather(t.lmdb.rows, max, first + 1, last);
      if first <= max && first in t.lmdb.rows {
        assert Right(t.lmdb.rows, a.recs, first);
        var rec := t.lmdb.rows[first];
        assert ([rec] + rest)[1..] == rest;
        CopyOne(w, a, first, max, t.lmdb.rows);
        var r := Insert(w, rec);
        if r.Ok? {
          GoodAfter(w.file.rows, a, r.value.file.rows, a, a.top + 1, a.top + 1);
          c := CopyRange(r.value, a, first + 1, last, t);
          BetweenBoth(w, r.value, c, a.recs);
        }
      } else {
        assert [] + rest == rest;
        SkipOne(w, a, first, t);
        c := CopyRange(w, a, first + 1, last, t);
      }
    }
  }

  /** What one turn of the copy loop does to the SQLite file and to the writer's head. */
  lemma PassCopies(t: Tiered, a: Truth, size: nat)
    requires Inv(t, a) && t.phase.Copying? && 1 <= t.phase.myLast < t.limit
    ensures var t' := Pass(t, size);
            && t' == t.(sqlite := t'.sqlite, writer := t'.writer, phase := t'.phase)
            && Good(t'.sqlite.rows, a, t'.writer.maxIndex) && Improves(t.sqlite.rows, t'.sqlite.rows, a.recs)
            && t'.writer.snapshot == t.writer.snapshot && t'.sqlite.head.snapshot == t.sqlite.head.snapshot
            && t.writer.maxIndex <= t'.writer.maxIndex
            && (t'.sqlite.head.maxIndex == t'.writer.maxIndex ||
                (t'.phase.Dead? && t'.sqlite.head.maxIndex == t.sqlite.head.maxIndex))
            && (t'.phase.Dead? || t'.phase == Copying(LastIndex(t'.writer)))
  {
    var c := CopyRange(Table(t.sqlite, t.writer), a, t.phase.myLast, BlockEnd(t.phase.myLast, t.limit, size), t);
  }

  lemma PassInv(t: Tiered, a: Truth, size: nat)
    requires Inv(t, a) && t.phase.Copying?
    ensures Inv(Pass(t, size), a)
  {
    if 1 <= t.phase.myLast < t.limit {
      var t' := Pass(t, size);
      PassCopies(t, a, size);
      GoodAfter(t.sqlite.rows, a, t'.sqlite.rows, a, t.sqlite.head.maxIndex, t.sqlite.head.maxIndex);
      GoodAfter(t.sqlite.rows, a, t'.sqlite.rows, a, t.main.maxIndex, t.main.maxIndex);
      GoodAfter(t.sqlite.rows, a, t'.sqlite.rows, a, a.top + 1, a.top + 1);
    }
  }

  /** One more offer, at `i`, in the account of offers. */
  lemma OfferAccounted(t: Tiered, a: Truth, o: Snapshot)
    requires TopAccounted(t, a)
    ensures TopAccounted(t.(offers := t.offers + [o]), a.(top := Max(a.top, o.index)))
  {
    var more := t.offers + [o];
    assert more[|t.offers|] == o;
    if k :| 0 <= k < |t.offers| && t.offers[k].index == a.top {
      assert more[k].index == a.top;
    }
  }

  /** What can be said of an index that is offered. */
  lemma OfferedIndex(t: Tiered, a: Truth, snapSize: nat)
    requires Inv(t, a) && t.phase.Offering? && |Offer(t, snapSize).offers| > |t.offers|
    ensures var i := t.phase.low + snapSize - 1;
            && 1 <= i <= |a.recs| && i <= Max(t.sqlite.head.maxIndex, a.base) && i <= Max(t.writer.maxIndex, a.base)
            && Good(t.sqlite.rows, a, i + 1)
            && Offer(t, snapSize) == t.(offers := t.offers + [Snapshot(i, t.sqlite.rows[i].term)],
                                        phase := Offering(i + 1, t.phase.high))
  {
    var i := t.phase.low + snapSize - 1;
    assert i in t.sqlite.rows && t.sqlite.rows[i].index == i;
    assert a.base < i ==> i < t.writer.maxIndex;
    assert a.base < i ==> Right(t.sqlite.rows, a.recs, i);
  }

  lemma OfferMoreInv(t: Tiered, a: Truth, i: nat, o: Snapshot)
    requires Inv(t, a) && t.phase.Offering? && o.index == i && 1 <= i <= |a.recs|
    requires i <= Max(t.sqlite.head.maxIndex, a.base) && i <= Max(t.writer.maxIndex, a.base) &&
             Good(t.sqlite.rows, a, i + 1)
    ensures Inv(t.(offers := t.offers + [o], phase := Offering(i + 1, t.phase.high)), a.(top := Max(a.top, i)))
  {
    OfferAccounted(t, a, o);
  }

  lemma OfferStepInv(t: Tiered, a: Truth, snapSize: nat)
    requires Inv(t, a) && t.phase.Offering?
    ensures Inv(Offer(t, snapSize), a.(top := Offered(a.top, t.offers, Offer(t, snapSize).offers)))
  {
    var t' := Offer(t, snapSize);
    if |t'.offers| > |t.offers| {
      var i := t.phase.low + snapSize - 1;
      OfferedIndex(t, a, snapSize);
      OfferMoreInv(t, a, i, Snapshot(i, t.sqlite.rows[i].term));
    }
  }

  // -------------------------------------------------------------- whole runs

  lemma StepInv(t: Tiered, a: Truth, step: Step)
    requires Inv(t, a) && Enabled(t, step) && Careful(t, a, step)
    ensures Inv(Act(t, step), TruthAct(t, a, step))
  {
    match step
    case DoInsert(rec) => InsertInv(t, a, rec);
    case DoDelete(i) => DeleteInv(t, a, i);
    case DoInstall(s) => InstallInv(t, a, s);
    case DoMark(c, ap) =>
    case DoSaveMeta => SaveMetaInv(t, a);
    case DoTakeOffer => TakeOfferInv(t, a);
    case DoSetLimit(limit, c, ap) =>
    case DoNoteDelete(newLast) =>
    case DoBegin => BeginInv(t, a);
    case DoPass(size) => PassInv(t, a, size);
    case DoOffer(size) => OfferStepInv(t, a, size);
  }

  lemma {:induction false} RunInv(run: seq<Tiered>, truth: seq<Truth>, steps: seq<Step>, k: nat)
    requires IsCarefulRun(run, truth, steps) && k < |run|
    ensures Inv(run[k], truth[k])
  {
    if k > 0 {
      RunInv(run, truth, steps, k - 1);
      assert Careful(run[k - 1], truth[k - 1], steps[k - 1]);
      StepInv(run[k - 1], truth[k - 1], steps[k - 1]);
    }
  }

  /** At every moment of every careful run, a read above the application snapshot returns the record last inserted
      at that index, and nothing past the end. */
  lemma ReadsLastInserted(run: seq<Tiered>, truth: seq<Truth>, steps: seq<Step>, k: nat, i: nat)
    requires IsCarefulRun(run, truth, steps) && k < |run| && i > truth[k].base
    ensures HybridRead(run[k], i) == Ok(if i <= |truth[k].recs| then Some(truth[k].recs[i - 1]) else None)
  {
    var t, a := run[k], truth[k];
    RunInv(run, truth, steps, k);
    assert i <= Arch(t) ==> Right(t.sqlite.rows, a.recs, i);
    assert Arch(t) < i <= |a.recs| ==> Right(t.lmdb.rows, a.recs, i);
  }
}

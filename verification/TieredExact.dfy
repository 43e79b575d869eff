/** The duties a careful run puts on the hybrid log's callers are needed: a rewrite, a snapshot, a save, a stale delete
    or an installation outside them makes some read go wrong, at once or after steps that the two processes can take. */
module TieredExact {
  import opened RaftTypes
  import opened Stores
  import opened TieredLog
  import opened TieredProof
  import opened TieredCopy

  /** What the simple log answers above the application snapshot. */
  function Expected(a: Truth, i: nat): Result<Option<LogRec>>
  {
    Ok(if 1 <= i <= |a.recs| then Some(a.recs[i - 1]) else None)
  }

  lemma InvReads(t: Tiered, a: Truth, i: nat)
    requires Inv(t, a) && i > a.base
    ensures HybridRead(t, i) == Expected(a, i)
  {
    assert i <= Arch(t) ==> Right(t.sqlite.rows, a.recs, i);
    assert Arch(t) < i <= |a.recs| ==> Right(t.lmdb.rows, a.recs, i);
  }

  /** Installing an archive snapshot older than the last one is harmless exactly when the application snapshot
      covers the last one: otherwise the records in between can no longer be read. */
  lemma TakeOfferExactly(t: Tiered, a: Truth)
    requires Inv(t, a) && t.offers != [] && t.offers[0].index > 0
    requires forall i :: i in t.lmdb.rows ==> i > Arch(t)
    ensures (forall i :: i > a.base ==> HybridRead(TakeOffer(t), i) == Expected(a, i)) <==> Careful(t, a, DoTakeOffer)
  {
    var t' := TakeOffer(t);
    if Careful(t, a, DoTakeOffer) {
      TakeOfferInv(t, a);
      forall i | i > a.base
        ensures HybridRead(t', i) == Expected(a, i)
      {
        InvReads(t', a, i);
      }
    } else {
      var i := Arch(t);
      assert HybridRead(t', i) == Ok(None) && Expected(a, i) == Ok(Some(a.recs[i - 1]));
    }
  }

  // -------------------------------------------------------------- going on from a state

  /** The steps are possible one after the other and end in `t'`. */
  ghost predicate Leads(t: Tiered, steps: seq<Step>, t': Tiered)
    decreases |steps|
  {
    if steps == [] then t == t' else Enabled(t, steps[0]) && Leads(Act(t, steps[0]), steps[1..], t')
  }

  lemma {:induction false} LeadsOn(t: Tiered, steps: seq<Step>, t1: Tiered, more: seq<Step>, t': Tiered)
    requires Leads(t, steps, t1) && Leads(t1, more, t')
    ensures Leads(t, steps + more, t')
    decreases |steps|
  {
    if steps == [] {
      assert steps + more == more;
    } else {
      LeadsOn(Act(t, steps[0]), steps[1..], t1, more, t');
      assert (steps + more)[0] == steps[0] && (steps + more)[1..] == steps[1..] + more;
    }
  }

  lemma LeadsOnce(t: Tiered, step: Step)
    requires Enabled(t, step)
    ensures Leads(t, [step], Act(t, step))
  {
    assert [step][1..] == [];
    assert Leads(Act(t, step), [], Act(t, step));
  }

  /** After the first `k + 1` offers are installed, reads up to the last of them go to SQLite as the file stands. */
  lemma {:induction false} TakeUpTo(t: Tiered, k: nat) returns (steps: seq<Step>, t': Tiered)
    requires k < |t.offers| && t.offers[k].index >= 1
    ensures Leads(t, steps, t') && t'.sqlite == t.sqlite && t'.main.maxIndex == t.sqlite.head.maxIndex
    ensures t'.archived == Some(t.offers[k])
    decreases k
  {
    var t1 := TakeOffer(t);
    LeadsOnce(t, DoTakeOffer);
    steps, t' := [DoTakeOffer], t1;
    if k > 0 {
      assert t1.offers[k - 1] == t.offers[k];
      var more;
      more, t' := TakeUpTo(t1, k - 1);
      LeadsOn(t, steps, t1, more, t');
      steps := steps + more;
    }
  }

  /** What a read up to an offer then answers. */
  lemma OfferedRead(t: Tiered, k: nat, i: nat) returns (steps: seq<Step>, t': Tiered)
    requires k < |t.offers| && 1 <= i <= t.offers[k].index
    ensures Leads(t, steps, t')
    ensures HybridRead(t', i) == Ok(if i > t.sqlite.head.maxIndex then None else Lookup(t.sqlite.rows, i))
  {
    steps, t' := TakeUpTo(t, k);
  }

  /** A copy loop that ends when left alone. */
  ghost predicate Ends(t: Tiered) { Positioned(t) && (t.limit <= t.phase.myLast || CanFinish(t)) }

  /** Such a loop runs to its limit and leaves the rows below where it stood alone; if it copies anything, the file's
      last index is the writer's. */
  lemma {:induction false} DriveToOffers(t: Tiered) returns (steps: seq<Step>, t': Tiered)
    requires Ends(t)
    ensures Leads(t, steps, t') && t'.offers == t.offers && t.writer.maxIndex <= t'.writer.maxIndex
    ensures t'.phase.Offering? && t'.phase.low == Base(t.source) + 1 && t.phase.myLast <= t'.phase.high
    ensures forall j: nat {:trigger Lookup(t'.sqlite.rows, j)} ::
              j < t.phase.myLast ==> Lookup(t'.sqlite.rows, j) == Lookup(t.sqlite.rows, j)
    ensures if t.limit <= t.phase.myLast then t'.sqlite == t.sqlite && t'.writer == t.writer
            else t'.sqlite.head.maxIndex == t'.writer.maxIndex
    decreases t.limit - t.phase.myLast
  {
    t' := Pass(t, 1);
    LeadsOnce(t, DoPass(1));
    steps := [DoPass(1)];
    if t.phase.myLast < t.limit {
      PassProgress(t, 1);
      var t1, more := t', [];
      assert t1.sqlite.head.maxIndex == t1.writer.maxIndex;
      forall j: nat | j < t.phase.myLast
        ensures Lookup(t1.sqlite.rows, j) == Lookup(t.sqlite.rows, j)
      {
        assert Moved(t.sqlite.rows, t.lmdb.rows, t1.sqlite.rows, t.phase.myLast, t1.phase.myLast, j);
      }
      more, t' := DriveToOffers(t1);
      LeadsOn(t, steps, t1, more, t');
      steps := steps + more;
    }
  }

  /** A task past its copy loop that can reach index `i`. */
  ghost predicate CanOffer(t: Tiered, i: nat)
  {
    && t.phase.Offering? && 1 <= t.phase.low <= i < t.phase.high
    && i <= t.writer.maxIndex && Lookup(t.sqlite.rows, i).Some? && t.sqlite.rows[i].index == i
  }

  lemma OfferRow(t: Tiered, i: nat) returns (steps: seq<Step>, t': Tiered)
    requires CanOffer(t, i)
    ensures Leads(t, steps, t') && t'.sqlite == t.sqlite
    ensures t'.offers == t.offers + [Snapshot(i, t.sqlite.rows[i].term)]
  {
    var size := i + 1 - t.phase.low;
    LeadsOnce(t, DoOffer(size));
    steps, t' := [DoOffer(size)], Offer(t, size);
  }

  /** A task that is not running can be started. */
  lemma Activate(t: Tiered) returns (steps: seq<Step>, t': Tiered)
    requires t.phase.Idle? || t.phase.Starting?
    ensures Leads(t, steps, t') && t'.sqlite == t.sqlite && t'.offers == t.offers && t'.lmdb == t.lmdb
    ensures t'.source == t.lmdb.head && t'.writer.maxIndex == t.sqlite.head.maxIndex
    ensures t'.phase == Copying(Max(1, LastIndex(t'.writer))) && t'.limit == 0
  {
    var t1 := SetLimit(t, 0, 0, 0);
    t' := Begin(t1);
    LeadsOnce(t, DoSetLimit(0, 0, 0));
    LeadsOnce(t1, DoBegin);
    LeadsOn(t, [DoSetLimit(0, 0, 0)], t1, [DoBegin], t');
    steps := [DoSetLimit(0, 0, 0)] + [DoBegin];
  }

  /** The next task offers a row below the file's last index, and a read of it then answers with that row. */
  lemma ArchivedRead(t: Tiered, i: nat) returns (steps: seq<Step>, t': Tiered)
    requires t.phase.Idle? || t.phase.Starting?
    requires Base(t.lmdb.head) < i < t.sqlite.head.maxIndex && AllFiled(t.lmdb.rows)
    requires Lookup(t.sqlite.rows, i).Some? && t.sqlite.rows[i].index == i
    ensures Leads(t, steps, t') && HybridRead(t', i) == Ok(Some(t.sqlite.rows[i]))
  {
    var t1;
    steps, t1 := Activate(t);
    var more;
    more, t' := LoopThenRead(t1, i);
    LeadsOn(t, steps, t1, more, t');
    steps := steps + more;
  }

  /** The same within a task whose copy loop ends: a row below where the loop stands is offered after it. */
  lemma LoopThenRead(t: Tiered, i: nat) returns (steps: seq<Step>, t': Tiered)
    requires Ends(t) && Base(t.source) < i < t.phase.myLast && i <= t.writer.maxIndex
    requires Lookup(t.sqlite.rows, i).Some? && t.sqlite.rows[i].index == i
    ensures Leads(t, steps, t')
    ensures HybridRead(t', i) ==
            Ok(if t.limit <= t.phase.myLast && i > t.sqlite.head.maxIndex then None else Some(t.sqlite.rows[i]))
  {
    var t1;
    steps, t1 := DriveToOffers(t);
    assert Lookup(t1.sqlite.rows, i) == Lookup(t.sqlite.rows, i);
    var more;
    more, t' := OfferThenRead(t1, i);
    LeadsOn(t, steps, t1, more, t');
    steps := steps + more;
  }

  lemma OfferThenRead(t: Tiered, i: nat) returns (steps: seq<Step>, t': Tiered)
    requires CanOffer(t, i) && i >= 1
    ensures Leads(t, steps, t')
    ensures HybridRead(t', i) == Ok(if i > t.sqlite.head.maxIndex then None else Some(t.sqlite.rows[i]))
  {
    var t1;
    steps, t1 := OfferRow(t, i);
    var more;
    more, t' := OfferedRead(t1, |t.offers|, i);
    LeadsOn(t, steps, t1, more, t');
    steps := steps + more;
  }

  // -------------------------------------------------------------- what goes wrong

  lemma LmdbFiled(t: Tiered, a: Truth)
    requires LmdbInv(t.lmdb, Arch(t), a) && Indexed(a.recs)
    ensures AllFiled(t.lmdb.rows)
  {
    forall j {:trigger Filed(t.lmdb.rows, j)} | j in t.lmdb.rows
      ensures Filed(t.lmdb.rows, j)
    {
      assert Right(t.lmdb.rows, a.recs, j);
    }
  }

  /** Replacing one record does not change how the copy loop goes. */
  lemma RewriteKeepsLoop(t: Tiered, a: Truth, rec: LogRec)
    requires Inv(t, a) && 1 <= rec.index <= |a.recs|
    ensures var t1 := HybridInsert(t, rec);
            && t1 == t.(lmdb := t1.lmdb) && t1.lmdb.head == t.lmdb.head && AllFiled(t1.lmdb.rows)
            && (t.phase.Copying? && Ends(t) ==> Ends(t1))
  {
    var t1 := HybridInsert(t, rec);
    LmdbFiled(t, a);
    assert forall j {:trigger Filed(t1.lmdb.rows, j)} :: Filed(t.lmdb.rows, j) ==> Filed(t1.lmdb.rows, j);
    forall j {:trigger Filed(t1.lmdb.rows, j)} | j in t1.lmdb.rows
      ensures Filed(t1.lmdb.rows, j)
    {
      assert j in t.lmdb.rows ==> Filed(t.lmdb.rows, j);
    }
  }

  /** Replacing a record outside the duties: unless the writer is dead or its copy loop never ends, the two processes
      can go on so that the old record is read in place of the new one. */
  lemma RewriteGoesWrong(t: Tiered, a: Truth, rec: LogRec) returns (steps: seq<Step>, t': Tiered)
    requires Inv(t, a) && a.base < rec.index <= |a.recs| && !Careful(t, a, DoInsert(rec))
    requires !t.phase.Dead? && (t.phase.Copying? ==> Ends(t))
    ensures Leads(HybridInsert(t, rec), steps, t')
    ensures HybridRead(t', rec.index) == Ok(Some(a.recs[rec.index - 1])) && a.recs[rec.index - 1] != rec
  {
    var i, t1 := rec.index, HybridInsert(t, rec);
    RewriteKeepsLoop(t, a, rec);
    assert i <= a.top ==> Right(t.sqlite.rows, a.recs, i);
    assert i < t.sqlite.head.maxIndex ==> Right(t.sqlite.rows, a.recs, i);
    assert Active(t) && i < t.writer.maxIndex ==> Right(t.sqlite.rows, a.recs, i);
    assert a.recs[i - 1].index == i;
    if i <= Arch(t) {
      steps, t' := [], t1;
    } else if i <= a.top {
      var k :| 0 <= k < |t.offers| && t.offers[k].index == a.top;
      steps, t' := OfferedRead(t1, k, i);
    } else if t.phase.Copying? {
      steps, t' := LoopThenRead(t1, i);
    } else if t.phase.Offering? {
      steps, t' := OfferThenRead(t1, i);
    } else {
      steps, t' := ArchivedRead(t1, i);
    }
  }

  /** A delete between the main process's stale last index and the real one leaves the old record in SQLite; the next
      copy starts past it, and an archive snapshot brings the deleted record back in place of its successor. */
  lemma StaleDeleteResurrects(t: Tiered, a: Truth, i: nat, rec: LogRec) returns (steps: seq<Step>, t': Tiered)
    requires Inv(t, a) && (t.phase.Idle? || t.phase.Starting?) && a.base < i <= |a.recs| && i > a.top && rec.index == i
    requires !Careful(t, a, DoDelete(i))
    ensures Leads(HybridInsert(HybridDelete(t, i), rec), steps, t')
    ensures HybridRead(t', i) == Ok(Some(a.recs[i - 1]))
  {
    var t1 := HybridDelete(t, i);
    assert t1 == DeleteLocal(t, i);
    assert t1.lmdb.head == t.lmdb.head.(maxIndex := i - 1);
    var t2 := HybridInsert(t1, rec);
    assert t2.lmdb.head.snapshot == t.lmdb.head.snapshot && t2.sqlite == t.sqlite;
    assert Right(t.sqlite.rows, a.recs, i) && a.recs[i - 1].index == i;
    LmdbFiled(t, a);
    forall j {:trigger Filed(t2.lmdb.rows, j)} | j in t2.lmdb.rows
      ensures Filed(t2.lmdb.rows, j)
    {
      assert j in t.lmdb.rows ==> Filed(t.lmdb.rows, j);
    }
    steps, t' := ArchivedRead(t2, i);
  }

  /** Saving a term or a vote while the writer has offered, or can still offer, a record the main process does not know
      of: the two processes can go on so that some record is no longer read at all. */
  lemma SaveMetaGoesWrong(t: Tiered, a: Truth) returns (steps: seq<Step>, t': Tiered, i: nat)
    requires Inv(t, a) && !Careful(t, a, DoSaveMeta)
    ensures Leads(SaveMeta(t), steps, t') && a.base < i <= |a.recs| && HybridRead(t', i) == Ok(None)
  {
    var t1 := SaveMeta(t);
    if a.top > Max(t.main.maxIndex, a.base) {
      var k :| 0 <= k < |t.offers| && t.offers[k].index == a.top;
      i := a.top;
      steps, t' := OfferedRead(t1, k, i);
    } else {
      i := t.writer.maxIndex - 1;
      assert Right(t.sqlite.rows, a.recs, i) && a.recs[i - 1].index == i;
      LmdbFiled(t, a);
      if t.phase.Copying? {
        steps, t' := LoopThenRead(t1, i);
      } else {
        steps, t' := OfferThenRead(t1, i);
      }
    }
  }

  /** The record at `i` is in the log that a read of it goes to. */
  ghost predicate Held(t: Tiered, a: Truth, i: nat)
  {
    if i <= Arch(t) then i <= t.sqlite.head.maxIndex && Right(t.sqlite.rows, a.recs, i)
    else Right(t.lmdb.rows, a.recs, i)
  }

  lemma InstalledRead(t: Tiered, a: Truth, s: Snapshot, i: nat)
    requires Inv(t, a) && 1 <= s.index <= |a.recs| && i > s.index
    ensures HybridRead(HybridInstall(t, s), i) == Expected(a, i) <==> i > |a.recs| || Held(t, a, i)
  {
    var t' := HybridInstall(t, s);
    assert i in t'.sqlite.rows <==> i in t.sqlite.rows;
    assert i in t'.lmdb.rows <==> i in t.lmdb.rows;
    assert i in t.lmdb.rows ==> Right(t.lmdb.rows, a.recs, i);
  }

  /** An application snapshot within the log leaves all reads above it right exactly when every record that it brings
      back above the snapshot is still held; a snapshot that goes forward brings none back. */
  lemma InstallExactly(t: Tiered, a: Truth, s: Snapshot)
    requires Inv(t, a) && 1 <= s.index <= |a.recs|
    ensures (forall i :: i > s.index ==> HybridRead(HybridInstall(t, s), i) == Expected(a, i)) <==>
            (forall i :: s.index < i <= a.base ==> Held(t, a, i))
  {
    forall i: nat | i > s.index
      ensures HybridRead(HybridInstall(t, s), i) == Expected(a, i) <==> i > |a.recs| || Held(t, a, i)
      ensures a.base < i <= |a.recs| ==> Held(t, a, i)
    {
      InstalledRead(t, a, s, i);
      assert a.base < i <= Arch(t) ==> Right(t.sqlite.rows, a.recs, i);
      assert Max(Arch(t), a.base) < i <= |a.recs| ==> Right(t.lmdb.rows, a.recs, i);
    }
  }

  /** read() without an index answers with the newest record exactly when LMDB still has it. */
  lemma NewestReadExactly(t: Tiered, a: Truth)
    requires Inv(t, a) && |a.recs| > a.base
    ensures HybridReadLast(t) == Some(a.recs[|a.recs| - 1]) <==> |a.recs| in t.lmdb.rows
    ensures |a.recs| > Arch(t) ==> |a.recs| in t.lmdb.rows
  {
    assert |a.recs| in t.lmdb.rows || |a.recs| > Arch(t) ==> Right(t.lmdb.rows, a.recs, |a.recs|);
  }

  // -------------------------------------------------------------- such states are reached

  const R1 := LogRec(1, 1, ClientCommand, "a")
  const R2 := LogRec(2, 1, ClientCommand, "b")
  const R3 := LogRec(3, 1, ClientCommand, "c")

  lemma Extend(run: seq<Tiered>, truth: seq<Truth>, steps: seq<Step>, step: Step, t: Tiered, a: Truth)
    returns (run': seq<Tiered>, truth': seq<Truth>, steps': seq<Step>)
    requires IsCarefulRun(run, truth, steps) && Enabled(run[|steps|], step)
    requires Careful(run[|steps|], truth[|steps|], step)
    requires Act(run[|steps|], step) == t && TruthAct(run[|steps|], truth[|steps|], step) == a
    ensures IsCarefulRun(run', truth', steps') && |steps'| == |steps| + 1 && run'[|steps'|] == t &&
            truth'[|steps'|] == a
  {
    run', truth', steps' := run + [t], truth + [a], steps + [step];
    forall k | 0 <= k < |steps'|
      ensures Goes(run'[k], truth'[k], steps'[k], run'[k + 1], truth'[k + 1]) && Careful(run'[k], truth'[k], steps'[k])
    {
      if k < |steps| {
        assert run'[k] == run[k] && run'[k + 1] == run[k + 1] && truth'[k] == truth[k] && truth'[k + 1] == truth[k + 1];
        assert steps'[k] == steps[k] && Goes(run[k], truth[k], steps[k], run[k + 1], truth[k + 1]);
      }
    }
  }

  /** Three records inserted and nothing copied. */
  const LOADED := FRESH.(lmdb := File(map[1 := R1, 2 := R2, 3 := R3], BLANK.(maxIndex := 3)))

  lemma Load() returns (run: seq<Tiered>, truth: seq<Truth>, steps: seq<Step>)
    ensures IsCarefulRun(run, truth, steps) && run[|steps|] == LOADED && truth[|steps|] == Truth([R1, R2, R3], 0, 0)
  {
    var one := FRESH.(lmdb := File(map[1 := R1], BLANK.(maxIndex := 1)));
    var two := FRESH.(lmdb := File(map[1 := R1, 2 := R2], BLANK.(maxIndex := 2)));
    run, truth, steps := Extend([FRESH], [Truth([], 0, 0)], [], DoInsert(R1), one, Truth([R1], 0, 0));
    run, truth, steps := Extend(run, truth, steps, DoInsert(R2), two, Truth([R1, R2], 0, 0));
    run, truth, steps := Extend(run, truth, steps, DoInsert(R3), LOADED, Truth([R1, R2, R3], 0, 0));
  }

  /** The three records copied, and the writer about to decide on offers. */
  const COPIED := LOADED.(sqlite := LOADED.lmdb, writer := LOADED.lmdb.head, source := LOADED.lmdb.head, limit := 3)

  lemma CopyThree(t: Tiered)
    requires t == COPIED.(sqlite := FRESH.sqlite, writer := BLANK, phase := Copying(1))
    ensures Pass(t, 5) == COPIED.(phase := Copying(3))
  {
    var rows := t.lmdb.rows;
    assert Gather(rows, 3, 4, 3) == [] && Gather(rows, 3, 3, 3) == [R3] && Gather(rows, 3, 2, 3) == [R2, R3];
    assert Gather(rows, 3, 1, 3) == [R1, R2, R3];
    assert [R1, R2, R3][1..] == [R2, R3] && [R2, R3][1..] == [R3] && [R3][1..] == [];
    var w1 := Table(File(map[1 := R1], BLANK.(maxIndex := 1)), BLANK.(maxIndex := 1));
    var w2 := Table(File(map[1 := R1, 2 := R2], BLANK.(maxIndex := 2)), BLANK.(maxIndex := 2));
    var w3 := Table(t.lmdb, t.lmdb.head);
    assert Insert(Table(FRESH.sqlite, BLANK), R1) == Ok(w1) && Insert(w1, R2) == Ok(w2) && Insert(w2, R3) == Ok(w3);
    assert InsertEach(w2, [R3]) == InsertEach(w3, []);
    assert InsertEach(w1, [R2, R3]) == InsertEach(w2, [R3]);
  }

  lemma Copy() returns (run: seq<Tiered>, truth: seq<Truth>, steps: seq<Step>)
    ensures IsCarefulRun(run, truth, steps) && run[|steps|] == COPIED.(phase := Offering(1, 3))
    ensures truth[|steps|] == Truth([R1, R2, R3], 0, 0)
  {
    var a := Truth([R1, R2, R3], 0, 0);
    run, truth, steps := Load();
    run, truth, steps := Extend(run, truth, steps, DoSetLimit(3, 0, 0), LOADED.(limit := 3, phase := Starting), a);
    var t := COPIED.(sqlite := FRESH.sqlite, writer := BLANK, phase := Copying(1));
    run, truth, steps := Extend(run, truth, steps, DoBegin, t, a);
    CopyThree(t);
    run, truth, steps := Extend(run, truth, steps, DoPass(5), COPIED.(phase := Copying(3)), a);
    run, truth, steps := Extend(run, truth, steps, DoPass(5), COPIED.(phase := Offering(1, 3)), a);
  }

  lemma StaleReached() returns (run: seq<Tiered>, truth: seq<Truth>, steps: seq<Step>)
    ensures IsCarefulRun(run, truth, steps) && run[|steps|] == COPIED && truth[|steps|] == Truth([R1, R2, R3], 0, 0)
  {
    run, truth, steps := Copy();
    run, truth, steps := Extend(run, truth, steps, DoOffer(10), COPIED, Truth([R1, R2, R3], 0, 0));
  }

  const X2 := LogRec(2, 2, ClientCommand, "x")

  /** A careful run reaches a state where deleting record 2 is a stale delete, and replacing it is careless. */
  lemma StaleDeleteReached() returns (run: seq<Tiered>, truth: seq<Truth>, steps: seq<Step>)
    ensures IsCarefulRun(run, truth, steps)
    ensures var t, a := run[|steps|], truth[|steps|];
            && t.phase.Idle? && a.base < 2 <= |a.recs| && a.top < 2
            && !Careful(t, a, DoDelete(2)) && !Careful(t, a, DoInsert(X2))
  {
    run, truth, steps := StaleReached();
  }

  /** A careful run reaches a state where saving a term is careless although nothing has been offered yet. */
  lemma CarelessSaveReached() returns (run: seq<Tiered>, truth: seq<Truth>, steps: seq<Step>)
    ensures IsCarefulRun(run, truth, steps) && run[|steps|].offers == [] &&
            !Careful(run[|steps|], truth[|steps|], DoSaveMeta)
  {
    run, truth, steps := Copy();
  }

  /** A careful run reaches a state where a snapshot that goes back brings back a record that is no longer held. */
  lemma BackwardInstallReached() returns (run: seq<Tiered>, truth: seq<Truth>, steps: seq<Step>)
    ensures IsCarefulRun(run, truth, steps)
    ensures var t, a := run[|steps|], truth[|steps|]; 1 <= S1.index < 2 <= a.base <= |a.recs| && !Held(t, a, 2)
  {
    run, truth, steps := Load();
    var t := HybridInstall(LOADED, S2);
    run, truth, steps := Extend(run, truth, steps, DoInstall(S2), t, Truth([R1, R2, R3], 2, 0));
  }

  /** The three records copied, and an application snapshot at LMDB's first index, which prunes SQLite alone. */
  lemma PrunedReached() returns (run: seq<Tiered>, truth: seq<Truth>, steps: seq<Step>)
    ensures IsCarefulRun(run, truth, steps) && truth[|steps|] == Truth([R1, R2, R3], 1, 0)
    ensures var t := run[|steps|];
            t.lmdb == COPIED.lmdb && 1 !in t.sqlite.rows && t.sqlite.head == Head(3, 0, 0, Some(S1)) && t.phase.Idle?
  {
    run, truth, steps := StaleReached();
    run, truth, steps := Extend(run, truth, steps, DoInstall(S1), HybridInstall(COPIED, S1), Truth([R1, R2, R3], 1, 0));
  }

  /** A careful run in which the writer dies: the next task, offering every record, comes upon the pruned row. */
  lemma PrunedOfferReached() returns (run: seq<Tiered>, truth: seq<Truth>, steps: seq<Step>)
    ensures IsCarefulRun(run, truth, steps) && run[|steps|].phase.Dead?
  {
    run, truth, steps := PrunedReached();
    var a, t := truth[|steps|], SetLimit(run[|steps|], 3, 0, 0);
    run, truth, steps := Extend(run, truth, steps, DoSetLimit(3, 0, 0), t, a);
    t := Begin(t);
    run, truth, steps := Extend(run, truth, steps, DoBegin, t, a);
    t := t.(phase := Offering(1, 3));
    run, truth, steps := Extend(run, truth, steps, DoPass(5), t, a);
    PrunedOfferDies(t, 1);
    run, truth, steps := Extend(run, truth, steps, DoOffer(1), t.(phase := Dead), a);
  }

  const ONE := File(map[1 := R1], BLANK.(maxIndex := 1))

  /** A careful run whose copy loop spins for ever: a limit is under way, a delete cuts the log below it before the task
      begins, and nothing lowers the limit. */
  lemma StrandedReached() returns (run: seq<Tiered>, truth: seq<Truth>, steps: seq<Step>)
    ensures IsCarefulRun(run, truth, steps) && Stranded(run[|steps|])
  {
    run, truth, steps := Load();
    var t := LOADED.(limit := 3, phase := Starting);
    run, truth, steps := Extend(run, truth, steps, DoSetLimit(3, 0, 0), t, Truth([R1, R2, R3], 0, 0));
    assert Below(LOADED.lmdb.rows, 2) == ONE.rows;
    run, truth, steps := Extend(run, truth, steps, DoDelete(2), t.(lmdb := ONE), Truth([R1], 0, 0));
    t := t.(lmdb := ONE, source := ONE.head, phase := Copying(1));
    run, truth, steps := Extend(run, truth, steps, DoBegin, t, Truth([R1], 0, 0));
    CopyFirst(t);
    run, truth, steps := Extend(run, truth, steps, DoPass(5), t.(sqlite := ONE, writer := ONE.head), Truth([R1], 0, 0));
    assert AllFiled(ONE.rows);
  }

  lemma CopyFirst(t: Tiered)
    requires t.lmdb == ONE && t.sqlite == FRESH.sqlite && t.writer == BLANK && t.source.maxIndex == 1
    requires t.phase == Copying(1) && t.limit == 3 && t.upCommit == t.upApplied == 0
    ensures Pass(t, 5) == t.(sqlite := ONE, writer := ONE.head)
  {
    var rows := t.lmdb.rows;
    NothingBeyond(rows, 1, 2, 3);
    assert Gather(rows, 1, 1, 3) == [R1] && [R1][1..] == [];
    var w := Table(ONE, ONE.head);
    assert Insert(Table(FRESH.sqlite, BLANK), R1) == Ok(w);
    assert InsertEach(Table(FRESH.sqlite, BLANK), [R1]) == InsertEach(w, []);
  }

  // -------------------------------------------------------------- an application snapshot overtakes a copy

  const R4 := LogRec(4, 1, ClientCommand, "d")
  const S3 := Snapshot(3, 1)
  const FOUR := File(map[1 := R1, 2 := R2, 3 := R3, 4 := R4], BLANK.(maxIndex := 4))

  /** LMDB with everything up to the snapshot pruned. */
  const CUT := File(map[4 := R4], Head(4, 0, 0, Some(S3)))

  /** The copy task of four records has begun. */
  const BEGUN := FRESH.(lmdb := FOUR, source := FOUR.head, limit := 4, phase := Copying(1))

  lemma BegunReached() returns (run: seq<Tiered>, truth: seq<Truth>, steps: seq<Step>)
    ensures IsCarefulRun(run, truth, steps) && run[|steps|] == BEGUN && truth[|steps|] == Truth([R1, R2, R3, R4], 0, 0)
  {
    var a := Truth([R1, R2, R3, R4], 0, 0);
    run, truth, steps := Load();
    run, truth, steps := Extend(run, truth, steps, DoInsert(R4), FRESH.(lmdb := FOUR), a);
    var t := FRESH.(lmdb := FOUR, limit := 4, phase := Starting);
    run, truth, steps := Extend(run, truth, steps, DoSetLimit(4, 0, 0), t, a);
    run, truth, steps := Extend(run, truth, steps, DoBegin, BEGUN, a);
  }

  /** A careful run in which an application snapshot overtakes the copy, and a block that needs more than the next row
      kills the writer before any offer. */
  lemma OvertakenDies() returns (run: seq<Tiered>, truth: seq<Truth>, steps: seq<Step>)
    ensures IsCarefulRun(run, truth, steps) && run[|steps|].phase.Dead? && run[|steps|].offers == []
  {
    run, truth, steps := BegunReached();
    var a := Truth([R1, R2, R3, R4], 3, 0);
    var t := HybridInstall(BEGUN, S3);
    assert Above(FOUR.rows, 3) == CUT.rows && Above(map[], 3) == map[];
    assert t == BEGUN.(lmdb := CUT, sqlite := File(map[], Head(3, 0, 0, Some(S3))), main := Head(3, 0, 0, Some(S3)));
    run, truth, steps := Extend(run, truth, steps, DoInstall(S3), t, a);
    GatherCut(1);
    assert [R4][0] == R4;
    run, truth, steps := Extend(run, truth, steps, DoPass(5), t.(phase := Dead), a);
  }

  /** What is left for a block from `first` to 4. */
  lemma GatherCut(first: nat)
    requires 1 <= first <= 3
    ensures Gather(CUT.rows, 4, first, 3) == [] && Gather(CUT.rows, 4, first, 4) == [R4]
  {
    assert Gather(CUT.rows, 4, 5, 4) == [] && Gather(CUT.rows, 4, 4, 4) == [R4] && Gather(CUT.rows, 4, 4, 3) == [];
    assert Gather(CUT.rows, 4, 3, 4) == [R4] && Gather(CUT.rows, 4, 3, 3) == [];
    assert Gather(CUT.rows, 4, 2, 4) == [R4] && Gather(CUT.rows, 4, 2, 3) == [];
  }

  const TWO := File(map[1 := R1, 2 := R2], BLANK.(maxIndex := 2))

  lemma CopyTwo()
    ensures Pass(BEGUN, 1) == BEGUN.(sqlite := TWO, writer := TWO.head, phase := Copying(2))
  {
    assert Gather(FOUR.rows, 4, 3, 2) == [] && Gather(FOUR.rows, 4, 2, 2) == [R2] &&
           Gather(FOUR.rows, 4, 1, 2) == [R1, R2];
    assert [R1, R2][1..] == [R2] && [R2][1..] == [];
    var w0, w1, w2 := Table(FRESH.sqlite, BLANK), Table(ONE, ONE.head), Table(TWO, TWO.head);
    assert Insert(w0, R1) == Ok(w1) && Insert(w1, R2) == Ok(w2);
    assert InsertEach(w1, [R2]) == InsertEach(w2, []);
    assert InsertEach(w0, [R1, R2]) == InsertEach(w1, [R2]);
  }

  /** After the snapshot and one more turn. */
  const OVERTAKEN := BEGUN.(lmdb := CUT, sqlite := File(map[], Head(2, 0, 0, Some(S3))),
                            main := Head(3, 0, 0, Some(S3)),
                            writer := TWO.head, phase := Copying(2))

  lemma OvertakenStays()
    ensures Pass(OVERTAKEN.(sqlite := File(map[], Head(3, 0, 0, Some(S3)))), 1) == OVERTAKEN == Pass(OVERTAKEN, 1)
  {
    GatherCut(2);
  }

  /** A careful run in which an application snapshot overtakes the copy, and with blocks of one record the loop never
      ends although its limit lies within the opened log; SQLite's last index falls back under the snapshot. */
  lemma OvertakenSpins() returns (run: seq<Tiered>, truth: seq<Truth>, steps: seq<Step>)
    ensures IsCarefulRun(run, truth, steps)
    ensures var t := run[|steps|];
            && t.phase.Copying? && t.phase.myLast < t.limit <= t.source.maxIndex && Pass(t, 1) == t
            && t.sqlite.head.maxIndex < truth[|steps|].base
  {
    run, truth, steps := BegunReached();
    CopyTwo();
    var t := BEGUN.(sqlite := TWO, writer := TWO.head, phase := Copying(2));
    run, truth, steps := Extend(run, truth, steps, DoPass(1), t, Truth([R1, R2, R3, R4], 0, 0));
    var a := Truth([R1, R2, R3, R4], 3, 0);
    var t1 := OVERTAKEN.(sqlite := File(map[], Head(3, 0, 0, Some(S3))));
    assert Above(FOUR.rows, 3) == CUT.rows && Above(TWO.rows, 3) == map[];
    assert HybridInstall(t, S3) == t1;
    run, truth, steps := Extend(run, truth, steps, DoInstall(S3), t1, a);
    OvertakenStays();
    run, truth, steps := Extend(run, truth, steps, DoPass(1), OVERTAKEN, a);
  }

  const S1 := Snapshot(1, 1)
  const S2 := Snapshot(2, 1)

  /** A careful run reaches a state where two offers are under way that the main process does not know of. */
  lemma OffersReached() returns (run: seq<Tiered>, truth: seq<Truth>, steps: seq<Step>)
    ensures IsCarefulRun(run, truth, steps) && run[|steps|] == COPIED.(offers := [S1, S2])
    ensures truth[|steps|] == Truth([R1, R2, R3], 0, 2)
  {
    var recs := [R1, R2, R3];
    run, truth, steps := Copy();
    run, truth, steps := Extend(run, truth, steps, DoOffer(1), COPIED.(offers := [S1], phase := Offering(2, 3)),
                                Truth(recs, 0, 1));
    run, truth, steps := Extend(run, truth, steps, DoOffer(1), COPIED.(offers := [S1, S2], phase := Offering(3, 3)),
                                Truth(recs, 0, 2));
    run, truth, steps := Extend(run, truth, steps, DoOffer(1), COPIED.(offers := [S1, S2]), Truth(recs, 0, 2));
  }

  /** When the next copy starts before those offers are installed, the first one comes back after the second. */
  lemma BackwardOfferReached() returns (run: seq<Tiered>, truth: seq<Truth>, steps: seq<Step>)
    ensures IsCarefulRun(run, truth, steps)
    ensures var t, a := run[|steps|], truth[|steps|];
            && t.offers != [] && t.offers[0].index > 0 && !Careful(t, a, DoTakeOffer)
            && forall i :: i in t.lmdb.rows ==> i > Arch(t)
  {
    var a := Truth([R1, R2, R3], 0, 2);
    var t := COPIED.(offers := [S1, S2]);
    run, truth, steps := OffersReached();
    run, truth, steps := Extend(run, truth, steps, DoSetLimit(3, 0, 0), t.(phase := Starting), a);
    run, truth, steps := Extend(run, truth, steps, DoBegin, t.(phase := Copying(3)), a);
    run, truth, steps := Extend(run, truth, steps, DoPass(5), t.(phase := Offering(1, 3)), a);
    var t1 := t.(offers := [S1, S2, S1], phase := Offering(2, 3));
    run, truth, steps := Extend(run, truth, steps, DoOffer(1), t1, a);
    var t2 := TakeOffer(t1);
    assert t2.offers == [S2, S1];
    run, truth, steps := Extend(run, truth, steps, DoTakeOffer, t2, a);
    var t3 := TakeOffer(t2);
    assert t3.offers == [S1];
    run, truth, steps := Extend(run, truth, steps, DoTakeOffer, t3, a);
  }
}

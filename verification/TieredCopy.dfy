/** The archive copy loop: left alone it ends exactly when it has reached its limit, or every row it still has to copy
    up to the limit is in LMDB and known to the LMDB object it has opened. It leaves the newest records in LMDB. */
module TieredCopy {
  import opened RaftTypes
  import opened Stores
  import opened TieredLog
  import opened TieredProof

  /** The row for `j` is there, under its own index. */
  ghost predicate Filed(rows: map<nat, LogRec>, j: nat) { j in rows && rows[j].index == j }

  ghost predicate Present(rows: map<nat, LogRec>, first: nat, last: int)
  {
    forall j {:trigger Filed(rows, j)} :: first <= j <= last ==> Filed(rows, j)
  }

  ghost predicate AllFiled(rows: map<nat, LogRec>)
  {
    forall j {:trigger Filed(rows, j)} :: j in rows ==> Filed(rows, j)
  }

  /** Row `j` of `after` is the row of `source` in the range `first..last` when there is one, else that of `before`. */
  ghost predicate Moved(before: map<nat, LogRec>, source: map<nat, LogRec>, after: map<nat, LogRec>, first: nat,
                        last: int, j: nat)
  {
    Lookup(after, j) == Lookup(if first <= j <= last && j in source then source else before, j)
  }

  ghost predicate AllMoved(before: map<nat, LogRec>, source: map<nat, LogRec>, after: map<nat, LogRec>, first: nat,
                           last: int)
  {
    forall j {:trigger Moved(before, source, after, first, last, j)} :: Moved(before, source, after, first, last, j)
  }

  /** A block whose rows are all there brings the table up to its end without a gap: it holds the source's rows in
      the range of the block, and outside that range what it held before. */
  lemma {:induction false} BlockArrives(w: Table, rows: map<nat, LogRec>, max: nat, first: nat, last: int)
    requires 1 <= first <= w.head.maxIndex + 1 && last <= max
    requires Present(rows, w.head.maxIndex + 1, last) && AllFiled(rows)
    ensures var c := InsertEach(w, Gather(rows, max, first, last));
            && !c.raised && c.table.head.maxIndex == Max(w.head.maxIndex, if last < 0 then 0 else last)
            && c.table.head.snapshot == w.head.snapshot
            && AllMoved(w.file.rows, rows, c.table.file.rows, first, last)
    decreases last - first
  {
    if first <= last {
      var rest := Gather(rows, max, first + 1, last);
      if first in rows {
        assert ([rows[first]] + rest)[1..] == rest;
        assert Filed(rows, first);
        var r := Insert(w, rows[first]).value;
        BlockArrives(r, rows, max, first + 1, last);
        var after := InsertEach(r, rest).table.file.rows;
        forall j {:trigger Moved(w.file.rows, rows, after, first, last, j)}
          ensures Moved(w.file.rows, rows, after, first, last, j)
        {
          assert Moved(r.file.rows, rows, after, first + 1, last, j);
        }
      } else {
        assert [] + rest == rest;
        assert !Filed(rows, first);
        BlockArrives(w, rows, max, first + 1, last);
        var after := InsertEach(w, rest).table.file.rows;
        forall j {:trigger Moved(w.file.rows, rows, after, first, last, j)}
          ensures Moved(w.file.rows, rows, after, first, last, j)
        {
          assert Moved(w.file.rows, rows, after, first + 1, last, j);
        }
      }
    }
  }

  /** The writer's place in the loop: its last index, or 1 at the start of an empty copy. */
  ghost predicate Positioned(t: Tiered)
  {
    && t.phase.Copying? && AllFiled(t.lmdb.rows)
    && (t.phase.myLast == LastIndex(t.writer) || (t.phase.myLast == 1 && LastIndex(t.writer) == 0))
  }

  /** The LMDB object knows of the limit, and the rows still to be copied are there; the next row joins on to the
      writer's last index, which its own snapshot may have left behind. */
  ghost predicate CanFinish(t: Tiered)
    requires t.phase.Copying?
  {
    && 1 <= t.phase.myLast <= t.writer.maxIndex + 1 && t.limit <= t.source.maxIndex
    && Present(t.lmdb.rows, t.writer.maxIndex + 1, t.limit)
  }

  ghost predicate CopyReady(t: Tiered) { Positioned(t) && CanFinish(t) }

  /** With offers every `snapSize` records, SQLite has every row that can be offered, and the row the copy starts from
      is in one of the two logs. */
  ghost predicate GapFree(t: Tiered, snapSize: nat)
  {
    && t.phase.Copying? && Present(t.sqlite.rows, Base(t.source) + snapSize, t.phase.myLast - 1)
    && AllFiled(t.sqlite.rows)
    && (Base(t.source) + snapSize <= t.phase.myLast < t.limit ==>
          t.phase.myLast in t.sqlite.rows || t.phase.myLast in t.lmdb.rows)
  }

  /** One turn of the loop raises nothing, closes in on the limit by exactly a block, moves exactly the LMDB rows of
      the block, and stays ready. */
  lemma PassProgress(t: Tiered, size: nat)
    requires CopyReady(t) && size >= 1 && t.phase.myLast < t.limit
    ensures var t' := Pass(t, size);
            && CopyReady(t') && t'.limit == t.limit
            && t'.phase.myLast == BlockEnd(t.phase.myLast, t.limit, size) == t'.writer.maxIndex
            && t.limit - t.phase.myLast > t'.limit - t'.phase.myLast
            && AllMoved(t.sqlite.rows, t.lmdb.rows, t'.sqlite.rows, t.phase.myLast, t'.phase.myLast)
  {
    var myLast := t.phase.myLast;
    BlockArrives(Table(t.sqlite, t.writer), t.lmdb.rows, t.source.maxIndex, myLast, BlockEnd(myLast, t.limit, size));
  }

  /** Two adjoining moves are one. */
  lemma MovesJoin(before: map<nat, LogRec>, source: map<nat, LogRec>, mid: map<nat, LogRec>, after: map<nat, LogRec>,
                  first: nat, m: int, from: nat, last: nat)
    requires first <= from <= m + 1 && m <= last
    requires AllMoved(before, source, mid, first, m) && AllMoved(mid, source, after, from, last)
    ensures AllMoved(before, source, after, first, last)
  {
    forall j {:trigger Moved(before, source, after, first, last, j)}
      ensures Moved(before, source, after, first, last, j)
    {
      assert Moved(before, source, mid, first, m, j) && Moved(mid, source, after, from, last, j);
    }
  }

  /** The rows below the new end are there when those below the old one were. */
  lemma MovesFill(t: Tiered, after: map<nat, LogRec>, last: int, snapSize: nat)
    requires CopyReady(t) && GapFree(t, snapSize)
    requires t.phase.myLast - 1 <= last && (t.phase.myLast <= last ==> t.phase.myLast < last <= t.limit)
    requires AllMoved(t.sqlite.rows, t.lmdb.rows, after, t.phase.myLast, last)
    ensures Present(after, Base(t.source) + snapSize, if t.phase.myLast <= last then last - 1 else last)
  {
    forall j {:trigger Filed(after, j)} |
        Base(t.source) + snapSize <= j <= if t.phase.myLast <= last then last - 1 else last
      ensures Filed(after, j)
    {
      assert Moved(t.sqlite.rows, t.lmdb.rows, after, t.phase.myLast, last, j);
      assert j in t.sqlite.rows ==> Filed(t.sqlite.rows, j);
      assert j in t.lmdb.rows ==> Filed(t.lmdb.rows, j);
      if j < t.phase.myLast {
        assert Filed(t.sqlite.rows, j);
      } else if j > t.writer.maxIndex {
        assert Filed(t.lmdb.rows, j);
      }
    }
  }

  /** In a reachable state a copy task that starts with its limit inside the log can finish if and only if the
      application snapshot does not lie beyond SQLite's last index, but for one record that LMDB still has; and all its
      offers can be made if the first lies beyond the application snapshot. */
  lemma ReachableReady(t: Tiered, a: Truth, snapSize: nat)
    requires Inv(t, a) && t.phase.Starting? && t.limit <= |a.recs|
    ensures var last := t.sqlite.head.maxIndex;
            CopyReady(Begin(t)) <==>
            a.base <= last || (a.base == last + 1 && (a.base <= t.limit ==> Filed(t.lmdb.rows, a.base)))
    ensures a.base < Base(t.lmdb.head) + snapSize ==> GapFree(Begin(t), snapSize)
  {
    var t' := Begin(t);
    var m := t'.phase.myLast;
    forall j {:trigger Filed(t.lmdb.rows, j)}
      ensures j in t.lmdb.rows || Max(t'.writer.maxIndex, a.base) < j <= t.limit ==> Filed(t.lmdb.rows, j)
    {
      assert j in t.lmdb.rows || Max(t'.writer.maxIndex, a.base) < j <= t.limit ==> Right(t.lmdb.rows, a.recs, j);
    }
    forall j {:trigger Filed(t.sqlite.rows, j)}
      ensures a.base < j <= m - 1 ==> Filed(t.sqlite.rows, j)
    {
      assert a.base < j <= m - 1 ==> Right(t.sqlite.rows, a.recs, j);
    }
    assert a.base < m <= Arch(t) ==> Right(t.sqlite.rows, a.recs, m);
    assert Max(Arch(t), a.base) < m <= |a.recs| ==> Right(t.lmdb.rows, a.recs, m);
  }

  /** An offer that would lie on a pruned row ends the writer. */
  lemma PrunedOfferDies(t: Tiered, snapSize: nat)
    requires t.phase.Offering? && t.phase.low >= 1 && t.phase.high - t.phase.low >= snapSize
    requires t.phase.low + snapSize - 1 !in t.sqlite.rows
    ensures Offer(t, snapSize).phase.Dead?
  {
  }

  function Passes(t: Tiered, size: nat, n: nat): Tiered
    decreases n
  {
    if n == 0 || !t.phase.Copying? then t else Passes(Pass(t, size), size, n - 1)
  }

  /** The loop is left after `n` turns at most. */
  ghost predicate LeavesBy(t: Tiered, size: nat, n: nat) { Passes(t, size, n).phase.Offering? }

  /** Left alone, the loop is left. */
  ghost predicate Leaves(t: Tiered, size: nat) { exists n :: LeavesBy(t, size, n) }

  /** Ready to finish, the loop ends with SQLite's last index at the limit. */
  lemma {:induction false} CopyLoopEnds(t: Tiered, size: nat) returns (n: nat)
    requires CopyReady(t) && size >= 1
    ensures Passes(t, size, n).phase.Offering?
    ensures Passes(t, size, n).phase.high == Max(t.phase.myLast, if t.limit < 0 then 0 else t.limit)
    decreases t.limit - t.phase.myLast
  {
    if t.phase.myLast < t.limit {
      PassProgress(t, size);
      n := CopyLoopEnds(Pass(t, size), size);
      n := n + 1;
    } else {
      assert Passes(Pass(t, size), size, 0) == Pass(t, size);
      n := 1;
    }
  }

  /** Index `j` will not be copied by a block that starts at `first`. */
  ghost predicate Unavailable(rows: map<nat, LogRec>, max: nat, first: nat, j: nat)
  {
    j > max || j !in rows || j < first
  }

  /** No block gets past an index that is not available: it raises, or its last index stays below. */
  lemma {:induction false} BlockHalts(w: Table, rows: map<nat, LogRec>, max: nat, first: nat, last: int, j: nat)
    requires AllFiled(rows) && w.head.maxIndex < j && Unavailable(rows, max, first, j) && 1 <= first
    ensures var c := InsertEach(w, Gather(rows, max, first, last));
            c.table.head.snapshot == w.head.snapshot && (c.raised || w.head.maxIndex <= c.table.head.maxIndex < j)
    decreases last - first
  {
    if first <= last {
      var rest := Gather(rows, max, first + 1, last);
      if first <= max && first in rows {
        assert Filed(rows, first);
        assert ([rows[first]] + rest)[1..] == rest;
        var r := Insert(w, rows[first]);
        if r.Ok? {
          BlockHalts(r.value, rows, max, first + 1, last, j);
        }
      } else {
        assert [] + rest == rest;
        BlockHalts(w, rows, max, first + 1, last, j);
      }
    }
  }

  /** Something up to the limit is missing, and the loop has not reached the limit. */
  ghost predicate Halted(t: Tiered, j: nat)
  {
    && Positioned(t) && t.phase.myLast < t.limit && t.writer.maxIndex < j <= t.limit
    && (t.phase.myLast == 0 || Unavailable(t.lmdb.rows, t.source.maxIndex, t.phase.myLast, j))
  }

  lemma HaltedStays(t: Tiered, size: nat, j: nat)
    requires Halted(t, j)
    ensures Pass(t, size).phase.Dead? || Halted(Pass(t, size), j)
  {
    var myLast := t.phase.myLast;
    if myLast > 0 {
      BlockHalts(Table(t.sqlite, t.writer), t.lmdb.rows, t.source.maxIndex, myLast, BlockEnd(myLast, t.limit, size), j);
    }
  }

  lemma {:induction false} HaltedNeverOffers(t: Tiered, size: nat, n: nat, j: nat)
    requires Halted(t, j)
    ensures !Passes(t, size, n).phase.Offering?
    decreases n
  {
    if n > 0 {
      HaltedStays(t, size, j);
      var t' := Pass(t, size);
      if t'.phase.Dead? {
        assert Passes(t', size, n - 1) == t';
      } else {
        HaltedNeverOffers(t', size, n - 1, j);
      }
    }
  }

  lemma FindsHalt(t: Tiered) returns (j: nat)
    requires Positioned(t) && t.phase.myLast < t.limit && !CanFinish(t)
    ensures Halted(t, j)
  {
    var m := t.writer.maxIndex;
    if t.phase.myLast == 0 || t.phase.myLast > m + 1 {
      j := m + 1;
    } else if t.limit > t.source.maxIndex {
      j := t.limit;
    } else {
      j :| m + 1 <= j <= t.limit && !Filed(t.lmdb.rows, j);
      assert j in t.lmdb.rows ==> Filed(t.lmdb.rows, j);
    }
  }

  /** Left alone from any place in it, the copy loop is left if and only if it has reached its limit or can finish. */
  lemma CopyLoopEndsExactly(t: Tiered, size: nat)
    requires Positioned(t) && size >= 1
    ensures Leaves(t, size) <==> t.limit <= t.phase.myLast || CanFinish(t)
  {
    if t.limit <= t.phase.myLast {
      var t' := Pass(t, size);
      assert Passes(t', size, 0) == t' && t'.phase.Offering?;
      assert Passes(t, size, 1) == t';
      assert LeavesBy(t, size, 1);
    } else if CanFinish(t) {
      var n := CopyLoopEnds(t, size);
      assert LeavesBy(t, size, n);
    } else {
      var j := FindsHalt(t);
      forall n
        ensures !LeavesBy(t, size, n)
      {
        HaltedNeverOffers(t, size, n, j);
      }
    }
  }

  /** What can be missing in a reachable state: rows under the application snapshot, and rows past the log's end. */
  ghost predicate Uncut(t: Tiered, a: Truth)
  {
    && t.limit <= |a.recs|
    && forall j: nat {:trigger Filed(t.lmdb.rows, j)} ::
         t.writer.maxIndex < j <= a.base && j <= t.limit ==> Filed(t.lmdb.rows, j)
  }

  lemma UncutIsPresent(t: Tiered, a: Truth)
    requires Inv(t, a) && t.phase.Copying? && t.phase.myLast < t.limit
    ensures Positioned(t) && (Uncut(t, a) <==> Present(t.lmdb.rows, t.writer.maxIndex + 1, t.limit))
  {
    var rows, m := t.lmdb.rows, t.writer.maxIndex;
    forall j {:trigger Filed(rows, j)}
      ensures j in rows ==> Filed(rows, j) && j <= |a.recs|
      ensures Max(m, a.base) < j <= |a.recs| ==> Filed(rows, j)
    {
      assert j in rows || Max(m, a.base) < j <= |a.recs| ==> Right(rows, a.recs, j);
    }
    if Present(rows, m + 1, t.limit) {
      assert Filed(rows, t.limit);
    }
  }

  /** In reachable states the loop ends if and only if its limit lies within the opened LMDB log and within the log
      itself, and no application snapshot has passed the writer's last index and cut away what it had yet to copy. */
  lemma ReachableEndsExactly(t: Tiered, a: Truth, size: nat)
    requires Inv(t, a) && t.phase.Copying? && 1 <= t.phase.myLast < t.limit && size >= 1
    ensures Leaves(t, size) <==>
            t.limit <= t.source.maxIndex && t.phase.myLast <= t.writer.maxIndex + 1 && Uncut(t, a)
    ensures a.base <= t.writer.maxIndex ==>
              t.phase.myLast <= t.writer.maxIndex + 1 && (Uncut(t, a) <==> t.limit <= |a.recs|)
  {
    UncutIsPresent(t, a);
    CopyLoopEndsExactly(t, size);
  }

  lemma {:induction false} NothingBeyond(rows: map<nat, LogRec>, max: nat, first: nat, last: int)
    requires first > max
    ensures Gather(rows, max, first, last) == []
    decreases last - first
  {
    if first <= last {
      NothingBeyond(rows, max, first + 1, last);
    }
  }

  /** The writer has copied everything its LMDB object knows of, and the limit lies beyond. */
  ghost predicate Stranded(t: Tiered)
  {
    && t.phase.Copying? && t.phase.myLast == t.writer.maxIndex == t.source.maxIndex >= 1
    && Base(t.writer) <= t.writer.maxIndex && t.limit > t.source.maxIndex
    && AllFiled(t.lmdb.rows)
  }

  lemma StrandedStays(t: Tiered, size: nat)
    requires Stranded(t)
    ensures Stranded(Pass(t, size)) && Pass(t, size).phase == t.phase
  {
    var myLast := t.phase.myLast;
    var last := BlockEnd(myLast, t.limit, size);
    var rest := Gather(t.lmdb.rows, t.source.maxIndex, myLast + 1, last);
    NothingBeyond(t.lmdb.rows, t.source.maxIndex, myLast + 1, last);
    var w := Table(t.sqlite, t.writer);
    if myLast in t.lmdb.rows {
      assert Filed(t.lmdb.rows, myLast);
      assert Gather(t.lmdb.rows, t.source.maxIndex, myLast, last) == [t.lmdb.rows[myLast]];
      assert [t.lmdb.rows[myLast]][1..] == [];
      var r := Insert(w, t.lmdb.rows[myLast]).value;
      assert InsertEach(r, []) == Copied(r, false);
      assert CopyBlock(t, myLast, last) == Copied(r, false);
    } else {
      assert Gather(t.lmdb.rows, t.source.maxIndex, myLast, last) == [];
    }
  }

  /** With the limit beyond it the loop never ends, however long it runs. */
  lemma {:induction false} CopyLoopNeverEnds(t: Tiered, size: nat, n: nat)
    requires Stranded(t)
    ensures Passes(t, size, n).phase == t.phase
    decreases n
  {
    if n > 0 {
      StrandedStays(t, size);
      CopyLoopNeverEnds(Pass(t, size), size, n - 1);
    }
  }

  // -------------------------------------------------------------- the offers of one task

  /** Where the offers have got to. */
  ghost function Reached(offers: seq<Snapshot>, low: nat): nat
  {
    if offers == [] then low else offers[|offers| - 1].index
  }

  /** One offer every `size` records above `low`, each naming a stored record strictly below `high`. */
  ghost predicate Spaced(offers: seq<Snapshot>, low: nat, size: nat, high: nat, rows: map<nat, LogRec>)
  {
    forall k {:trigger offers[k]} :: 0 <= k < |offers| ==>
      && offers[k].index == Reached(offers[..k], low) + size && offers[k].index < high
      && Lookup(rows, offers[k].index).Some? && rows[offers[k].index].term == offers[k].term
  }

  lemma SpacedMore(offers: seq<Snapshot>, low: nat, size: nat, high: nat, rows: map<nat, LogRec>, o: Snapshot)
    requires Spaced(offers, low, size, high, rows)
    requires o.index == Reached(offers, low) + size && o.index < high
    requires Lookup(rows, o.index).Some? && rows[o.index].term == o.term
    ensures Spaced(offers + [o], low, size, high, rows)
  {
    var more := offers + [o];
    assert more[..|offers|] == offers;
    assert forall k {:trigger more[k]} :: 0 <= k < |offers| ==> more[..k] == offers[..k] && more[k] == offers[k];
  }

  lemma {:induction false} OffersIncrease(offers: seq<Snapshot>, low: nat, size: nat, high: nat,
                                          rows: map<nat, LogRec>, i: nat, j: nat)
    requires Spaced(offers, low, size, high, rows) && size >= 1 && i < j < |offers|
    ensures low < offers[i].index < offers[j].index < high
    decreases j
  {
    assert offers[j].index == Reached(offers[..j], low) + size;
    assert offers[i].index == Reached(offers[..i], low) + size;
    if i < j - 1 {
      OffersIncrease(offers, low, size, high, rows, i, j - 1);
    }
    assert i > 0 ==> offers[..i][i - 1] == offers[i - 1];
    if i > 0 {
      OffersIncrease(offers, low, size, high, rows, 0, i);
    }
  }

  // -------------------------------------------------------------- the newest records stay

  /** Limits are the main process's last index less the hold count; nothing is deleted and the application takes no
      snapshot. */
  predicate Holding(a: Truth, step: Step, hold: nat)
  {
    match step
    case DoDelete(_) => false
    case DoInstall(_) => false
    case DoSetLimit(limit, _, _) => limit + hold <= |a.recs|
    case DoOffer(size) => size >= 1
    case _ => true
  }

  ghost predicate Within(k: int, a: Truth, hold: nat) { k <= 0 || k + hold <= |a.recs| }

  ghost predicate HoldInv(t: Tiered, a: Truth, hold: nat)
  {
    && Inv(t, a) && a.base == 0 && (a.top == 0 || a.top + hold < |a.recs|)
    && Within(t.sqlite.head.maxIndex, a, hold) && Within(t.main.maxIndex, a, hold) && Within(t.writer.maxIndex, a, hold)
    && Within(t.limit, a, hold) && (t.phase.Offering? ==> t.phase.high <= 1 || Within(t.phase.high, a, hold))
  }

  /** No block reaches beyond its end. */
  lemma {:induction false} BlockStops(w: Table, rows: map<nat, LogRec>, max: nat, first: nat, last: int,
                                      recs: seq<LogRec>)
    requires forall j {:trigger Right(rows, recs, j)} :: j in rows ==> Right(rows, recs, j)
    requires Indexed(recs)
    ensures var c := InsertEach(w, Gather(rows, max, first, last)).table;
            && c.head.maxIndex <= Max(w.head.maxIndex, if last < 0 then 0 else last)
            && c.head.snapshot == w.head.snapshot
            && (c == w || c.file.head.maxIndex == c.head.maxIndex)
    decreases last - first
  {
    if first <= last {
      var rest := Gather(rows, max, first + 1, last);
      if first <= max && first in rows {
        assert Right(rows, recs, first);
        assert ([rows[first]] + rest)[1..] == rest;
        var r := Insert(w, rows[first]);
        if r.Ok? {
          BlockStops(r.value, rows, max, first + 1, last, recs);
        }
      } else {
        assert [] + rest == rest;
        BlockStops(w, rows, max, first + 1, last, recs);
      }
    }
  }

  lemma PassHolds(t: Tiered, a: Truth, size: nat, hold: nat)
    requires HoldInv(t, a, hold) && t.phase.Copying?
    ensures HoldInv(Pass(t, size), a, hold)
  {
    PassInv(t, a, size);
    var myLast := t.phase.myLast;
    if 1 <= myLast < t.limit {
      BlockStops(Table(t.sqlite, t.writer), t.lmdb.rows, t.source.maxIndex, myLast, BlockEnd(myLast, t.limit, size),
                 a.recs);
    }
  }

  lemma OfferHolds(t: Tiered, a: Truth, snapSize: nat, hold: nat)
    requires HoldInv(t, a, hold) && t.phase.Offering? && snapSize >= 1
    ensures HoldInv(Offer(t, snapSize), TruthAct(t, a, DoOffer(snapSize)), hold)
  {
    OfferStepInv(t, a, snapSize);
    if |Offer(t, snapSize).offers| > |t.offers| {
      OfferedIndex(t, a, snapSize);
    }
  }

  lemma InsertHolds(t: Tiered, a: Truth, rec: LogRec, hold: nat)
    requires HoldInv(t, a, hold) && Careful(t, a, DoInsert(rec))
    ensures HoldInv(HybridInsert(t, rec), TruthAct(t, a, DoInsert(rec)), hold)
  {
    InsertInv(t, a, rec);
  }

  lemma StepHolds(t: Tiered, a: Truth, step: Step, hold: nat)
    requires HoldInv(t, a, hold) && Enabled(t, step) && Careful(t, a, step) && Holding(a, step, hold)
    ensures HoldInv(Act(t, step), TruthAct(t, a, step), hold)
  {
    match step
    case DoInsert(rec) => InsertHolds(t, a, rec, hold);
    case DoPass(size) => PassHolds(t, a, size, hold);
    case DoOffer(size) => OfferHolds(t, a, size, hold);
    case _ => StepInv(t, a, step);
  }

  lemma {:induction false} RunHolds(run: seq<Tiered>, truth: seq<Truth>, steps: seq<Step>, hold: nat, k: nat)
    requires IsCarefulRun(run, truth, steps) && k < |run|
    requires forall j :: 0 <= j < |steps| ==> Holding(truth[j], steps[j], hold)
    ensures HoldInv(run[k], truth[k], hold)
  {
    if k > 0 {
      RunHolds(run, truth, steps, hold, k - 1);
      assert Careful(run[k - 1], truth[k - 1], steps[k - 1]) && Holding(truth[k - 1], steps[k - 1], hold);
      StepHolds(run[k - 1], truth[k - 1], steps[k - 1], hold);
    }
  }

  /** Without deletes and application snapshots, LMDB always holds the newest `hold` records (and one more). */
  lemma NewestStayLocal(run: seq<Tiered>, truth: seq<Truth>, steps: seq<Step>, hold: nat, k: nat, i: nat)
    requires IsCarefulRun(run, truth, steps) && k < |run|
    requires forall j :: 0 <= j < |steps| ==> Holding(truth[j], steps[j], hold)
    requires 1 <= i <= |truth[k].recs| && i + hold >= |truth[k].recs|
    ensures Lookup(run[k].lmdb.rows, i) == Some(truth[k].recs[i - 1])
  {
    RunHolds(run, truth, steps, hold, k);
    assert Right(run[k].lmdb.rows, truth[k].recs, i);
  }
}

/** The two processes of the hybrid log as objects. Each method is proved to be the step of the same name in
    TieredLog.dfy; `rest` stands for the part of the system the object does not own. */
module HybridObjects {
  import opened RaftTypes
  import opened Stores
  import opened StoreObjects
  import opened TieredLog
  import opened TieredCopy

  /** The main process. */
  class HybridLog {
    const lmdb: LmdbLog
    const sqlite: SqliteLog
    var lastLmdbSnap: Option<Snapshot>
    var lastPressureSent: int
    var holdCount: nat
    var pushTrigger: nat
    var limits: seq<int>           // copy limits sent to the writer
    var notes: seq<int>            // delete notes sent to the writer

    ghost predicate Valid()
      reads this, lmdb, lmdb.file
    {
      lmdb.file != sqlite.file && lmdb.Cached() == lmdb.file.head
    }

    ghost function View(rest: Tiered): Tiered
      reads this, lmdb, lmdb.file, sqlite, sqlite.file
    {
      rest.(lmdb := lmdb.file.View(), sqlite := sqlite.file.View(), main := sqlite.Cached(), archived := lastLmdbSnap)
    }

    constructor (lmdb: LmdbLog, sqlite: SqliteLog, holdCount: nat, pushTrigger: nat)
      requires lmdb.file != sqlite.file && lmdb.Cached() == lmdb.file.head
      ensures Valid() && this.lmdb == lmdb && this.sqlite == sqlite && lastLmdbSnap == None && limits == notes == []
    {
      this.lmdb, this.sqlite, this.holdCount, this.pushTrigger := lmdb, sqlite, holdCount, pushTrigger;
      lastLmdbSnap, lastPressureSent, limits, notes := None, 0, [], [];
    }

    /** Stores in LMDB; when more than the hold count has piled up since the last limit, sends the next one. */
    method InsertRecord(rec: LogRec, ghost rest: Tiered) returns (raised: bool)
      requires Valid()
      modifies this`limits, this`lastPressureSent, lmdb, lmdb.file
      ensures Valid() && View(rest) == HybridInsert(old(View(rest)), rec)
      ensures raised <==> Insert(old(lmdb.View()), rec).Raised? || FirstIndex(lmdb.Cached()).None?
      ensures var first := FirstIndex(lmdb.Cached());
              var press := !raised &&
                           LastIndex(lmdb.Cached()) - first.value - old(lastPressureSent) - holdCount >= pushTrigger;
              var limit := Slot(old(lmdb.Cached()), rec) - holdCount;
              && limits == old(limits) + (if press then [limit] else [])
              && lastPressureSent == if press then limit else old(lastPressureSent)
    {
      var slot := if rec.index == 0 then lmdb.maxIndex + 1 else rec.index;
      raised := lmdb.Put(rec);
      if raised {
        return;
      }
      var first := FirstIndex(lmdb.Cached());
      if first.None? {
        return true;
      }
      if LastIndex(lmdb.Cached()) - first.value - lastPressureSent - holdCount >= pushTrigger {
        limits := limits + [slot - holdCount];
        lastPressureSent := slot - holdCount;
      }
    }

    method ReadRecord(i: nat, ghost rest: Tiered) returns (r: Result<Option<LogRec>>)
      requires Valid()
      ensures r == HybridRead(View(rest), i)
    {
      if lastLmdbSnap.Some? && lastLmdbSnap.value.index >= i {
        r := sqlite.Get(i);
      } else {
        r := lmdb.Get(i);
      }
    }

    /** read() without an index. */
    method ReadNewest(ghost rest: Tiered) returns (r: Option<LogRec>)
      requires Valid()
      ensures r == HybridReadLast(View(rest))
    {
      var i := lmdb.maxIndex;
      r := if i >= 1 && i in lmdb.file.rows then Some(lmdb.file.rows[i]) else None;
    }

    /** SQLite is truncated only when its last index, as this process knows it, lies beyond `i`. */
    method DeleteFromSqlite(i: nat, ghost rest: Tiered)
      requires Valid() && !DeleteRefused(View(rest), i)
      modifies this`notes, sqlite, sqlite.file
      ensures Valid() && View(rest) == DeleteArchived(old(View(rest)), i)
      ensures notes == old(notes) + (if old(Truncates(View(rest), i)) then [i - 1] else [])
    {
      if FirstIndex(sqlite.Cached()).Some? && i < LastIndex(sqlite.Cached()) {
        var raised := sqlite.DeleteAllFrom(i);
        assert !raised;
        notes := notes + [i - 1];
      }
    }

    method DeleteFromLmdb(i: nat, ghost rest: Tiered) returns (raised: bool)
      requires Valid()
      modifies lmdb, lmdb.file
      ensures Valid() && View(rest) == DeleteLocal(old(View(rest)), i) &&
              raised == DeleteLocalRaises(old(View(rest)), i)
    {
      if lmdb.snapshot.None? || lmdb.snapshot.value.index < i {
        raised := lmdb.DeleteAllFrom(i);
      } else {
        raised := lmdb.ClearDespiteSnapshot();
      }
    }

    method DeleteAllFrom(i: nat, ghost rest: Tiered) returns (raised: bool)
      requires Valid()
      modifies this`notes, this`lastPressureSent, lmdb, lmdb.file, sqlite, sqlite.file
      ensures Valid() && View(rest) == HybridDelete(old(View(rest)), i)
      ensures raised == (old(DeleteRefused(View(rest), i)) || DeleteLocalRaises(DeleteArchived(old(View(rest)), i), i))
      ensures lastPressureSent == if old(DeleteRefused(View(rest), i)) then old(lastPressureSent)
                                  else if i == 1 then 0
                                  else if i < old(lastPressureSent) then i else old(lastPressureSent)
      ensures var noted := !old(DeleteRefused(View(rest), i)) && old(Truncates(View(rest), i));
              notes == old(notes) + (if noted then [i - 1] else [])
    {
      if sqlite.snapshot.Some? && i < sqlite.snapshot.value.index + 1 {
        return true;
      }
      DeleteFromSqlite(i, rest);
      lastPressureSent := if i == 1 then 0 else if i < lastPressureSent then i else lastPressureSent;
      raised := DeleteFromLmdb(i, rest);
    }

    method InstallSnapshot(s: Snapshot, ghost rest: Tiered) returns (raised: bool)
      requires Valid()
      modifies lmdb, lmdb.file, sqlite, sqlite.file
      ensures Valid() && raised == (s.index == 0) && View(rest) == HybridInstall(old(View(rest)), s)
    {
      sqlite.RefreshStats();
      if s.index == 0 {
        return true;
      }
      sqlite.SpecialInstallSnapshot(s);
      if lmdb.snapshot.Some? && lmdb.snapshot.value.index >= s.index {
        return false;
      }
      var first := FirstIndex(lmdb.Cached());
      if first.Some? && s.index > first.value {
        raised := lmdb.InstallSnapshot(s);
      }
      return false;
    }

    method ProcessSnapshot(o: Snapshot, ghost rest: Tiered) returns (raised: bool)
      requires Valid() && rest.offers != [] && rest.offers[0] == o
      modifies this`lastLmdbSnap, lmdb, lmdb.file, sqlite
      ensures Valid() && raised == (o.index == 0)
      ensures View(rest.(offers := rest.offers[1..])) == TakeOffer(old(View(rest)))
    {
      sqlite.RefreshStats();
      raised := lmdb.InstallSnapshot(o);
      if !raised {
        lastLmdbSnap := Some(o);
      }
    }

    /** The part of set_term, set_voted_for and set_broken that touches the SQLite file. */
    method SaveStatsRow(ghost rest: Tiered)
      requires Valid()
      modifies sqlite.file
      ensures Valid() && View(rest) == SaveMeta(old(View(rest)))
    {
      sqlite.WriteStats();
    }
  }

  /** The writer process. */
  class SqliteWriter {
    const sqlite: SqliteLog
    const lmdb: LmdbLog
    var copyLimit: int
    var upstreamCommit: nat
    var upstreamApply: nat
    var snapSize: nat
    var copyBlockSize: nat
    var sent: seq<Snapshot>

    ghost predicate Valid()
      reads this
    {
      lmdb.file != sqlite.file
    }

    ghost function View(rest: Tiered, phase: Phase): Tiered
      reads this, lmdb, lmdb.file, sqlite, sqlite.file
    {
      rest.(lmdb := lmdb.file.View(), sqlite := sqlite.file.View(), writer := sqlite.Cached(), source := lmdb.Cached(),
            phase := phase, limit := copyLimit, upCommit := upstreamCommit, upApplied := upstreamApply,
            offers := rest.offers + sent)
    }

    constructor (sqlite: SqliteLog, lmdb: LmdbLog, snapSize: nat, copyBlockSize: nat)
      requires lmdb.file != sqlite.file
      ensures Valid() && this.sqlite == sqlite && this.lmdb == lmdb && copyLimit == 0 && sent == []
    {
      this.sqlite, this.lmdb, this.snapSize, this.copyBlockSize := sqlite, lmdb, snapSize, copyBlockSize;
      copyLimit, upstreamCommit, upstreamApply, sent := 0, 0, 0, [];
    }

    method HandleDeletes(newLast: nat, ghost rest: Tiered, ghost phase: Phase)
      requires Valid()
      modifies this`upstreamCommit, this`upstreamApply, lmdb
      ensures Valid() && View(rest, phase) == NoteDelete(old(View(rest, phase)), newLast)
    {
      lmdb.Reopen();
      upstreamCommit := Min(newLast, upstreamCommit);
      upstreamApply := Min(newLast, upstreamApply);
    }

    method ReadRows(first: nat, last: int) returns (raised: bool, recs: seq<LogRec>)
      ensures raised == (first < 1 && first <= last)
      ensures !raised ==> recs == Gather(lmdb.file.rows, lmdb.maxIndex, first, last)
    {
      recs := [];
      var index := first;
      while index <= last
        invariant first < index ==> first >= 1 && index <= last + 1
        invariant first <= index
        invariant recs + Gather(lmdb.file.rows, lmdb.maxIndex, index, last) ==
                    Gather(lmdb.file.rows, lmdb.maxIndex, first, last)
        decreases last - index
      {
        var r := lmdb.Get(index);
        if r.Raised? {
          return true, [];
        }
        if r.value.Some? {
          recs := recs + [r.value.value];
        }
        index := index + 1;
      }
      assert recs + [] == recs;
      raised := false;
    }

    method StoreRows(recs: seq<LogRec>) returns (raised: bool)
      requires Valid()
      modifies sqlite, sqlite.file
      ensures Copied(sqlite.View(), raised) == InsertEach(old(sqlite.View()), recs) && lmdb.View() == old(lmdb.View())
    {
      var i := 0;
      while i < |recs|
        invariant i <= |recs| && lmdb.View() == old(lmdb.View())
        invariant InsertEach(old(sqlite.View()), recs) == InsertEach(sqlite.View(), recs[i..])
      {
        assert recs[i..][1..] == recs[i + 1..];
        raised := sqlite.Put(recs[i]);
        if raised {
          return;
        }
        i := i + 1;
      }
      raised := false;
    }

    /** Reads the whole block, then stores it record by record. */
    method CopyRows(first: nat, last: int, ghost rest: Tiered, ghost phase: Phase) returns (raised: bool)
      requires Valid()
      modifies sqlite, sqlite.file
      ensures Copied(sqlite.View(), raised) == CopyBlock(old(View(rest, phase)), first, last)
      ensures lmdb.View() == old(lmdb.View())
    {
      var recs;
      raised, recs := ReadRows(first, last);
      if !raised {
        raised := StoreRows(recs);
      }
    }

    /** One turn of the copy loop: a block, then the term and the marks. */
    method CopyTurn(myLast: nat, ghost rest: Tiered) returns (raised: bool)
      requires Valid() && myLast < copyLimit
      modifies sqlite, sqlite.file
      ensures Valid() && lmdb.View() == old(lmdb.View())
      ensures var t := Pass(old(View(rest, Copying(myLast))), copyBlockSize);
              View(rest, if raised then Dead else Copying(LastIndex(sqlite.Cached()))) == t
    {
      if copyLimit - myLast > copyBlockSize {
        raised := CopyRows(myLast, myLast + copyBlockSize, rest, Copying(myLast));
      } else {
        raised := CopyRows(myLast, copyLimit, rest, Copying(myLast));
      }
      if raised {
        return;
      }
      var last := LastIndex(sqlite.Cached());
      sqlite.WriteStats();
      if upstreamCommit > sqlite.maxCommit {
        sqlite.MarkCommitted(Min(upstreamCommit, last));
      }
      if upstreamApply > sqlite.maxApply {
        sqlite.MarkApplied(Min(upstreamApply, last));
      }
    }

    /** Offers an archive snapshot for every `snapSize` records between LMDB's snapshot and `high`. */
    method OfferSnapshots(high: nat, ghost rows: map<nat, LogRec>) returns (dead: bool)
      requires Valid() && snapSize >= 1 && high <= sqlite.maxIndex + 1 && rows == sqlite.file.rows
      requires Present(rows, Base(lmdb.Cached()) + snapSize, high - 1)
      modifies this`sent
      ensures !dead && old(sent) <= sent
      ensures var offers := sent[|old(sent)|..];
              && Spaced(offers, Base(lmdb.Cached()), snapSize, high, rows)
              && high - (Reached(offers, Base(lmdb.Cached())) + 1) < snapSize
    {
      var low := if lmdb.snapshot.None? then 1 else lmdb.snapshot.value.index + 1;
      ghost var offers: seq<Snapshot> := [];
      while high - low >= snapSize
        invariant Valid() && sent == old(sent) + offers
        invariant low == Reached(offers, Base(lmdb.Cached())) + 1 && low >= Base(lmdb.Cached()) + 1
        invariant Spaced(offers, Base(lmdb.Cached()), snapSize, high, rows)
        decreases high - low
      {
        var i := low - 1 + (if high - low < snapSize then high - low else snapSize);
        assert Filed(rows, i);
        var r := sqlite.Get(i);
        if r.Raised? || r.value.None? {
          assert false;
          return true;
        }
        var o := Snapshot(r.value.value.index, r.value.value.term);
        SpacedMore(offers, Base(lmdb.Cached()), snapSize, high, rows, o);
        offers := offers + [o];
        sent := sent + [o];
        low := i + 1;
      }
      assert sent[|old(sent)|..] == offers;
      dead := false;
    }

    /** The copy loop, nothing else happening: it ends at the limit and has moved exactly the LMDB rows up to it. */
    method CopyToLimit(first: nat, ghost rest: Tiered) returns (last: nat)
      requires Valid() && copyBlockSize >= 1 && CopyReady(View(rest, Copying(first)))
      modifies sqlite, sqlite.file
      ensures Valid() && lmdb.View() == old(lmdb.View())
      ensures last == Max(first, if copyLimit < 0 then 0 else copyLimit) == Max(1, LastIndex(sqlite.Cached()))
      ensures last > first ==> last == sqlite.maxIndex
      ensures last == first ==> sqlite.View() == old(sqlite.View())
      ensures AllMoved(old(sqlite.file.rows), lmdb.file.rows, sqlite.file.rows, first,
                       if first < copyLimit then copyLimit else first - 1)
    {
      last := first;
      ghost var rows, done: int := sqlite.file.rows, first - 1;
      while last < copyLimit
        invariant Valid() && lmdb.View() == old(lmdb.View()) && CopyReady(View(rest, Copying(last)))
        invariant first <= last <= Max(first, if copyLimit < 0 then 0 else copyLimit)
        invariant if last == first then done == first - 1 && sqlite.View() == old(sqlite.View())
                  else done == last == sqlite.maxIndex
        invariant AllMoved(rows, lmdb.file.rows, sqlite.file.rows, first, done)
        decreases copyLimit - last
      {
        ghost var before := View(rest, Copying(last));
        PassProgress(before, copyBlockSize);
        var dead := CopyTurn(last, rest);
        MovesJoin(rows, lmdb.file.rows, before.sqlite.rows, sqlite.file.rows, first, done, last,
                  LastIndex(sqlite.Cached()));
        last := LastIndex(sqlite.Cached());
        done := last;
      }
    }

    /** The whole task, nothing else happening: it ends, has moved exactly the LMDB rows between the old last index
        and the limit, and offers increasing snapshots that all lie strictly below SQLite's last index. */
    method CopyTask(ghost rest: Tiered) returns (dead: bool)
      requires Valid() && copyBlockSize >= 1 && snapSize >= 1
      requires var t := Begin(View(rest, Starting)); CopyReady(t) && GapFree(t, snapSize)
      modifies this`sent, sqlite, sqlite.file, lmdb
      ensures !dead && lmdb.file.View() == old(lmdb.file.View()) && old(sent) <= sent
      ensures var first := old(Begin(View(rest, Starting)).phase.myLast);
              var last := Max(first, if copyLimit < 0 then 0 else copyLimit);
              var offers := sent[|old(sent)|..];
              && last == Max(1, LastIndex(sqlite.Cached()))
              && AllMoved(old(sqlite.file.rows), lmdb.file.rows, sqlite.file.rows, first,
                          if first < copyLimit then copyLimit else first - 1)
              && Spaced(offers, Base(lmdb.file.head), snapSize, last, sqlite.file.rows)
              && last - (Reached(offers, Base(lmdb.file.head)) + 1) < snapSize
    {
      ghost var t := Begin(View(rest, Starting));
      lmdb.Reopen();
      sqlite.RefreshStats();
      var myLast := LastIndex(sqlite.Cached());
      if myLast == 0 {
        myLast := 1;
      }
      assert View(rest, Copying(myLast)) == t;
      var last := CopyToLimit(myLast, rest);
      MovesFill(t, sqlite.file.rows, if myLast < copyLimit then copyLimit else myLast - 1, snapSize);
      dead := OfferSnapshots(last, sqlite.file.rows);
    }
  }
}

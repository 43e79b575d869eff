/** The SQLite and LMDB log objects. Several objects may be opened on one file; each keeps its own head. */
module StoreObjects {
  import opened RaftTypes
  import opened Stores

  /** A database file: the rows, and the stats and snapshot rows as last written. */
  class DataFile {
    var rows: map<nat, LogRec>
    var head: Head

    constructor ()
      ensures rows == map[] && head == BLANK
    {
      rows, head := map[], BLANK;
    }

    function View(): File
      reads this
    {
      File(rows, head)
    }
  }

  class SqliteLog {
    const file: DataFile
    var maxIndex: nat
    var maxCommit: nat
    var maxApply: nat
    var snapshot: Option<Snapshot>

    function Cached(): Head
      reads this
    {
      Head(maxIndex, maxCommit, maxApply, snapshot)
    }

    function View(): Table
      reads this, file
    {
      Table(file.View(), Cached())
    }

    /** Opens the file: the head is what the file says. */
    constructor (file: DataFile)
      ensures this.file == file && View() == Table(file.View(), file.head)
    {
      this.file := file;
      maxIndex, maxCommit, maxApply := file.head.maxIndex, file.head.commit, file.head.applied;
      snapshot := file.head.snapshot;
    }

    method RefreshStats()
      modifies this
      ensures View() == Table(old(file.View()), Refresh(old(file.View()), old(Cached())))
    {
      maxIndex, maxCommit, maxApply := file.head.maxIndex, file.head.commit, file.head.applied;
      if file.head.snapshot.Some? {
        snapshot := file.head.snapshot;
      }
    }

    method WriteStats()
      modifies file
      ensures View() == Table(SaveStats(old(file.View()), Cached()), old(Cached()))
    {
      file.head := Head(maxIndex, maxCommit, maxApply, file.head.snapshot);
    }

    method Put(rec: LogRec) returns (raised: bool)
      modifies this, file
      ensures raised == Insert(old(View()), rec).Raised?
      ensures View() == if raised then old(View()) else Insert(old(View()), rec).value
    {
      if rec.index > maxIndex + 1 {
        return true;
      }
      var slot := if rec.index == 0 then maxIndex + 1 else rec.index;
      file.rows := file.rows[slot := rec.(index := slot)];
      if slot > maxIndex {
        maxIndex := slot;
      }
      WriteStats();
      return false;
    }

    method Get(i: nat) returns (r: Result<Option<LogRec>>)
      ensures r == Read(View(), i)
    {
      if i < 1 {
        return Raised;
      }
      if i > maxIndex {
        return Ok(None);
      }
      r := Ok(if i in file.rows then Some(file.rows[i]) else None);
    }

    method DeleteAllFrom(i: nat) returns (raised: bool)
      modifies this, file
      ensures raised == Delete(old(View()), i).Raised?
      ensures View() == if raised then old(View()) else Delete(old(View()), i).value
    {
      if (snapshot.Some? && i < snapshot.value.index + 1) || maxIndex < i {
        return true;
      }
      file.rows := Below(file.rows, i);
      maxIndex := if i > 0 then i - 1 else 0;
      maxCommit := Min(maxIndex, maxCommit);
      maxApply := Min(maxIndex, maxApply);
      WriteStats();
      return false;
    }

    method SpecialInstallSnapshot(s: Snapshot)
      modifies this, file
      ensures View() == Prune(old(View()), s)
    {
      file.head := file.head.(snapshot := Some(s));
      file.rows := Above(file.rows, s.index);
      maxIndex := Max(s.index, maxIndex);
      snapshot := Some(s);
      WriteStats();
    }

    method MarkCommitted(i: nat)
      modifies this, file
      ensures View() == Mark(old(View()), i, 0)
    {
      if i > maxCommit {
        maxCommit := i;
        WriteStats();
      }
    }

    method MarkApplied(i: nat)
      modifies this, file
      ensures View() == Mark(old(View()), 0, i)
    {
      if i > maxApply {
        maxApply := i;
        WriteStats();
      }
    }

    /** The highest row decides, then the snapshot. */
    method GetLastTerm() returns (term: nat)
      ensures AnswersLastTerm(View(), term)
    {
      var rest := file.rows.Keys;
      if rest == {} {
        return if snapshot.Some? then snapshot.value.term else 0;
      }
      var best :| best in rest;
      while rest != {}
        invariant rest <= file.rows.Keys && best in file.rows
        invariant forall j :: j in file.rows && j !in rest ==> j <= best
        decreases |rest|
      {
        var j :| j in rest;
        rest := rest - {j};
        if j > best {
          best := j;
        }
      }
      assert Highest(file.rows, best);
      term := file.rows[best].term;
    }
  }

  class LmdbLog {
    const file: DataFile
    var maxIndex: nat
    var maxCommit: nat
    var maxApply: nat
    var snapshot: Option<Snapshot>

    function Cached(): Head
      reads this
    {
      Head(maxIndex, maxCommit, maxApply, snapshot)
    }

    function View(): Table
      reads this, file
    {
      Table(file.View(), Cached())
    }

    constructor (file: DataFile)
      ensures this.file == file && View() == Table(file.View(), file.head)
    {
      this.file := file;
      maxIndex, maxCommit, maxApply := file.head.maxIndex, file.head.commit, file.head.applied;
      snapshot := file.head.snapshot;
    }

    /** Stop and start: a fresh head is read from the file. */
    method Reopen()
      modifies this
      ensures View() == Table(old(file.View()), old(file.head))
    {
      maxIndex, maxCommit, maxApply := file.head.maxIndex, file.head.commit, file.head.applied;
      snapshot := file.head.snapshot;
    }

    method WriteStats()
      modifies file
      ensures View() == Table(SaveStats(old(file.View()), Cached()), old(Cached()))
    {
      file.head := Head(maxIndex, maxCommit, maxApply, file.head.snapshot);
    }

    method Put(rec: LogRec) returns (raised: bool)
      modifies this, file
      ensures raised == Insert(old(View()), rec).Raised?
      ensures View() == if raised then old(View()) else Insert(old(View()), rec).value
    {
      if rec.index > maxIndex + 1 {
        return true;
      }
      var slot := if rec.index == 0 then maxIndex + 1 else rec.index;
      file.rows := file.rows[slot := rec.(index := slot)];
      maxIndex := Max(slot, maxIndex);
      WriteStats();
      return false;
    }

    method Get(i: nat) returns (r: Result<Option<LogRec>>)
      ensures r == Read(View(), i)
    {
      if i < 1 {
        return Raised;
      }
      if i > maxIndex {
        return Ok(None);
      }
      r := Ok(if i in file.rows then Some(file.rows[i]) else None);
    }

    /** Rows go one at a time; the commit and applied indexes stay. */
    method DeleteAllFrom(i: nat) returns (raised: bool)
      modifies this, file
      ensures raised == DeleteKeepingMarks(old(View()), i).Raised?
      ensures View() == if raised then old(View()) else DeleteKeepingMarks(old(View()), i).value
    {
      if (snapshot.Some? && i < snapshot.value.index + 1) || maxIndex < i {
        return true;
      }
      var doomed := set j | j in file.rows && j >= i;
      while doomed != {}
        invariant doomed == set j | j in file.rows && j >= i
        invariant Below(file.rows, i) == Below(old(file.rows), i)
        invariant file.head == old(file.head) && Cached() == old(Cached())
        decreases |doomed|
      {
        var j :| j in doomed;
        file.rows := file.rows - {j};
        doomed := doomed - {j};
      }
      assert forall j :: j in file.rows ==> j < i || j in doomed;
      maxIndex := if i > 0 then i - 1 else 0;
      WriteStats();
      return false;
    }

    /** Deletes at most a hundred rows at or below the snapshot in one transaction. */
    method DeleteBatch(index: nat) returns (count: nat)
      modifies file
      ensures file.head == old(file.head) && Above(file.rows, index) == Above(old(file.rows), index)
      ensures count <= 100 && |file.rows| + count == |old(file.rows)|
      ensures count == 0 ==> file.rows == Above(file.rows, index)
    {
      count := 0;
      var doomed := set j | j in file.rows && j <= index;
      while doomed != {} && count < 100
        invariant doomed == set j | j in file.rows && j <= index
        invariant file.head == old(file.head) && Above(file.rows, index) == Above(old(file.rows), index)
        invariant count <= 100 && |file.rows| + count == |old(file.rows)|
        decreases |doomed|
      {
        var j :| j in doomed;
        ghost var keys := file.rows.Keys;
        file.rows := file.rows - {j};
        assert file.rows.Keys == keys - {j};
        doomed := doomed - {j};
        count := count + 1;
      }
    }

    method InstallSnapshot(s: Snapshot) returns (raised: bool)
      modifies this, file
      ensures raised == Install(old(View()), s).Raised?
      ensures View() == if raised then old(View()) else Install(old(View()), s).value
    {
      if s.index == 0 {
        return true;
      }
      file.head := file.head.(snapshot := Some(s));
      maxIndex := Max(s.index, maxIndex);
      snapshot := Some(s);
      WriteStats();
      var count := DeleteBatch(s.index);
      while count > 0
        invariant Above(file.rows, s.index) == Above(old(file.rows), s.index)
        invariant file.head == Prune(old(View()), s).file.head && Cached() == Prune(old(View()), s).head
        invariant count == 0 ==> file.rows == Above(file.rows, s.index)
        decreases |file.rows| + count
      {
        count := DeleteBatch(s.index);
      }
      return false;
    }

    /** clear_despite_snapshot: forget the snapshot, then delete everything. */
    method ClearDespiteSnapshot() returns (raised: bool)
      modifies this, file
      ensures var bare := old(file.View()).(head := old(file.head).(snapshot := None));
              var t := Table(bare, old(Cached()).(snapshot := None));
              var r := DeleteKeepingMarks(t, 1);
              raised == r.Raised? && View() == if raised then t else r.value
    {
      snapshot := None;
      file.head := file.head.(snapshot := None);
      raised := DeleteAllFrom(1);
    }

    method MarkCommitted(i: nat)
      modifies this, file
      ensures View() == Mark(old(View()), i, 0)
    {
      if i > maxCommit {
        maxCommit := i;
        WriteStats();
      }
    }
  }
}

/** Sending a snapshot to a follower chunk by chunk, each chunk answered before the next is sent. */
module SnapshotTransfer {
  import opened RaftTypes
  import opened Stores

  datatype Item = Item(slot: string, value: int)

  const ITEMS_PER_CHUNK := 2

  datatype Chunk = Chunk(offset: nat, items: seq<Item>, done: bool, config: bool)

  /** A slice that runs past the end stops there. The slice takes one item more than the constant says. */
  function Slice(data: seq<Item>, from: nat, to: nat): seq<Item>
    requires from <= to
  {
    data[Min(from, |data|)..Min(to, |data|)]
  }

  /** The leader's side: what it sends from, its cursor, and its record of the follower. */
  class Sender {
    const data: seq<Item>
    const snap: Snapshot
    var offset: nat
    var done: bool
    var sending: bool
    var nextIndex: nat
    var matchIndex: nat

    constructor (data: seq<Item>, snap: Snapshot)
      ensures this.data == data && this.snap == snap && !sending
    {
      this.data, this.snap := data, snap;
      offset, done, sending, nextIndex, matchIndex := 0, false, false, 0, 0;
    }

    /** snapshot_send: the next chunk, and the cursor moved past it. */
    method Send() returns (m: Chunk)
      requires sending
      modifies this`offset, this`done
      ensures m == Chunk(old(offset), Slice(data, old(offset), old(offset) + 3), old(offset) + 2 >= |data|,
                         old(offset) == 0)
      ensures offset == old(offset) + 3 && done == m.done
    {
      var limit := offset + ITEMS_PER_CHUNK;
      m := Chunk(offset, Slice(data, offset, limit + 1), limit >= |data|, offset == 0);
      offset, done := limit + 1, limit >= |data|;
    }

    method Start() returns (m: Chunk)
      modifies this
      ensures sending && offset == 3 && nextIndex == old(nextIndex) && matchIndex == old(matchIndex)
      ensures m == Chunk(0, Slice(data, 0, 3), 2 >= |data|, true) && done == m.done
    {
      offset, done, sending := 0, false, true;
      m := Send();
    }

    /** on_snapshot_response_message: finish after a success of the last chunk, else send the next; a reply when nothing
        is being sent raises. */
    method OnResponse(success: bool) returns (raised: bool, m: Option<Chunk>)
      modifies this
      ensures raised == !old(sending)
      ensures raised ==> m == None && !sending && offset == old(offset) && done == old(done)
      ensures old(sending) && old(done) && success ==>
                m == None && !sending && nextIndex == snap.index + 1 && matchIndex == snap.index
      ensures old(sending) && !(old(done) && success) ==>
                && m == Some(Chunk(old(offset), Slice(data, old(offset), old(offset) + 3), old(offset) + 2 >= |data|,
                                   old(offset) == 0))
                && sending && offset == old(offset) + 3 && done == m.value.done
      ensures !(old(sending) && old(done) && success) ==> nextIndex == old(nextIndex) && matchIndex == old(matchIndex)
    {
      if !sending {
        return true, None;
      }
      if done && success {
        sending := false;
        nextIndex, matchIndex := snap.index + 1, snap.index;
        return false, None;
      }
      var chunk := Send();
      raised, m := false, Some(chunk);
    }
  }

  /** The follower's side. `loaded` lists every item handed to the state machine, in order. */
  class Receiver {
    var importing: bool
    var loaded: seq<Item>
    var configured: nat            // how often the cluster configuration was taken from a chunk
    var table: Table

    constructor (table: Table)
      ensures !importing && loaded == [] && configured == 0 && this.table == table
    {
      importing, loaded, configured, this.table := false, [], 0, table;
    }

    /** on_snapshot_message: a chunk of another term is ignored; the first chunk must carry the configuration, and
        without it the import has begun all the same; the last one installs the snapshot. */
    method OnSnapshot(m: Chunk, snap: Snapshot, sameTerm: bool) returns (raised: bool)
      modifies this
      ensures raised == (sameTerm && ((!old(importing) && !m.config) || (m.done && snap.index == 0)))
      ensures !sameTerm ==>
                && importing == old(importing) && loaded == old(loaded)
                && configured == old(configured) && table == old(table)
      ensures sameTerm ==>
                && var begun := old(importing) || m.config;
                && loaded == old(loaded) + (if begun then m.items else [])
                && configured == old(configured) + (if !old(importing) && m.config then 1 else 0)
                && importing == (raised || !m.done)
                && table == if m.done && !raised then Prune(old(table), snap) else old(table)
    {
      if !sameTerm {
        return false;
      }
      if !importing {
        importing := true;
        if !m.config {
          return true;
        }
        configured := configured + 1;
      }
      loaded := loaded + m.items;
      if m.done {
        if snap.index == 0 {
          return true;
        }
        table := Prune(table, snap);
        importing := false;
      }
      return false;
    }
  }

  /** The first `k` chunks, of three items each, and one more. */
  lemma SliceMore(data: seq<Item>, k: nat)
    ensures Slice(data, 0, 3 * k) + Slice(data, 3 * k, 3 * k + 3) == Slice(data, 0, 3 * k + 3)
    ensures 3 * k >= |data| ==> Slice(data, 0, 3 * k) == data
  {
  }

  /** For every snapshot length the exchange ends; every item is loaded once, in order; only the last chunk says done;
      there is one chunk for every three items and one more, which is empty when three divides the length; the
      follower ends with the snapshot installed and the leader with its record of the follower just behind it. */
  method Transfer(s: Sender, r: Receiver) returns (sent: seq<Chunk>)
    requires !r.importing && s.snap.index > 0
    modifies s, r
    ensures r.loaded == old(r.loaded) + s.data && r.configured == old(r.configured) + 1 && !r.importing
    ensures r.table == Prune(old(r.table), s.snap)
    ensures !s.sending && s.nextIndex == s.snap.index + 1 && s.matchIndex == s.snap.index
    ensures |sent| == |s.data| / 3 + 1
    ensures forall i :: 0 <= i < |sent| ==> sent[i].offset == 3 * i && (sent[i].done <==> i == |sent| - 1)
  {
    var m := s.Start();
    sent := [m];
    ghost var k := 0;
    ghost var before := r.loaded;
    while true
      invariant k + 1 == |sent| && m == sent[k] && s.sending && s.offset == 3 * k + 3
      invariant m == Chunk(3 * k, Slice(s.data, 3 * k, 3 * k + 3), 3 * k + 2 >= |s.data|, k == 0) && s.done == m.done
      invariant 3 * k <= |s.data| && r.importing == (k > 0) && r.table == old(r.table)
      invariant r.configured == old(r.configured) + (if k > 0 then 1 else 0)
      invariant r.loaded == before + Slice(s.data, 0, 3 * k)
      invariant forall i :: 0 <= i < |sent| ==> sent[i].offset == 3 * i && (i < k ==> !sent[i].done)
      decreases |s.data| - 3 * k
    {
      SliceMore(s.data, k);
      SliceMore(s.data, k + 1);
      var raised := r.OnSnapshot(m, s.snap, true);
      var next;
      raised, next := s.OnResponse(true);
      if next.None? {
        return;
      }
      m := next.value;
      sent := sent + [m];
      k := k + 1;
    }
  }

  // -------------------------------------------------------------- the totals after a load

  /** Loading updates the follower's totals item by item, and drops none. */
  function Load(totals: map<string, int>, items: seq<Item>): map<string, int>
  {
    if items == [] then totals
    else Load(totals, items[..|items| - 1])[items[|items| - 1].slot := items[|items| - 1].value]
  }

  /** The snapshot data: one item for each total. */
  ghost predicate Lists(items: seq<Item>, totals: map<string, int>)
  {
    && (forall i :: 0 <= i < |items| ==> items[i].slot in totals && totals[items[i].slot] == items[i].value)
    && (forall slot :: slot in totals ==> exists i :: 0 <= i < |items| && items[i].slot == slot)
  }

  lemma {:induction false} LoadHas(before: map<string, int>, items: seq<Item>, totals: map<string, int>)
    requires forall i :: 0 <= i < |items| ==> items[i].slot in totals && totals[items[i].slot] == items[i].value
    ensures var after := Load(before, items);
            && (forall i :: 0 <= i < |items| ==> items[i].slot in after)
            && (forall slot :: slot in after ==> slot in before || slot in totals)
            && (forall slot :: slot in before ==> slot in after)
            && (forall slot ::
                  slot in after && (slot !in before || exists i :: 0 <= i < |items| && items[i].slot == slot) ==>
                  slot in totals && after[slot] == totals[slot])
  {
    if items != [] {
      var front := items[..|items| - 1];
      LoadHas(before, front, totals);
      assert forall i :: 0 <= i < |items| ==> items[i] == if i < |front| then front[i] else items[|items| - 1];
    }
  }

  /** The follower ends with the leader's totals exactly when it had no total of its own that the leader lacks. */
  lemma LoadedExactly(before: map<string, int>, items: seq<Item>, totals: map<string, int>)
    requires Lists(items, totals)
    ensures Load(before, items) == totals <==> before.Keys <= totals.Keys
  {
    LoadHas(before, items, totals);
    if before.Keys <= totals.Keys {
      assert forall slot :: slot in totals ==> slot in Load(before, items);
    }
  }
}

/** One node as an object whose handlers update its fields, with the loops of the three role classes. Every
    method is proved to compute the handler function of the same name in Handlers.dfy. */
module Replicas {
  import opened RaftTypes
  import opened Handlers
  import opened Ledger

  class Replica {
    const config: Config
    const me: Uri
    var role: Role
    var term: nat
    var votedFor: Option<Uri>
    var log: seq<LogRec>
    var commit: nat
    var applied: nat
    var executed: seq<LogRec>
    var nextSerial: nat
    var matchIndex: map<Uri, nat>
    var sent: set<Message>

    ghost predicate Valid()
      reads this
    {
      ValidConfig(config) && me in config.voters && commit <= |log| && applied <= |log|
    }

    ghost function View(): Node
      reads this
    {
      Node(me, role, term, votedFor, log, commit, applied, executed, nextSerial, matchIndex)
    }

    constructor (config: Config, me: Uri)
      requires ValidConfig(config) && me in config.voters
      ensures Valid() && this.config == config && View() == InitialNode(me) && sent == {}
    {
      this.config, this.me, role, term, votedFor := config, me, Follower, 0, None;
      log, commit, applied, executed, nextSerial, matchIndex, sent := [], 0, 0, [], 0, map[], {};
    }

    // -------------------------------------------------------------- the node's log

    method DeleteAllFrom(index: nat)
      requires Valid() && 1 <= index <= |log|
      modifies this
      ensures Valid() && View() == WithLog(old(View()), index - 1, old(log)[..index - 1]) && sent == old(sent)
    {
      log := log[..index - 1];
      commit := Min(|log|, commit);
      applied := Min(|log|, applied);
    }

    /** Deletes backwards, one record at a time. */
    method DeleteLogFrom(index: nat)
      requires Valid() && 1 <= index <= |log|
      modifies this
      ensures Valid() && View() == WithLog(old(View()), index - 1, old(log)[..index - 1]) && sent == old(sent)
    {
      var cur := |log|;
      while cur >= index
        invariant Valid() && index - 1 <= cur <= |old(log)|
        invariant View() == WithLog(old(View()), cur, old(log)[..cur]) && sent == old(sent)
      {
        DeleteAllFrom(cur);
        cur := cur - 1;
      }
    }

    /** Stores a record at its own index; an index past the end plus one raises. */
    method Insert(e: LogRec) returns (raised: bool)
      requires Valid()
      modifies this
      ensures Valid() && raised == (e.index > |old(log)| + 1) && sent == old(sent)
      ensures var scan := InsertAll(old(log), [e]);
              View() == old(View()).(log := scan.log) && raised == scan.raised
    {
      raised := false;
      assert [e][1..] == [];
      if e.index == 0 {
        log := log + [e.(index := |log| + 1)];
      } else if e.index > |log| + 1 {
        raised := true;
      } else if e.index == |log| + 1 {
        log := log + [e];
      } else {
        log := log[e.index - 1 := e];
      }
    }

    // -------------------------------------------------------------- follower

    method SendAppendResponse(m: Message, success: bool)
      requires Valid() && m.AppendEntries?
      modifies this
      ensures Valid() && View() == old(View()) && sent == old(sent) + {Reply(View(), m, success)}
    {
      sent := sent + {AppendResponse(me, m.sender, term, success, |log|, m.prevLogIndex, m.serial)};
    }

    method DropConflicting(entries: seq<LogRec>) returns (raised: bool)
      requires Valid()
      modifies this
      ensures Valid() && sent == old(sent)
      ensures var scan := DropConflicts(old(log), entries);
              View() == WithLog(old(View()), |scan.log|, scan.log) && raised == scan.raised
    {
      var i := 0;
      raised := false;
      while i < |entries|
        invariant Valid() && i <= |entries| && sent == old(sent) && |log| <= |old(log)|
        invariant View() == WithLog(old(View()), |log|, log)
        invariant DropConflicts(old(log), entries) == DropConflicts(log, entries[i..])
      {
        var e := entries[i];
        assert entries[i..][1..] == entries[i + 1..];
        if !(1 <= e.index <= |log|) {
          raised := true;
          return;
        }
        if log[e.index - 1].term != e.term {
          DeleteLogFrom(e.index);
        }
        i := i + 1;
      }
    }

    method AppendRecords(entries: seq<LogRec>) returns (raised: bool)
      requires Valid()
      modifies this
      ensures Valid() && sent == old(sent)
      ensures var scan := InsertAll(old(log), entries);
              View() == old(View()).(log := scan.log) && raised == scan.raised
    {
      var i := 0;
      raised := false;
      while i < |entries|
        invariant Valid() && i <= |entries| && sent == old(sent)
        invariant View() == old(View()).(log := log)
        invariant InsertAll(old(log), entries) == InsertAll(log, entries[i..])
      {
        assert entries[i..][1..] == entries[i + 1..];
        assert [entries[i]][1..] == [];
        raised := Insert(entries[i]);
        if raised {
          return;
        }
        i := i + 1;
      }
    }

    /** The state machine runs a client command without error. */
    method ProcessCommand(rec: LogRec)
      requires Valid()
      modifies this`executed
      ensures Valid() && executed == old(executed) + [rec]
    {
      executed := executed + [rec];
    }

    method MarkCommitted(first: nat, last: nat)
      requires Valid() && first <= commit + 1 && last <= |log|
      modifies this`commit
      ensures Valid() && commit == Max(old(commit), last)
    {
      var index := first;
      while index <= last
        invariant Valid() && first <= index
        invariant index <= last + 1 || index == first
        invariant commit == Max(old(commit), if index == first then 0 else index - 1)
        decreases last + 1 - index
      {
        commit := Max(commit, index);
        index := index + 1;
      }
    }

    method ApplyRange(first: nat, last: nat)
      requires Valid() && 1 <= first && last <= |log|
      modifies this`executed, this`applied
      ensures Valid() && View() == FollowerApply(old(View()), first, last)
    {
      var index := first;
      while index <= last
        invariant Valid() && 1 <= index && (index <= last + 1 || index == first)
        invariant FollowerApply(old(View()), first, last) == FollowerApply(View(), index, last)
        decreases last + 1 - index
      {
        var rec := log[index - 1];
        if rec.code == ClientCommand {
          ProcessCommand(rec);
        }
        applied := Max(applied, index);
        index := index + 1;
      }
    }

    method NewLeaderCommitIndex(leaderCommit: nat)
      requires Valid()
      modifies this
      ensures Valid() && View() == Handlers.NewLeaderCommitIndex(old(View()), leaderCommit) && sent == old(sent)
    {
      var ourCommit, ourApply, last := commit, applied, |log|;
      var maxIndex := Min(leaderCommit, last);
      if ourCommit < leaderCommit {
        MarkCommitted(Min(ourCommit + 1, ourApply + 1), maxIndex);
      }
      ApplyRange(ourApply + 1, maxIndex);
    }

    method FollowerOnAppendEntries(m: Message)
      requires Valid() && m.AppendEntries?
      modifies this
      ensures var out := Handlers.FollowerOnAppendEntries(old(View()), m);
              Valid() && View() == out.node && sent == old(sent) + out.sent
    {
      if m.prevLogIndex == 0 && |log| > 0 {
        DeleteLogFrom(1);
      } else if m.term != term {
        SendAppendResponse(m, false);
        return;
      } else if |log| > m.prevLogIndex {
        if log[m.prevLogIndex - 1].term != m.prevLogTerm {
          DeleteAllFrom(m.prevLogIndex);
          SendAppendResponse(m, false);
          return;
        }
        var raised := DropConflicting(m.entries);
        if raised {
          return;
        }
      } else if |log| != m.prevLogIndex || LastTerm(log) != m.prevLogTerm {
        SendAppendResponse(m, false);
        return;
      }
      ghost var n := View();
      var raised := AppendRecords(m.entries);
      if raised {
        return;
      }
      SendAppendResponse(m, true);
      if m.commitIndex > commit || m.commitIndex > applied {
        NewLeaderCommitIndex(m.commitIndex);
      }
      assert View() == StoreAndCommit(n, m).node;
    }

    method OnVoteRequest(m: Message)
      requires Valid() && m.RequestVote?
      modifies this
      ensures var out := Handlers.OnVoteRequest(old(View()), m);
              Valid() && View() == out.node && sent == old(sent) + out.sent
    {
      if votedFor.Some? {
        sent := sent + {VoteResponse(me, m.sender, m.term, false)};
        return;
      }
      var vote := true;
      if |log| > 0 && (m.prevLogIndex < |log| || m.prevLogTerm < LastTerm(log)) {
        vote := false;
      } else {
        votedFor := Some(m.sender);
      }
      sent := sent + {VoteResponse(me, m.sender, m.term, vote)};
    }

    // -------------------------------------------------------------- candidate

    static lemma OneMoreVoter(n: Node, voters: seq<Uri>, u: Uri)
      ensures BlankVotes(voters + [u], n.me) == BlankVotes(voters, n.me)[u := if u == n.me then Some(true) else None]
      ensures VoteRequests(n, voters + [u]) == VoteRequests(n, voters) +
                (if u == n.me then {} else {RequestVote(n.me, u, n.term, |n.log|, LastTerm(n.log))})
    {
      assert forall v :: v in voters + [u] <==> v in voters || v == u;
    }

    method StartCampaign()
      requires Valid() && !role.Leader?
      modifies this
      ensures var out := Handlers.StartCampaign(config, old(View()));
              Valid() && View() == out.node && sent == old(sent) + out.sent
    {
      votedFor := None;
      term := term + 1;
      ghost var n := View();
      var votes: map<Uri, Option<bool>> := map[];
      var k := 0;
      while k < |config.voters|
        invariant Valid() && k <= |config.voters| && View() == n
        invariant votes == BlankVotes(config.voters[..k], me)
        invariant sent == old(sent) + VoteRequests(n, config.voters[..k])
      {
        var u := config.voters[k];
        OneMoreVoter(n, config.voters[..k], u);
        assert config.voters[..k + 1] == config.voters[..k] + [u];
        if u == me {
          votes := votes[u := Some(true)];
        } else {
          votes := votes[u := None];
          sent := sent + {RequestVote(me, u, term, |log|, LastTerm(log))};
        }
        k := k + 1;
      }
      assert config.voters[..k] == config.voters;
      role := Candidate(votes);
    }

    /** The tally loop over the dictionary of votes. */
    method Tally(votes: map<Uri, Option<bool>>) returns (tally: nat)
      ensures tally == |Ayes(votes)|
    {
      var todo := votes.Keys;
      tally := 0;
      ghost var counted: set<Uri> := {};
      while todo != {}
        invariant todo <= votes.Keys
        invariant counted == set u | u in votes && u !in todo && votes[u] == Some(true)
        invariant tally == |counted|
        decreases |todo|
      {
        var u :| u in todo;
        if votes[u] == Some(true) {
          counted := counted + {u};
          tally := tally + 1;
        }
        todo := todo - {u};
      }
      assert counted == Ayes(votes);
    }

    method OnVoteResponse(m: Message)
      requires Valid() && role.Candidate? && m.VoteResponse?
      modifies this
      ensures var out := Handlers.OnVoteResponse(config, old(View()), m);
              Valid() && View() == out.node && sent == old(sent) + out.sent
    {
      if m.term < term {
        return;
      }
      ghost var n := View();
      var votes := role.votes[m.sender := Some(m.vote)];
      role := Candidate(votes);
      var tally := Tally(votes);
      if 2 * tally > |votes| {
        WinVote();
        assert Handlers.WinVote(config, n) == Handlers.WinVote(config, n.(role := Candidate(votes)));
      }
    }

    method WinVote()
      requires Valid() && role.Candidate?
      modifies this
      ensures var out := Handlers.WinVote(config, old(View()));
              Valid() && View() == out.node && sent == old(sent) + out.sent
    {
      votedFor := None;
      role := Leader(map[], map[]);
      AppendAndBroadcast(TermStart, "");
    }

    // -------------------------------------------------------------- leader: sending

    static lemma OneMoreTracker(c: Config, n: Node, prev: nat, prevTerm: nat, entries: seq<LogRec>, k: nat)
      requires k < |c.voters|
      ensures var before, after := TrackersTo(c, n, prev, prevTerm, entries, k),
                TrackersTo(c, n, prev, prevTerm, entries, k + 1);
              var s, uri := n.nextSerial + k, c.voters[k];
              if uri == n.me then after == before
              else
                var t := Tracker(uri, EntriesMessage(n, uri, s, prev, prevTerm, entries), true);
                after == before[s := t] && MessagesOf(after) == MessagesOf(before) + {t.message}
    {
      var before, after := TrackersTo(c, n, prev, prevTerm, entries, k),
        TrackersTo(c, n, prev, prevTerm, entries, k + 1);
      var s, uri := n.nextSerial + k, c.voters[k];
      assert IsSlot(c, n.nextSerial, n.me, s) <==> uri != n.me;
      if uri == n.me {
        assert after == before;
      } else {
        var t := Tracker(uri, EntriesMessage(n, uri, s, prev, prevTerm, entries), true);
        assert after == before[s := t];
        MessagesOfMore(before, s, t);
      }
    }

    static lemma MessagesOfMore(trackers: map<nat, Tracker>, s: nat, t: Tracker)
      requires s !in trackers
      ensures MessagesOf(trackers[s := t]) == MessagesOf(trackers) + {t.message}
    {
      assert forall k :: k in trackers[s := t] <==> k in trackers || k == s;
      assert trackers[s := t][s] == t;
      assert forall k :: k in trackers ==> trackers[s := t][k] == trackers[k];
    }

    /** The trackers of one broadcast, and their messages. */
    method PrepareBroadcast(prev: nat, prevTerm: nat, entries: seq<LogRec>)
      returns (trackers: map<nat, Tracker>, messages: set<Message>)
      ensures trackers == TrackersTo(config, View(), prev, prevTerm, entries, |config.voters|)
      ensures messages == MessagesOf(trackers)
    {
      ghost var n := View();
      trackers, messages := map[], {};
      var k := 0;
      while k < |config.voters|
        invariant k <= |config.voters|
        invariant trackers == TrackersTo(config, n, prev, prevTerm, entries, k) && messages == MessagesOf(trackers)
      {
        var uri, serial := config.voters[k], nextSerial + k;
        OneMoreTracker(config, n, prev, prevTerm, entries, k);
        if uri != me {
          var message := AppendEntries(me, uri, term, serial, prev, prevTerm, entries, commit);
          trackers := trackers[serial := Tracker(uri, message, true)];
          messages := messages + {message};
        }
        k := k + 1;
      }
    }

    method Broadcast(prev: nat, prevTerm: nat, entries: seq<LogRec>)
      requires Valid() && role.Leader?
      modifies this
      ensures var out := Handlers.Broadcast(config, old(View()), prev, prevTerm, entries);
              Valid() && View() == out.node && sent == old(sent) + out.sent
    {
      var trackers, messages := PrepareBroadcast(prev, prevTerm, entries);
      role := role.(active := role.active + trackers);
      sent := sent + messages;
      nextSerial := nextSerial + |config.voters|;
    }

    method AppendAndBroadcast(code: RecordCode, command: string)
      requires Valid() && role.Leader?
      modifies this
      ensures var out := Handlers.AppendAndBroadcast(config, old(View()), code, command);
              Valid() && View() == out.node && sent == old(sent) + out.sent
    {
      var rec := LogRec(|log| + 1, term, code, command);
      var prevLogIndex, prevLogTerm := |log|, LastTerm(log);
      log := log + [rec];
      role := role.(tallies := role.tallies[rec.index := map[me := true]]);
      Broadcast(prevLogIndex, prevLogTerm, [rec]);
    }

    method SendOne(uri: Uri, prev: nat, prevTerm: nat, entries: seq<LogRec>)
      requires Valid() && role.Leader?
      modifies this
      ensures var out := Handlers.SendOne(old(View()), uri, prev, prevTerm, entries);
              Valid() && View() == out.node && sent == old(sent) + out.sent
    {
      var message := AppendEntries(me, uri, term, nextSerial, prev, prevTerm, entries, commit);
      role := role.(active := role.active[nextSerial := Tracker(uri, message, false)]);
      sent := sent + {message};
      nextSerial := nextSerial + 1;
    }

    method SendHeartbeats(target: Option<Uri>)
      requires Valid() && role.Leader?
      modifies this
      ensures var out := Handlers.SendHeartbeats(config, old(View()), target);
              Valid() && View() == out.node && sent == old(sent) + out.sent
    {
      if target.None? {
        Broadcast(|log|, LastTerm(log), []);
      } else if target.value != me {
        SendOne(target.value, |log|, LastTerm(log), []);
      }
    }

    /** The vote tracker built from the reported last indexes. */
    method GuessVotes(index: nat) returns (votes: map<Uri, bool>)
      requires Valid()
      ensures votes == GuessedVotes(config.voters, me, matchIndex, index)
    {
      votes := map[];
      var k := 0;
      while k < |config.voters|
        invariant k <= |config.voters|
        invariant forall u :: u in votes <==> u in config.voters[..k]
        invariant forall u :: u in votes ==> votes[u] == (u == me || (u in matchIndex && matchIndex[u] >= index))
      {
        var uri := config.voters[k];
        assert config.voters[..k + 1] == config.voters[..k] + [uri];
        votes := votes[uri := uri == me || (uri in matchIndex && matchIndex[uri] >= index)];
        k := k + 1;
      }
      assert config.voters[..k] == config.voters;
    }

    method EnsureLogTracker(index: nat)
      requires Valid() && role.Leader?
      modifies this`role
      ensures Valid() && View() == EnsureTallies(config, old(View()), {index})
    {
      if index !in role.tallies {
        var votes := GuessVotes(index);
        role := role.(tallies := role.tallies[index := votes]);
      }
      assert role.tallies == EnsureTallies(config, old(View()), {index}).role.tallies;
    }

    method SendBackdown(r: Message)
      requires Valid() && role.Leader? && r.AppendResponse?
      modifies this
      ensures var out := Handlers.SendBackdown(config, old(View()), r);
              Valid() && View() == out.node && sent == old(sent) + out.sent
    {
      var sendIndex := if r.maxIndex < r.prevLogIndex then r.maxIndex + 1 else r.prevLogIndex;
      if sendIndex < 1 || sendIndex > |log| {
        return;
      }
      var prevLogIndex, prevLogTerm := sendIndex - 1, TermAt(log, sendIndex - 1);
      var rec := log[sendIndex - 1];
      if sendIndex < commit {
        EnsureLogTracker(sendIndex);
      }
      SendOne(r.sender, prevLogIndex, prevLogTerm, [rec]);
    }

    /** The record after a block of `size` records gets a vote tracker unless it is committed. */
    method NoteRecord(ghost n: Node, start: nat, size: nat)
      requires Valid() && role.Leader? && n.role.Leader?
      requires View() == EnsureTallies(config, n, OpenIndexes(start, size, n.commit))
      modifies this`role
      ensures Valid() && role.Leader? && View() == EnsureTallies(config, n, OpenIndexes(start, size + 1, n.commit))
    {
      EnsureOneMore(n, start, size);
      if start + size > commit {
        EnsureLogTracker(start + size);
      }
    }

    /** The block loop: contiguous records, stopping before a second configuration record. */
    method CollectBlock(start: nat) returns (entries: seq<LogRec>)
      requires Valid() && 1 <= start
      ensures entries == CatchupBlock(config, log, start)
    {
      entries := [];
      var end := if |log| > start + config.maxEntries then start + config.maxEntries else |log|;
      var seen, index := false, start;
      while index <= end
        invariant start <= index && CatchupBlock(config, log, start) == entries + Block(log, index, end, seen)
        decreases end + 1 - index
      {
        var rec := log[index - 1];
        if rec.code == ClusterConfig {
          if seen {
            break;
          }
          seen := true;
        }
        assert entries + [rec] + Block(log, index + 1, end, seen) ==
                 entries + ([rec] + Block(log, index + 1, end, seen));
        entries := entries + [rec];
        index := index + 1;
      }
    }

    /** The same loop's other half: a vote tracker for every record of the block that is not yet committed. */
    method TrackBlock(start: nat, size: nat)
      requires Valid() && role.Leader?
      modifies this`role
      ensures Valid() && View() == EnsureTallies(config, old(View()), OpenIndexes(start, size, commit))
    {
      ghost var n := View();
      EnsureNothing(n, start);
      var k := 0;
      while k < size
        invariant Valid() && role.Leader? && k <= size
        invariant View() == EnsureTallies(config, n, OpenIndexes(start, k, n.commit))
      {
        NoteRecord(n, start, k);
        k := k + 1;
      }
    }

    lemma EnsureNothing(n: Node, start: nat)
      requires n.role.Leader?
      ensures EnsureTallies(config, n, OpenIndexes(start, 0, n.commit)) == n
    {
      assert OpenIndexes(start, 0, n.commit) == {};
      assert EnsureTallies(config, n, {}).role.tallies == n.role.tallies;
    }

    lemma EnsureOneMore(n: Node, start: nat, size: nat)
      requires n.role.Leader?
      ensures var n1 := EnsureTallies(config, n, OpenIndexes(start, size, n.commit));
              EnsureTallies(config, n, OpenIndexes(start, size + 1, n.commit)) ==
              if start + size > n.commit then EnsureTallies(config, n1, {start + size}) else n1
    {
      var i, before, after := start + size, OpenIndexes(start, size, n.commit), OpenIndexes(start, size + 1, n.commit);
      assert IsOpen(i, n.commit) <==> i > n.commit;
      if i > n.commit {
        assert after == before + {i};
        EnsureSplit(n, before, i);
      } else {
        assert after == before;
      }
    }

    lemma EnsureSplit(n: Node, indexes: set<nat>, i: nat)
      requires n.role.Leader?
      ensures EnsureTallies(config, n, indexes + {i}) == EnsureTallies(config, EnsureTallies(config, n, indexes), {i})
    {
      var n1 := EnsureTallies(config, n, indexes);
      var one, many, all := GuessedTallies(config, n1, {i}), GuessedTallies(config, n, indexes),
        GuessedTallies(config, n, indexes + {i});
      assert all + n.role.tallies == one + (many + n.role.tallies);
    }

    method SendCatchup(r: Message)
      requires Valid() && role.Leader? && r.AppendResponse?
      modifies this
      ensures var out := Handlers.SendCatchup(config, old(View()), r);
              Valid() && View() == out.node && sent == old(sent) + out.sent
    {
      var entries := CollectBlock(r.maxIndex + 1);
      TrackBlock(r.maxIndex + 1, |entries|);
      if r.maxIndex > |log| {
        return;
      }
      SendOne(r.sender, r.maxIndex, TermAt(log, r.maxIndex), entries);
    }

    // -------------------------------------------------------------- leader: replies

    method CountYes(votes: map<Uri, bool>) returns (ayes: nat)
      requires Valid()
      ensures ayes == |Yes(config, votes)|
    {
      ayes := 0;
      var k := 0;
      ghost var yes: set<Uri> := {};
      while k < |config.voters|
        invariant k <= |config.voters| && ayes == |yes|
        invariant forall u :: u in yes <==> u in config.voters[..k] && u in votes && votes[u]
      {
        var uri := config.voters[k];
        assert config.voters[..k + 1] == config.voters[..k] + [uri];
        assert uri !in config.voters[..k];
        if uri in votes && votes[uri] {
          ayes := ayes + 1;
          yes := yes + {uri};
        }
        k := k + 1;
      }
      assert config.voters[..k] == config.voters;
      assert yes == Yes(config, votes);
    }

    method ProcessReadyLogRecord(index: nat)
      requires Valid() && index <= |log|
      modifies this`commit, this`applied, this`executed
      ensures Valid() && View() == ProcessReady(old(View()), index)
    {
      if index > commit {
        commit := index;
      }
      if index > applied {
        ghost var n := View();
        var first := applied + 1;
        var cur := first;
        while cur <= index
          invariant Valid() && 1 <= cur <= index + 1
          invariant LeaderApply(n, first, index) == LeaderApply(View(), cur, index)
          decreases index + 1 - cur
        {
          var rec := log[cur - 1];
          if rec.code == ClientCommand {
            ProcessCommand(rec);
            applied := Max(applied, cur);
          } else if rec.code == ClusterConfig {
            applied := Max(applied, cur);
          }
          cur := cur + 1;
        }
      }
    }

    method AssessLogVote(index: nat, r: Message)
      requires Valid() && role.Leader? && r.AppendResponse? && index <= |log|
      modifies this
      ensures Valid() && View() == Handlers.AssessLogVote(config, old(View()), index, r) && sent == old(sent)
    {
      if index !in role.tallies {
        return;
      }
      var votes: map<Uri, bool> := role.tallies[index][r.sender := r.success];
      if |votes| == |config.voters| {
        role := role.(tallies := role.tallies - {index});
      } else {
        role := role.(tallies := role.tallies[index := votes]);
      }
      var ayes := CountYes(votes);
      if ayes >= (|config.voters| + 1) / 2 {
        ProcessReadyLogRecord(index);
      }
    }

    static method HasEntryBeyond(entries: seq<LogRec>, index: nat) returns (found: bool)
      ensures found == exists e :: e in entries && e.index > index
    {
      for i := 0 to |entries|
        invariant forall e :: e in entries[..i] ==> e.index <= index
      {
        assert entries[..i + 1] == entries[..i] + [entries[i]];
        if entries[i].index > index {
          return true;
        }
      }
      assert entries[..|entries|] == entries;
      return false;
    }

    /** Are records above `index` already on their way to `uri`? */
    method LooksInFlight(uri: Uri, index: nat) returns (found: bool)
      requires Valid() && role.Leader?
      ensures found == InFlightBeyond(View(), uri, index)
    {
      var todo := role.active.Keys;
      while todo != {}
        invariant todo <= role.active.Keys
        invariant forall s ::
                    s in role.active && s !in todo && role.active[s].uri == uri &&
                    role.active[s].message.AppendEntries? ==>
                    forall e :: e in role.active[s].message.entries ==> e.index <= index
        decreases |todo|
      {
        var s :| s in todo;
        var t := role.active[s];
        if t.uri == uri && t.message.AppendEntries? {
          var beyond := HasEntryBeyond(t.message.entries, index);
          if beyond {
            return true;
          }
        }
        todo := todo - {s};
      }
      return false;
    }

    method OnAppendResponse(r: Message)
      requires Valid() && role.Leader? && r.AppendResponse?
      modifies this
      ensures var out := Handlers.OnAppendResponse(config, old(View()), r);
              Valid() && View() == out.node && sent == old(sent) + out.sent
    {
      matchIndex := matchIndex[r.sender := r.maxIndex];
      var s := r.originalSerial;
      if s !in role.active || role.active[s].uri != r.sender || !role.active[s].message.AppendEntries? {
        return;
      }
      var t := role.active[s];
      role := role.(active := role.active - {s});
      if !t.broadcast {
        if !r.success {
          SendBackdown(r);
        } else if r.maxIndex != |log| {
          SendCatchup(r);
        }
        return;
      }
      if t.message.entries == [] {
        if !r.success {
          SendBackdown(r);
        }
        return;
      }
      if t.message.entries[0].index <= |log| {
        AssessLogVote(t.message.entries[0].index, r);
      }
      if r.maxIndex < |log| {
        var inFlight := LooksInFlight(r.sender, r.maxIndex);
        if !inFlight {
          SendCatchup(r);
        }
      }
    }

    // -------------------------------------------------------------- dispatch

    method OnMessage(m: Message)
      requires Valid()
      modifies this
      ensures var out := Handlers.OnMessage(config, old(View()), m);
              Valid() && View() == out.node && sent == old(sent) + out.sent
    {
      if m.term > term {
        role, term, votedFor := Follower, m.term, None;
      }
      match m
      case RequestVote(_, _, _, _, _) =>
        if role.Follower? {
          OnVoteRequest(m);
        } else {
          sent := sent + {VoteResponse(me, m.sender, m.term, false)};
        }
      case VoteResponse(_, _, _, _) =>
        if role.Candidate? {
          OnVoteResponse(m);
        }
      case AppendEntries(_, _, _, _, _, _, _, _) =>
        if role.Candidate? && m.term == term {
          role, votedFor := Follower, None;
        }
        if role.Follower? {
          FollowerOnAppendEntries(m);
        } else {
          SendAppendResponse(m, false);
        }
      case AppendResponse(_, _, _, _, _, _, _) =>
        if role.Leader? {
          OnAppendResponse(m);
        }
    }
  }
}

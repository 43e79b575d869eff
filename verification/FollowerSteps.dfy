/** What a follower does with append_entries, seen against the log of the leader that sent it. */
module FollowerSteps {
  import opened RaftTypes
  import opened Handlers
  import opened Ledger
  import opened Cluster
  import opened Network
  import opened ElectionSteps

  /** `kept` is a prefix of `log` that loses nothing shared with `leader`. */
  ghost predicate Trimmed(log: seq<LogRec>, kept: seq<LogRec>, leader: seq<LogRec>)
  {
    && |kept| <= |log|
    && Agree(kept, log, |kept|)
    && forall k: nat {:trigger Agree(log, leader, k)} :: Agree(log, leader, k) ==> k <= |kept|
  }

  /** The scan either stops at an exception, or finds everything equal, or cuts exactly the last entry's place. */
  lemma {:induction false} DropConflictsTrims(log: seq<LogRec>, entries: seq<LogRec>, leader: seq<LogRec>, p: nat)
    requires Matching(log, leader) && Indexed(leader) && Agree(log, leader, p)
    requires p + |entries| <= |leader| && entries == leader[p..p + |entries|]
    ensures var scan := DropConflicts(log, entries);
            && Trimmed(log, scan.log, leader)
            && (!scan.raised ==>
                  || (scan.log == log && Agree(log, leader, p + |entries|))
                  || (|scan.log| == p + |entries| - 1 && Agree(scan.log, leader, |scan.log|)))
    decreases |entries|
  {
    if entries != [] && p < |log| {
      assert entries[0] == leader[p];
      assert entries[1..] == leader[p + 1..p + |entries|];
      if log[p].term == leader[p].term {
        assert Agree(log, leader, p + 1);
        DropConflictsTrims(log, entries[1..], leader, p + 1);
      } else {
        var kept := log[..p];
        assert Trimmed(log, kept, leader);
        if |entries| > 1 { assert entries[1..][0] == leader[p + 1]; }
      }
    }
  }

  lemma {:induction false} InsertAllCopies(log: seq<LogRec>, entries: seq<LogRec>, leader: seq<LogRec>, p: nat)
    requires Indexed(leader) && Agree(log, leader, p)
    requires p + |entries| <= |leader| && entries == leader[p..p + |entries|]
    ensures var scan := InsertAll(log, entries); var end := p + |entries|;
            && !scan.raised
            && |scan.log| == Max(|log|, end)
            && Agree(scan.log, leader, end)
            && forall j :: end <= j < |log| ==> scan.log[j] == log[j]
    decreases |entries|
  {
    if entries != [] {
      var e := entries[0];
      assert e == leader[p] && e.index == p + 1;
      assert entries[1..] == leader[p + 1..p + |entries|];
      if p == |log| {
        InsertAllCopies(log + [e], entries[1..], leader, p + 1);
      } else {
        InsertAllCopies(log[p := e], entries[1..], leader, p + 1);
      }
    }
  }

  // ---------------------------------------------------------------- verdict

  datatype Verdict = Refused(log: seq<LogRec>) | Aborted(log: seq<LogRec>) | Accepted(log: seq<LogRec>)

  /** Answer yes and follow the leader's commit index. */
  ghost function Finish(n: Node, m: Message): Out
    requires m.AppendEntries?
  {
    Out(if m.commitIndex > n.commit || m.commitIndex > n.applied then NewLeaderCommitIndex(n, m.commitIndex) else n,
        {Reply(n, m, true)})
  }

  /** A message of the follower's term about `leader`, which the follower already agrees with up to its commit. */
  ghost predicate FromLeader(n: Node, m: Message, leader: seq<LogRec>)
  {
    && m.AppendEntries? && m.term == n.term
    && Indexed(leader) && Matching(n.log, leader)
    && Slice(leader, m.prevLogIndex, m.prevLogTerm, m.entries)
    && Agree(n.log, leader, n.commit) && n.applied <= n.commit
    && n.role.Follower? && JunkIsJunk(n, m)
  }

  lemma TrimmedMerges(log: seq<LogRec>, kept: seq<LogRec>, leader: seq<LogRec>)
    requires Trimmed(log, kept, leader)
    ensures Merged(log, kept, leader)
  {
  }

  /** Storing entries on top of a trimmed log that the leader shares up to `p`. */
  lemma StoreMerges(log: seq<LogRec>, kept: seq<LogRec>, entries: seq<LogRec>, leader: seq<LogRec>, p: nat)
    requires Trimmed(log, kept, leader) && Indexed(leader) && Agree(kept, leader, p)
    requires p + |entries| <= |leader| && entries == leader[p..p + |entries|]
    requires |kept| <= p + |entries| || (kept == log && Agree(log, leader, p + |entries|))
    ensures var scan := InsertAll(kept, entries);
            !scan.raised && Merged(log, scan.log, leader) && Agree(scan.log, leader, p + |entries|)
  {
    InsertAllCopies(kept, entries, leader, p);
    var new_ := InsertAll(kept, entries).log;
    if |kept| <= p + |entries| {
      forall k | 0 <= k <= |log| && Agree(log, leader, k) ensures Agree(log, new_, k) { }
    } else {
      assert new_ == log;
    }
  }

  lemma JunkVerdict(n: Node, m: Message, leader: seq<LogRec>) returns (v: Verdict)
    requires FromLeader(n, m, leader) && SaysJunk(n, m)
    ensures Merged(n.log, v.log, leader) && v.Accepted? && Agree(v.log, leader, m.prevLogIndex + |m.entries|)
    ensures FollowerOnAppendEntries(n, m) == Finish(n.(log := v.log), m)
  {
    assert m.entries[0] == leader[0];
    assert forall k: nat {:trigger Agree(n.log, leader, k)} :: Agree(n.log, leader, k) && k > 0 ==>
             n.log[0] == leader[0];
    StoreMerges(n.log, [], m.entries, leader, 0);
    v := Accepted(InsertAll([], m.entries).log);
  }

  lemma OverlapVerdict(n: Node, m: Message, leader: seq<LogRec>) returns (v: Verdict)
    requires FromLeader(n, m, leader) && |n.log| > m.prevLogIndex >= 1 &&
             n.log[m.prevLogIndex - 1].term == m.prevLogTerm
    ensures Merged(n.log, v.log, leader) && !v.Refused?
    ensures var out := FollowerOnAppendEntries(n, m);
            if v.Aborted? then out == Out(n.(log := v.log), {})
            else out == Finish(n.(log := v.log), m) && Agree(v.log, leader, m.prevLogIndex + |m.entries|)
  {
    assert Agree(n.log, leader, m.prevLogIndex);
    DropConflictsTrims(n.log, m.entries, leader, m.prevLogIndex);
    var scan := DropConflicts(n.log, m.entries);
    assert Agree(n.log, leader, n.commit);
    assert Agree(scan.log, leader, m.prevLogIndex);
    if scan.raised {
      TrimmedMerges(n.log, scan.log, leader);
      v := Aborted(scan.log);
    } else {
      StoreMerges(n.log, scan.log, m.entries, leader, m.prevLogIndex);
      v := Accepted(InsertAll(scan.log, m.entries).log);
    }
  }

  lemma AppendVerdict(n: Node, m: Message, leader: seq<LogRec>) returns (v: Verdict)
    requires FromLeader(n, m, leader)
    ensures Merged(n.log, v.log, leader)
    ensures v.Refused? ==> |v.log| <= m.prevLogIndex
    ensures v.Accepted? ==> Agree(v.log, leader, m.prevLogIndex + |m.entries|)
    ensures var n1 := n.(log := v.log);
            FollowerOnAppendEntries(n, m) ==
            match v
            case Refused(_) => Out(n1, {Reply(n1, m, false)})
            case Aborted(_) => Out(n1, {})
            case Accepted(_) => Finish(n1, m)
  {
    var p := m.prevLogIndex;
    if SaysJunk(n, m) {
      v := JunkVerdict(n, m, leader);
    } else if |n.log| > p && n.log[p - 1].term == m.prevLogTerm {
      v := OverlapVerdict(n, m, leader);
    } else if |n.log| > p {
      var kept := n.log[..p - 1];
      assert forall k: nat {:trigger Agree(n.log, leader, k)} :: Agree(n.log, leader, k) && k >= p ==>
               n.log[p - 1] == leader[p - 1];
      TrimmedMerges(n.log, kept, leader);
      assert Agree(n.log, leader, n.commit);
      v := Refused(kept);
    } else if |n.log| != p || LastTerm(n.log) != m.prevLogTerm {
      v := Refused(n.log);
    } else {
      assert Agree(n.log, leader, p);
      StoreMerges(n.log, n.log, m.entries, leader, p);
      v := Accepted(InsertAll(n.log, m.entries).log);
    }
  }

  // ---------------------------------------------------------------- commit and apply

  /** A follower applies every record exactly once, in order. */
  lemma {:induction false} FollowerApplyExact(n: Node, upto: nat)
    requires n.applied <= upto <= |n.log| && n.executed == Commands(n.log[..n.applied])
    ensures var r := FollowerApply(n, n.applied + 1, upto);
            r.applied == upto && r.executed == Commands(r.log[..upto])
    decreases upto - n.applied
  {
    if n.applied < upto {
      var rec := n.log[n.applied];
      assert n.log[..n.applied + 1][..n.applied] == n.log[..n.applied];
      var executed := if rec.code == ClientCommand then n.executed + [rec] else n.executed;
      FollowerApplyExact(n.(executed := executed, applied := n.applied + 1), upto);
    }
  }

  lemma FollowerApplyNothing(n: Node, upto: nat)
    requires upto <= |n.log| && upto <= n.applied
    ensures FollowerApply(n, n.applied + 1, upto) == n
  {
  }

  lemma CommittedLess(c: Config, h: History, log: seq<LogRec>, k: nat, bound: nat, k': nat)
    requires Committed(c, h, log, k, bound) && k' <= k
    ensures Committed(c, h, log, k', bound)
  {
    if k' > 0 {
      var t, i :| Justifies(c, h, log, k, bound, t, i);
      assert Justifies(c, h, log, k', bound, t, i);
    }
  }

  lemma NewCommitApplies(n: Node, leaderCommit: nat)
    requires n.applied <= n.commit <= |n.log|
    requires n.executed == Commands(n.log[..n.applied]) && OnlyTermStarts(n.log, n.applied, n.commit)
    ensures var r, upto := NewLeaderCommitIndex(n, leaderCommit), Min(leaderCommit, |n.log|);
            && r == n.(commit := r.commit, applied := r.applied, executed := r.executed)
            && r.commit == Max(n.commit, upto) && r.applied == Max(n.applied, upto)
            && r.executed == Commands(n.log[..r.applied]) && OnlyTermStarts(n.log, r.applied, r.commit)
  {
    var upto := Min(leaderCommit, |n.log|);
    var n1 := if n.commit < leaderCommit then n.(commit := Max(n.commit, upto)) else n;
    if n.applied <= upto { FollowerApplyExact(n1, upto); } else { FollowerApplyNothing(n1, upto); }
  }

  lemma NewCommitOK(c: Config, h: History, n: Node, leader: seq<LogRec>, leaderCommit: nat)
    requires ProgressOK(c, h, n) && Committed(c, h, leader, leaderCommit, n.term)
    requires leaderCommit <= |leader| && Agree(n.log, leader, Min(leaderCommit, |n.log|))
    ensures var r := NewLeaderCommitIndex(n, leaderCommit);
            ProgressOK(c, h, r) && r == n.(commit := r.commit, applied := r.applied, executed := r.executed)
    ensures var r := NewLeaderCommitIndex(n, leaderCommit); r.commit >= n.commit && r.applied >= n.applied
  {
    var upto := Min(leaderCommit, |n.log|);
    CommittedLess(c, h, leader, leaderCommit, n.term, upto);
    CommittedGrows(c, h, h, leader, n.log, upto, n.term, n.term) by { SameHistory(h); }
    NewCommitApplies(n, leaderCommit);
  }

  lemma SameHistory(h: History)
    ensures HistoryGrows(h, h)
  {
  }

  // ---------------------------------------------------------------- the step

  /** What a node has committed, the leader of its current term has too. */
  lemma LeaderHasCommitted(c: Config, nodes: Nodes, h: History, u: Uri, t: nat)
    requires Core(c, nodes, h) && u in nodes && t in h.elections && t >= nodes[u].term
    requires nodes[u].commit <= |nodes[u].log| && Committed(c, h, nodes[u].log, nodes[u].commit, nodes[u].term)
    ensures Agree(nodes[u].log, h.elections[t].log, nodes[u].commit)
  {
    var n := nodes[u];
    if n.commit > 0 {
      var t': nat, i: nat :| Justifies(c, h, n.log, n.commit, n.term, t', i);
      assert ElectionOK(c, nodes, h, t) && ElectionOK(c, nodes, h, t');
      if t' < t {
        LaterLeaderHas(c, nodes, h, t', i, t);
        ReplicatedHas(c, nodes, h, t', i);
        SameTermAgree(h.elections[t].log, h.elections[t'].log, i, t', h.elections);
      }
    }
  }

  lemma ReplicatedHas(c: Config, nodes: Nodes, h: History, t: nat, i: nat)
    requires Core(c, nodes, h) && Replicated(c, h, t, i)
    ensures Has(h.elections[t].log, i, t)
  {
    var y :| y in Holders(c, h, t, i);
    assert AckOK(nodes, h, Ack(y, t, i));
  }

  lemma MergedClean(log: seq<LogRec>, new_: seq<LogRec>, leader: seq<LogRec>, k: nat)
    requires Merged(log, new_, leader) && CleanFrom(log, leader, k)
    ensures CleanFrom(new_, leader, k)
  {
    assert Agree(new_, leader, |new_|) || Agree(new_, log, |new_|);
  }

  lemma EvolvesMerged(h: History, n: Node, h': History, n': Node)
    requires n.term in h.elections && Merged(n.log, n'.log, h.elections[n.term].log) && h'.elections == h.elections
    requires n'.me == n.me && n.term == n'.term && n.nextSerial <= n'.nextSerial
    ensures Evolves(h, n, h', n')
  {
    var leader := h.elections[n.term].log;
    forall k: nat | CleanFrom(n.log, leader, k) ensures CleanFrom(n'.log, leader, k) {
      MergedClean(n.log, n'.log, leader, k);
    }
  }

  /** Follower commit soundness: everything up to the index a follower may commit is the leader's. */
  lemma AcceptedUpToCommit(log: seq<LogRec>, new_: seq<LogRec>, leader: seq<LogRec>, end: nat, commitIndex: nat)
    requires Merged(log, new_, leader) && Agree(new_, leader, end) && commitIndex <= |leader|
    requires commitIndex > end ==> CleanFrom(log, leader, end)
    ensures Agree(new_, leader, Min(commitIndex, |new_|))
  {
    if commitIndex > end { MergedClean(log, new_, leader, end); }
  }

  ghost function EntryAcks(u: Uri, m: Message): set<Ack>
    requires m.AppendEntries?
  {
    set e | e in m.entries && e.term == m.term :: Ack(u, m.term, e.index)
  }

  lemma AppendMatching(c: Config, nodes: Nodes, h: History, u: Uri, t: nat)
    requires Core(c, nodes, h) && u in nodes && t in h.elections
    ensures Matching(nodes[u].log, h.elections[t].log) && Indexed(h.elections[t].log)
  {
    var log, leader := nodes[u].log, h.elections[t].log;
    assert NodeOK(h, u, nodes[u]) && ElectionOK(c, nodes, h, t);
    forall i: nat | 1 <= i <= |log| && i <= |leader| && log[i - 1].term == leader[i - 1].term
      ensures Agree(log, leader, i)
    {
      SameTermAgree(log, leader, i, log[i - 1].term, h.elections);
    }
  }

  lemma ReplyIsOK(c: Config, s: System, h: History, u: Uri, n': Node, h': History, m: Message, r: Message)
    requires Inv(c, s, h) && m in s.net && m.AppendEntries? && u == m.receiver && u in s.nodes
    requires n'.term == m.term && m.term in h'.elections && r.AppendResponse?
    requires r == AppendResponse(u, m.sender, m.term, r.success, |n'.log|, m.prevLogIndex, m.serial)
    requires r.success ==> EntryAcks(u, m) <= h'.acks
    requires !r.success ==> |n'.log| <= m.prevLogIndex
    ensures forall m' {:trigger Answers(r, m')} :: m' in s.net && Answers(r, m') ==>
              ReplyOK(s.nodes[u := n'], h', r, m')
  {
    forall m' | m' in s.net && Answers(r, m') ensures ReplyOK(s.nodes[u := n'], h', r, m') {
      assert SameSerial(m, m');
      forall e | e in m.entries && e.term == m.term && r.success ensures Ack(u, m.term, e.index) in h'.acks {
        assert Ack(u, m.term, e.index) in EntryAcks(u, m);
      }
    }
  }

  /** Storing the sent records of the term acknowledges them. */
  lemma EntriesAcknowledged(c: Config, nodes: Nodes, h: History, u: Uri, m: Message)
    requires u in nodes && m.AppendEntries? && nodes[u].term == m.term && m.term in h.elections
    requires var leader := h.elections[m.term].log;
             && Indexed(leader) && Slice(leader, m.prevLogIndex, m.prevLogTerm, m.entries)
             && Agree(nodes[u].log, leader, m.prevLogIndex + |m.entries|)
    ensures forall a :: a in EntryAcks(u, m) ==> Acknowledges(nodes, h, a)
  {
    var leader := h.elections[m.term].log;
    forall a | a in EntryAcks(u, m) ensures Acknowledges(nodes, h, a) {
      var e :| e in m.entries && e.term == m.term && a == Ack(u, m.term, e.index);
      var j :| 0 <= j < |m.entries| && m.entries[j] == e;
      assert e == leader[m.prevLogIndex + j] && nodes[u].log[m.prevLogIndex + j] == e;
    }
  }

  lemma FromLeaderHolds(c: Config, s: System, h: History, m: Message)
    requires Inv(c, s, h) && m in s.net && m.AppendEntries? && m.receiver in s.nodes
    requires var n := s.nodes[m.receiver]; n.role.Follower? && n.term == m.term && JunkIsJunk(n, m)
    ensures m.term in h.elections && h.elections[m.term].leader == m.sender != m.receiver
    ensures FromLeader(s.nodes[m.receiver], m, h.elections[m.term].log)
  {
    var u := m.receiver;
    assert MessageOK(c, s.nodes, h, m) && RoleOK(c, h, s.net, s.nodes[u]);
    AppendMatching(c, s.nodes, h, u, m.term);
    LeaderHasCommitted(c, s.nodes, h, u, m.term);
  }

  /** Refused or raised: only the log may have been trimmed. */
  lemma TrimInv(c: Config, s: System, h: History, m: Message, n1: Node, sent: set<Message>)
    requires Inv(c, s, h) && m in s.net && m.AppendEntries? && m.receiver in s.nodes
    requires var leader := if m.term in h.elections then h.elections[m.term].log else [];
             FromLeader(s.nodes[m.receiver], m, leader)
    requires m.term in h.elections && h.elections[m.term].leader == m.sender != m.receiver
    requires n1 == s.nodes[m.receiver].(log := n1.log) &&
             Merged(s.nodes[m.receiver].log, n1.log, h.elections[m.term].log)
    requires sent == {} || (sent == {Reply(n1, m, false)} && |n1.log| <= m.prevLogIndex)
    ensures Inv(c, After(s, m.receiver, Out(n1, sent)), h)
  {
    var u, n, leader := m.receiver, s.nodes[m.receiver], h.elections[m.term].log;
    assert MessageOK(c, s.nodes, h, m) && NodeOK(h, u, n) && RoleOK(c, h, s.net, n);
    SameHistory(h);
    MergeKeeps(c, s.nodes, h, u, n1);
    EvolvesMerged(h, n, h, n1);
    ProgressKept(c, h, n, n1, leader);
    if sent != {} { ReplyIsOK(c, s, h, u, n1, h, m, Reply(n1, m, false)); }
    StepInv(c, s, h, u, n1, sent, h);
  }

  lemma ProgressKept(c: Config, h: History, n: Node, n1: Node, leader: seq<LogRec>)
    requires ProgressOK(c, h, n) && n1 == n.(log := n1.log) && Merged(n.log, n1.log, leader) &&
             Agree(n.log, leader, n.commit)
    ensures ProgressOK(c, h, n1)
  {
    assert Agree(n.log, n1.log, n.commit);
    SameHistory(h);
    CommittedGrows(c, h, h, n.log, n1.log, n.commit, n.term, n.term);
    assert n.log[..n.applied] == n1.log[..n.applied];
  }

  lemma AcceptProgress(c: Config, nodes: Nodes, h: History, m: Message, n1: Node)
    requires m.AppendEntries? && MessageOK(c, nodes, h, m) && ProgressOK(c, h, nodes[m.receiver])
    requires FromLeader(nodes[m.receiver], m, h.elections[m.term].log)
    requires n1 == nodes[m.receiver].(log := n1.log) && Merged(nodes[m.receiver].log, n1.log, h.elections[m.term].log)
    requires Agree(n1.log, h.elections[m.term].log, m.prevLogIndex + |m.entries|)
    ensures var n2 := Finish(n1, m).node;
            && ProgressOK(c, h, n2) && n2 == n1.(commit := n2.commit, applied := n2.applied, executed := n2.executed)
            && n2.commit >= n1.commit && n2.applied >= n1.applied
  {
    var n, leader := nodes[m.receiver], h.elections[m.term].log;
    AcceptedUpToCommit(n.log, n1.log, leader, m.prevLogIndex + |m.entries|, m.commitIndex);
    ProgressKept(c, h, n, n1, leader);
    NewCommitOK(c, h, n1, leader, m.commitIndex);
  }

  lemma AcceptInv(c: Config, s: System, h: History, m: Message, n1: Node) returns (h': History)
    requires Inv(c, s, h) && m in s.net && m.AppendEntries? && m.receiver in s.nodes
    requires m.term in h.elections && h.elections[m.term].leader == m.sender != m.receiver
    requires FromLeader(s.nodes[m.receiver], m, h.elections[m.term].log)
    requires n1 == s.nodes[m.receiver].(log := n1.log) &&
             Merged(s.nodes[m.receiver].log, n1.log, h.elections[m.term].log)
    requires Agree(n1.log, h.elections[m.term].log, m.prevLogIndex + |m.entries|)
    ensures HistoryGrows(h, h') && Inv(c, After(s, m.receiver, Finish(n1, m)), h')
  {
    var u, out := m.receiver, Finish(n1, m);
    h' := h.(acks := h.acks + EntryAcks(u, m));
    AcceptProgressHere(c, s, h, m, n1);
    AcceptCore(c, s.nodes, h, m, n1, out.node, h');
    EvolvesMerged(h, s.nodes[u], h', out.node);
    ReplyIsOK(c, s, h, u, out.node, h', m, Reply(n1, m, true));
    RoleGrows(c, h, h', s.net, s.net + out.sent, out.node);
    StepInv(c, s, h, u, out.node, out.sent, h');
  }

  lemma AcceptProgressHere(c: Config, s: System, h: History, m: Message, n1: Node)
    requires Inv(c, s, h) && m in s.net && m.AppendEntries? && m.receiver in s.nodes && m.term in h.elections
    requires FromLeader(s.nodes[m.receiver], m, h.elections[m.term].log)
    requires n1 == s.nodes[m.receiver].(log := n1.log) &&
             Merged(s.nodes[m.receiver].log, n1.log, h.elections[m.term].log)
    requires Agree(n1.log, h.elections[m.term].log, m.prevLogIndex + |m.entries|)
    ensures var n2 := Finish(n1, m).node;
            && RoleOK(c, h, s.net, n2)
            && n2 == n1.(commit := n2.commit, applied := n2.applied, executed := n2.executed)
    ensures n1.me == m.receiver && m.sender in s.nodes && m.sender != m.receiver
    ensures m.serial < s.nodes[m.sender].nextSerial
  {
    assert MessageOK(c, s.nodes, h, m) && NodeOK(h, m.receiver, s.nodes[m.receiver]);
    assert RoleOK(c, h, s.net, s.nodes[m.receiver]);
    AcceptProgress(c, s.nodes, h, m, n1);
  }

  lemma AcceptCore(c: Config, nodes: Nodes, h: History, m: Message, n1: Node, n2: Node, h': History)
    requires Core(c, nodes, h) && m.AppendEntries? && m.receiver in nodes && m.term in h.elections
    requires h.elections[m.term].leader != m.receiver && FromLeader(nodes[m.receiver], m, h.elections[m.term].log)
    requires n1 == nodes[m.receiver].(log := n1.log) && Merged(nodes[m.receiver].log, n1.log, h.elections[m.term].log)
    requires Agree(n1.log, h.elections[m.term].log, m.prevLogIndex + |m.entries|) && SameSeat(n1, n2)
    requires h' == h.(acks := h.acks + EntryAcks(m.receiver, m))
    ensures Core(c, nodes[m.receiver := n2], h')
  {
    var u := m.receiver;
    assert NodeOK(h, u, nodes[u]);
    MergeKeeps(c, nodes, h, u, n1);
    SameSeatKeeps(c, nodes[u := n1], h, u, n2);
    assert nodes[u := n1][u := n2] == nodes[u := n2];
    EntriesAcknowledged(c, nodes[u := n2], h, u, m);
    AcksKeep(c, nodes[u := n2], h, EntryAcks(u, m), h');
  }

  lemma FollowerAppendInv(c: Config, s: System, h: History, m: Message) returns (h': History)
    requires Inv(c, s, h) && m in s.net && m.AppendEntries? && m.receiver in s.nodes
    requires var n := s.nodes[m.receiver]; n.role.Follower? && m.term <= n.term && JunkIsJunk(n, m)
    ensures HistoryGrows(h, h') && Inv(c, After(s, m.receiver, FollowerOnAppendEntries(s.nodes[m.receiver], m)), h')
  {
    var n := s.nodes[m.receiver];
    h' := h;
    if m.term < n.term {
      RefuseAppendInv(c, s, h, m);
    } else {
      FromLeaderHolds(c, s, h, m);
      var v := AppendVerdict(n, m, h.elections[m.term].log);
      var n1 := n.(log := v.log);
      match v
      case Refused(_) => TrimInv(c, s, h, m, n1, {Reply(n1, m, false)});
      case Aborted(_) => TrimInv(c, s, h, m, n1, {});
      case Accepted(_) => h' := AcceptInv(c, s, h, m, n1);
    }
  }
}

/** Everything a leader broadcasts: its term start, client records, heartbeats. */
module BroadcastSteps {
  import opened RaftTypes
  import opened Handlers
  import opened Ledger
  import opened Cluster
  import opened Network
  import opened ElectionSteps

  /** `n` leads its term and its log is the term's log. */
  ghost predicate Leads(c: Config, nodes: Nodes, h: History, n: Node)
  {
    && n.role.Leader?
    && n.me in nodes
    && nodes.Keys == Voters(c)
    && n.term in h.elections
    && h.elections[n.term].leader == n.me
    && h.elections[n.term].log == n.log
  }

  /** A message about the tip of the leader's log promises no commit beyond what it verifies. */
  lemma TipMessageOK(c: Config, nodes: Nodes, h: History, n: Node, uri: Uri, s: nat, prev: nat, entries: seq<LogRec>)
    requires Leads(c, nodes, h, n) && uri in nodes && uri != n.me && s < nodes[n.me].nextSerial
    requires prev + |entries| == |n.log| && entries == n.log[prev..] && n.commit <= |n.log|
    requires Committed(c, h, n.log, n.commit, n.term)
    ensures MessageOK(c, nodes, h, EntriesMessage(n, uri, s, prev, TermAt(n.log, prev), entries))
  {
    assert n.log[prev..prev + |entries|] == n.log[prev..];
  }

  /** The record has a tally with the leader's own vote only, and no awaited reply counts towards it. */
  ghost predicate FreshTally(c: Config, h: History, n: Node, entries: seq<LogRec>)
    requires n.role.Leader?
  {
    entries != [] ==>
    && |entries| == 1 && entries[0].term == n.term && entries[0].index in n.role.tallies
    && n.role.tallies[entries[0].index].Keys == {n.me}
    && TallyOK(c, h, n, entries[0].index)
    && forall s :: s in n.role.active && Votes(n.role.active[s]) ==> VoteIndex(n.role.active[s]) != entries[0].index
  }

  lemma BroadcastActive(c: Config, n: Node, prev: nat, prevTerm: nat, entries: seq<LogRec>, s: nat)
    requires n.role.Leader? && s in Broadcast(c, n, prev, prevTerm, entries).node.role.active
    ensures var out := Broadcast(c, n, prev, prevTerm, entries);
            if IsSlot(c, n.nextSerial, n.me, s)
            then var uri := c.voters[s - n.nextSerial];
                 && out.node.role.active[s] == Tracker(uri, EntriesMessage(n, uri, s, prev, prevTerm, entries), true)
                 && out.node.role.active[s].message in out.sent
            else s in n.role.active && out.node.role.active[s] == n.role.active[s]
  {
  }

  lemma BroadcastTracker(c: Config, h: History, net: set<Message>, n: Node, prev: nat, prevTerm: nat,
                         entries: seq<LogRec>, s: nat)
    requires n.role.Leader? && LeaderOK(c, h, net, n) && FreshTally(c, h, n, entries)
    requires s in Broadcast(c, n, prev, prevTerm, entries).node.role.active
    ensures var out := Broadcast(c, n, prev, prevTerm, entries); TrackerOK(c, h, net + out.sent, out.node, s)
  {
    BroadcastActive(c, n, prev, prevTerm, entries, s);
    if !IsSlot(c, n.nextSerial, n.me, s) { assert TrackerOK(c, h, net, n, s); }
  }

  lemma BroadcastVotes(c: Config, h: History, net: set<Message>, n: Node, prev: nat, prevTerm: nat,
                       entries: seq<LogRec>, s: nat, s': nat)
    requires ValidConfig(c) && n.role.Leader? && LeaderOK(c, h, net, n) && FreshTally(c, h, n, entries)
    requires var active := Broadcast(c, n, prev, prevTerm, entries).node.role.active;
             s in active && s' in active && SameVote(active[s], active[s'])
    ensures s == s'
  {
    BroadcastActive(c, n, prev, prevTerm, entries, s);
    BroadcastActive(c, n, prev, prevTerm, entries, s');
    if !IsSlot(c, n.nextSerial, n.me, s) && !IsSlot(c, n.nextSerial, n.me, s') {
      assert SameVote(n.role.active[s], n.role.active[s']);
    }
  }

  lemma BroadcastTrackers(c: Config, h: History, net: set<Message>, n: Node, prev: nat, prevTerm: nat,
                          entries: seq<LogRec>)
    requires ValidConfig(c) && n.role.Leader? && LeaderOK(c, h, net, n) && FreshTally(c, h, n, entries)
    ensures var out := Broadcast(c, n, prev, prevTerm, entries);
            LeaderOK(c, h, net + out.sent, out.node)
  {
    var out := Broadcast(c, n, prev, prevTerm, entries);
    var active := out.node.role.active;
    forall s | s in active ensures TrackerOK(c, h, net + out.sent, out.node, s) {
      BroadcastTracker(c, h, net, n, prev, prevTerm, entries, s);
    }
    forall s, s' | s in active && s' in active && SameVote(active[s], active[s']) ensures s == s' {
      BroadcastVotes(c, h, net, n, prev, prevTerm, entries, s, s');
    }
  }

  lemma BroadcastSends(c: Config, n: Node, prev: nat, prevTerm: nat, entries: seq<LogRec>)
    requires n.role.Leader?
    ensures var out := Broadcast(c, n, prev, prevTerm, entries);
            && Sends(n, out.node, out.sent)
            && (forall m :: m in out.sent ==>
                  && m.AppendEntries? && m.receiver in c.voters && m.receiver != n.me
                  && n.nextSerial <= m.serial < out.node.nextSerial
                  && m == EntriesMessage(n, m.receiver, m.serial, prev, prevTerm, entries))
  {
  }

  lemma HeartbeatInv(c: Config, s: System, h: History, u: Uri)
    requires Inv(c, s, h) && u in s.nodes && s.nodes[u].role.Leader?
    ensures Inv(c, After(s, u, SendHeartbeats(c, s.nodes[u], None)), h)
  {
    var n := s.nodes[u];
    var out := SendHeartbeats(c, n, None);
    var nodes' := s.nodes[u := out.node];
    assert NodeOK(h, u, n) && RoleOK(c, h, s.net, n);
    SameSeatKeeps(c, s.nodes, h, u, out.node);
    EvolvesInPlace(h, h, n, out.node);
    BroadcastSends(c, n, |n.log|, LastTerm(n.log), []);
    BroadcastTrackers(c, h, s.net, n, |n.log|, LastTerm(n.log), []);
    forall m | m in out.sent ensures MessageOK(c, nodes', h, m) {
      TipMessageOK(c, nodes', h, n, m.receiver, m.serial, |n.log|, []);
    }
    StepInv(c, s, h, u, out.node, out.sent, h);
  }

  lemma CommandsPrefixKept(log: seq<LogRec>, r: LogRec, k: nat)
    requires k <= |log|
    ensures (log + [r])[..k] == log[..k]
  {
  }

  /** After the record is stored and acknowledged by the leader itself, sending it out keeps the invariant. */
  lemma BroadcastRecordInv(c: Config, s: System, h: History, u: Uri, n1: Node, log: seq<LogRec>, rec: LogRec,
                           h': History)
    requires Inv(c, s, h) && u in s.nodes && n1.nextSerial == s.nodes[u].nextSerial
    requires Core(c, s.nodes[u := n1], h') && Leads(c, s.nodes, h', n1) && n1.me == u
    requires HistoryGrows(h, h') && Evolves(h, s.nodes[u], h', n1)
    requires LeaderOK(c, h', s.net, n1) && ProgressOK(c, h', n1)
    requires n1.log == log + [rec] && FreshTally(c, h', n1, [rec])
    ensures Inv(c, After(s, u, Broadcast(c, n1, |log|, LastTerm(log), [rec])), h')
  {
    var out := Broadcast(c, n1, |log|, LastTerm(log), [rec]);
    var nodes' := s.nodes[u := out.node];
    assert n1.log[|log|..] == [rec] && LastTerm(log) == TermAt(n1.log, |log|);
    SameSeatKeeps(c, s.nodes[u := n1], h', u, out.node);
    assert s.nodes[u := n1][u := out.node] == nodes';
    BroadcastSends(c, n1, |log|, LastTerm(log), [rec]);
    BroadcastTrackers(c, h', s.net, n1, |log|, LastTerm(log), [rec]);
    forall m | m in out.sent ensures MessageOK(c, nodes', h', m) {
      TipMessageOK(c, nodes', h', n1, m.receiver, m.serial, |log|, [rec]);
    }
    StepInv(c, s, h, u, out.node, out.sent, h');
  }

  /** Awaited votes are about indexes the leader already has. */
  lemma VotesWithinLog(c: Config, s: System, h: History, u: Uri, k: nat)
    requires Inv(c, s, h) && u in s.nodes && s.nodes[u].role.Leader?
    requires k in s.nodes[u].role.active && Votes(s.nodes[u].role.active[k])
    ensures VoteIndex(s.nodes[u].role.active[k]) <= |s.nodes[u].log|
  {
    var n := s.nodes[u];
    var m := n.role.active[k].message;
    assert NodeOK(h, u, n) && RoleOK(c, h, s.net, n);
    assert TrackerOK(c, h, s.net, n, k);
    assert MessageOK(c, s.nodes, h, m);
    assert m.entries[0] == n.log[m.prevLogIndex];
  }

  /** The leader with one more record, counted by nobody but itself. */
  ghost function Stored(n: Node, rec: LogRec): Node
    requires n.role.Leader?
  {
    n.(log := n.log + [rec], role := n.role.(tallies := n.role.tallies[rec.index := map[n.me := true]]))
  }

  ghost function OwnAck(h: History, n1: Node): History
  {
    h.(acks := h.acks + {Ack(n1.me, n1.term, |n1.log|)})
  }

  lemma ProposeTrackers(c: Config, s: System, h: History, u: Uri, rec: LogRec, h': History)
    requires Inv(c, s, h) && u in s.nodes && s.nodes[u].role.Leader? && HistoryGrows(h, h')
    requires rec.index == |s.nodes[u].log| + 1 && rec.term == s.nodes[u].term
    requires Ack(u, rec.term, rec.index) in h'.acks
    ensures LeaderOK(c, h', s.net, Stored(s.nodes[u], rec)) && FreshTally(c, h', Stored(s.nodes[u], rec), [rec])
  {
    var n, n1 := s.nodes[u], Stored(s.nodes[u], rec);
    assert NodeOK(h, u, n) && RoleOK(c, h, s.net, n);
    forall k | k in n.role.active && Votes(n.role.active[k]) ensures VoteIndex(n.role.active[k]) != rec.index {
      VotesWithinLog(c, s, h, u, k);
    }
    forall k | k in n1.role.active ensures TrackerOK(c, h', s.net, n1, k) { assert TrackerOK(c, h, s.net, n, k); }
    forall k, k' | k in n1.role.active && k' in n1.role.active && SameVote(n1.role.active[k], n1.role.active[k'])
      ensures k == k'
    {
      assert SameVote(n.role.active[k], n.role.active[k']);
    }
  }

  lemma ProgressLonger(c: Config, h: History, n: Node, h': History, n1: Node, rec: LogRec)
    requires ProgressOK(c, h, n) && HistoryGrows(h, h') && n1.log == n.log + [rec] && n1.term == n.term
    requires n1.commit == n.commit && n1.applied == n.applied && n1.executed == n.executed
    ensures ProgressOK(c, h', n1)
  {
    CommittedGrows(c, h, h', n.log, n1.log, n.commit, n.term, n.term);
    CommandsPrefixKept(n.log, rec, n.applied);
  }

  lemma ProposeHistory(c: Config, nodes: Nodes, h: History, u: Uri, rec: LogRec) returns (h': History)
    requires Core(c, nodes, h) && u in nodes && nodes[u].role.Leader?
    requires rec.index == |nodes[u].log| + 1 && rec.term == nodes[u].term
    ensures var n1 := Stored(nodes[u], rec);
            Core(c, nodes[u := n1], h') && Leads(c, nodes, h', n1) && Evolves(h, nodes[u], h', n1)
    ensures HistoryGrows(h, h') && Ack(u, rec.term, rec.index) in h'.acks
  {
    var n, n1 := nodes[u], Stored(nodes[u], rec);
    assert NodeOK(h, u, n);
    var h1 := h.(elections := h.elections[n.term := h.elections[n.term].(log := n1.log)]);
    h' := OwnAck(h1, n1);
    GrowKeeps(c, nodes, h, u, n1, rec, h1);
    AcksKeep(c, nodes[u := n1], h1, {Ack(u, n.term, rec.index)}, h');
  }

  lemma ProposeInv(c: Config, s: System, h: History, u: Uri, code: RecordCode, command: string) returns (h': History)
    requires Inv(c, s, h) && u in s.nodes && s.nodes[u].role.Leader?
    ensures HistoryGrows(h, h') && Inv(c, After(s, u, AppendAndBroadcast(c, s.nodes[u], code, command)), h')
  {
    var n := s.nodes[u];
    var out := AppendAndBroadcast(c, n, code, command);
    var rec := LogRec(|n.log| + 1, n.term, code, command);
    var n1 := Stored(n, rec);
    assert NodeOK(h, u, n) && RoleOK(c, h, s.net, n);
    assert out == Broadcast(c, n1, |n.log|, LastTerm(n.log), [rec]);
    h' := ProposeHistory(c, s.nodes, h, u, rec);
    ProposeTrackers(c, s, h, u, rec, h');
    ProgressLonger(c, h, n, h', n1, rec);
    BroadcastRecordInv(c, s, h, u, n1, n.log, rec, h');
  }

  lemma WinHistory(c: Config, nodes: Nodes, h: History, u: Uri, q: set<Uri>, n1: Node, rec: LogRec)
    returns (h': History)
    requires Core(c, nodes, h) && u in nodes && nodes[u].role.Candidate? && Elects(c, h, u, nodes[u].term, q)
    requires rec.index == |nodes[u].log| + 1 && rec.term == nodes[u].term
    requires n1.me == u && n1.term == nodes[u].term && n1.role.Leader? && n1.log == nodes[u].log + [rec]
    requires n1.nextSerial == nodes[u].nextSerial
    ensures Core(c, nodes[u := n1], h') && Leads(c, nodes, h', n1) && Evolves(h, nodes[u], h', n1)
    ensures HistoryGrows(h, h') && Ack(u, rec.term, rec.index) in h'.acks
  {
    var n := nodes[u];
    assert NodeOK(h, u, n);
    var h1 := h.(elections := h.elections[n.term := Election(u, q, n.log, n1.log)]);
    h' := OwnAck(h1, n1);
    WinKeeps(c, nodes, h, u, n1, q, h1);
    AcksKeep(c, nodes[u := n1], h1, {Ack(u, n.term, rec.index)}, h');
  }

  lemma WinIsBroadcast(c: Config, n: Node, rec: LogRec)
    requires rec == LogRec(|n.log| + 1, n.term, TermStart, "")
    ensures WinVote(c, n) ==
            Broadcast(c, Stored(n.(role := Leader(map[], map[]), votedFor := None), rec), |n.log|, LastTerm(n.log),
                      [rec])
  {
  }

  lemma AyesElect(c: Config, h: History, u: Uri, t: nat, votes: map<Uri, Option<bool>>)
    requires ValidConfig(c) && votes.Keys == Voters(c) && 2 * |Ayes(votes)| > |votes|
    requires forall y :: y in votes && votes[y] == Some(true) ==> Ballot(t, y, u) in h.ballots
    ensures Elects(c, h, u, t, Ayes(votes))
  {
    DistinctSize(c.voters);
    assert |votes| == |votes.Keys|;
  }

  lemma NewLeaderTrackers(c: Config, h: History, net: set<Message>, n: Node, rec: LogRec)
    requires n.role == Leader(map[], map[]) && n.me in Voters(c) && rec.term == n.term
    requires Ack(n.me, rec.term, rec.index) in h.acks
    ensures LeaderOK(c, h, net, Stored(n, rec)) && FreshTally(c, h, Stored(n, rec), [rec])
  {
  }

  lemma WinInv(c: Config, s: System, h: History, u: Uri, q: set<Uri>) returns (h': History)
    requires Inv(c, s, h) && u in s.nodes && s.nodes[u].role.Candidate? && Elects(c, h, u, s.nodes[u].term, q)
    ensures HistoryGrows(h, h') && Inv(c, After(s, u, WinVote(c, s.nodes[u])), h')
  {
    var n, out := s.nodes[u], WinVote(c, s.nodes[u]);
    var rec := LogRec(|n.log| + 1, n.term, TermStart, "");
    var n0 := n.(role := Leader(map[], map[]), votedFor := None);
    var n1 := Stored(n0, rec);
    assert NodeOK(h, u, n) && RoleOK(c, h, s.net, n);
    WinIsBroadcast(c, n, rec);
    h' := WinHistory(c, s.nodes, h, u, q, n1, rec);
    NewLeaderTrackers(c, h', s.net, n0, rec);
    ProgressLonger(c, h, n, h', n1, rec);
    BroadcastRecordInv(c, s, h, u, n1, n.log, rec, h');
  }

  lemma TallyInv(c: Config, s: System, h: History, u: Uri, votes: map<Uri, Option<bool>>)
    requires Inv(c, s, h) && u in s.nodes && s.nodes[u].role.Candidate?
    requires CandidateOK(c, h, s.nodes[u].(role := Candidate(votes)))
    ensures Inv(c, After(s, u, Out(s.nodes[u].(role := Candidate(votes)), {})), h)
  {
    var n, n' := s.nodes[u], s.nodes[u].(role := Candidate(votes));
    assert NodeOK(h, u, n) && RoleOK(c, h, s.net, n);
    SameSeatKeeps(c, s.nodes, h, u, n');
    EvolvesInPlace(h, h, n, n');
    StepInv(c, s, h, u, n', {}, h);
  }

  /** A vote of the candidate's term is recorded together with the ballot behind it. */
  lemma VoteCounted(c: Config, s: System, h: History, m: Message)
    requires Inv(c, s, h) && m in s.net && m.VoteResponse? && m.receiver in s.nodes
    requires s.nodes[m.receiver].role.Candidate? && m.term == s.nodes[m.receiver].term
    ensures var n := s.nodes[m.receiver];
            CandidateOK(c, h, n.(role := Candidate(n.role.votes[m.sender := Some(m.vote)])))
    ensures s.nodes[m.receiver].me == m.receiver
  {
    var u, n := m.receiver, s.nodes[m.receiver];
    assert MessageOK(c, s.nodes, h, m) && NodeOK(h, u, n) && RoleOK(c, h, s.net, n);
    assert n.role.votes[m.sender := Some(m.vote)].Keys == Voters(c);
  }

  lemma VoteResponseInv(c: Config, s: System, h: History, m: Message) returns (h': History)
    requires Inv(c, s, h) && m in s.net && m.VoteResponse? && m.receiver in s.nodes
    requires s.nodes[m.receiver].role.Candidate? && m.term <= s.nodes[m.receiver].term
    ensures HistoryGrows(h, h') && Inv(c, After(s, m.receiver, OnVoteResponse(c, s.nodes[m.receiver], m)), h')
  {
    var u, n := m.receiver, s.nodes[m.receiver];
    var votes, out := n.role.votes[m.sender := Some(m.vote)], OnVoteResponse(c, n, m);
    h' := h;
    if m.term < n.term {
      assert After(s, u, out) == s;
    } else {
      VoteCounted(c, s, h, m);
      if 2 * |Ayes(votes)| > |votes| {
        AyesElect(c, h, u, n.term, votes);
        h' := WinInv(c, s, h, u, Ayes(votes));
      } else {
        TallyInv(c, s, h, u, votes);
      }
    }
  }
}

/** The safety theorems beyond elections and log matching, for every run of the system that meets the two hypotheses
    of Cluster.dfy. */
module Safety {
  import opened RaftTypes
  import opened Handlers
  import opened Ledger
  import opened Cluster
  import opened Network
  import opened ElectionSteps
  import opened BroadcastSteps
  import opened FollowerSteps
  import opened LeaderSteps

  // ---------------------------------------------------------------- every step keeps the invariant

  lemma InitialInv(c: Config, s: System) returns (h: History)
    requires ValidConfig(c) && Initial(c, s)
    ensures Inv(c, s, h)
  {
    h := History(map[], map[], {});
    assert s.nodes.Keys == Voters(c);
    forall u | u in s.nodes ensures NodeOK(h, u, s.nodes[u]) && RoleOK(c, h, s.net, s.nodes[u]) { }
  }

  /** Two leaders never share a term, so a leader is never told to append in its own term. */
  lemma NoRivalAppend(c: Config, s: System, h: History, m: Message)
    requires Inv(c, s, h) && m in s.net && m.AppendEntries? && m.receiver in s.nodes && s.nodes[m.receiver].role.Leader?
    ensures m.term != s.nodes[m.receiver].term
  {
    assert MessageOK(c, s.nodes, h, m) && NodeOK(h, m.receiver, s.nodes[m.receiver]);
  }

  lemma AppendEntriesInv(c: Config, s: System, h: History, m: Message) returns (h': History)
    requires Inv(c, s, h) && m in s.net && m.AppendEntries? && m.receiver in s.nodes
    requires m.term <= s.nodes[m.receiver].term && JunkIsJunk(s.nodes[m.receiver], m)
    ensures HistoryGrows(h, h') && Inv(c, After(s, m.receiver, Handle(c, s.nodes[m.receiver], m)), h')
  {
    var u, n := m.receiver, s.nodes[m.receiver];
    h' := h;
    if n.role.Follower? {
      h' := FollowerAppendInv(c, s, h, m);
    } else if n.role.Candidate? && m.term == n.term {
      DemoteInv(c, s, h, u);
      h' := FollowerAppendInv(c, After(s, u, Out(Demote(n), {})), h, m);
      AfterAfter(s, u, Demote(n), FollowerOnAppendEntries(Demote(n), m));
    } else {
      if n.role.Leader? { NoRivalAppend(c, s, h, m); }
      RefuseAppendInv(c, s, h, m);
    }
  }

  /** A routed message whose term is not above the node's. */
  lemma HandleInv(c: Config, s: System, h: History, m: Message) returns (h': History)
    requires Inv(c, s, h) && m in s.net && m.receiver in s.nodes && m.term <= s.nodes[m.receiver].term
    requires FreshVoteRequest(s.nodes[m.receiver], m) && JunkIsJunk(s.nodes[m.receiver], m)
    ensures HistoryGrows(h, h') && Inv(c, After(s, m.receiver, Handle(c, s.nodes[m.receiver], m)), h')
  {
    var u, n := m.receiver, s.nodes[m.receiver];
    h' := h;
    assert n.me == u by { assert NodeOK(h, u, n); }
    match m
    case RequestVote(_, _, _, _, _) =>
      if n.role.Follower? { h' := VoteRequestInv(c, s, h, m); } else { RefuseVoteInv(c, s, h, m); }
    case VoteResponse(_, _, _, _) =>
      if n.role.Candidate? { h' := VoteResponseInv(c, s, h, m); } else { assert After(s, u, Out(n, {})) == s; }
    case AppendEntries(_, _, _, _, _, _, _, _) =>
      h' := AppendEntriesInv(c, s, h, m);
    case AppendResponse(_, _, _, _, _, _, _) =>
      if n.role.Leader? { AppendResponseInv(c, s, h, m); } else { assert After(s, u, Out(n, {})) == s; }
  }

  lemma DeliverInv(c: Config, s: System, h: History, m: Message) returns (h': History)
    requires Inv(c, s, h) && m in s.net && m.receiver in s.nodes && Hypotheses(s, Deliver(m))
    ensures HistoryGrows(h, h') && Inv(c, After(s, m.receiver, OnMessage(c, s.nodes[m.receiver], m)), h')
  {
    var u, n1 := m.receiver, Expire(s.nodes[m.receiver], m.term);
    ExpireInv(c, s, h, u, m.term);
    h' := HandleInv(c, After(s, u, Out(n1, {})), h, m);
    AfterAfter(s, u, n1, Handle(c, n1, m));
  }

  lemma HeartbeatToInv(c: Config, s: System, h: History, u: Uri, uri: Uri)
    requires Inv(c, s, h) && u in s.nodes && s.nodes[u].role.Leader? && uri in s.nodes
    ensures Inv(c, After(s, u, SendHeartbeats(c, s.nodes[u], Some(uri))), h)
  {
    var n := s.nodes[u];
    assert n.me == u && n.commit <= |n.log| by { assert NodeOK(h, u, n) && RoleOK(c, h, s.net, n); }
    if uri == u {
      assert After(s, u, Out(n, {})) == s;
    } else {
      assert n.log[|n.log|..] == [];
      SendOneInv(c, s, h, u, uri, |n.log|, []);
    }
  }

  lemma NextInv(c: Config, s: System, h: History, step: Step, s': System) returns (h': History)
    requires Inv(c, s, h) && Next(c, s, step, s') && Hypotheses(s, step)
    ensures HistoryGrows(h, h') && Inv(c, s', h')
  {
    h' := h;
    match step
    case Timeout(u) => h' := TimeoutInv(c, s, h, u);
    case Resign(u) => DemoteInv(c, s, h, u);
    case Propose(u, code, command) => h' := ProposeInv(c, s, h, u, code, command);
    case Heartbeat(u, target) =>
      if target.None? { HeartbeatInv(c, s, h, u); } else { HeartbeatToInv(c, s, h, u, target.value); }
    case Deliver(m) => h' := DeliverInv(c, s, h, m);
    case Notice(m) => ExpireInv(c, s, h, m.receiver, m.term);
  }

  // ---------------------------------------------------------------- one history for a whole run

  /** What a state of the run still means under a history that has grown since. */
  ghost predicate NodeWitnessed(c: Config, h: History, u: Uri, n: Node)
  {
    && LogOK(n.log, h.elections)
    && ProgressOK(c, h, n)
    && (n.role.Leader? ==>
          && n.term in h.elections
          && h.elections[n.term].leader == u
          && Agree(h.elections[n.term].base, n.log, |h.elections[n.term].base|)
          && Agree(n.log, h.elections[n.term].log, |n.log|))
  }

  ghost predicate Witnessed(c: Config, s: System, h: History)
  {
    forall u {:trigger NodeWitnessed(c, h, u, s.nodes[u])} :: u in s.nodes ==> NodeWitnessed(c, h, u, s.nodes[u])
  }

  lemma WitnessNow(c: Config, s: System, h: History)
    requires Inv(c, s, h)
    ensures Witnessed(c, s, h)
  {
    forall u | u in s.nodes ensures NodeWitnessed(c, h, u, s.nodes[u]) {
      var n := s.nodes[u];
      assert NodeOK(h, u, n) && RoleOK(c, h, s.net, n);
      assert n.role.Leader? ==> ElectionOK(c, s.nodes, h, n.term);
    }
  }

  lemma WitnessGrows(c: Config, s: System, h: History, h': History)
    requires Witnessed(c, s, h) && HistoryGrows(h, h')
    ensures Witnessed(c, s, h')
  {
    forall u | u in s.nodes ensures NodeWitnessed(c, h', u, s.nodes[u]) {
      var n := s.nodes[u];
      assert NodeWitnessed(c, h, u, n);
      LogOKGrows(n.log, h.elections, h'.elections);
      CommittedGrows(c, h, h', n.log, n.log, n.commit, n.term, n.term);
    }
  }

  lemma {:induction false} RunHistory(c: Config, run: seq<System>, steps: seq<Step>) returns (h: History)
    requires IsCarefulRun(c, run, steps)
    ensures Inv(c, run[|run| - 1], h)
    ensures forall i :: 0 <= i < |run| ==> Witnessed(c, run[i], h)
    decreases |steps|
  {
    var last := |steps|;
    if last == 0 {
      h := InitialInv(c, run[0]);
    } else {
      var h0 := RunHistory(c, run[..last], steps[..last - 1]);
      h := NextInv(c, run[last - 1], h0, steps[last - 1], run[last]);
      forall i | 0 <= i < last ensures Witnessed(c, run[i], h) {
        assert Witnessed(c, run[..last][i], h0);
        WitnessGrows(c, run[i], h0, h);
      }
    }
    WitnessNow(c, run[last], h);
  }

  // ---------------------------------------------------------------- theorems

  /** What node `u` has committed at some moment is in the log of every leader of a later term, at every moment. */
  lemma LeaderCompleteness(c: Config, run: seq<System>, steps: seq<Step>, i: nat, u: Uri, j: nat, v: Uri)
    requires IsCarefulRun(c, run, steps) && At(run, i, u) && At(run, j, v)
    requires run[j].nodes[v].role.Leader? && run[i].nodes[u].term < run[j].nodes[v].term
    ensures Agree(run[i].nodes[u].log, run[j].nodes[v].log, run[i].nodes[u].commit)
  {
    var h := RunHistory(c, run, steps);
    var n, l := run[i].nodes[u], run[j].nodes[v];
    assert Witnessed(c, run[i], h) && Witnessed(c, run[j], h);
    assert NodeWitnessed(c, h, u, n) && NodeWitnessed(c, h, v, l);
    if n.commit > 0 {
      var t: nat, k: nat :| Justifies(c, h, n.log, n.commit, n.term, t, k);
      LaterLeaderAgrees(c, run[|run| - 1].nodes, h, t, k, l.term);
    }
  }

  lemma LaterLeaderAgrees(c: Config, nodes: Nodes, h: History, t: nat, k: nat, u: nat)
    requires Core(c, nodes, h) && Replicated(c, h, t, k) && u in h.elections && t <= u
    ensures Agree(h.elections[t].log, h.elections[u].log, k)
    ensures t < u ==> k <= |h.elections[u].base|
  {
    ReplicatedHas(c, nodes, h, t, k);
    if t < u {
      LaterLeaderHas(c, nodes, h, t, k, u);
      assert ElectionOK(c, nodes, h, t) && ElectionOK(c, nodes, h, u);
      SameTermAgree(h.elections[t].log, h.elections[u].log, k, t, h.elections);
    }
  }

  /** Committed prefixes never disagree, whatever the nodes and the moments. */
  lemma CommittedAgree(c: Config, run: seq<System>, steps: seq<Step>, i: nat, u: Uri, j: nat, v: Uri)
    requires IsCarefulRun(c, run, steps) && At(run, i, u) && At(run, j, v)
    ensures var n, n' := run[i].nodes[u], run[j].nodes[v];
            Agree(n.log, n'.log, Min(n.commit, n'.commit))
  {
    var h := RunHistory(c, run, steps);
    var n, n', nodes := run[i].nodes[u], run[j].nodes[v], run[|run| - 1].nodes;
    assert Witnessed(c, run[i], h) && Witnessed(c, run[j], h);
    assert NodeWitnessed(c, h, u, n) && NodeWitnessed(c, h, v, n');
    if n.commit > 0 && n'.commit > 0 {
      var t: nat, k: nat :| Justifies(c, h, n.log, n.commit, n.term, t, k);
      var t': nat, k': nat :| Justifies(c, h, n'.log, n'.commit, n'.term, t', k');
      if t <= t' { LaterLeaderAgrees(c, nodes, h, t, k, t'); } else { LaterLeaderAgrees(c, nodes, h, t', k', t); }
    }
  }

  /** Exactly-once ordered apply: a node has executed exactly the client commands up to its applied index, and these are
      all that it has committed; what it has committed and not applied is nothing but term starts. */
  lemma ExactlyOnceApply(c: Config, run: seq<System>, steps: seq<Step>, i: nat, u: Uri)
    requires IsCarefulRun(c, run, steps) && At(run, i, u)
    ensures var n := run[i].nodes[u];
            && n.applied <= n.commit <= |n.log| && n.executed == Commands(n.log[..n.applied])
            && n.executed == Commands(n.log[..n.commit]) && OnlyTermStarts(n.log, n.applied, n.commit)
  {
    var h := RunHistory(c, run, steps);
    var n := run[i].nodes[u];
    assert Witnessed(c, run[i], h);
    assert NodeWitnessed(c, h, u, n);
    CommandsSkip(n.log, n.applied, n.commit);
  }

  /** State machine safety: of any two executed command sequences, one is a prefix of the other. */
  lemma StateMachineSafety(c: Config, run: seq<System>, steps: seq<Step>, i: nat, u: Uri, j: nat, v: Uri)
    requires IsCarefulRun(c, run, steps) && At(run, i, u) && At(run, j, v)
    ensures run[i].nodes[u].executed <= run[j].nodes[v].executed || run[j].nodes[v].executed <= run[i].nodes[u].executed
  {
    var n, n' := run[i].nodes[u], run[j].nodes[v];
    ExactlyOnceApply(c, run, steps, i, u);
    ExactlyOnceApply(c, run, steps, j, v);
    CommittedAgree(c, run, steps, i, u, j, v);
    var k := Min(n.applied, n'.applied);
    CommandsAgree(n.log, n'.log, k);
    assert n.log[..n.applied][..k] == n.log[..k] && n'.log[..n'.applied][..k] == n'.log[..k];
    CommandsOfExtension(n.log[..n.applied], k);
    CommandsOfExtension(n'.log[..n'.applied], k);
  }

  /** A node's committed records against a leader of a term not below its own, both seen under one history. */
  lemma CommittedByLeader(c: Config, nodes: Nodes, h: History, u: Uri, n: Node, v: Uri, l: Node)
    requires Core(c, nodes, h) && NodeWitnessed(c, h, u, n) && NodeWitnessed(c, h, v, l)
    requires l.role.Leader? && n.term <= l.term
    ensures Agree(n.log, l.log, Min(n.commit, |l.log|))
    ensures l.log == h.elections[l.term].log ==> Agree(n.log, l.log, n.commit)
  {
    if n.commit > 0 {
      var t: nat, k: nat :| Justifies(c, h, n.log, n.commit, n.term, t, k);
      LaterLeaderAgrees(c, nodes, h, t, k, l.term);
    }
  }

  /** Follower commit soundness: up to a node's commit index, its log is that of every leader, of any moment, whose term
      is not below the node's; of a leader of an earlier moment, as far as that leader's log went then. */
  lemma FollowerCommitSoundness(c: Config, run: seq<System>, steps: seq<Step>, i: nat, u: Uri, j: nat, v: Uri)
    requires IsCarefulRun(c, run, steps) && At(run, i, u) && At(run, j, v)
    requires run[j].nodes[v].role.Leader? && run[i].nodes[u].term <= run[j].nodes[v].term
    ensures var n, l := run[i].nodes[u], run[j].nodes[v];
            Agree(n.log, l.log, if i <= j then n.commit else Min(n.commit, |l.log|))
  {
    var last := if i <= j then j else i;
    assert IsCarefulRun(c, run[..last + 1], steps[..last]);
    var h := RunHistory(c, run[..last + 1], steps[..last]);
    var n, l := run[i].nodes[u], run[j].nodes[v];
    assert Witnessed(c, run[..last + 1][i], h) && Witnessed(c, run[..last + 1][j], h);
    assert NodeWitnessed(c, h, u, n) && NodeWitnessed(c, h, v, l);
    assert last == j ==> NodeOK(h, v, l);
    CommittedByLeader(c, run[last].nodes, h, u, n, v, l);
  }
}

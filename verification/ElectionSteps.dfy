/** Timers, the term gate, refusals, votes and winning keep the system invariant. */
module ElectionSteps {
  import opened RaftTypes
  import opened Handlers
  import opened Ledger
  import opened Cluster
  import opened Network

  /** The system after `u` became `out.node` and sent `out.sent`. */
  ghost function After(s: System, u: Uri, out: Out): System
  {
    System(s.nodes[u := out.node], s.net + out.sent)
  }

  lemma TimeoutInv(c: Config, s: System, h: History, u: Uri) returns (h': History)
    requires Inv(c, s, h) && u in s.nodes && !s.nodes[u].role.Leader?
    ensures HistoryGrows(h, h') && Inv(c, After(s, u, StartCampaign(c, s.nodes[u])), h')
  {
    var n, out := s.nodes[u], StartCampaign(c, s.nodes[u]);
    var n', mine := out.node, Ballot(n.term + 1, u, u);
    h' := h.(ballots := h.ballots[mine := n.log]);
    assert NodeOK(h, u, n) && RoleOK(c, h, s.net, n);
    NoBallotAhead(s.nodes, h, u, n'.term);
    CampaignKeeps(c, s.nodes, h, u, n', h');
    EvolvesInPlace(h, h', n, n');
    CommittedGrows(c, h, h', n.log, n.log, n.commit, n.term, n'.term);
    assert n'.role.votes.Keys == Voters(c);
    StepInv(c, s, h, u, n', out.sent, h');
  }

  lemma DemoteInv(c: Config, s: System, h: History, u: Uri)
    requires Inv(c, s, h) && u in s.nodes && !s.nodes[u].role.Follower?
    ensures Inv(c, After(s, u, Out(Demote(s.nodes[u]), {})), h)
  {
    var n, n' := s.nodes[u], Demote(s.nodes[u]);
    assert RoleOK(c, h, s.net, n);
    DemoteKeeps(c, s.nodes, h, u);
    EvolvesInPlace(h, h, n, n');
    CommittedGrows(c, h, h, n.log, n.log, n.commit, n.term, n.term);
    StepInv(c, s, h, u, n', {}, h);
  }

  lemma ExpireInv(c: Config, s: System, h: History, u: Uri, t: nat)
    requires Inv(c, s, h) && u in s.nodes
    ensures Inv(c, After(s, u, Out(Expire(s.nodes[u], t), {})), h)
  {
    var n, n' := s.nodes[u], Expire(s.nodes[u], t);
    if t > n.term {
      assert NodeOK(h, u, n) && RoleOK(c, h, s.net, n);
      RiseKeeps(c, s.nodes, h, u, n');
      EvolvesInPlace(h, h, n, n');
      CommittedGrows(c, h, h, n.log, n.log, n.commit, n.term, n'.term);
      StepInv(c, s, h, u, n', {}, h);
    } else {
      assert After(s, u, Out(n', {})) == s;
    }
  }

  /** Sending without changing state. */
  lemma SendInv(c: Config, s: System, h: History, u: Uri, m: Message)
    requires Inv(c, s, h) && u in s.nodes && m.sender == u && !m.AppendEntries? && MessageOK(c, s.nodes, h, m)
    requires forall m' {:trigger Answers(m, m')} :: m' in s.net && Answers(m, m') ==> ReplyOK(s.nodes, h, m, m')
    ensures Inv(c, After(s, u, Out(s.nodes[u], {m})), h)
  {
    var n := s.nodes[u];
    assert NodeOK(h, u, n) && RoleOK(c, h, s.net, n);
    assert s.nodes[u := n] == s.nodes;
    EvolvesInPlace(h, h, n, n);
    RoleGrows(c, h, h, s.net, s.net + {m}, n);
    StepInv(c, s, h, u, n, {m}, h);
  }

  lemma RefuseVoteInv(c: Config, s: System, h: History, m: Message)
    requires Inv(c, s, h) && m in s.net && m.RequestVote? && m.receiver in s.nodes
    ensures Inv(c, After(s, m.receiver, Out(s.nodes[m.receiver], {VoteResponse(m.receiver, m.sender, m.term, false)})),
                h)
  {
    assert MessageOK(c, s.nodes, h, m);
    SendInv(c, s, h, m.receiver, VoteResponse(m.receiver, m.sender, m.term, false));
  }

  lemma VoteRequestInv(c: Config, s: System, h: History, m: Message) returns (h': History)
    requires Inv(c, s, h) && m in s.net && m.RequestVote? && m.receiver in s.nodes
    requires s.nodes[m.receiver].role.Follower? && s.nodes[m.receiver].term == m.term
    ensures HistoryGrows(h, h') && Inv(c, After(s, m.receiver, OnVoteRequest(s.nodes[m.receiver], m)), h')
  {
    var u, n := m.receiver, s.nodes[m.receiver];
    var out := OnVoteRequest(n, m);
    assert MessageOK(c, s.nodes, h, m) && NodeOK(h, u, n) && RoleOK(c, h, s.net, n);
    if n.votedFor.Some? || !LogAcceptable(n.log, m.prevLogIndex, m.prevLogTerm) {
      h' := h;
      RefuseVoteInv(c, s, h, m);
    } else {
      h' := h.(ballots := h.ballots[Ballot(n.term, u, m.sender) := n.log]);
      VoteKeeps(c, s.nodes, h, u, m.sender, h');
      EvolvesInPlace(h, h', n, out.node);
      RoleGrows(c, h, h', s.net, s.net + out.sent, n);
      StepInv(c, s, h, u, out.node, out.sent, h');
    }
  }

  /** A refusal from a node in a later term than the message. */
  lemma RefuseAppendInv(c: Config, s: System, h: History, m: Message)
    requires Inv(c, s, h) && m in s.net && m.AppendEntries? && m.receiver in s.nodes
    requires m.term < s.nodes[m.receiver].term
    ensures Inv(c, After(s, m.receiver, Out(s.nodes[m.receiver], {Reply(s.nodes[m.receiver], m, false)})), h)
  {
    var r := Reply(s.nodes[m.receiver], m, false);
    assert MessageOK(c, s.nodes, h, m) && NodeOK(h, m.receiver, s.nodes[m.receiver]);
    forall m' | m' in s.net && Answers(r, m') ensures ReplyOK(s.nodes, h, r, m') {
      assert SameSerial(m, m');
    }
    SendInv(c, s, h, m.receiver, r);
  }
}

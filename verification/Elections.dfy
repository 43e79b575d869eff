/** Election safety and log matching need less than the other theorems: no acknowledgements, no replies, no commit
    indexes. The invariant here is the ledger without acknowledgements, ballots behind votes, and messages that are
    slices of the log of their term's leader. */
module Elections {
  import opened RaftTypes
  import opened Handlers
  import opened Ledger
  import opened Cluster
  import opened Network
  import opened ElectionSteps
  import opened BroadcastSteps
  import opened FollowerSteps
  import opened Blocks

  ghost predicate PollOK(nodes: Nodes, h: History, m: Message)
  {
    && m.sender in nodes && m.receiver in nodes && m.sender != m.receiver
    && match m
       case RequestVote(_, _, t, index, term) =>
         var b := Ballot(t, m.sender, m.sender);
         b in h.ballots && index == |h.ballots[b]| && term == LastTerm(h.ballots[b])
       case VoteResponse(_, _, t, vote) => vote ==> Ballot(t, m.sender, m.receiver) in h.ballots
       case AppendEntries(_, _, t, _, prev, prevTerm, entries, _) =>
         t in h.elections && m.sender == h.elections[t].leader && Slice(h.elections[t].log, prev, prevTerm, entries)
       case AppendResponse(_, _, _, _, _, _, _) => true
  }

  ghost predicate Polls(c: Config, s: System, h: History)
  {
    && Core(c, s.nodes, h) && h.acks == {}
    && (forall m {:trigger PollOK(s.nodes, h, m)} :: m in s.net ==> PollOK(s.nodes, h, m))
    && (forall u {:trigger CandidateOK(c, h, s.nodes[u])} :: u in s.nodes ==> CandidateOK(c, h, s.nodes[u]))
  }

  lemma SliceGrows(leader: seq<LogRec>, leader': seq<LogRec>, prev: nat, prevTerm: nat, entries: seq<LogRec>)
    requires Slice(leader, prev, prevTerm, entries) && Agree(leader, leader', |leader|)
    ensures Slice(leader', prev, prevTerm, entries)
  {
  }

  /** One node changes and sends: what remains to be shown is about that node and the new messages only. */
  lemma PollStep(c: Config, s: System, h: History, u: Uri, out: Out, h': History)
    requires Polls(c, s, h) && u in s.nodes && Core(c, s.nodes[u := out.node], h') && h'.acks == {}
    requires HistoryGrows(h, h') && CandidateOK(c, h', out.node)
    requires forall m {:trigger PollOK(s.nodes[u := out.node], h', m)} :: m in out.sent ==>
               PollOK(s.nodes[u := out.node], h', m)
    ensures Polls(c, After(s, u, out), h')
  {
    var s' := After(s, u, out);
    forall m | m in s'.net ensures PollOK(s'.nodes, h', m) {
      if m in s.net {
        assert PollOK(s.nodes, h, m);
        if m.AppendEntries? {
          SliceGrows(h.elections[m.term].log, h'.elections[m.term].log, m.prevLogIndex, m.prevLogTerm, m.entries);
        }
      }
    }
    forall v | v in s'.nodes ensures CandidateOK(c, h', s'.nodes[v]) {
      if v != u { assert CandidateOK(c, h, s.nodes[v]); }
    }
  }

  // ---------------------------------------------------------------- standing, voting, winning

  lemma StandPolls(c: Config, s: System, h: History, u: Uri) returns (h': History)
    requires Polls(c, s, h) && u in s.nodes && !s.nodes[u].role.Leader?
    ensures HistoryGrows(h, h') && Polls(c, After(s, u, StartCampaign(c, s.nodes[u])), h')
  {
    var n, out := s.nodes[u], StartCampaign(c, s.nodes[u]);
    h' := h.(ballots := h.ballots[Ballot(n.term + 1, u, u) := n.log]);
    assert NodeOK(h, u, n);
    NoBallotAhead(s.nodes, h, u, out.node.term);
    CampaignKeeps(c, s.nodes, h, u, out.node, h');
    assert out.node.role.votes.Keys == Voters(c);
    PollStep(c, s, h, u, out, h');
  }

  lemma DemotePolls(c: Config, s: System, h: History, u: Uri)
    requires Polls(c, s, h) && u in s.nodes && !s.nodes[u].role.Follower?
    ensures Polls(c, After(s, u, Out(Demote(s.nodes[u]), {})), h)
  {
    DemoteKeeps(c, s.nodes, h, u);
    PollStep(c, s, h, u, Out(Demote(s.nodes[u]), {}), h);
  }

  lemma ExpirePolls(c: Config, s: System, h: History, u: Uri, t: nat)
    requires Polls(c, s, h) && u in s.nodes
    ensures Polls(c, After(s, u, Out(Expire(s.nodes[u], t), {})), h)
  {
    var n' := Expire(s.nodes[u], t);
    if t > s.nodes[u].term {
      assert NodeOK(h, u, s.nodes[u]);
      RiseKeeps(c, s.nodes, h, u, n');
      PollStep(c, s, h, u, Out(n', {}), h);
    } else {
      assert After(s, u, Out(n', {})) == s;
    }
  }

  /** Answering without changing state, with nothing but a refusal or a report. */
  lemma AnswerPolls(c: Config, s: System, h: History, u: Uri, m: Message)
    requires Polls(c, s, h) && u in s.nodes && m.sender == u && m.receiver in s.nodes && m.receiver != u
    requires m.AppendResponse? || (m.VoteResponse? && !m.vote)
    ensures Polls(c, After(s, u, Out(s.nodes[u], {m})), h)
  {
    assert s.nodes[u := s.nodes[u]] == s.nodes;
    assert CandidateOK(c, h, s.nodes[u]);
    PollStep(c, s, h, u, Out(s.nodes[u], {m}), h);
  }

  lemma VotePolls(c: Config, s: System, h: History, m: Message) returns (h': History)
    requires Polls(c, s, h) && m in s.net && m.RequestVote? && m.receiver in s.nodes
    requires s.nodes[m.receiver].role.Follower? && s.nodes[m.receiver].term == m.term
    ensures HistoryGrows(h, h') && Polls(c, After(s, m.receiver, OnVoteRequest(s.nodes[m.receiver], m)), h')
  {
    var u, n := m.receiver, s.nodes[m.receiver];
    assert PollOK(s.nodes, h, m) && NodeOK(h, u, n);
    h' := h;
    if n.votedFor.Some? || !LogAcceptable(n.log, m.prevLogIndex, m.prevLogTerm) {
      AnswerPolls(c, s, h, u, VoteResponse(u, m.sender, m.term, false));
    } else {
      h' := h.(ballots := h.ballots[Ballot(n.term, u, m.sender) := n.log]);
      VoteKeeps(c, s.nodes, h, u, m.sender, h');
      PollStep(c, s, h, u, OnVoteRequest(n, m), h');
    }
  }

  /** Slices of the log of the node that sends them, to other voters. */
  ghost predicate SendsSlices(c: Config, n: Node, sent: set<Message>)
  {
    forall m :: m in sent ==>
      && m.AppendEntries? && m.sender == n.me && m.receiver in Voters(c) && m.receiver != n.me && m.term == n.term
      && Slice(n.log, m.prevLogIndex, m.prevLogTerm, m.entries)
  }

  lemma LeaderSends(c: Config, s: System, h: History, u: Uri, out: Out, h': History)
    requires Polls(c, s, h) && u in s.nodes && Core(c, s.nodes[u := out.node], h') && h'.acks == {}
    requires HistoryGrows(h, h') && out.node.role.Leader? && SendsSlices(c, out.node, out.sent)
    ensures Polls(c, After(s, u, out), h')
  {
    assert NodeOK(h', u, s.nodes[u := out.node][u]);
    PollStep(c, s, h, u, out, h');
  }

  lemma TipSlices(c: Config, n: Node, prev: nat, entries: seq<LogRec>)
    requires n.role.Leader? && prev <= |n.log| && entries == n.log[prev..]
    ensures var out := Broadcast(c, n, prev, TermAt(n.log, prev), entries);
            SendsSlices(c, out.node, out.sent) && SameSeat(n, out.node)
  {
    BroadcastSends(c, n, prev, TermAt(n.log, prev), entries);
  }

  lemma WinPolls(c: Config, s: System, h: History, u: Uri, q: set<Uri>) returns (h': History)
    requires Polls(c, s, h) && u in s.nodes && s.nodes[u].role.Candidate? && Elects(c, h, u, s.nodes[u].term, q)
    ensures HistoryGrows(h, h') && Polls(c, After(s, u, WinVote(c, s.nodes[u])), h')
  {
    var n, out := s.nodes[u], WinVote(c, s.nodes[u]);
    var rec := LogRec(|n.log| + 1, n.term, TermStart, "");
    var n1 := Stored(n.(role := Leader(map[], map[]), votedFor := None), rec);
    assert NodeOK(h, u, n);
    WinIsBroadcast(c, n, rec);
    h' := h.(elections := h.elections[n.term := Election(u, q, n.log, n1.log)]);
    WinKeeps(c, s.nodes, h, u, n1, q, h');
    assert n1.log[|n.log|..] == [rec] && LastTerm(n.log) == TermAt(n1.log, |n.log|);
    TipSlices(c, n1, |n.log|, [rec]);
    SameSeatKeeps(c, s.nodes[u := n1], h', u, out.node);
    assert s.nodes[u := n1][u := out.node] == s.nodes[u := out.node];
    LeaderSends(c, s, h, u, out, h');
  }

  /** A vote of the candidate's term is recorded together with the ballot behind it. */
  lemma TalliedOK(c: Config, s: System, h: History, m: Message)
    requires Polls(c, s, h) && m in s.net && m.VoteResponse? && m.receiver in s.nodes
    requires s.nodes[m.receiver].role.Candidate? && m.term == s.nodes[m.receiver].term
    ensures var n := s.nodes[m.receiver];
            CandidateOK(c, h, n.(role := Candidate(n.role.votes[m.sender := Some(m.vote)])))
    ensures s.nodes[m.receiver].me == m.receiver
  {
    var n := s.nodes[m.receiver];
    assert PollOK(s.nodes, h, m) && NodeOK(h, m.receiver, n) && CandidateOK(c, h, n);
    assert n.role.votes[m.sender := Some(m.vote)].Keys == Voters(c);
  }

  lemma TallyPolls(c: Config, s: System, h: History, m: Message) returns (h': History)
    requires Polls(c, s, h) && m in s.net && m.VoteResponse? && m.receiver in s.nodes
    requires s.nodes[m.receiver].role.Candidate? && m.term <= s.nodes[m.receiver].term
    ensures HistoryGrows(h, h') && Polls(c, After(s, m.receiver, OnVoteResponse(c, s.nodes[m.receiver], m)), h')
  {
    var u, n := m.receiver, s.nodes[m.receiver];
    var votes, out := n.role.votes[m.sender := Some(m.vote)], OnVoteResponse(c, n, m);
    h' := h;
    if m.term < n.term {
      assert After(s, u, out) == s;
    } else {
      TalliedOK(c, s, h, m);
      if 2 * |Ayes(votes)| > |votes| {
        AyesElect(c, h, u, n.term, votes);
        h' := WinPolls(c, s, h, u, Ayes(votes));
      } else {
        SameSeatKeeps(c, s.nodes, h, u, out.node);
        PollStep(c, s, h, u, out, h);
      }
    }
  }

  // ---------------------------------------------------------------- a leader at work

  lemma ProposePolls(c: Config, s: System, h: History, u: Uri, code: RecordCode, command: string) returns (h': History)
    requires Polls(c, s, h) && u in s.nodes && s.nodes[u].role.Leader?
    ensures HistoryGrows(h, h') && Polls(c, After(s, u, AppendAndBroadcast(c, s.nodes[u], code, command)), h')
  {
    var n, out := s.nodes[u], AppendAndBroadcast(c, s.nodes[u], code, command);
    var rec := LogRec(|n.log| + 1, n.term, code, command);
    var n1 := Stored(n, rec);
    assert NodeOK(h, u, n);
    assert out == Broadcast(c, n1, |n.log|, LastTerm(n.log), [rec]);
    h' := h.(elections := h.elections[n.term := h.elections[n.term].(log := n1.log)]);
    GrowKeeps(c, s.nodes, h, u, n1, rec, h');
    assert n1.log[|n.log|..] == [rec] && LastTerm(n.log) == TermAt(n1.log, |n.log|);
    TipSlices(c, n1, |n.log|, [rec]);
    SameSeatKeeps(c, s.nodes[u := n1], h', u, out.node);
    assert s.nodes[u := n1][u := out.node] == s.nodes[u := out.node];
    LeaderSends(c, s, h, u, out, h');
  }

  /** A leader that keeps its seat and sends slices of its log. */
  lemma SeatedPolls(c: Config, s: System, h: History, u: Uri, out: Out)
    requires Polls(c, s, h) && u in s.nodes && s.nodes[u].role.Leader?
    requires SameSeat(s.nodes[u], out.node) && SendsSlices(c, out.node, out.sent)
    ensures Polls(c, After(s, u, out), h)
  {
    SameSeatKeeps(c, s.nodes, h, u, out.node);
    LeaderSends(c, s, h, u, out, h);
  }

  lemma HeartbeatSlices(c: Config, n: Node, target: Option<Uri>)
    requires n.role.Leader? && (target.Some? ==> target.value in Voters(c))
    ensures var out := SendHeartbeats(c, n, target); SameSeat(n, out.node) && SendsSlices(c, out.node, out.sent)
  {
    assert n.log[|n.log|..] == [];
    TipSlices(c, n, |n.log|, []);
  }

  lemma BackdownSlices(c: Config, n: Node, r: Message)
    requires n.role.Leader? && r.AppendResponse? && r.sender in Voters(c) && r.sender != n.me
    ensures var out := SendBackdown(c, n, r); SameSeat(n, out.node) && SendsSlices(c, out.node, out.sent)
  {
    var i := BackdownIndex(r.maxIndex, r.prevLogIndex);
    if 1 <= i <= |n.log| {
      assert n.log[i - 1..i] == [n.log[i - 1]];
    }
  }

  lemma CatchupSlices(c: Config, n: Node, r: Message)
    requires n.role.Leader? && r.AppendResponse? && r.sender in Voters(c) && r.sender != n.me
    ensures var out := SendCatchup(c, n, r); SameSeat(n, out.node) && SendsSlices(c, out.node, out.sent)
  {
    BlockIsSlice(n.log, r.maxIndex + 1, CatchupEnd(c, |n.log|, r.maxIndex + 1), false);
  }

  lemma AssessKeepsSeat(c: Config, n: Node, index: nat, r: Message)
    requires n.role.Leader? && r.AppendResponse? && index <= |n.log|
    ensures SameSeat(n, AssessLogVote(c, n, index, r))
  {
  }

  /** Whatever a reply says, a leader keeps its seat and sends nothing but slices of its log. */
  lemma ReplySlices(c: Config, n: Node, r: Message)
    requires n.role.Leader? && r.AppendResponse? && r.sender in Voters(c) && r.sender != n.me
    ensures var out := OnAppendResponse(c, n, r); SameSeat(n, out.node) && SendsSlices(c, out.node, out.sent)
  {
    var n0, s := n.(matchIndex := n.matchIndex[r.sender := r.maxIndex]), r.originalSerial;
    if s in n.role.active && n.role.active[s].uri == r.sender && n.role.active[s].message.AppendEntries? {
      var t, n1 := n.role.active[s], n0.(role := n0.role.(active := n0.role.active - {s}));
      if t.broadcast && t.message.entries != [] {
        var i := t.message.entries[0].index;
        var n2 := if i <= |n.log| then AssessLogVote(c, n1, i, r) else n1;
        if i <= |n.log| {
          AssessKeepsSeat(c, n1, i, r);
        }
        CatchupSlices(c, n2, r);
        assert OnAppendResponse(c, n, r) in {SendCatchup(c, n2, r), Out(n2, {})};
      } else {
        BackdownSlices(c, n1, r);
        CatchupSlices(c, n1, r);
        assert OnAppendResponse(c, n, r) in {SendBackdown(c, n1, r), SendCatchup(c, n1, r), Out(n1, {})};
      }
    }
  }

  // ---------------------------------------------------------------- a follower's log

  /** Another log for a follower: one of its leaders' making, and the old one if it led its term itself. */
  lemma ReplaceKeeps(c: Config, nodes: Nodes, h: History, u: Uri, n': Node)
    requires Core(c, nodes, h) && h.acks == {} && u in nodes && nodes[u].role.Follower? && n'.role.Follower?
    requires n'.me == u && n'.votedFor == nodes[u].votedFor && n'.term == nodes[u].term
    requires NodeShape(u, n') && LogOK(n'.log, h.elections)
    requires n'.term in h.elections && h.elections[n'.term].leader == u ==> n'.log == nodes[u].log
    ensures Core(c, nodes[u := n'], h)
  {
    var nodes' := nodes[u := n'];
    ElectionsFrame(c, nodes, h, nodes', h);
    forall v | v in nodes' ensures NodeOK(h, v, nodes'[v]) { assert NodeOK(h, v, nodes[v]); }
    forall b | b in h.ballots ensures BallotOK(nodes', h, b) { assert BallotOK(nodes, h, b); }
  }

  /** What append_entries can change about a follower. */
  lemma FollowerChanges(n: Node, m: Message)
    requires m.AppendEntries?
    ensures var out := FollowerOnAppendEntries(n, m);
            && out.node == n.(log := out.node.log, commit := out.node.commit, applied := out.node.applied,
                              executed := out.node.executed)
            && (forall r :: r in out.sent ==> r.AppendResponse? && r.sender == n.me && r.receiver == m.sender)
    ensures SaysJunk(n, m) ==> FollowerOnAppendEntries(n, m).node.log == InsertAll([], m.entries).log
    ensures !SaysJunk(n, m) && m.term != n.term ==> FollowerOnAppendEntries(n, m).node.log == n.log
    ensures FollowerOnAppendEntries(n, m).node.log == FollowerOnAppendEntries(n.(commit := 0, applied := 0), m).node.log
  {
  }

  lemma MatchingLogs(a: seq<LogRec>, b: seq<LogRec>, el: map<nat, Election>)
    requires LogOK(a, el) && LogOK(b, el)
    ensures Matching(a, b)
  {
    forall i: nat | 1 <= i <= |a| && i <= |b| && a[i - 1].term == b[i - 1].term
      ensures Agree(a, b, i)
    {
      SameTermAgree(a, b, i, a[i - 1].term, el);
    }
  }

  /** A log of the making of term `t`'s leader, or of a later one, in a shape a node of term `t` may hold. */
  ghost predicate Storable(h: History, t: nat, log: seq<LogRec>)
  {
    && Indexed(log) && Ascending(log) && (forall j :: 0 <= j < |log| ==> 1 <= log[j].term <= t)
    && LogOK(log, h.elections)
  }

  lemma PrefixStorable(h: History, t: nat, log: seq<LogRec>, k: nat)
    requires Storable(h, t, log) && k <= |log|
    ensures Storable(h, t, log[..k])
  {
    var kept := log[..k];
    forall j | 0 <= j < k
      ensures kept[j].term in h.elections && Agree(kept, h.elections[kept[j].term].log, j + 1)
    {
      assert kept[j] == log[j] && Agree(log, h.elections[log[j].term].log, j + 1);
    }
  }

  lemma WipedStorable(c: Config, nodes: Nodes, h: History, m: Message)
    requires ElectionsOK(c, nodes, h) && PollOK(nodes, h, m) && m.AppendEntries? && m.prevLogIndex == 0
    ensures InsertAll([], m.entries).log == m.entries && Storable(h, m.term, m.entries)
  {
    var leader := h.elections[m.term].log;
    assert ElectionOK(c, nodes, h, m.term);
    InsertAllCopies([], m.entries, leader, 0);
    assert m.entries == leader[..|m.entries|];
    PrefixStorable(h, m.term, leader, |m.entries|);
  }

  lemma MergedStorable(c: Config, nodes: Nodes, h: History, u: Uri, m: Message)
    requires Core(c, nodes, h) && PollOK(nodes, h, m) && m.AppendEntries? && m.receiver == u
    requires u in nodes && nodes[u].role.Follower? && nodes[u].term == m.term && !SaysJunk(nodes[u], m)
    ensures Storable(h, m.term, FollowerOnAppendEntries(nodes[u], m).node.log)
  {
    var n, leader := nodes[u], h.elections[m.term].log;
    assert NodeOK(h, u, n) && ElectionOK(c, nodes, h, m.term);
    MatchingLogs(n.log, leader, h.elections);
    var n0 := n.(commit := 0, applied := 0);
    FollowerChanges(n, m);
    var v := AppendVerdict(n0, m, leader);
    assert FollowerOnAppendEntries(n0, m).node.log == v.log;
    MergedLogOK(n.log, v.log, leader, h.elections);
    MergedShape(n.log, v.log, leader, m.term);
  }

  lemma FollowerPolls(c: Config, s: System, h: History, m: Message)
    requires Polls(c, s, h) && m in s.net && m.AppendEntries? && m.receiver in s.nodes &&
             s.nodes[m.receiver].role.Follower?
    requires m.term <= s.nodes[m.receiver].term && KeepsOwnTerm(s.nodes[m.receiver], m)
    ensures Polls(c, After(s, m.receiver, FollowerOnAppendEntries(s.nodes[m.receiver], m)), h)
  {
    var u, n := m.receiver, s.nodes[m.receiver];
    var out := FollowerOnAppendEntries(n, m);
    assert PollOK(s.nodes, h, m) && NodeOK(h, u, n);
    FollowerChanges(n, m);
    if SaysJunk(n, m) {
      WipedStorable(c, s.nodes, h, m);
      assert n.term in h.elections ==> ElectionOK(c, s.nodes, h, n.term);
    } else if m.term == n.term {
      MergedStorable(c, s.nodes, h, u, m);
    }
    ReplaceKeeps(c, s.nodes, h, u, out.node);
    PollStep(c, s, h, u, out, h);
  }

  // ---------------------------------------------------------------- every step

  lemma AppendPolls(c: Config, s: System, h: History, m: Message)
    requires Polls(c, s, h) && m in s.net && m.AppendEntries? && m.receiver in s.nodes
    requires m.term <= s.nodes[m.receiver].term && KeepsOwnTerm(s.nodes[m.receiver], m)
    ensures Polls(c, After(s, m.receiver, Handle(c, s.nodes[m.receiver], m)), h)
  {
    var u, n := m.receiver, s.nodes[m.receiver];
    assert PollOK(s.nodes, h, m) && NodeOK(h, u, n);
    if n.role.Follower? {
      FollowerPolls(c, s, h, m);
    } else if n.role.Candidate? && m.term == n.term {
      DemotePolls(c, s, h, u);
      var s1, out := After(s, u, Out(Demote(n), {})), FollowerOnAppendEntries(Demote(n), m);
      FollowerPolls(c, s1, h, m);
      assert s.nodes[u := Demote(n)][u := out.node] == s.nodes[u := out.node];
    } else {
      AnswerPolls(c, s, h, u, Reply(n, m, false));
    }
  }

  lemma HandlePolls(c: Config, s: System, h: History, m: Message) returns (h': History)
    requires Polls(c, s, h) && m in s.net && m.receiver in s.nodes && m.term <= s.nodes[m.receiver].term
    requires FreshVoteRequest(s.nodes[m.receiver], m) && KeepsOwnTerm(s.nodes[m.receiver], m)
    ensures HistoryGrows(h, h') && Polls(c, After(s, m.receiver, Handle(c, s.nodes[m.receiver], m)), h')
  {
    var u, n := m.receiver, s.nodes[m.receiver];
    h' := h;
    assert PollOK(s.nodes, h, m) && NodeOK(h, u, n);
    match m
    case RequestVote(_, _, _, _, _) =>
      if n.role.Follower? {
        h' := VotePolls(c, s, h, m);
      } else {
        AnswerPolls(c, s, h, u, VoteResponse(u, m.sender, m.term, false));
      }
    case VoteResponse(_, _, _, _) =>
      if n.role.Candidate? { h' := TallyPolls(c, s, h, m); } else { assert After(s, u, Out(n, {})) == s; }
    case AppendEntries(_, _, _, _, _, _, _, _) => AppendPolls(c, s, h, m);
    case AppendResponse(_, _, _, _, _, _, _) =>
      if n.role.Leader? {
        ReplySlices(c, n, m);
        SeatedPolls(c, s, h, u, OnAppendResponse(c, n, m));
      } else {
        assert After(s, u, Out(n, {})) == s;
      }
  }

  lemma DeliverPolls(c: Config, s: System, h: History, m: Message) returns (h': History)
    requires Polls(c, s, h) && m in s.net && m.receiver in s.nodes && VoteHypotheses(s, Deliver(m))
    ensures HistoryGrows(h, h') && Polls(c, After(s, m.receiver, OnMessage(c, s.nodes[m.receiver], m)), h')
  {
    var u, n1 := m.receiver, Expire(s.nodes[m.receiver], m.term);
    var s1, out := After(s, u, Out(n1, {})), Handle(c, n1, m);
    ExpirePolls(c, s, h, u, m.term);
    h' := HandlePolls(c, s1, h, m);
    assert s.nodes[u := n1][u := out.node] == s.nodes[u := out.node];
  }

  lemma NextPolls(c: Config, s: System, h: History, step: Step, s': System) returns (h': History)
    requires Polls(c, s, h) && Next(c, s, step, s') && VoteHypotheses(s, step)
    ensures HistoryGrows(h, h') && Polls(c, s', h')
  {
    h' := h;
    match step
    case Timeout(u) => h' := StandPolls(c, s, h, u);
    case Resign(u) => DemotePolls(c, s, h, u);
    case Propose(u, code, command) => h' := ProposePolls(c, s, h, u, code, command);
    case Heartbeat(u, target) =>
      HeartbeatSlices(c, s.nodes[u], target);
      SeatedPolls(c, s, h, u, SendHeartbeats(c, s.nodes[u], target));
    case Deliver(m) => h' := DeliverPolls(c, s, h, m);
    case Notice(m) => ExpirePolls(c, s, h, m.receiver, m.term);
  }

  // ---------------------------------------------------------------- whole runs

  /** What a state still means under a history that has grown since. */
  ghost predicate Seen(h: History, u: Uri, n: Node)
  {
    LogOK(n.log, h.elections) && (n.role.Leader? ==> n.term in h.elections && h.elections[n.term].leader == u)
  }

  ghost predicate AllSeen(s: System, h: History)
  {
    forall u {:trigger Seen(h, u, s.nodes[u])} :: u in s.nodes ==> Seen(h, u, s.nodes[u])
  }

  lemma SeenNow(c: Config, s: System, h: History)
    requires Polls(c, s, h)
    ensures AllSeen(s, h)
  {
    forall u | u in s.nodes ensures Seen(h, u, s.nodes[u]) { assert NodeOK(h, u, s.nodes[u]); }
  }

  lemma SeenLater(s: System, h: History, h': History)
    requires AllSeen(s, h) && HistoryGrows(h, h')
    ensures AllSeen(s, h')
  {
    forall u | u in s.nodes ensures Seen(h', u, s.nodes[u]) {
      assert Seen(h, u, s.nodes[u]);
      LogOKGrows(s.nodes[u].log, h.elections, h'.elections);
    }
  }

  lemma {:induction false} RunPolls(c: Config, run: seq<System>, steps: seq<Step>) returns (h: History)
    requires IsVotingRun(c, run, steps)
    ensures Polls(c, run[|run| - 1], h) && forall i :: 0 <= i < |run| ==> AllSeen(run[i], h)
    decreases |steps|
  {
    var last := |steps|;
    if last == 0 {
      h := History(map[], map[], {});
      assert run[0].nodes.Keys == Voters(c);
      forall u | u in run[0].nodes ensures NodeOK(h, u, run[0].nodes[u]) { }
    } else {
      var h0 := RunPolls(c, run[..last], steps[..last - 1]);
      h := NextPolls(c, run[last - 1], h0, steps[last - 1], run[last]);
      forall i | 0 <= i < last ensures AllSeen(run[i], h) {
        assert AllSeen(run[..last][i], h0);
        SeenLater(run[i], h0, h);
      }
    }
    SeenNow(c, run[last], h);
  }

  /** Election safety: at any two moments of a run, two leaders of the same term are the same node. */
  lemma ElectionSafety(c: Config, run: seq<System>, steps: seq<Step>, i: nat, u: Uri, j: nat, v: Uri)
    requires IsVotingRun(c, run, steps) && At(run, i, u) && At(run, j, v)
    requires run[i].nodes[u].role.Leader? && run[j].nodes[v].role.Leader?
    requires run[i].nodes[u].term == run[j].nodes[v].term
    ensures u == v
  {
    var h := RunPolls(c, run, steps);
    assert AllSeen(run[i], h) && AllSeen(run[j], h);
    assert Seen(h, u, run[i].nodes[u]) && Seen(h, v, run[j].nodes[v]);
  }

  /** Log matching, across nodes and moments. */
  lemma LogMatching(c: Config, run: seq<System>, steps: seq<Step>, i: nat, u: Uri, j: nat, v: Uri, k: nat, t: nat)
    requires IsVotingRun(c, run, steps) && At(run, i, u) && At(run, j, v)
    requires Has(run[i].nodes[u].log, k, t) && Has(run[j].nodes[v].log, k, t)
    ensures Agree(run[i].nodes[u].log, run[j].nodes[v].log, k)
  {
    var h := RunPolls(c, run, steps);
    assert AllSeen(run[i], h) && AllSeen(run[j], h);
    assert Seen(h, u, run[i].nodes[u]) && Seen(h, v, run[j].nodes[v]);
    SameTermAgree(run[i].nodes[u].log, run[j].nodes[v].log, k, t, h.elections);
  }

  /** Every careful run is one of these. */
  lemma CarefulIsVoting(c: Config, run: seq<System>, steps: seq<Step>)
    requires IsCarefulRun(c, run, steps)
    ensures IsVotingRun(c, run, steps)
  {
    forall i | 0 <= i < |steps| ensures VoteHypotheses(run[i], steps[i]) { assert Hypotheses(run[i], steps[i]); }
  }

  /** Why the own-term record matters: a demoted leader has no vote on file, and refuses every candidate of its term
      only because of it; emptied by a message of an earlier term, it grants the first request that fits the rest. */
  lemma WipedLeaderVotesAgain(n: Node, m: Message, r: Message)
    requires n.role.Follower? && n.votedFor == None && m.AppendEntries? && SaysJunk(n, m)
    requires exists leader :: Indexed(leader) && Slice(leader, 0, m.prevLogTerm, m.entries)
    requires r.RequestVote? && r.term == n.term && r.prevLogTerm < n.term
    ensures LastTerm(n.log) == n.term ==> VoteResponse(n.me, r.sender, r.term, false) in OnVoteRequest(n, r).sent
    ensures |m.entries| <= r.prevLogIndex && LastTerm(m.entries) <= r.prevLogTerm ==>
              VoteResponse(n.me, r.sender, r.term, true) in OnVoteRequest(FollowerOnAppendEntries(n, m).node, r).sent
  {
    var leader :| Indexed(leader) && Slice(leader, 0, m.prevLogTerm, m.entries);
    InsertAllCopies([], m.entries, leader, 0);
    assert InsertAll([], m.entries).log == m.entries;
    FollowerChanges(n, m);
  }
}

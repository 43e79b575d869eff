/** The part of the safety argument that does not look at the network: what elections, ballots and
    acknowledgements have happened (the history), how they constrain every node's log, and that each kind of
    change a node can make keeps those constraints. */
module Ledger {
  import opened RaftTypes
  import opened Handlers

  /** `base` is the winner's log when it stood; `log` is everything it has stored as leader of the term. */
  datatype Election = Election(leader: Uri, quorum: set<Uri>, base: seq<LogRec>, log: seq<LogRec>)

  datatype Ballot = Ballot(term: nat, voter: Uri, candidate: Uri)

  /** `voter` stored the record of term `term` at `index` while itself in that term. */
  datatype Ack = Ack(voter: Uri, term: nat, index: nat)

  /** `ballots` maps each vote given (a candidacy counts as a vote for oneself) to the voter's log at that time. */
  datatype History = History(elections: map<nat, Election>, ballots: map<Ballot, seq<LogRec>>, acks: set<Ack>)

  type Nodes = map<Uri, Node>

  ghost function Elements(s: seq<Uri>): set<Uri> { set u | u in s }

  ghost function Voters(c: Config): set<Uri> { Elements(c.voters) }

  ghost predicate ValidConfig(c: Config)
  {
    |c.voters| > 0 && forall i, j :: 0 <= i < j < |c.voters| ==> c.voters[i] != c.voters[j]
  }

  /** Every record was stored by the leader of its term, on top of the very same log. */
  ghost predicate LogOK(log: seq<LogRec>, el: map<nat, Election>)
  {
    forall j :: 0 <= j < |log| ==> log[j].term in el && Agree(log, el[log[j].term].log, j + 1)
  }

  ghost predicate NodeShape(u: Uri, n: Node)
  {
    && n.me == u
    && Indexed(n.log)
    && Ascending(n.log)
    && forall j :: 0 <= j < |n.log| ==> 1 <= n.log[j].term <= n.term
  }

  /** A leader holds its term's election; whoever won the current term still has exactly the term's log;
      a candidate has voted only for itself. */
  ghost predicate SeatOK(h: History, u: Uri, n: Node)
  {
    && (n.role.Leader? ==> n.term in h.elections && h.elections[n.term].leader == u)
    && (n.term in h.elections && h.elections[n.term].leader == u ==>
          !n.role.Candidate? && n.log == h.elections[n.term].log)
    && (n.role.Candidate? ==>
          && Ballot(n.term, u, u) in h.ballots
          && h.ballots[Ballot(n.term, u, u)] == n.log
          && forall b :: b in h.ballots && b.term == n.term && b.voter == u ==> b.candidate == u)
  }

  ghost predicate NodeOK(h: History, u: Uri, n: Node)
  {
    NodeShape(u, n) && LogOK(n.log, h.elections) && SeatOK(h, u, n)
  }

  ghost predicate ElectionShape(t: nat, e: Election)
  {
    && |e.base| < |e.log|
    && Agree(e.base, e.log, |e.base|)
    && Indexed(e.log)
    && Ascending(e.log)
    && (forall j :: 0 <= j < |e.base| ==> 1 <= e.log[j].term < t)
    && (forall j :: |e.base| <= j < |e.log| ==> e.log[j].term == t)
  }

  ghost predicate ElectionOK(c: Config, nodes: Nodes, h: History, t: nat)
    requires t in h.elections
  {
    var e := h.elections[t];
    && 1 <= t
    && e.leader in nodes
    && t <= nodes[e.leader].term
    && ElectionShape(t, e)
    && LogOK(e.log, h.elections)
    && e.quorum <= Voters(c)
    && 2 * |e.quorum| > |c.voters|
    && (forall y :: y in e.quorum ==> Ballot(t, y, e.leader) in h.ballots)
    && Ballot(t, e.leader, e.leader) in h.ballots
    && h.ballots[Ballot(t, e.leader, e.leader)] == e.base
  }

  ghost predicate BallotOK(nodes: Nodes, h: History, b: Ballot)
    requires b in h.ballots
  {
    && 1 <= b.term
    && b.voter in nodes
    && b.candidate in nodes
    && b.term <= nodes[b.voter].term
    && Ascending(h.ballots[b])
    && (forall j :: 0 <= j < |h.ballots[b]| ==> h.ballots[b][j].term <= b.term)
    && (b.voter == b.candidate ==> forall j :: 0 <= j < |h.ballots[b]| ==> h.ballots[b][j].term < b.term)
    && (b.voter != b.candidate ==>
          && Ballot(b.term, b.candidate, b.candidate) in h.ballots
          && (var stood := h.ballots[Ballot(b.term, b.candidate, b.candidate)];
              LogAcceptable(h.ballots[b], |stood|, LastTerm(stood)))
          && (nodes[b.voter].term == b.term ==>
                nodes[b.voter].role.Follower? && nodes[b.voter].votedFor == Some(b.candidate))
          && (b.term in h.elections ==> h.elections[b.term].leader != b.voter))
  }

  /** Two votes for others, by the same voter in the same term. */
  ghost predicate Rivals(b: Ballot, b': Ballot)
  {
    b.term == b'.term && b.voter == b'.voter && b.voter != b.candidate && b'.voter != b'.candidate
  }

  ghost predicate OneVote(h: History)
  {
    forall b, b' :: b in h.ballots && b' in h.ballots && Rivals(b, b') ==> b == b'
  }

  /** Every leader of a term above the acknowledged one, up to `hi`, has the acknowledged record. */
  ghost predicate KeptUpTo(el: map<nat, Election>, a: Ack, hi: int)
  {
    forall t :: t in el && a.term < t <= hi ==> Has(el[t].log, a.index, a.term)
  }

  ghost predicate AckOK(nodes: Nodes, h: History, a: Ack)
  {
    && a.voter in nodes
    && a.term <= nodes[a.voter].term
    && a.term in h.elections
    && Has(h.elections[a.term].log, a.index, a.term)
    && (KeptUpTo(h.elections, a, nodes[a.voter].term) ==> Has(nodes[a.voter].log, a.index, a.term))
  }

  /** A vote given after the acknowledgement was given with the record in the log. */
  ghost predicate BallotKeeps(h: History, a: Ack, b: Ballot)
    requires b in h.ballots
  {
    a.voter == b.voter && a.term < b.term && KeptUpTo(h.elections, a, b.term) ==> Has(h.ballots[b], a.index, a.term)
  }

  /** The same for the votes that elected the leader of term `t`, counting only the leaders before it. */
  ghost predicate QuorumKeeps(h: History, a: Ack, t: nat)
    requires t in h.elections
  {
    var e := h.elections[t];
    a.voter in e.quorum && a.term < t && KeptUpTo(h.elections, a, t - 1) &&
    Ballot(t, a.voter, e.leader) in h.ballots ==>
      Has(h.ballots[Ballot(t, a.voter, e.leader)], a.index, a.term)
  }

  // The parts of the ledger are instantiated only where a proof names the member it needs.

  ghost predicate NodesOK(nodes: Nodes, h: History)
  {
    forall u {:trigger NodeOK(h, u, nodes[u])} :: u in nodes ==> NodeOK(h, u, nodes[u])
  }

  ghost predicate ElectionsOK(c: Config, nodes: Nodes, h: History)
  {
    forall t {:trigger ElectionOK(c, nodes, h, t)} :: t in h.elections ==> ElectionOK(c, nodes, h, t)
  }

  ghost predicate BallotsOK(nodes: Nodes, h: History)
  {
    forall b {:trigger BallotOK(nodes, h, b)} :: b in h.ballots ==> BallotOK(nodes, h, b)
  }

  ghost predicate AcksOK(nodes: Nodes, h: History)
  {
    forall a {:trigger AckOK(nodes, h, a)} :: a in h.acks ==> AckOK(nodes, h, a)
  }

  ghost predicate BallotsKeep(h: History)
  {
    forall a, b {:trigger BallotKeeps(h, a, b)} :: a in h.acks && b in h.ballots ==> BallotKeeps(h, a, b)
  }

  ghost predicate QuorumsKeep(h: History)
  {
    forall a, t {:trigger QuorumKeeps(h, a, t)} :: a in h.acks && t in h.elections ==> QuorumKeeps(h, a, t)
  }

  ghost predicate Core(c: Config, nodes: Nodes, h: History)
  {
    && ValidConfig(c)
    && nodes.Keys == Voters(c)
    && NodesOK(nodes, h)
    && ElectionsOK(c, nodes, h)
    && BallotsOK(nodes, h)
    && OneVote(h)
    && AcksOK(nodes, h)
    && BallotsKeep(h)
    && QuorumsKeep(h)
  }

  // ---------------------------------------------------------------- framing

  ghost predicate TermsGrow(nodes: Nodes, nodes': Nodes)
  {
    nodes'.Keys == nodes.Keys && forall u :: u in nodes ==> nodes[u].term <= nodes'[u].term
  }

  ghost predicate BallotsGrow(h: History, h': History)
  {
    forall b :: b in h.ballots ==> b in h'.ballots && h'.ballots[b] == h.ballots[b]
  }

  lemma ElectionsFrame(c: Config, nodes: Nodes, h: History, nodes': Nodes, h': History)
    requires ElectionsOK(c, nodes, h) && TermsGrow(nodes, nodes') && BallotsGrow(h, h')
    requires h'.elections == h.elections
    ensures ElectionsOK(c, nodes', h')
  {
    forall t | t in h'.elections ensures ElectionOK(c, nodes', h', t) { assert ElectionOK(c, nodes, h, t); }
  }

  // ---------------------------------------------------------------- changes that leave log, term and vote alone

  ghost predicate SameSeat(n: Node, n': Node)
  {
    && n'.me == n.me && n'.term == n.term && n'.log == n.log && n'.votedFor == n.votedFor
    && n'.role.Follower? == n.role.Follower?
    && n'.role.Candidate? == n.role.Candidate?
    && n'.role.Leader? == n.role.Leader?
  }

  lemma SameSeatKeeps(c: Config, nodes: Nodes, h: History, u: Uri, n': Node)
    requires Core(c, nodes, h) && u in nodes && SameSeat(nodes[u], n')
    ensures Core(c, nodes[u := n'], h)
  {
    var nodes' := nodes[u := n'];
    ElectionsFrame(c, nodes, h, nodes', h);
    forall v | v in nodes' ensures NodeOK(h, v, nodes'[v]) { assert NodeOK(h, v, nodes[v]); }
    forall b | b in h.ballots ensures BallotOK(nodes', h, b) { assert BallotOK(nodes, h, b); }
    forall a | a in h.acks ensures AckOK(nodes', h, a) { assert AckOK(nodes, h, a); }
  }

  // ---------------------------------------------------------------- terms, candidacies, votes

  lemma RiseKeeps(c: Config, nodes: Nodes, h: History, u: Uri, n': Node)
    requires Core(c, nodes, h) && u in nodes
    requires n'.me == u && n'.log == nodes[u].log && n'.term > nodes[u].term && n'.role.Follower?
    ensures Core(c, nodes[u := n'], h)
  {
    var nodes' := nodes[u := n'];
    ElectionsFrame(c, nodes, h, nodes', h);
    if n'.term in h.elections { assert ElectionOK(c, nodes, h, n'.term); }
    forall v | v in nodes' ensures NodeOK(h, v, nodes'[v]) { assert NodeOK(h, v, nodes[v]); }
    forall b | b in h.ballots ensures BallotOK(nodes', h, b) { assert BallotOK(nodes, h, b); }
    forall a | a in h.acks ensures AckOK(nodes', h, a) { assert AckOK(nodes, h, a); }
  }

  lemma DemoteKeeps(c: Config, nodes: Nodes, h: History, u: Uri)
    requires Core(c, nodes, h) && u in nodes && !nodes[u].role.Follower?
    ensures Core(c, nodes[u := Demote(nodes[u])], h)
  {
    var n, nodes' := nodes[u], nodes[u := Demote(nodes[u])];
    assert NodeOK(h, u, n);
    ElectionsFrame(c, nodes, h, nodes', h);
    forall v | v in nodes' ensures NodeOK(h, v, nodes'[v]) { assert NodeOK(h, v, nodes[v]); }
    forall b | b in h.ballots ensures BallotOK(nodes', h, b) { assert BallotOK(nodes, h, b); }
    forall a | a in h.acks ensures AckOK(nodes', h, a) { assert AckOK(nodes, h, a); }
  }

  /** A ballot of the node's new term is fresh. */
  lemma NoBallotAhead(nodes: Nodes, h: History, u: Uri, t: nat)
    requires BallotsOK(nodes, h) && u in nodes && t > nodes[u].term
    ensures forall b :: b in h.ballots && b.voter == u ==> b.term < t
  {
    forall b | b in h.ballots && b.voter == u ensures b.term < t { assert BallotOK(nodes, h, b); }
  }

  lemma CampaignKeepsBallots(nodes: Nodes, h: History, u: Uri, n': Node, h': History)
    requires NodesOK(nodes, h) && BallotsOK(nodes, h) && OneVote(h) && u in nodes
    requires n'.me == u && n'.log == nodes[u].log && n'.term == nodes[u].term + 1 && n'.role.Candidate?
    requires h' == h.(ballots := h.ballots[Ballot(n'.term, u, u) := n'.log])
    ensures BallotsOK(nodes[u := n'], h') && OneVote(h') && BallotsGrow(h, h')
  {
    var nodes', mine := nodes[u := n'], Ballot(n'.term, u, u);
    NoBallotAhead(nodes, h, u, n'.term);
    assert NodeOK(h, u, nodes[u]);
    forall b | b in h'.ballots ensures BallotOK(nodes', h', b) {
      if b != mine { assert BallotOK(nodes, h, b); }
    }
  }

  lemma CampaignKeepsNodes(nodes: Nodes, h: History, u: Uri, n': Node, h': History)
    requires NodesOK(nodes, h) && BallotsOK(nodes, h) && u in nodes
    requires n'.me == u && n'.log == nodes[u].log && n'.term == nodes[u].term + 1 && n'.role.Candidate?
    requires h' == h.(ballots := h.ballots[Ballot(n'.term, u, u) := n'.log])
    requires n'.term in h.elections ==> h.elections[n'.term].leader != u
    ensures NodesOK(nodes[u := n'], h')
  {
    var nodes' := nodes[u := n'];
    NoBallotAhead(nodes, h, u, n'.term);
    forall v | v in nodes' ensures NodeOK(h', v, nodes'[v]) { assert NodeOK(h, v, nodes[v]); }
  }

  lemma CampaignKeeps(c: Config, nodes: Nodes, h: History, u: Uri, n': Node, h': History)
    requires Core(c, nodes, h) && u in nodes
    requires n'.me == u && n'.log == nodes[u].log && n'.term == nodes[u].term + 1 && n'.role.Candidate?
    requires h' == h.(ballots := h.ballots[Ballot(n'.term, u, u) := n'.log])
    ensures Core(c, nodes[u := n'], h')
  {
    var n, nodes', mine := nodes[u], nodes[u := n'], Ballot(n'.term, u, u);
    if n'.term in h.elections { assert ElectionOK(c, nodes, h, n'.term); }
    CampaignKeepsBallots(nodes, h, u, n', h');
    CampaignKeepsNodes(nodes, h, u, n', h');
    ElectionsFrame(c, nodes, h, nodes', h');
    forall a | a in h'.acks ensures AckOK(nodes', h', a) { assert AckOK(nodes, h, a); }
    forall a, b | a in h'.acks && b in h'.ballots ensures BallotKeeps(h', a, b) {
      assert AckOK(nodes, h, a);
      if b != mine { assert BallotKeeps(h, a, b); }
    }
    forall a, t | a in h'.acks && t in h'.elections ensures QuorumKeeps(h', a, t) {
      assert QuorumKeeps(h, a, t) && ElectionOK(c, nodes, h, t);
    }
  }

  lemma VoteKeepsBallots(c: Config, nodes: Nodes, h: History, u: Uri, w: Uri, h': History)
    requires NodesOK(nodes, h) && BallotsOK(nodes, h) && OneVote(h) && ElectionsOK(c, nodes, h)
    requires u in nodes && w in nodes && w != u
    requires var n := nodes[u]; n.role.Follower? && n.votedFor == None && Ballot(n.term, w, w) in h.ballots
    requires var stood := h.ballots[Ballot(nodes[u].term, w, w)];
             LogAcceptable(nodes[u].log, |stood|, LastTerm(stood))
    requires h' == h.(ballots := h.ballots[Ballot(nodes[u].term, u, w) := nodes[u].log])
    ensures Ballot(nodes[u].term, u, w) !in h.ballots
    ensures BallotsOK(nodes[u := nodes[u].(votedFor := Some(w))], h') && OneVote(h') && BallotsGrow(h, h')
  {
    var n, nodes' := nodes[u], nodes[u := nodes[u].(votedFor := Some(w))];
    var mine, stood := Ballot(n.term, u, w), Ballot(n.term, w, w);
    assert NodeOK(h, u, n);
    assert BallotOK(nodes, h, stood);
    assert mine in h.ballots ==> BallotOK(nodes, h, mine);
    forall b | b in h.ballots ensures !Rivals(b, mine) { assert BallotOK(nodes, h, b); }
    assert n.term in h.elections ==> ElectionOK(c, nodes, h, n.term);
    forall b | b in h'.ballots ensures BallotOK(nodes', h', b) {
      if b != mine { assert BallotOK(nodes, h, b); }
    }
  }

  lemma VoteKeeps(c: Config, nodes: Nodes, h: History, u: Uri, w: Uri, h': History)
    requires Core(c, nodes, h) && u in nodes && w in nodes && w != u
    requires var n := nodes[u]; n.role.Follower? && n.votedFor == None && Ballot(n.term, w, w) in h.ballots
    requires var stood := h.ballots[Ballot(nodes[u].term, w, w)];
             LogAcceptable(nodes[u].log, |stood|, LastTerm(stood))
    requires h' == h.(ballots := h.ballots[Ballot(nodes[u].term, u, w) := nodes[u].log])
    ensures Core(c, nodes[u := nodes[u].(votedFor := Some(w))], h') && BallotsGrow(h, h')
  {
    var n, nodes', mine := nodes[u], nodes[u := nodes[u].(votedFor := Some(w))], Ballot(nodes[u].term, u, w);
    VoteKeepsBallots(c, nodes, h, u, w, h');
    ElectionsFrame(c, nodes, h, nodes', h');
    forall v | v in nodes' ensures NodeOK(h', v, nodes'[v]) { assert NodeOK(h, v, nodes[v]); }
    forall a | a in h'.acks ensures AckOK(nodes', h', a) { assert AckOK(nodes, h, a); }
    forall a, b | a in h'.acks && b in h'.ballots ensures BallotKeeps(h', a, b) {
      assert AckOK(nodes, h, a);
      if b != mine { assert BallotKeeps(h, a, b); }
    }
    forall a, t | a in h'.acks && t in h'.elections ensures QuorumKeeps(h', a, t) {
      assert QuorumKeeps(h, a, t) && ElectionOK(c, nodes, h, t);
    }
  }

  // ---------------------------------------------------------------- winning

  lemma {:induction false} DistinctSize(s: seq<Uri>)
    requires forall i, j :: 0 <= i < j < |s| ==> s[i] != s[j]
    ensures |Elements(s)| == |s|
  {
    if s != [] {
      DistinctSize(s[1..]);
      assert s[0] !in Elements(s[1..]);
      assert Elements(s) == Elements(s[1..]) + {s[0]};
    }
  }

  /** Two sets of voters that are together larger than the voter list share a voter. */
  lemma Meet(c: Config, a: set<Uri>, b: set<Uri>) returns (y: Uri)
    requires ValidConfig(c) && a <= Voters(c) && b <= Voters(c) && |a| + |b| > |c.voters|
    ensures y in a && y in b
  {
    DistinctSize(c.voters);
    SubsetSize(a + b, Voters(c));
    assert |a + b| + |a * b| == |a| + |b|;
    assert a * b != {};
    y :| y in a * b;
  }

  lemma {:induction false} SubsetSize(a: set<Uri>, b: set<Uri>)
    requires a <= b
    ensures |a| <= |b|
    decreases |a|
  {
    if a != {} {
      var x :| x in a;
      SubsetSize(a - {x}, b - {x});
    }
  }

  ghost predicate Elects(c: Config, h: History, u: Uri, t: nat, q: set<Uri>)
  {
    q <= Voters(c) && 2 * |q| > |c.voters| && forall y :: y in q ==> Ballot(t, y, u) in h.ballots
  }

  lemma NoDoubleVote(c: Config, nodes: Nodes, h: History, u: Uri, y: Uri)
    requires NodesOK(nodes, h) && BallotsOK(nodes, h) && OneVote(h) && u in nodes && nodes[u].role.Candidate?
    requires nodes[u].term in h.elections && h.elections[nodes[u].term].leader != u
    ensures !(Ballot(nodes[u].term, y, u) in h.ballots &&
              Ballot(nodes[u].term, y, h.elections[nodes[u].term].leader) in h.ballots)
  {
    var b, b' := Ballot(nodes[u].term, y, u), Ballot(nodes[u].term, y, h.elections[nodes[u].term].leader);
    assert NodeOK(h, u, nodes[u]);
    assert b in h.ballots ==> BallotOK(nodes, h, b);
    assert b' in h.ballots ==> BallotOK(nodes, h, b');
    assert y != b.candidate && y != b'.candidate ==> Rivals(b, b');
  }

  /** Election safety at the moment of winning: nobody else has won the term. */
  lemma FirstWinner(c: Config, nodes: Nodes, h: History, u: Uri, q: set<Uri>)
    requires Core(c, nodes, h) && u in nodes && nodes[u].role.Candidate? && Elects(c, h, u, nodes[u].term, q)
    ensures nodes[u].term !in h.elections
  {
    var t := nodes[u].term;
    assert NodeOK(h, u, nodes[u]);
    if t in h.elections {
      assert ElectionOK(c, nodes, h, t);
      var y := Meet(c, q, h.elections[t].quorum);
      NoDoubleVote(c, nodes, h, u, y);
    }
  }

  ghost predicate ElectionsGrow(el: map<nat, Election>, el': map<nat, Election>)
  {
    forall t :: t in el ==> t in el' && Agree(el[t].log, el'[t].log, |el[t].log|)
  }

  lemma LogOKGrows(log: seq<LogRec>, el: map<nat, Election>, el': map<nat, Election>)
    requires LogOK(log, el) && ElectionsGrow(el, el')
    ensures LogOK(log, el')
  {
  }

  lemma WinKeepsNodes(c: Config, nodes: Nodes, h: History, u: Uri, n': Node, e: Election, h': History)
    requires NodesOK(nodes, h) && u in nodes && nodes[u].role.Candidate? && nodes[u].term !in h.elections
    requires 1 <= nodes[u].term
    requires n'.me == u && n'.term == nodes[u].term && n'.role.Leader?
    requires exists r :: n'.log == nodes[u].log + [r] && r.index == |nodes[u].log| + 1 && r.term == n'.term
    requires e.leader == u && e.log == n'.log && h' == h.(elections := h.elections[n'.term := e])
    ensures NodesOK(nodes[u := n'], h')
  {
    var nodes' := nodes[u := n'];
    forall v | v in nodes' ensures NodeOK(h', v, nodes'[v]) {
      assert NodeOK(h, v, nodes[v]);
      LogOKGrows(nodes[v].log, h.elections, h'.elections);
    }
  }

  lemma WinKeepsElections(c: Config, nodes: Nodes, h: History, u: Uri, n': Node, q: set<Uri>, h': History)
    requires NodesOK(nodes, h) && ElectionsOK(c, nodes, h) && BallotsOK(nodes, h)
    requires u in nodes && nodes[u].role.Candidate? && nodes[u].term !in h.elections
    requires Elects(c, h, u, nodes[u].term, q)
    requires n'.me == u && n'.term == nodes[u].term && n'.role.Leader?
    requires exists r :: n'.log == nodes[u].log + [r] && r.index == |nodes[u].log| + 1 && r.term == n'.term
    requires h' == h.(elections := h.elections[n'.term := Election(u, q, nodes[u].log, n'.log)])
    ensures ElectionsOK(c, nodes[u := n'], h')
  {
    var t, nodes' := n'.term, nodes[u := n'];
    assert NodeOK(h, u, nodes[u]);
    assert BallotOK(nodes, h, Ballot(t, u, u));
    LogOKGrows(nodes[u].log, h.elections, h'.elections);
    forall t' | t' in h'.elections ensures ElectionOK(c, nodes', h', t') {
      if t' != t {
        assert ElectionOK(c, nodes, h, t');
        LogOKGrows(h.elections[t'].log, h.elections, h'.elections);
      }
    }
  }

  /** Adding the winner of a new term only makes "kept by every leader so far" harder. */
  lemma WinKeepsAcks(c: Config, nodes: Nodes, h: History, u: Uri, n': Node, q: set<Uri>, h': History)
    requires AcksOK(nodes, h) && BallotsKeep(h) && QuorumsKeep(h) && u in nodes
    requires Elects(c, h, u, n'.term, q) && n'.term == nodes[u].term && n'.term !in h.elections && 1 <= n'.term
    requires exists r :: n'.log == nodes[u].log + [r]
    requires h' == h.(elections := h.elections[n'.term := Election(u, q, nodes[u].log, n'.log)])
    ensures AcksOK(nodes[u := n'], h') && BallotsKeep(h') && QuorumsKeep(h')
  {
    var t, nodes' := n'.term, nodes[u := n'];
    forall a, hi | KeptUpTo(h'.elections, a, hi) ensures KeptUpTo(h.elections, a, hi) {
      forall t' | t' in h.elections && a.term < t' <= hi ensures Has(h.elections[t'].log, a.index, a.term) {
        assert t' in h'.elections;
      }
    }
    forall a | a in h'.acks ensures AckOK(nodes', h', a) { assert AckOK(nodes, h, a); }
    forall a, b | a in h'.acks && b in h'.ballots ensures BallotKeeps(h', a, b) { assert BallotKeeps(h, a, b); }
    forall a, t' | a in h'.acks && t' in h'.elections ensures QuorumKeeps(h', a, t') {
      if t' != t { assert QuorumKeeps(h, a, t'); }
      else if a.voter in q {
        assert BallotKeeps(h, a, Ballot(t, a.voter, u));
        assert KeptUpTo(h.elections, a, t - 1) ==> KeptUpTo(h.elections, a, t);
      }
    }
  }

  lemma WinKeeps(c: Config, nodes: Nodes, h: History, u: Uri, n': Node, q: set<Uri>, h': History)
    requires Core(c, nodes, h) && u in nodes && nodes[u].role.Candidate? && Elects(c, h, u, nodes[u].term, q)
    requires n'.me == u && n'.term == nodes[u].term && n'.role.Leader?
    requires exists r :: n'.log == nodes[u].log + [r] && r.index == |nodes[u].log| + 1 && r.term == n'.term
    requires h' == h.(elections := h.elections[n'.term := Election(u, q, nodes[u].log, n'.log)])
    ensures nodes[u].term !in h.elections
    ensures Core(c, nodes[u := n'], h')
  {
    var t, nodes' := n'.term, nodes[u := n'];
    FirstWinner(c, nodes, h, u, q);
    assert NodeOK(h, u, nodes[u]);
    assert BallotOK(nodes, h, Ballot(t, u, u));
    WinKeepsNodes(c, nodes, h, u, n', h'.elections[t], h');
    WinKeepsElections(c, nodes, h, u, n', q, h');
    WinKeepsAcks(c, nodes, h, u, n', q, h');
    forall b | b in h'.ballots ensures BallotOK(nodes', h', b) { assert BallotOK(nodes, h, b); }
  }

  // ---------------------------------------------------------------- a leader stores a record

  lemma GrowthKeepsShape(t: nat, e: Election, r: LogRec)
    requires ElectionShape(t, e) && r.index == |e.log| + 1 && r.term == t
    ensures ElectionShape(t, e.(log := e.log + [r]))
  {
  }

  lemma GrowKeepsNodes(nodes: Nodes, h: History, u: Uri, n': Node, r: LogRec, h': History)
    requires NodesOK(nodes, h) && u in nodes && nodes[u].role.Leader? && 1 <= nodes[u].term &&
             nodes[u].term in h.elections
    requires n'.me == u && n'.term == nodes[u].term && n'.role.Leader? && n'.log == nodes[u].log + [r]
    requires r.index == |nodes[u].log| + 1 && r.term == n'.term && h.elections[n'.term].log == nodes[u].log
    requires h' == h.(elections := h.elections[n'.term := h.elections[n'.term].(log := n'.log)])
    ensures NodesOK(nodes[u := n'], h') && ElectionsGrow(h.elections, h'.elections)
  {
    var nodes' := nodes[u := n'];
    forall v | v in nodes' ensures NodeOK(h', v, nodes'[v]) {
      assert NodeOK(h, v, nodes[v]) && NodeOK(h, u, nodes[u]);
      LogOKGrows(nodes[v].log, h.elections, h'.elections);
    }
  }

  lemma GrowKeepsElections(c: Config, nodes: Nodes, h: History, u: Uri, n': Node, r: LogRec, h': History)
    requires ElectionsOK(c, nodes, h) && u in nodes && n'.term in h.elections
    requires n'.term == nodes[u].term && h.elections[n'.term].log == nodes[u].log
    requires n'.log == nodes[u].log + [r] && r.index == |nodes[u].log| + 1 && r.term == n'.term
    requires h' == h.(elections := h.elections[n'.term := h.elections[n'.term].(log := n'.log)])
    ensures ElectionsOK(c, nodes[u := n'], h')
  {
    var t, nodes' := n'.term, nodes[u := n'];
    assert ElectionsGrow(h.elections, h'.elections);
    forall t' | t' in h'.elections ensures ElectionOK(c, nodes', h', t') {
      assert ElectionOK(c, nodes, h, t');
      LogOKGrows(h.elections[t'].log, h.elections, h'.elections);
      if t' == t { GrowthKeepsShape(t, h.elections[t], r); }
    }
  }

  /** The new record has the leader's own term, so it supplies no record of an earlier term. */
  lemma GrowKeepsAcks(nodes: Nodes, h: History, u: Uri, n': Node, r: LogRec, h': History)
    requires AcksOK(nodes, h) && BallotsKeep(h) && QuorumsKeep(h) && u in nodes
    requires n'.term == nodes[u].term && n'.term in h.elections && h.elections[n'.term].log == nodes[u].log
    requires n'.log == nodes[u].log + [r] && r.term == n'.term
    requires h' == h.(elections := h.elections[n'.term := h.elections[n'.term].(log := n'.log)])
    ensures AcksOK(nodes[u := n'], h') && BallotsKeep(h') && QuorumsKeep(h')
  {
    var nodes' := nodes[u := n'];
    forall a, hi | KeptUpTo(h'.elections, a, hi) ensures KeptUpTo(h.elections, a, hi) {
      forall t' | t' in h.elections && a.term < t' <= hi ensures Has(h.elections[t'].log, a.index, a.term) {
        assert t' in h'.elections;
      }
    }
    forall a | a in h'.acks ensures AckOK(nodes', h', a) { assert AckOK(nodes, h, a); }
    forall a, b | a in h'.acks && b in h'.ballots ensures BallotKeeps(h', a, b) { assert BallotKeeps(h, a, b); }
    forall a, t' | a in h'.acks && t' in h'.elections ensures QuorumKeeps(h', a, t') {
      assert QuorumKeeps(h, a, t');
    }
  }

  lemma GrowKeeps(c: Config, nodes: Nodes, h: History, u: Uri, n': Node, r: LogRec, h': History)
    requires Core(c, nodes, h) && u in nodes && nodes[u].role.Leader? && nodes[u].term in h.elections
    requires n'.me == u && n'.term == nodes[u].term && n'.role.Leader? && n'.log == nodes[u].log + [r]
    requires r.index == |nodes[u].log| + 1 && r.term == n'.term
    requires h' == h.(elections := h.elections[n'.term := h.elections[n'.term].(log := n'.log)])
    ensures Core(c, nodes[u := n'], h') && ElectionsGrow(h.elections, h'.elections)
  {
    var nodes' := nodes[u := n'];
    assert NodeOK(h, u, nodes[u]);
    assert ElectionOK(c, nodes, h, n'.term);
    GrowKeepsNodes(nodes, h, u, n', r, h');
    GrowKeepsElections(c, nodes, h, u, n', r, h');
    GrowKeepsAcks(nodes, h, u, n', r, h');
    forall b | b in h'.ballots ensures BallotOK(nodes', h', b) { assert BallotOK(nodes, h, b); }
  }

  // ---------------------------------------------------------------- a follower takes over records

  /** `new` is made of records of `old` and of `leader`, each on top of its own predecessors, and nothing on which
      `old` and `leader` agreed is lost. */
  ghost predicate Merged(old_: seq<LogRec>, new_: seq<LogRec>, leader: seq<LogRec>)
  {
    && (forall k :: 0 <= k <= |new_| ==> Agree(new_, leader, k) || Agree(new_, old_, k))
    && (forall k :: 0 <= k <= |old_| && Agree(old_, leader, k) ==> Agree(old_, new_, k))
  }

  lemma MergedLogOK(old_: seq<LogRec>, new_: seq<LogRec>, leader: seq<LogRec>, el: map<nat, Election>)
    requires Merged(old_, new_, leader) && LogOK(old_, el) && LogOK(leader, el)
    ensures LogOK(new_, el)
  {
    forall j | 0 <= j < |new_| ensures new_[j].term in el && Agree(new_, el[new_[j].term].log, j + 1) {
      if Agree(new_, leader, j + 1) { assert new_[j] == leader[j]; } else { assert new_[j] == old_[j]; }
    }
  }

  lemma MergedShape(old_: seq<LogRec>, new_: seq<LogRec>, leader: seq<LogRec>, t: nat)
    requires Merged(old_, new_, leader)
    requires Indexed(old_) && Ascending(old_) && forall j :: 0 <= j < |old_| ==> 1 <= old_[j].term <= t
    requires Indexed(leader) && Ascending(leader) && forall j :: 0 <= j < |leader| ==> 1 <= leader[j].term <= t
    ensures Indexed(new_) && Ascending(new_) && forall j :: 0 <= j < |new_| ==> 1 <= new_[j].term <= t
  {
    assert Agree(new_, leader, |new_|) || Agree(new_, old_, |new_|);
  }

  lemma {:induction false} SameTermAgree(a: seq<LogRec>, b: seq<LogRec>, i: nat, t: nat, el: map<nat, Election>)
    requires LogOK(a, el) && LogOK(b, el) && Has(a, i, t) && Has(b, i, t)
    ensures Agree(a, b, i)
  {
    assert a[i - 1].term == t && b[i - 1].term == t;
    assert Agree(a, el[t].log, i) && Agree(b, el[t].log, i);
  }

  lemma MergeKeepsAcks(c: Config, nodes: Nodes, h: History, u: Uri, n': Node)
    requires NodesOK(nodes, h) && ElectionsOK(c, nodes, h) && AcksOK(nodes, h)
    requires u in nodes && n'.term == nodes[u].term && n'.term in h.elections
    requires Merged(nodes[u].log, n'.log, h.elections[n'.term].log)
    ensures AcksOK(nodes[u := n'], h)
  {
    var n, leader := nodes[u], h.elections[n'.term].log;
    assert NodeOK(h, u, n) && ElectionOK(c, nodes, h, n.term);
    forall a | a in h.acks ensures AckOK(nodes[u := n'], h, a) {
      assert AckOK(nodes, h, a);
      if a.voter == u && KeptUpTo(h.elections, a, n.term) {
        SameTermAgree(n.log, leader, a.index, a.term, h.elections);
      }
    }
  }

  lemma MergeKeeps(c: Config, nodes: Nodes, h: History, u: Uri, n': Node)
    requires Core(c, nodes, h) && u in nodes && nodes[u].role.Follower? && n'.role.Follower?
    requires n'.me == u && n'.votedFor == nodes[u].votedFor
    requires n'.term == nodes[u].term && n'.term in h.elections && h.elections[n'.term].leader != u
    requires Merged(nodes[u].log, n'.log, h.elections[n'.term].log)
    ensures Core(c, nodes[u := n'], h)
  {
    var n, nodes', leader := nodes[u], nodes[u := n'], h.elections[n'.term].log;
    assert NodeOK(h, u, n) && ElectionOK(c, nodes, h, n.term);
    assert ElectionShape(n.term, h.elections[n.term]);
    ElectionsFrame(c, nodes, h, nodes', h);
    MergeKeepsAcks(c, nodes, h, u, n');
    MergedLogOK(n.log, n'.log, leader, h.elections);
    MergedShape(n.log, n'.log, leader, n.term);
    forall v | v in nodes' ensures NodeOK(h, v, nodes'[v]) { assert NodeOK(h, v, nodes[v]); }
    forall b | b in h.ballots ensures BallotOK(nodes', h, b) { assert BallotOK(nodes, h, b); }
  }

  /** The record is stored by a node that is in the record's term. */
  ghost predicate Acknowledges(nodes: Nodes, h: History, a: Ack)
  {
    && a.voter in nodes && a.term == nodes[a.voter].term && a.term in h.elections
    && Has(nodes[a.voter].log, a.index, a.term) && Has(h.elections[a.term].log, a.index, a.term)
  }

  lemma AcksKeep(c: Config, nodes: Nodes, h: History, acks: set<Ack>, h': History)
    requires Core(c, nodes, h) && forall a :: a in acks ==> Acknowledges(nodes, h, a)
    requires h' == h.(acks := h.acks + acks)
    ensures Core(c, nodes, h')
  {
    ElectionsFrame(c, nodes, h, nodes, h');
    forall v | v in nodes ensures NodeOK(h', v, nodes[v]) { assert NodeOK(h, v, nodes[v]); }
    forall b | b in h'.ballots ensures BallotOK(nodes, h', b) { assert BallotOK(nodes, h, b); }
    forall a | a in h'.acks ensures AckOK(nodes, h', a) {
      if a !in acks { assert AckOK(nodes, h, a); } else { assert Acknowledges(nodes, h, a); }
    }
    forall a, b | a in h'.acks && b in h'.ballots ensures BallotKeeps(h', a, b) {
      assert BallotOK(nodes, h, b);
      if a !in acks { assert BallotKeeps(h, a, b); } else { assert Acknowledges(nodes, h, a); }
    }
    forall a, t | a in h'.acks && t in h'.elections ensures QuorumKeeps(h', a, t) {
      var b := Ballot(t, a.voter, h.elections[t].leader);
      assert b in h.ballots ==> BallotOK(nodes, h, b);
      if a !in acks { assert QuorumKeeps(h, a, t); } else { assert Acknowledges(nodes, h, a); }
    }
  }

  // ---------------------------------------------------------------- leader completeness

  ghost function Holders(c: Config, h: History, t: nat, i: nat): set<Uri>
  {
    set y | y in Voters(c) && Ack(y, t, i) in h.acks
  }

  /** At least half of the voters, rounded up, acknowledged the record of term `t` at `i` in that term. */
  ghost predicate Replicated(c: Config, h: History, t: nat, i: nat)
  {
    t in h.elections && |Holders(c, h, t, i)| >= WinCount(|c.voters|)
  }

  /** A candidate whose log passed a holder's test, and which was elected, has the record. */
  lemma AcceptedHas(h: History, stood: seq<LogRec>, voter: seq<LogRec>, t: nat, i: nat, u: nat)
    requires LogOK(stood, h.elections) && Ascending(voter) && LogAcceptable(voter, |stood|, LastTerm(stood))
    requires Has(voter, i, t) && t in h.elections && Has(h.elections[t].log, i, t)
    requires forall j :: 0 <= j < |stood| ==> stood[j].term < u
    requires forall t' :: t' in h.elections && t < t' < u ==> Has(h.elections[t'].log, i, t)
    ensures Has(stood, i, t)
  {
    var last := stood[|stood| - 1].term;
    assert voter[i - 1].term <= voter[|voter| - 1].term;
    assert Agree(stood, h.elections[last].log, |stood|);
  }

  /** Leader completeness: a replicated record is in the log of every leader of a later term. */
  lemma {:induction false} LaterLeaderHas(c: Config, nodes: Nodes, h: History, t: nat, i: nat, u: nat)
    requires Core(c, nodes, h) && Replicated(c, h, t, i) && u in h.elections && t < u
    ensures Has(h.elections[u].log, i, t)
    ensures i <= |h.elections[u].base|
    decreases u
  {
    forall t' | t' in h.elections && t < t' < u ensures Has(h.elections[t'].log, i, t) {
      LaterLeaderHas(c, nodes, h, t, i, t');
    }
    var e := h.elections[u];
    assert ElectionOK(c, nodes, h, u);
    var y := Meet(c, Holders(c, h, t, i), e.quorum);
    var a, b, mine := Ack(y, t, i), Ballot(u, y, e.leader), Ballot(u, e.leader, e.leader);
    assert AckOK(nodes, h, a) && BallotOK(nodes, h, b) && BallotOK(nodes, h, mine);
    assert QuorumKeeps(h, a, u);
    BaseLogOK(h, u);
    if y != e.leader { AcceptedHas(h, e.base, h.ballots[b], t, i, u); }
  }

  lemma BaseLogOK(h: History, u: nat)
    requires u in h.elections && ElectionShape(u, h.elections[u]) && LogOK(h.elections[u].log, h.elections)
    ensures LogOK(h.elections[u].base, h.elections)
  {
    var e := h.elections[u];
    forall j | 0 <= j < |e.base|
      ensures e.base[j].term in h.elections && Agree(e.base, h.elections[e.base[j].term].log, j + 1)
    {
      assert e.base[j] == e.log[j];
    }
  }
}

/** The invariant of the whole system: the ledger, what every message in the network promises, and what the
    volatile state of candidates and leaders relies on. */
module Network {
  import opened RaftTypes
  import opened Handlers
  import opened Ledger
  import opened Cluster

  /** From position `k` on, the log holds only records of the leader's log. */
  ghost predicate CleanFrom(log: seq<LogRec>, leader: seq<LogRec>, k: nat)
  {
    (k < |log| ==> |log| <= |leader|) && forall j :: k <= j < |log| && j < |leader| ==> log[j] == leader[j]
  }

  ghost predicate Slice(leader: seq<LogRec>, prev: nat, prevTerm: nat, entries: seq<LogRec>)
  {
    && prev + |entries| <= |leader|
    && prevTerm == TermAt(leader, prev)
    && entries == leader[prev..prev + |entries|]
  }

  // ---------------------------------------------------------------- commit evidence

  ghost predicate Justifies(c: Config, h: History, log: seq<LogRec>, k: nat, bound: nat, t: nat, i: nat)
  {
    t <= bound && Replicated(c, h, t, i) && k <= i && Agree(log, h.elections[t].log, k)
  }

  /** The first `k` records of `log` are covered by a replicated record of a term up to `bound`. */
  ghost predicate Committed(c: Config, h: History, log: seq<LogRec>, k: nat, bound: nat)
  {
    k == 0 || exists t, i :: Justifies(c, h, log, k, bound, t, i)
  }

  // ---------------------------------------------------------------- messages

  ghost predicate AppendOK(c: Config, nodes: Nodes, h: History, m: Message)
    requires m.AppendEntries? && m.sender in nodes && m.receiver in nodes
  {
    && m.term in h.elections
    && m.sender == h.elections[m.term].leader
    && m.serial < nodes[m.sender].nextSerial
    && var leader, end := h.elections[m.term].log, m.prevLogIndex + |m.entries|;
    && Slice(leader, m.prevLogIndex, m.prevLogTerm, m.entries)
    && m.commitIndex <= |leader|
    && Committed(c, h, leader, m.commitIndex, m.term)
    && (m.commitIndex > end ==>
          && m.term <= nodes[m.receiver].term
          && (m.term == nodes[m.receiver].term ==> CleanFrom(nodes[m.receiver].log, leader, end)))
  }

  ghost predicate MessageOK(c: Config, nodes: Nodes, h: History, m: Message)
  {
    && m.sender in nodes && m.receiver in nodes && m.sender != m.receiver
    && match m
       case RequestVote(_, _, t, index, term) =>
         var b := Ballot(t, m.sender, m.sender);
         b in h.ballots && index == |h.ballots[b]| && term == LastTerm(h.ballots[b])
       case VoteResponse(_, _, t, vote) => vote ==> Ballot(t, m.sender, m.receiver) in h.ballots
       case AppendEntries(_, _, _, _, _, _, _, _) => AppendOK(c, nodes, h, m)
       case AppendResponse(_, _, t, _, _, _, serial) =>
         t <= nodes[m.sender].term && serial < nodes[m.receiver].nextSerial
  }

  ghost predicate MessagesOK(c: Config, nodes: Nodes, h: History, net: set<Message>)
  {
    forall m {:trigger MessageOK(c, nodes, h, m)} :: m in net ==> MessageOK(c, nodes, h, m)
  }

  ghost predicate SameSerial(m: Message, m': Message)
  {
    m.AppendEntries? && m'.AppendEntries? && m.sender == m'.sender && m.serial == m'.serial
  }

  ghost predicate SerialsUnique(net: set<Message>)
  {
    forall m, m' {:trigger SameSerial(m, m')} :: m in net && m' in net && SameSerial(m, m') ==> m == m'
  }

  ghost predicate Answers(r: Message, m: Message)
  {
    r.AppendResponse? && m.AppendEntries? && r.receiver == m.sender && r.sender == m.receiver &&
    r.originalSerial == m.serial
  }

  /** A yes means the sent records of the term were stored; a refusal in the term never reports an index above the
      one that was tested; and whatever the follower has beyond the reported index came from this leader. */
  ghost predicate ReplyOK(nodes: Nodes, h: History, r: Message, m: Message)
    requires Answers(r, m) && r.sender in nodes
  {
    && m.term <= r.term
    && r.prevLogIndex == m.prevLogIndex
    && (r.success ==> r.term == m.term)
    && (r.success ==> forall e :: e in m.entries && e.term == m.term ==> Ack(r.sender, m.term, e.index) in h.acks)
    && (!r.success && r.term == m.term ==> r.maxIndex <= r.prevLogIndex)
    && (r.term == m.term == nodes[r.sender].term && m.term in h.elections ==>
          CleanFrom(nodes[r.sender].log, h.elections[m.term].log, r.maxIndex))
  }

  ghost predicate RepliesOK(nodes: Nodes, h: History, net: set<Message>)
  {
    forall r, m {:trigger Answers(r, m)} :: r in net && m in net && Answers(r, m) && r.sender in nodes ==>
      ReplyOK(nodes, h, r, m)
  }

  // ---------------------------------------------------------------- volatile state

  ghost predicate CandidateOK(c: Config, h: History, n: Node)
  {
    n.role.Candidate? ==>
    && n.role.votes.Keys == Voters(c)
    && forall y :: y in n.role.votes && n.role.votes[y] == Some(true) ==> Ballot(n.term, y, n.me) in h.ballots
  }

  ghost predicate TallyOK(c: Config, h: History, n: Node, i: nat)
    requires n.role.Leader? && i in n.role.tallies
  {
    && n.role.tallies[i].Keys <= Voters(c)
    && forall y :: y in n.role.tallies[i] && n.role.tallies[i][y] ==> Ack(y, n.term, i) in h.acks
  }

  /** A tracker of a broadcast that carried a record. */
  predicate Votes(t: Tracker) { t.broadcast && t.message.AppendEntries? && t.message.entries != [] }

  function VoteIndex(t: Tracker): nat
    requires Votes(t)
  {
    t.message.entries[0].index
  }

  /** An awaited reply to the broadcast of a record still has its place in that record's tally. */
  ghost predicate TrackerOK(c: Config, h: History, net: set<Message>, n: Node, s: nat)
    requires n.role.Leader? && s in n.role.active
  {
    var t := n.role.active[s];
    && s < n.nextSerial
    && t.message in net
    && t.message.AppendEntries?
    && t.message.serial == s && t.message.sender == n.me && t.message.receiver == t.uri && t.message.term == n.term
    && (Votes(t) ==>
          && |t.message.entries| == 1
          && t.message.entries[0].term == n.term
          && VoteIndex(t) in n.role.tallies
          && t.uri !in n.role.tallies[VoteIndex(t)]
          && TallyOK(c, h, n, VoteIndex(t)))
  }

  ghost predicate SameVote(t: Tracker, t': Tracker)
  {
    Votes(t) && Votes(t') && t.uri == t'.uri && VoteIndex(t) == VoteIndex(t')
  }

  ghost predicate LeaderOK(c: Config, h: History, net: set<Message>, n: Node)
  {
    n.role.Leader? ==>
    && (forall s {:trigger TrackerOK(c, h, net, n, s)} :: s in n.role.active ==> TrackerOK(c, h, net, n, s))
    && (forall s, s' {:trigger SameVote(n.role.active[s], n.role.active[s'])} ::
          s in n.role.active && s' in n.role.active && SameVote(n.role.active[s], n.role.active[s']) ==> s == s')
  }

  /** Commit and applied indexes are in order, the executed commands are exactly those up to the applied index, what is
      committed and not applied is nothing but term starts, and the commit index is covered by replication. */
  ghost predicate ProgressOK(c: Config, h: History, n: Node)
  {
    && n.applied <= n.commit <= |n.log|
    && n.executed == Commands(n.log[..n.applied]) && OnlyTermStarts(n.log, n.applied, n.commit)
    && Committed(c, h, n.log, n.commit, n.term)
  }

  ghost predicate RoleOK(c: Config, h: History, net: set<Message>, n: Node)
  {
    CandidateOK(c, h, n) && LeaderOK(c, h, net, n) && ProgressOK(c, h, n)
  }

  ghost predicate RolesOK(c: Config, nodes: Nodes, h: History, net: set<Message>)
  {
    forall u {:trigger RoleOK(c, h, net, nodes[u])} :: u in nodes ==> RoleOK(c, h, net, nodes[u])
  }

  ghost predicate Inv(c: Config, s: System, h: History)
  {
    && Core(c, s.nodes, h)
    && MessagesOK(c, s.nodes, h, s.net)
    && SerialsUnique(s.net)
    && RepliesOK(s.nodes, h, s.net)
    && RolesOK(c, s.nodes, h, s.net)
  }

  // ---------------------------------------------------------------- growth

  ghost predicate HistoryGrows(h: History, h': History)
  {
    && BallotsGrow(h, h')
    && h.acks <= h'.acks
    && (forall t :: t in h.elections ==>
          && t in h'.elections
          && h'.elections[t].leader == h.elections[t].leader
          && h'.elections[t].base == h.elections[t].base
          && Agree(h.elections[t].log, h'.elections[t].log, |h.elections[t].log|))
  }

  /** How one node may change: terms and serials only rise, and within a term nothing foreign to the leader's log
      appears where there was none. */
  ghost predicate Evolves(h: History, n: Node, h': History, n': Node)
  {
    && n'.me == n.me && n.term <= n'.term && n.nextSerial <= n'.nextSerial
    && (n.term == n'.term && n.term in h.elections && n.term in h'.elections ==>
          forall k {:trigger CleanFrom(n.log, h.elections[n.term].log, k)} ::
            CleanFrom(n.log, h.elections[n.term].log, k) ==> CleanFrom(n'.log, h'.elections[n.term].log, k))
  }

  lemma EvolvesInPlace(h: History, h': History, n: Node, n': Node)
    requires HistoryGrows(h, h') && n'.log == n.log
    requires n'.me == n.me && n.term <= n'.term && n.nextSerial <= n'.nextSerial
    ensures Evolves(h, n, h', n')
  {
  }

  lemma ReplicatedGrows(c: Config, h: History, h': History, t: nat, i: nat)
    requires HistoryGrows(h, h') && Replicated(c, h, t, i)
    ensures Replicated(c, h', t, i)
  {
    SubsetSize(Holders(c, h, t, i), Holders(c, h', t, i));
  }

  lemma CommittedGrows(c: Config, h: History, h': History, log: seq<LogRec>, log': seq<LogRec>, k: nat, b: nat, b': nat)
    requires HistoryGrows(h, h') && Committed(c, h, log, k, b) && Agree(log, log', k) && b <= b'
    ensures Committed(c, h', log', k, b')
  {
    if k > 0 {
      var t, i :| Justifies(c, h, log, k, b, t, i);
      ReplicatedGrows(c, h, h', t, i);
      assert Justifies(c, h', log', k, b', t, i);
    }
  }

  lemma CleanLonger(log: seq<LogRec>, leader: seq<LogRec>, leader': seq<LogRec>, k: nat)
    requires CleanFrom(log, leader, k) && Agree(leader, leader', |leader|)
    ensures CleanFrom(log, leader', k)
  {
  }

  lemma CleanGrows(nodes: Nodes, h: History, u: Uri, n': Node, h': History, v: Uri, k: nat)
    requires HistoryGrows(h, h') && u in nodes && Evolves(h, nodes[u], h', n') && v in nodes
    requires nodes[v].term in h.elections && CleanFrom(nodes[v].log, h.elections[nodes[v].term].log, k)
    requires nodes[v].term == nodes[u := n'][v].term
    ensures nodes[v].term in h'.elections && CleanFrom(nodes[u := n'][v].log, h'.elections[nodes[v].term].log, k)
  {
    var t := nodes[v].term;
    assert t in h'.elections && Agree(h.elections[t].log, h'.elections[t].log, |h.elections[t].log|);
    CleanLonger(nodes[v].log, h.elections[t].log, h'.elections[t].log, k);
  }

  lemma MessageGrows(c: Config, nodes: Nodes, h: History, u: Uri, n': Node, h': History, m: Message)
    requires MessageOK(c, nodes, h, m) && HistoryGrows(h, h') && u in nodes && Evolves(h, nodes[u], h', n')
    ensures MessageOK(c, nodes[u := n'], h', m)
  {
    if m.AppendEntries? {
      var leader, leader', end := h.elections[m.term].log, h'.elections[m.term].log, m.prevLogIndex + |m.entries|;
      CommittedGrows(c, h, h', leader, leader', m.commitIndex, m.term, m.term);
      if m.commitIndex > end && m.term == nodes[u := n'][m.receiver].term {
        CleanGrows(nodes, h, u, n', h', m.receiver, end);
      }
    }
  }

  lemma ReplyGrows(nodes: Nodes, h: History, u: Uri, n': Node, h': History, r: Message, m: Message)
    requires Answers(r, m) && r.sender in nodes && ReplyOK(nodes, h, r, m) && m.term in h.elections
    requires r.term <= nodes[r.sender].term
    requires HistoryGrows(h, h') && u in nodes && Evolves(h, nodes[u], h', n')
    ensures ReplyOK(nodes[u := n'], h', r, m)
  {
    if r.term == m.term == nodes[u := n'][r.sender].term { CleanGrows(nodes, h, u, n', h', r.sender, r.maxIndex); }
  }

  lemma TrackerGrows(c: Config, h: History, h': History, net: set<Message>, net': set<Message>, n: Node, s: nat)
    requires n.role.Leader? && s in n.role.active && TrackerOK(c, h, net, n, s)
    requires HistoryGrows(h, h') && net <= net'
    ensures TrackerOK(c, h', net', n, s)
  {
  }

  lemma RoleGrows(c: Config, h: History, h': History, net: set<Message>, net': set<Message>, n: Node)
    requires RoleOK(c, h, net, n) && HistoryGrows(h, h') && net <= net'
    ensures RoleOK(c, h', net', n)
  {
    CommittedGrows(c, h, h', n.log, n.log, n.commit, n.term, n.term);
    if n.role.Leader? {
      forall s | s in n.role.active ensures TrackerOK(c, h', net', n, s) {
        TrackerGrows(c, h, h', net, net', n, s);
      }
    }
  }

  /** Messages one node may add in one step: fresh serials, its own name as the sender. */
  ghost predicate Sends(n: Node, n': Node, sent: set<Message>)
  {
    && (forall m :: m in sent ==> m.sender == n.me)
    && (forall m :: m in sent && m.AppendEntries? ==> n.nextSerial <= m.serial < n'.nextSerial)
    && (forall m, m' {:trigger SameSerial(m, m')} :: m in sent && m' in sent && SameSerial(m, m') ==> m == m')
  }

  lemma RepliesGrow(c: Config, s: System, h: History, u: Uri, n': Node, sent: set<Message>, h': History)
    requires MessagesOK(c, s.nodes, h, s.net) && RepliesOK(s.nodes, h, s.net) && u in s.nodes && s.nodes[u].me == u
    requires HistoryGrows(h, h') && Evolves(h, s.nodes[u], h', n') && Sends(s.nodes[u], n', sent)
    requires forall m :: m in sent ==> MessageOK(c, s.nodes[u := n'], h', m)
    requires forall r, m {:trigger Answers(r, m)} ::
               r in sent && m in s.net && Answers(r, m) && r.sender in s.nodes ==> ReplyOK(s.nodes[u := n'], h', r, m)
    ensures RepliesOK(s.nodes[u := n'], h', s.net + sent)
  {
    var nodes' := s.nodes[u := n'];
    forall r, m | r in s.net + sent && m in s.net + sent && Answers(r, m) && r.sender in nodes'
      ensures ReplyOK(nodes', h', r, m)
    {
      if r in s.net && m in s.net {
        assert MessageOK(c, s.nodes, h, r) && MessageOK(c, s.nodes, h, m);
        ReplyGrows(s.nodes, h, u, n', h', r, m);
      } else {
        assert r in s.net ==> MessageOK(c, s.nodes, h, r);
        assert r in sent ==> MessageOK(c, nodes', h', r);
        assert m in sent ==> MessageOK(c, nodes', h', m);
      }
    }
  }

  /** One node changes and sends: what remains to be shown is about that node and the new messages only. */
  lemma StepInv(c: Config, s: System, h: History, u: Uri, n': Node, sent: set<Message>, h': History)
    requires Inv(c, s, h) && u in s.nodes
    requires Core(c, s.nodes[u := n'], h')
    requires HistoryGrows(h, h') && Evolves(h, s.nodes[u], h', n') && Sends(s.nodes[u], n', sent)
    requires forall m :: m in sent ==> MessageOK(c, s.nodes[u := n'], h', m)
    requires forall r, m {:trigger Answers(r, m)} ::
               r in sent && m in s.net && Answers(r, m) && r.sender in s.nodes ==> ReplyOK(s.nodes[u := n'], h', r, m)
    requires RoleOK(c, h', s.net + sent, n')
    ensures Inv(c, System(s.nodes[u := n'], s.net + sent), h')
  {
    var nodes', net' := s.nodes[u := n'], s.net + sent;
    assert NodeOK(h, u, s.nodes[u]);
    RepliesGrow(c, s, h, u, n', sent, h');
    forall m | m in net' ensures MessageOK(c, nodes', h', m) {
      if m in s.net { assert MessageOK(c, s.nodes, h, m); MessageGrows(c, s.nodes, h, u, n', h', m); }
    }
    forall m, m' | m in net' && m' in net' && SameSerial(m, m') ensures m == m' {
      assert m in s.net ==> MessageOK(c, s.nodes, h, m);
      assert m' in s.net ==> MessageOK(c, s.nodes, h, m');
    }
    forall v | v in nodes' ensures RoleOK(c, h', net', nodes'[v]) {
      if v != u { assert RoleOK(c, h, s.net, s.nodes[v]); RoleGrows(c, h, h', s.net, net', s.nodes[v]); }
    }
  }
}

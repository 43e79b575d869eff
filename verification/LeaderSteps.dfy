/** Replies reaching a leader: counting them, committing and applying, and resending. */
module LeaderSteps {
  import opened RaftTypes
  import opened Handlers
  import opened Ledger
  import opened Cluster
  import opened Network
  import opened Blocks
  import opened ElectionSteps
  import opened FollowerSteps

  /** Only volatile state and progress change. */
  lemma VolatileInv(c: Config, s: System, h: History, u: Uri, n': Node)
    requires Inv(c, s, h) && u in s.nodes && SameSeat(s.nodes[u], n') && n'.nextSerial == s.nodes[u].nextSerial
    requires RoleOK(c, h, s.net, n')
    ensures Inv(c, After(s, u, Out(n', {})), h)
  {
    assert NodeOK(h, u, s.nodes[u]);
    SameHistory(h);
    SameSeatKeeps(c, s.nodes, h, u, n');
    EvolvesInPlace(h, h, s.nodes[u], n');
    assert s.net + {} == s.net;
    StepInv(c, s, h, u, n', {}, h);
  }

  /** Dropping trackers and adding tallies never hurts the remaining trackers. */
  lemma FewerTrackersOK(c: Config, h: History, net: set<Message>, n: Node, n': Node)
    requires LeaderOK(c, h, net, n) && n.role.Leader? && n'.role.Leader?
    requires n'.me == n.me && n'.term == n.term && n'.nextSerial == n.nextSerial
    requires forall k :: k in n'.role.active ==> k in n.role.active && n'.role.active[k] == n.role.active[k]
    requires forall i :: i in n.role.tallies ==> i in n'.role.tallies && n'.role.tallies[i] == n.role.tallies[i]
    ensures LeaderOK(c, h, net, n')
  {
    forall k | k in n'.role.active ensures TrackerOK(c, h, net, n', k) { assert TrackerOK(c, h, net, n, k); }
    forall k, k' | k in n'.role.active && k' in n'.role.active && SameVote(n'.role.active[k], n'.role.active[k'])
      ensures k == k'
    {
      assert SameVote(n.role.active[k], n.role.active[k']);
    }
  }

  lemma EnsureTalliesInv(c: Config, s: System, h: History, u: Uri, indexes: set<nat>)
    requires Inv(c, s, h) && u in s.nodes && s.nodes[u].role.Leader?
    ensures Inv(c, After(s, u, Out(EnsureTallies(c, s.nodes[u], indexes), {})), h)
  {
    var n, n' := s.nodes[u], EnsureTallies(c, s.nodes[u], indexes);
    assert RoleOK(c, h, s.net, n);
    FewerTrackersOK(c, h, s.net, n, n');
    VolatileInv(c, s, h, u, n');
  }

  // ---------------------------------------------------------------- resending

  /** `uri` is either past the leader's term or holds only the leader's records from position `end` on. */
  ghost predicate CleanBeyond(s: System, n: Node, uri: Uri, end: nat)
  {
    && uri in s.nodes && uri != n.me
    && n.term <= s.nodes[uri].term
    && (n.term == s.nodes[uri].term ==> CleanFrom(s.nodes[uri].log, n.log, end))
  }

  lemma SendOneTrackers(c: Config, h: History, net: set<Message>, n: Node, uri: Uri, prev: nat, prevTerm: nat,
                        entries: seq<LogRec>)
    requires n.role.Leader? && LeaderOK(c, h, net, n)
    ensures var out := SendOne(n, uri, prev, prevTerm, entries); LeaderOK(c, h, net + out.sent, out.node)
  {
    var out := SendOne(n, uri, prev, prevTerm, entries);
    var n' := out.node;
    forall k | k in n'.role.active ensures TrackerOK(c, h, net + out.sent, n', k) {
      if k != n.nextSerial { assert TrackerOK(c, h, net, n, k); }
    }
    forall k, k' | k in n'.role.active && k' in n'.role.active && SameVote(n'.role.active[k], n'.role.active[k'])
      ensures k == k'
    {
      assert k != n.nextSerial && k' != n.nextSerial;
      assert SameVote(n.role.active[k], n.role.active[k']);
    }
  }

  lemma SendOneInv(c: Config, s: System, h: History, u: Uri, uri: Uri, prev: nat, entries: seq<LogRec>)
    requires Inv(c, s, h) && u in s.nodes && s.nodes[u].role.Leader? && uri in s.nodes && uri != u
    requires prev <= |s.nodes[u].log| && Slice(s.nodes[u].log, prev, TermAt(s.nodes[u].log, prev), entries)
    requires prev + |entries| < s.nodes[u].commit ==> CleanBeyond(s, s.nodes[u], uri, prev + |entries|)
    ensures Inv(c, After(s, u, SendOne(s.nodes[u], uri, prev, TermAt(s.nodes[u].log, prev), entries)), h)
  {
    var n := s.nodes[u];
    var out := SendOne(n, uri, prev, TermAt(n.log, prev), entries);
    assert NodeOK(h, u, n) && RoleOK(c, h, s.net, n);
    SameHistory(h);
    SameSeatKeeps(c, s.nodes, h, u, out.node);
    EvolvesInPlace(h, h, n, out.node);
    SendOneTrackers(c, h, s.net, n, uri, prev, TermAt(n.log, prev), entries);
    StepInv(c, s, h, u, out.node, out.sent, h);
  }

  lemma AfterAfter(s: System, u: Uri, n1: Node, out: Out)
    ensures After(After(s, u, Out(n1, {})), u, out) == After(s, u, out)
  {
    assert s.nodes[u := n1][u := out.node] == s.nodes[u := out.node];
  }

  /** One record, after the tally for it has been filled in. */
  lemma BackdownSendInv(c: Config, s: System, h: History, u: Uri, r: Message, n1: Node, i: nat)
    requires Inv(c, s, h) && u in s.nodes && s.nodes[u].role.Leader? && r.AppendResponse? && r.sender in s.nodes &&
             r.sender != u
    requires CleanBeyond(s, s.nodes[u], r.sender, r.maxIndex) && 1 <= i <= |s.nodes[u].log| && r.maxIndex <= i
    requires n1 == s.nodes[u] || n1 == EnsureTallies(c, s.nodes[u], {i})
    ensures Inv(c, After(s, u, SendOne(n1, r.sender, i - 1, TermAt(n1.log, i - 1), [n1.log[i - 1]])), h)
  {
    var s1, out := After(s, u, Out(n1, {})), SendOne(n1, r.sender, i - 1, TermAt(n1.log, i - 1), [n1.log[i - 1]]);
    assert Inv(c, s1, h) by {
      if n1 == s.nodes[u] { assert s1 == s; } else { EnsureTalliesInv(c, s, h, u, {i}); }
    }
    assert n1.log[i - 1..i] == [n1.log[i - 1]];
    assert CleanBeyond(s1, n1, r.sender, r.maxIndex);
    SendOneInv(c, s1, h, u, r.sender, i - 1, [n1.log[i - 1]]);
    AfterAfter(s, u, n1, out);
  }

  lemma BackdownInv(c: Config, s: System, h: History, u: Uri, r: Message)
    requires Inv(c, s, h) && u in s.nodes && s.nodes[u].role.Leader? && r.AppendResponse? && r.sender in s.nodes &&
             r.sender != u
    requires r.maxIndex <= r.prevLogIndex && CleanBeyond(s, s.nodes[u], r.sender, r.maxIndex)
    ensures Inv(c, After(s, u, SendBackdown(c, s.nodes[u], r)), h)
  {
    var n, i := s.nodes[u], BackdownIndex(r.maxIndex, r.prevLogIndex);
    if !(1 <= i <= |n.log|) {
      assert After(s, u, Out(n, {})) == s;
    } else {
      BackdownSendInv(c, s, h, u, r, if i < n.commit then EnsureTallies(c, n, {i}) else n, i);
    }
  }

  lemma CatchupInv(c: Config, s: System, h: History, u: Uri, r: Message)
    requires Inv(c, s, h) && u in s.nodes && s.nodes[u].role.Leader? && r.AppendResponse? && r.sender in s.nodes &&
             r.sender != u
    requires CleanBeyond(s, s.nodes[u], r.sender, r.maxIndex)
    ensures Inv(c, After(s, u, SendCatchup(c, s.nodes[u], r)), h)
  {
    var n, start := s.nodes[u], r.maxIndex + 1;
    var block := CatchupBlock(c, n.log, start);
    var indexes := OpenIndexes(start, |block|, n.commit);
    var n1, out := EnsureTallies(c, n, indexes), SendCatchup(c, n, r);
    var s1 := After(s, u, Out(n1, {}));
    EnsureTalliesInv(c, s, h, u, indexes);
    BlockIsSlice(n.log, start, CatchupEnd(c, |n.log|, start), false);
    if r.maxIndex <= |n.log| {
      CatchupSendInv(c, s1, h, u, r, block);
      assert out == SendOne(n1, r.sender, r.maxIndex, TermAt(n.log, r.maxIndex), block);
      AfterAfter(s, u, n1, out);
    } else {
      assert out == Out(n1, {});
    }
  }

  lemma CatchupSendInv(c: Config, s: System, h: History, u: Uri, r: Message, block: seq<LogRec>)
    requires Inv(c, s, h) && u in s.nodes && s.nodes[u].role.Leader? && r.AppendResponse? && r.sender in s.nodes &&
             r.sender != u
    requires CleanBeyond(s, s.nodes[u], r.sender, r.maxIndex)
    requires r.maxIndex + |block| <= |s.nodes[u].log| && block == s.nodes[u].log[r.maxIndex..r.maxIndex + |block|]
    ensures Inv(c, After(s, u, SendOne(s.nodes[u], r.sender, r.maxIndex, TermAt(s.nodes[u].log, r.maxIndex), block)), h)
  {
    SendOneInv(c, s, h, u, r.sender, r.maxIndex, block);
  }

  // ---------------------------------------------------------------- counting and committing

  lemma CommandsOfNext(log: seq<LogRec>, k: nat)
    requires k < |log|
    ensures Commands(log[..k + 1]) == Commands(log[..k]) + if log[k].code == ClientCommand then [log[k]] else []
  {
    assert log[..k + 1][..k] == log[..k];
  }

  /** The leader executes every command exactly once, in order, although it never marks a term start applied. */
  lemma {:induction false} LeaderApplyExact(n: Node, cur: nat, upto: nat)
    requires n.applied < cur <= upto + 1 <= |n.log| + 1
    requires n.executed == Commands(n.log[..n.applied]) && n.executed == Commands(n.log[..cur - 1])
    ensures var r := LeaderApply(n, cur, upto);
            && n.applied <= r.applied <= upto
            && r.executed == Commands(n.log[..r.applied])
            && r.executed == Commands(n.log[..upto])
    decreases upto + 1 - cur
  {
    if cur <= upto {
      var rec := n.log[cur - 1];
      CommandsOfNext(n.log, cur - 1);
      var n1 := match rec.code
        case ClientCommand => n.(executed := n.executed + [rec], applied := cur)
        case ClusterConfig => n.(applied := cur)
        case TermStart => n;
      LeaderApplyExact(n1, cur + 1, upto);
    }
  }

  /** What the leader leaves unapplied are term starts alone. */
  lemma {:induction false} LeaderApplySkips(n: Node, cur: nat, upto: nat)
    requires n.applied < cur <= upto + 1 <= |n.log| + 1 && OnlyTermStarts(n.log, n.applied, cur - 1)
    ensures OnlyTermStarts(n.log, LeaderApply(n, cur, upto).applied, upto)
    decreases upto + 1 - cur
  {
    if cur <= upto {
      var rec := n.log[cur - 1];
      var n1 := match rec.code
        case ClientCommand => n.(executed := n.executed + [rec], applied := cur)
        case ClusterConfig => n.(applied := cur)
        case TermStart => n;
      LeaderApplySkips(n1, cur + 1, upto);
    }
  }

  lemma ProcessReadyApplies(n: Node, index: nat)
    requires n.applied <= n.commit <= |n.log| && index <= |n.log|
    requires n.executed == Commands(n.log[..n.applied]) && OnlyTermStarts(n.log, n.applied, n.commit)
    ensures var r := ProcessReady(n, index);
            && r == n.(commit := Max(n.commit, index), applied := r.applied, executed := r.executed)
            && n.applied <= r.applied <= r.commit
            && r.executed == Commands(n.log[..r.applied]) && OnlyTermStarts(n.log, r.applied, r.commit)
  {
    var n1 := n.(commit := Max(n.commit, index));
    if index > n.applied {
      LeaderApplyExact(n1, n.applied + 1, index);
      LeaderApplySkips(n1, n.applied + 1, index);
      assert OnlyTermStarts(n.log, LeaderApply(n1, n.applied + 1, index).applied, n1.commit);
    }
  }

  lemma ProcessReadyOK(c: Config, h: History, n: Node, index: nat)
    requires ProgressOK(c, h, n) && index <= |n.log| && Committed(c, h, n.log, index, n.term)
    ensures var r := ProcessReady(n, index);
            && ProgressOK(c, h, r)
            && r == n.(commit := r.commit, applied := r.applied, executed := r.executed)
            && r.commit >= n.commit && r.applied >= n.applied
  {
    ProcessReadyApplies(n, index);
  }

  /** A counted majority is a replicated record. */
  lemma YesReplicated(c: Config, h: History, votes: map<Uri, bool>, t: nat, i: nat)
    requires t in h.elections && forall y :: y in votes && votes[y] ==> Ack(y, t, i) in h.acks
    requires |Yes(c, votes)| >= WinCount(|c.voters|)
    ensures Replicated(c, h, t, i)
  {
    SubsetSize(Yes(c, votes), Holders(c, h, t, i));
  }

  /** The reply being counted is from a voter whose vote on `index` is still open. */
  ghost predicate Countable(c: Config, h: History, n: Node, index: nat, r: Message)
    requires n.role.Leader? && r.AppendResponse?
  {
    && r.sender in Voters(c)
    && index in n.role.tallies && TallyOK(c, h, n, index)
    && (r.success ==> Ack(r.sender, n.term, index) in h.acks)
    && forall k :: k in n.role.active && Votes(n.role.active[k]) && VoteIndex(n.role.active[k]) == index ==>
         n.role.active[k].uri != r.sender
  }

  /** Removing a complete tally takes no open vote away. */
  lemma CountTrackers(c: Config, h: History, net: set<Message>, n: Node, index: nat, r: Message)
    requires ValidConfig(c) && n.role.Leader? && r.AppendResponse? && LeaderOK(c, h, net, n) &&
             Countable(c, h, n, index, r)
    requires forall k :: k in n.role.active ==> n.role.active[k].uri in Voters(c)
    ensures LeaderOK(c, h, net, n.(role := n.role.(tallies := TalliesAfter(c, n, index, r))))
  {
    var n', votes := n.(role := n.role.(tallies := TalliesAfter(c, n, index, r))), Counted(n, index, r);
    DistinctSize(c.voters);
    forall k | k in n'.role.active ensures TrackerOK(c, h, net, n', k) {
      var t := n.role.active[k];
      assert TrackerOK(c, h, net, n, k);
      if Votes(t) && VoteIndex(t) == index {
        SubsetSize(votes.Keys, Voters(c) - {t.uri});
        assert |votes| == |votes.Keys|;
      }
    }
    forall k, k' | k in n'.role.active && k' in n'.role.active && SameVote(n'.role.active[k], n'.role.active[k'])
      ensures k == k'
    {
      assert SameVote(n.role.active[k], n.role.active[k']);
    }
  }

  lemma AssessInv(c: Config, s: System, h: History, u: Uri, index: nat, r: Message)
    requires Inv(c, s, h) && u in s.nodes && s.nodes[u].role.Leader? && r.AppendResponse?
    requires 1 <= index <= |s.nodes[u].log| && Countable(c, h, s.nodes[u], index, r)
    ensures Inv(c, After(s, u, Out(AssessLogVote(c, s.nodes[u], index, r), {})), h)
    ensures SameSeat(s.nodes[u], AssessLogVote(c, s.nodes[u], index, r))
  {
    var n := s.nodes[u];
    var votes, n2 := Counted(n, index, r), AssessLogVote(c, n, index, r);
    var n1 := n.(role := n.role.(tallies := TalliesAfter(c, n, index, r)));
    assert NodeOK(h, u, n) && RoleOK(c, h, s.net, n);
    forall k | k in n.role.active ensures n.role.active[k].uri in Voters(c) {
      assert TrackerOK(c, h, s.net, n, k);
      assert MessageOK(c, s.nodes, h, n.role.active[k].message);
    }
    CountTrackers(c, h, s.net, n, index, r);
    if |Yes(c, votes)| >= WinCount(|c.voters|) {
      YesReplicated(c, h, votes, n.term, index);
      assert Justifies(c, h, n.log, index, n.term, n.term, index);
      ProcessReadyOK(c, h, n1, index);
      FewerTrackersOK(c, h, s.net, n1, n2);
    }
    VolatileInv(c, s, h, u, n2);
  }

  // ---------------------------------------------------------------- the step

  /** The tracker a reply belongs to. */
  ghost predicate Awaited(n: Node, r: Message)
  {
    && n.role.Leader? && r.AppendResponse?
    && r.originalSerial in n.role.active && n.role.active[r.originalSerial].uri == r.sender
  }

  /** What an awaited reply tells the leader. */
  lemma AwaitedReply(c: Config, s: System, h: History, r: Message)
    requires Inv(c, s, h) && r in s.net && r.AppendResponse? && r.receiver in s.nodes
    requires var n := s.nodes[r.receiver]; Awaited(n, r) && r.term <= n.term
    ensures var n := s.nodes[r.receiver]; var t := n.role.active[r.originalSerial];
            && t.message.AppendEntries?
            && CleanBeyond(s, n, r.sender, r.maxIndex) && r.sender in Voters(c)
            && (!r.success ==> r.maxIndex <= r.prevLogIndex)
            && (Votes(t) ==> 1 <= VoteIndex(t) <= |n.log|)
            && (Votes(t) ==> r.success ==> Ack(r.sender, n.term, VoteIndex(t)) in h.acks)
    ensures s.nodes[r.receiver].me == r.receiver
  {
    var u, n := r.receiver, s.nodes[r.receiver];
    var m := n.role.active[r.originalSerial].message;
    assert NodeOK(h, u, n) && RoleOK(c, h, s.net, n);
    assert TrackerOK(c, h, s.net, n, r.originalSerial);
    assert MessageOK(c, s.nodes, h, r) && MessageOK(c, s.nodes, h, m);
    assert Answers(r, m);
    if m.entries != [] { assert m.entries[0] == n.log[m.prevLogIndex] && m.entries[0] in m.entries; }
  }

  /** The reply is taken off the list and its reported index noted. */
  ghost function Taken(n: Node, r: Message): Node
    requires Awaited(n, r)
  {
    n.(matchIndex := n.matchIndex[r.sender := r.maxIndex],
       role := n.role.(active := n.role.active - {r.originalSerial}))
  }

  lemma TakenInv(c: Config, s: System, h: History, r: Message)
    requires Inv(c, s, h) && r.AppendResponse? && r.receiver in s.nodes && Awaited(s.nodes[r.receiver], r)
    ensures Inv(c, After(s, r.receiver, Out(Taken(s.nodes[r.receiver], r), {})), h)
  {
    var n, n1 := s.nodes[r.receiver], Taken(s.nodes[r.receiver], r);
    assert RoleOK(c, h, s.net, n);
    FewerTrackersOK(c, h, s.net, n, n1);
    VolatileInv(c, s, h, r.receiver, n1);
  }

  /** Once taken, no other awaited reply of the same voter counts towards the same record. */
  lemma TakenCountable(c: Config, s: System, h: History, r: Message)
    requires Inv(c, s, h) && r.AppendResponse? && r.receiver in s.nodes && Awaited(s.nodes[r.receiver], r)
    requires var n := s.nodes[r.receiver]; var t := n.role.active[r.originalSerial];
             && Votes(t) && r.sender in Voters(c)
             && (r.success ==> Ack(r.sender, n.term, VoteIndex(t)) in h.acks)
    ensures var n := s.nodes[r.receiver];
            Countable(c, h, Taken(n, r), VoteIndex(n.role.active[r.originalSerial]), r)
  {
    var n := s.nodes[r.receiver];
    var t, n1 := n.role.active[r.originalSerial], Taken(n, r);
    assert RoleOK(c, h, s.net, n) && TrackerOK(c, h, s.net, n, r.originalSerial);
    forall k | k in n1.role.active && Votes(n1.role.active[k]) && VoteIndex(n1.role.active[k]) == VoteIndex(t)
      ensures n1.role.active[k].uri != r.sender
    {
      assert n.role.active[k].uri == r.sender ==> SameVote(n.role.active[k], n.role.active[r.originalSerial]);
    }
  }

  lemma CountReplyInv(c: Config, s: System, h: History, r: Message)
    requires Inv(c, s, h) && r in s.net && r.AppendResponse? && r.receiver in s.nodes
    requires var n := s.nodes[r.receiver]; Awaited(n, r) && r.term <= n.term && Votes(n.role.active[r.originalSerial])
    ensures var n := s.nodes[r.receiver];
            && 1 <= VoteIndex(n.role.active[r.originalSerial]) <= |n.log|
            && var n2 := AssessLogVote(c, Taken(n, r), VoteIndex(n.role.active[r.originalSerial]), r);
               Inv(c, After(s, r.receiver, Out(n2, {})), h) && SameSeat(n, n2)
  {
    var u, n, n1 := r.receiver, s.nodes[r.receiver], Taken(s.nodes[r.receiver], r);
    var i := VoteIndex(n.role.active[r.originalSerial]);
    AwaitedReply(c, s, h, r);
    TakenInv(c, s, h, r);
    TakenCountable(c, s, h, r);
    AssessInv(c, After(s, u, Out(n1, {})), h, u, i, r);
    AfterAfter(s, u, n1, Out(AssessLogVote(c, n1, i, r), {}));
  }

  /** Resending from the state after the reply was taken and counted. */
  lemma ResendInv(c: Config, s: System, h: History, r: Message, n2: Node, backdown: bool)
    requires r.AppendResponse? && r.receiver in s.nodes && r.sender in s.nodes && r.sender != r.receiver
    requires Inv(c, After(s, r.receiver, Out(n2, {})), h) && SameSeat(s.nodes[r.receiver], n2) && n2.role.Leader?
    requires CleanBeyond(s, s.nodes[r.receiver], r.sender, r.maxIndex) && (backdown ==> r.maxIndex <= r.prevLogIndex)
    ensures Inv(c, After(s, r.receiver, if backdown then SendBackdown(c, n2, r) else SendCatchup(c, n2, r)), h)
  {
    var u, s2 := r.receiver, After(s, r.receiver, Out(n2, {}));
    if backdown {
      BackdownInv(c, s2, h, u, r);
      AfterAfter(s, u, n2, SendBackdown(c, n2, r));
    } else {
      CatchupInv(c, s2, h, u, r);
      AfterAfter(s, u, n2, SendCatchup(c, n2, r));
    }
  }

  lemma UnexpectedReplyInv(c: Config, s: System, h: History, u: Uri, matchIndex: map<Uri, nat>)
    requires Inv(c, s, h) && u in s.nodes && s.nodes[u].role.Leader?
    ensures Inv(c, After(s, u, Out(s.nodes[u].(matchIndex := matchIndex), {})), h)
  {
    var n, n' := s.nodes[u], s.nodes[u].(matchIndex := matchIndex);
    assert RoleOK(c, h, s.net, n);
    FewerTrackersOK(c, h, s.net, n, n');
    VolatileInv(c, s, h, u, n');
  }

  lemma AppendResponseInv(c: Config, s: System, h: History, r: Message)
    requires Inv(c, s, h) && r in s.net && r.AppendResponse? && r.receiver in s.nodes
    requires s.nodes[r.receiver].role.Leader? && r.term <= s.nodes[r.receiver].term
    ensures Inv(c, After(s, r.receiver, OnAppendResponse(c, s.nodes[r.receiver], r)), h)
  {
    var u, n, out := r.receiver, s.nodes[r.receiver], OnAppendResponse(c, s.nodes[r.receiver], r);
    if !Awaited(n, r) {
      UnexpectedReplyInv(c, s, h, u, n.matchIndex[r.sender := r.maxIndex]);
    } else {
      AwaitedReply(c, s, h, r);
      var t, n1 := n.role.active[r.originalSerial], Taken(n, r);
      if !Votes(t) {
        TakenInv(c, s, h, r);
        if !r.success {
          ResendInv(c, s, h, r, n1, true);
          assert out == SendBackdown(c, n1, r);
        } else if !t.broadcast && r.maxIndex != |n.log| {
          ResendInv(c, s, h, r, n1, false);
          assert out == SendCatchup(c, n1, r);
        } else {
          assert out == Out(n1, {});
        }
      } else {
        var n2 := AssessLogVote(c, n1, VoteIndex(t), r);
        CountReplyInv(c, s, h, r);
        ResendInv(c, s, h, r, n2, false);
        assert out == SendCatchup(c, n2, r) || out == Out(n2, {});
      }
    }
  }
}

/** What every message is answered with, and what the messages of a leader say. */
module Answering {
  import opened RaftTypes
  import opened Handlers
  import opened Cluster

  // -------------------------------------------------------------- vote requests

  /** Both the index and the term a candidate names are at least the voter's own. */
  predicate UpToDate(log: seq<LogRec>, index: nat, term: nat)
  {
    log == [] || (index >= |log| && term >= log[|log| - 1].term)
  }

  /** Every request is answered once: yes exactly when the node, past the term gate, is a follower that has not voted
      and the candidate's log is up to date. Only a yes changes anything more than the term. */
  lemma VoteAnsweredExactly(c: Config, n: Node, m: Message)
    requires m.RequestVote?
    ensures var n1 := Expire(n, m.term);
            var yes := n1.role.Follower? && n1.votedFor == None && UpToDate(n1.log, m.prevLogIndex, m.prevLogTerm);
            && OnMessage(c, n, m).sent == {VoteResponse(n.me, m.sender, m.term, yes)}
            && OnMessage(c, n, m).node == if yes then n1.(votedFor := Some(m.sender)) else n1
  {
  }

  /** The node after a series of messages. */
  function AfterAll(c: Config, n: Node, ms: seq<Message>): Node
    decreases |ms|
  {
    if ms == [] then n else OnMessage(c, AfterAll(c, n, ms[..|ms| - 1]), ms[|ms| - 1]).node
  }

  ghost predicate OwnTermRequests(n: Node, ms: seq<Message>)
  {
    forall i :: 0 <= i < |ms| ==> ms[i].RequestVote? && ms[i].term == n.term
  }

  /** The vote has been given to the first up-to-date candidate. */
  ghost predicate FirstUpToDate(log: seq<LogRec>, ms: seq<Message>, i: nat)
    requires i < |ms| && forall j :: 0 <= j <= i ==> ms[j].RequestVote?
  {
    && UpToDate(log, ms[i].prevLogIndex, ms[i].prevLogTerm)
    && forall j :: 0 <= j < i ==> !UpToDate(log, ms[j].prevLogIndex, ms[j].prevLogTerm)
  }

  lemma {:induction false} VotesSoFar(c: Config, n: Node, ms: seq<Message>)
    requires n.role.Follower? && n.votedFor == None && OwnTermRequests(n, ms)
    ensures var n' := AfterAll(c, n, ms);
            && n' == n.(votedFor := n'.votedFor)
            && (n'.votedFor == None <==>
                forall j :: 0 <= j < |ms| ==> !UpToDate(n.log, ms[j].prevLogIndex, ms[j].prevLogTerm))
    decreases |ms|
  {
    if ms != [] {
      var k := |ms| - 1;
      VotesSoFar(c, n, ms[..k]);
      VoteAnsweredExactly(c, AfterAll(c, n, ms[..k]), ms[k]);
      assert forall j :: 0 <= j < |ms| ==> ms[j] == if j < k then ms[..k][j] else ms[k];
    }
  }

  /** Of any series of requests of its own term, a follower that has not voted grants exactly the first that is up to
      date. */
  lemma OneVotePerTerm(c: Config, n: Node, ms: seq<Message>, i: nat)
    requires n.role.Follower? && n.votedFor == None && OwnTermRequests(n, ms) && i < |ms|
    ensures VoteResponse(n.me, ms[i].sender, n.term, true) in OnMessage(c, AfterAll(c, n, ms[..i]), ms[i]).sent <==>
            FirstUpToDate(n.log, ms, i)
  {
    VotesSoFar(c, n, ms[..i]);
    VoteAnsweredExactly(c, AfterAll(c, n, ms[..i]), ms[i]);
    assert forall j :: 0 <= j < i ==> ms[..i][j] == ms[j];
  }

  // -------------------------------------------------------------- append_entries

  ghost predicate Numbered(m: Message)
    requires m.AppendEntries?
  {
    forall i {:trigger m.entries[i]} :: 0 <= i < |m.entries| ==> m.entries[i].index == m.prevLogIndex + 1 + i
  }

  /** The node handles the message as a follower: it is one, or it is a candidate and yields to its term's leader. */
  predicate Takes(n: Node, m: Message) { n.role.Follower? || (n.role.Candidate? && m.term == n.term) }

  /** The follower accepts what the message says it has before the entries; a junk message needs no such thing. */
  predicate Fits(n: Node, m: Message)
    requires m.AppendEntries?
  {
    || SaysJunk(n, m)
    || (m.term == n.term && m.prevLogIndex <= |n.log| && TermAt(n.log, m.prevLogIndex) == m.prevLogTerm)
  }

  /** Records beyond the previous one are there, and the sent ones reach past them, or differ before the last. */
  ghost predicate Stumbles(n: Node, m: Message)
    requires m.AppendEntries?
  {
    var p := m.prevLogIndex;
    && !SaysJunk(n, m) && p < |n.log| && m.entries != []
    && (|| p + |m.entries| > |n.log|
        || exists j :: 0 <= j < |m.entries| - 1 && p + j < |n.log| && n.log[p + j].term != m.entries[j].term)
  }

  lemma {:induction false} ScanRaisesExactly(log: seq<LogRec>, entries: seq<LogRec>, p: nat)
    requires p <= |log| && forall i {:trigger entries[i]} :: 0 <= i < |entries| ==> entries[i].index == p + 1 + i
    ensures var scan := DropConflicts(log, entries);
            && (scan.raised <==> || p + |entries| > |log|
                                 || exists j :: 0 <= j < |entries| - 1 && log[p + j].term != entries[j].term)
            && p <= |scan.log| <= |log| && scan.log == log[..|scan.log|]
    decreases |entries|
  {
    if entries != [] && p < |log| {
      var rest := entries[1..];
      assert forall i {:trigger rest[i]} :: 0 <= i < |rest| ==> rest[i] == entries[i + 1];
      if log[p].term == entries[0].term {
        ScanRaisesExactly(log, rest, p + 1);
        assert forall j :: 0 <= j < |rest| - 1 && p + |entries| <= |log| ==>
                 (log[p + 1 + j].term != rest[j].term <==> log[p + (j + 1)].term != entries[j + 1].term);
        if j :| 0 < j < |entries| - 1 && p + |entries| <= |log| && log[p + j].term != entries[j].term {
          assert log[p + 1 + (j - 1)].term != rest[j - 1].term;
        }
      } else if rest != [] {
        assert rest[0].index == p + 2;
      }
    }
  }

  lemma {:induction false} NumberedInserts(log: seq<LogRec>, entries: seq<LogRec>, p: nat)
    requires p <= |log| && forall i {:trigger entries[i]} :: 0 <= i < |entries| ==> entries[i].index == p + 1 + i
    ensures !InsertAll(log, entries).raised && |InsertAll(log, entries).log| == Max(|log|, p + |entries|)
    decreases |entries|
  {
    if entries != [] {
      var rest, e := entries[1..], entries[0];
      assert forall i {:trigger rest[i]} :: 0 <= i < |rest| ==> rest[i] == entries[i + 1];
      NumberedInserts(if p == |log| then log + [e] else log[p := e], rest, p + 1);
    }
  }

  /** A follower answers once, unless the comparison of the entries stumbles; it answers yes exactly when the message
      fits, and names its last index. */
  lemma FollowerAnswersExactly(n: Node, m: Message)
    requires m.AppendEntries? && Numbered(m)
    ensures var out := FollowerOnAppendEntries(n, m);
            out.sent ==
            if Fits(n, m) && Stumbles(n, m) then {}
            else {AppendResponse(n.me, m.sender, n.term, Fits(n, m), |out.node.log|, m.prevLogIndex, m.serial)}
  {
    var p := m.prevLogIndex;
    if SaysJunk(n, m) {
      NumberedInserts([], m.entries, 0);
    } else if m.term == n.term && p <= |n.log| && TermAt(n.log, p) == m.prevLogTerm {
      ScanRaisesExactly(n.log, m.entries, p);
      NumberedInserts(n.log, m.entries, p);
      var kept := DropConflicts(n.log, m.entries).log;
      NumberedInserts(kept, m.entries, p);
      if p < |n.log| && m.entries != [] && p + |m.entries| <= |n.log| {
        assert Stumbles(n, m) <==> exists j :: 0 <= j < |m.entries| - 1 && n.log[p + j].term != m.entries[j].term;
      }
    }
  }

  /** Every append_entries is answered once, but for a stumble: by a refusal when the node does not take it. */
  lemma AppendAnsweredExactly(c: Config, n: Node, m: Message)
    requires m.AppendEntries? && Numbered(m)
    ensures var n1, out := Expire(n, m.term), OnMessage(c, n, m);
            var yes := Takes(n1, m) && Fits(n1, m);
            && (!Takes(n1, m) ==> out.node == n1)
            && (Takes(n1, m) ==> out.node.role.Follower?)
            && out.sent == if yes && Stumbles(n1, m) then {}
                           else {AppendResponse(n.me, m.sender, n1.term, yes, |out.node.log|, m.prevLogIndex, m.serial)}
  {
    var n1 := Expire(n, m.term);
    FollowerAnswersExactly(n1, m);
    FollowerAnswersExactly(Demote(n1), m);
  }

  // -------------------------------------------------------------- following the leader's commit index

  ghost predicate SaysYes(sent: set<Message>) { exists r :: r in sent && r.AppendResponse? && r.success }

  lemma {:induction false} ApplyReaches(n: Node, cur: nat, upto: nat)
    requires 1 <= cur && upto <= |n.log|
    ensures var r := FollowerApply(n, cur, upto); r.applied >= n.applied && (cur <= upto ==> r.applied >= upto)
    decreases upto + 1 - cur
  {
    if cur <= upto {
      var rec := n.log[cur - 1];
      var executed := if rec.code == ClientCommand then n.executed + [rec] else n.executed;
      ApplyReaches(n.(executed := executed, applied := Max(n.applied, cur)), cur + 1, upto);
    }
  }

  lemma NewCommitReaches(n: Node, leaderCommit: nat)
    ensures var r, upto := NewLeaderCommitIndex(n, leaderCommit), Min(leaderCommit, |n.log|);
            r.log == n.log && r.commit >= upto && r.applied >= upto
  {
    var upto := Min(leaderCommit, |n.log|);
    var n1 := if n.commit < leaderCommit then n.(commit := Max(n.commit, upto)) else n;
    ApplyReaches(n1, n.applied + 1, upto);
  }

  lemma StoreReaches(n: Node, m: Message)
    requires m.AppendEntries? && SaysYes(StoreAndCommit(n, m).sent)
    ensures var r := StoreAndCommit(n, m).node;
            r.commit >= Min(m.commitIndex, |r.log|) && r.applied >= Min(m.commitIndex, |r.log|)
  {
    NewCommitReaches(n.(log := InsertAll(n.log, m.entries).log), m.commitIndex);
  }

  /** A node that says yes has committed and applied everything the leader says is committed, as far as its log goes. */
  lemma YesFollowsCommit(c: Config, n: Node, m: Message)
    requires m.AppendEntries? && SaysYes(OnMessage(c, n, m).sent)
    ensures var r := OnMessage(c, n, m).node;
            r.commit >= Min(m.commitIndex, |r.log|) && r.applied >= Min(m.commitIndex, |r.log|)
  {
    var n1 := Expire(n, m.term);
    var f := if n1.role.Follower? then n1 else Demote(n1);
    assert OnMessage(c, n, m) == FollowerOnAppendEntries(f, m);
    FollowerYesFollowsCommit(f, m);
  }

  lemma FollowerYesFollowsCommit(n: Node, m: Message)
    requires m.AppendEntries? && SaysYes(FollowerOnAppendEntries(n, m).sent)
    ensures var r := FollowerOnAppendEntries(n, m).node;
            r.commit >= Min(m.commitIndex, |r.log|) && r.applied >= Min(m.commitIndex, |r.log|)
  {
    if SaysJunk(n, m) {
      StoreReaches(WithLog(n, 0, []), m);
    } else if |n.log| > m.prevLogIndex {
      var scan := DropConflicts(n.log, m.entries);
      StoreReaches(WithLog(n, |scan.log|, scan.log), m);
    } else {
      StoreReaches(n, m);
    }
  }

  // -------------------------------------------------------------- what a leader tells

  /** Every append_entries in the set speaks for the node as it now is. */
  ghost predicate Tells(n: Node, sent: set<Message>)
  {
    forall m :: m in sent && m.AppendEntries? ==> m.sender == n.me && m.term == n.term && m.commitIndex == n.commit
  }

  lemma ReplyTells(c: Config, n: Node, r: Message)
    requires n.role.Leader? && r.AppendResponse?
    ensures Tells(OnAppendResponse(c, n, r).node, OnAppendResponse(c, n, r).sent)
  {
  }

  lemma BroadcastTells(c: Config, n: Node, prev: nat, prevTerm: nat, entries: seq<LogRec>)
    requires n.role.Leader?
    ensures var out := Broadcast(c, n, prev, prevTerm, entries); Tells(out.node, out.sent)
  {
  }

  lemma ProposalTells(c: Config, n: Node, code: RecordCode, command: string)
    requires n.role.Leader?
    ensures var out := AppendAndBroadcast(c, n, code, command); Tells(out.node, out.sent)
  {
    var rec := LogRec(|n.log| + 1, n.term, code, command);
    var n1 := n.(log := n.log + [rec], role := n.role.(tallies := n.role.tallies[rec.index := map[n.me := true]]));
    BroadcastTells(c, n1, |n.log|, LastTerm(n.log), [rec]);
  }

  lemma HeartbeatTells(c: Config, n: Node, target: Option<Uri>)
    requires n.role.Leader?
    ensures var out := SendHeartbeats(c, n, target); Tells(out.node, out.sent)
  {
    BroadcastTells(c, n, |n.log|, LastTerm(n.log), []);
  }

  lemma FollowerTells(n: Node, m: Message)
    requires m.AppendEntries?
    ensures var out := FollowerOnAppendEntries(n, m); Tells(out.node, out.sent)
  {
  }

  lemma HandleTells(c: Config, n: Node, m: Message)
    ensures var out := Handle(c, n, m); Tells(out.node, out.sent)
  {
    match m
    case RequestVote(_, _, _, _, _) =>
    case VoteResponse(_, _, _, _) =>
      ProposalTells(c, n.(role := Leader(map[], map[]), votedFor := None), TermStart, "");
    case AppendEntries(_, _, _, _, _, _, _, _) =>
      FollowerTells(n, m);
      FollowerTells(Demote(n), m);
    case AppendResponse(_, _, _, _, _, _, _) =>
      if n.role.Leader? {
        ReplyTells(c, n, m);
      }
  }

  /** Every append_entries that a step sends carries the sender's commit index after that step. */
  lemma StepTells(c: Config, n: Node, step: Step)
    requires step.Propose? || step.Heartbeat? ==> n.role.Leader?
    ensures var out := Act(c, n, step); Tells(out.node, out.sent)
  {
    match step
    case Timeout(_) =>
    case Resign(_) =>
    case Propose(_, code, command) => ProposalTells(c, n, code, command);
    case Heartbeat(_, target) => HeartbeatTells(c, n, target);
    case Deliver(m) => HandleTells(c, Expire(n, m.term), m);
    case Notice(_) =>
  }

  // -------------------------------------------------------------- marks

  ghost predicate MarksWithin(n: Node) { n.commit <= |n.log| && n.applied <= |n.log| }

  lemma {:induction false} FollowerApplyWithin(n: Node, cur: nat, upto: nat)
    requires 1 <= cur && upto <= |n.log| && MarksWithin(n)
    ensures MarksWithin(FollowerApply(n, cur, upto))
    decreases upto + 1 - cur
  {
    if cur <= upto {
      var rec := n.log[cur - 1];
      var executed := if rec.code == ClientCommand then n.executed + [rec] else n.executed;
      FollowerApplyWithin(n.(executed := executed, applied := Max(n.applied, cur)), cur + 1, upto);
    }
  }

  lemma {:induction false} LeaderApplyWithin(n: Node, cur: nat, upto: nat)
    requires 1 <= cur && upto <= |n.log| && MarksWithin(n)
    ensures MarksWithin(LeaderApply(n, cur, upto))
    decreases upto + 1 - cur
  {
    if cur <= upto {
      var rec := n.log[cur - 1];
      var n1 := match rec.code
        case ClientCommand => n.(executed := n.executed + [rec], applied := Max(n.applied, cur))
        case ClusterConfig => n.(applied := Max(n.applied, cur))
        case TermStart => n;
      LeaderApplyWithin(n1, cur + 1, upto);
    }
  }

  lemma {:induction false} ScansLonger(log: seq<LogRec>, entries: seq<LogRec>)
    ensures |InsertAll(log, entries).log| >= |log| && |DropConflicts(log, entries).log| <= |log|
    decreases |entries|
  {
    if entries != [] {
      var e, rest := entries[0], entries[1..];
      if e.index == 0 {
        ScansLonger(log + [e.(index := |log| + 1)], rest);
      } else if e.index == |log| + 1 {
        ScansLonger(log + [e], rest);
      } else if e.index <= |log| {
        ScansLonger(log[e.index - 1 := e], rest);
        ScansLonger(log[..e.index - 1], rest);
        ScansLonger(log, rest);
      }
    }
  }

  lemma StoreWithin(n: Node, m: Message)
    requires m.AppendEntries? && MarksWithin(n)
    ensures MarksWithin(StoreAndCommit(n, m).node)
  {
    ScansLonger(n.log, m.entries);
    var n1 := n.(log := InsertAll(n.log, m.entries).log);
    var upto := Min(m.commitIndex, |n1.log|);
    var n2 := if n1.commit < m.commitIndex then n1.(commit := Max(n1.commit, upto)) else n1;
    FollowerApplyWithin(n2, n1.applied + 1, upto);
  }

  lemma FollowerWithin(n: Node, m: Message)
    requires m.AppendEntries? && MarksWithin(n)
    ensures MarksWithin(FollowerOnAppendEntries(n, m).node)
  {
    var scan := DropConflicts(n.log, m.entries);
    StoreWithin(WithLog(n, 0, []), m);
    StoreWithin(WithLog(n, |scan.log|, scan.log), m);
    StoreWithin(n, m);
  }

  lemma ReplyWithin(c: Config, n: Node, r: Message)
    requires n.role.Leader? && r.AppendResponse? && MarksWithin(n)
    ensures MarksWithin(OnAppendResponse(c, n, r).node)
  {
    if r.originalSerial in n.role.active && n.role.active[r.originalSerial].message.AppendEntries? &&
       n.role.active[r.originalSerial].message.entries != []
    {
      var i := n.role.active[r.originalSerial].message.entries[0].index;
      var n1 := n.(matchIndex := n.matchIndex[r.sender := r.maxIndex],
                   role := n.role.(active := n.role.active - {r.originalSerial}));
      if i <= |n.log| {
        AssessWithin(c, n1, i, r);
      }
    }
  }

  lemma AssessWithin(c: Config, n: Node, index: nat, r: Message)
    requires n.role.Leader? && r.AppendResponse? && index <= |n.log| && MarksWithin(n)
    ensures MarksWithin(AssessLogVote(c, n, index, r)) && AssessLogVote(c, n, index, r).log == n.log
  {
    if index in n.role.tallies && index > n.applied {
      var n1 := n.(role := n.role.(tallies := TalliesAfter(c, n, index, r)), commit := Max(n.commit, index));
      LeaderApplyWithin(n1, n.applied + 1, index);
    }
  }

  lemma HandleWithin(c: Config, n: Node, m: Message)
    requires MarksWithin(n)
    ensures MarksWithin(Handle(c, n, m).node)
  {
    if m.AppendEntries? {
      FollowerWithin(n, m);
      FollowerWithin(Demote(n), m);
    } else if m.AppendResponse? && n.role.Leader? {
      ReplyWithin(c, n, m);
    }
  }

  /** Whatever is delivered, and without any hypothesis, a node's commit and applied indexes stay within its log: every
      truncation lowers them. */
  lemma StepKeepsMarks(c: Config, n: Node, step: Step)
    requires (step.Propose? || step.Heartbeat? ==> n.role.Leader?) && MarksWithin(n)
    ensures MarksWithin(Act(c, n, step).node)
  {
    if step.Deliver? {
      HandleWithin(c, Expire(n, step.m.term), step.m);
    }
  }
}

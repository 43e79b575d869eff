/** The conversation by which a leader brings one follower's log back in line, and its state machine up to the leader's
    commit index: a heartbeat, backing down record by record until the logs meet, then catching up block by block.
    Nothing is lost and nothing else happens. */
module Resync {
  import opened RaftTypes
  import opened Handlers
  import opened Ledger
  import opened Cluster
  import opened Network
  import opened Blocks
  import opened FollowerSteps
  import opened Answering

  /** Leader, follower, and the message under way between them, if any. */
  datatype Talk = Talk(leader: Node, follower: Node, msg: Option<Message>)

  predicate IsHeartbeat(l: seq<LogRec>, m: Message)
    requires m.AppendEntries?
  {
    m.entries == [] && m.prevLogIndex == |l|
  }

  /** One record, sent to a follower that has at most that many; if it has as many, its last one differs. */
  ghost predicate IsBackdown(l: seq<LogRec>, f: seq<LogRec>, m: Message)
    requires m.AppendEntries?
  {
    var p := m.prevLogIndex;
    p < |l| && m.entries == [l[p]] && |f| <= p + 1 && (|f| == p + 1 ==> f[p].term != l[p].term)
  }

  /** A slice that starts after the follower's last index. */
  ghost predicate IsBlock(l: seq<LogRec>, f: seq<LogRec>, m: Message)
    requires m.AppendEntries?
  {
    var p := m.prevLogIndex;
    p + |m.entries| <= |l| && m.entries != [] && m.entries == l[p..p + |m.entries|] && |f| == p
  }

  /** The same when the follower's log is a prefix of the leader's. */
  ghost predicate IsCatchup(l: seq<LogRec>, f: seq<LogRec>, m: Message)
    requires m.AppendEntries?
  {
    IsBlock(l, f, m) && f == l[..m.prevLogIndex]
  }

  /** What the follower has committed is the leader's, and it has executed all of it. */
  ghost predicate Sound(l: seq<LogRec>, f: Node)
  {
    && f.applied <= f.commit <= |f.log| && Agree(f.log, l, f.commit)
    && f.executed == Commands(f.log[..f.applied]) && OnlyTermStarts(f.log, f.applied, f.commit)
  }

  ghost predicate Tracked(n: Node, f: Uri, m: Message)
    requires m.AppendEntries? && n.role.Leader?
  {
    m.serial in n.role.active && n.role.active[m.serial].uri == f && n.role.active[m.serial].message == m
  }

  /** The parties agree on the term, and the message is one of the three kinds, carries the leader's commit index and is
      being tracked. */
  ghost predicate OnTrack(t: Talk)
  {
    var n, f := t.leader, t.follower;
    && n.role.Leader? && f.role.Follower? && n.term == f.term && n.log != [] && Indexed(n.log) && Matching(n.log, f.log)
    && Sound(n.log, f) && n.commit <= |n.log| && t.msg.Some? && t.msg.value.AppendEntries?
    && var m := t.msg.value;
       && m.commitIndex == n.commit && m.term == n.term && m.receiver == f.me && m.sender == n.me && Tracked(n, f.me, m)
       && m.prevLogIndex <= |n.log| && m.prevLogTerm == TermAt(n.log, m.prevLogIndex)
       && (IsHeartbeat(n.log, m) ||
           (!n.role.active[m.serial].broadcast && (IsBackdown(n.log, f.log, m) || IsBlock(n.log, f.log, m))))
  }

  ghost predicate Sole(s: set<Message>, m: Message) { s == {m} }

  ghost function Only(s: set<Message>): Option<Message>
  {
    if m :| Sole(s, m) then Some(m) else None
  }

  /** The follower handles the message, the leader handles the reply. */
  ghost function Round(c: Config, t: Talk): Talk
    requires t.leader.role.Leader? && t.msg.Some? && t.msg.value.AppendEntries?
  {
    var heard := FollowerOnAppendEntries(t.follower, t.msg.value);
    var r := Only(heard.sent);
    if r.None? || !r.value.AppendResponse? then Talk(t.leader, heard.node, None)
    else
      var next := OnAppendResponse(c, t.leader, r.value);
      Talk(next.node, heard.node, Only(next.sent))
  }

  /** Falls with every round: prevLogIndex plus the follower's last index while backing down, what the follower lacks
      while catching up. */
  ghost function Budget(t: Talk): nat
    requires OnTrack(t)
  {
    var l, f, m := t.leader.log, t.follower.log, t.msg.value;
    if IsHeartbeat(l, m) then 2 * |l| + |f| + 2
    else if IsCatchup(l, f, m) then |l| - |f|
    else m.prevLogIndex + |f| + |l| + 1
  }

  // -------------------------------------------------------------- the follower's side

  lemma InsertSlice(f: seq<LogRec>, l: seq<LogRec>, k: nat)
    requires |f| <= k <= |l| && f == l[..|f|] && Indexed(l)
    ensures InsertAll(f, l[|f|..k]) == Scan(l[..k], false)
    decreases k - |f|
  {
    var es := l[|f|..k];
    if |f| < k {
      assert es[0] == l[|f|] && es[1..] == l[|f| + 1..k];
      var f' := f + [es[0]];
      assert f' == l[..|f| + 1];
      InsertSlice(f', l, k);
    }
  }

  /** What the reply says, and the log it leaves, for each kind of message. */
  ghost predicate Answers(c: Config, t: Talk, log: seq<LogRec>, success: bool)
    requires OnTrack(t)
  {
    var heard := FollowerOnAppendEntries(t.follower, t.msg.value);
    && heard.node == t.follower.(log := log, commit := heard.node.commit, applied := heard.node.applied,
                                 executed := heard.node.executed)
    && heard.sent == {AppendResponse(t.follower.me, t.leader.me, t.follower.term, success, |log|,
                                     t.msg.value.prevLogIndex, t.msg.value.serial)}
  }

  lemma HeartbeatAnswer(c: Config, t: Talk) returns (log: seq<LogRec>, success: bool)
    requires OnTrack(t) && IsHeartbeat(t.leader.log, t.msg.value)
    ensures Answers(c, t, log, success)
    ensures success ==> log == t.follower.log && |t.leader.log| <= |log| && Agree(t.leader.log, log, |t.leader.log|)
    ensures !success ==> log == t.follower.log[..|log|] && |log| <= |t.follower.log| && |log| <= |t.leader.log|
    ensures !success && |log| == |t.leader.log| ==> LastTerm(log) != LastTerm(t.leader.log)
  {
    var l, f := t.leader.log, t.follower.log;
    var p := |l|;
    if |f| > p && f[p - 1].term != l[p - 1].term {
      log, success := f[..p - 1], false;
    } else if |f| >= p && f[p - 1].term == l[p - 1].term {
      assert Agree(l, f, p);
      log, success := f, true;
    } else {
      log, success := f, false;
    }
  }

  lemma StoreAnswer(n: Node, m: Message, log: seq<LogRec>)
    requires m.AppendEntries? && InsertAll(n.log, m.entries) == Scan(log, false)
    ensures var out := StoreAndCommit(n, m);
            && out.node == n.(log := log, commit := out.node.commit, applied := out.node.applied,
                              executed := out.node.executed)
            && out.sent == {AppendResponse(n.me, m.sender, n.term, true, |log|, m.prevLogIndex, m.serial)}
  {
  }

  /** The record before the one sent matches: the follower ends with the leader's records up to the one sent. */
  lemma BackdownFits(c: Config, t: Talk)
    requires OnTrack(t) && IsBackdown(t.leader.log, t.follower.log, t.msg.value)
    requires var p := t.msg.value.prevLogIndex;
             p == 0 || (|t.follower.log| >= p && TermAt(t.follower.log, p) == TermAt(t.leader.log, p))
    ensures Answers(c, t, t.leader.log[..t.msg.value.prevLogIndex + 1], true)
  {
    var l, f, m := t.leader.log, t.follower.log, t.msg.value;
    var p := m.prevLogIndex;
    var kept := if p == 0 then [] else f[..p];
    assert p > 0 ==> Agree(l, f, p);
    assert kept == l[..p];
    assert l[p..p + 1] == [l[p]];
    InsertSlice(kept, l, p + 1);
    var n := WithLog(t.follower, p, kept);
    StoreAnswer(n, m, l[..p + 1]);
    if |f| == p {
      assert f == kept;
      StoreAnswer(t.follower, m, l[..p + 1]);
    } else {
      assert p > 0 ==> DropConflicts(f, m.entries) == Scan(kept, false) by {
        assert [l[p]][1..] == [] && DropConflicts(kept, []) == Scan(kept, false);
      }
      assert FollowerOnAppendEntries(t.follower, m) == StoreAndCommit(n, m);
    }
  }

  /** A backdown message that fits leaves exactly the leader's records up to the one sent. */
  lemma BackdownAnswer(c: Config, t: Talk) returns (log: seq<LogRec>, success: bool)
    requires OnTrack(t) && IsBackdown(t.leader.log, t.follower.log, t.msg.value)
    ensures Answers(c, t, log, success)
    ensures success ==> log == t.leader.log[..t.msg.value.prevLogIndex + 1]
    ensures !success ==>
              log == t.follower.log[..|log|] && |log| <= |t.follower.log| && |log| <= t.msg.value.prevLogIndex
    ensures !success ==> t.msg.value.prevLogIndex > 0
    ensures !success && |log| == t.msg.value.prevLogIndex ==> LastTerm(log) != TermAt(t.leader.log, |log|)
  {
    var l, f, p := t.leader.log, t.follower.log, t.msg.value.prevLogIndex;
    if p == 0 || (|f| >= p && TermAt(f, p) == TermAt(l, p)) {
      BackdownFits(c, t);
      log, success := l[..p + 1], true;
    } else {
      log, success := if |f| > p then f[..p - 1] else f, false;
    }
  }

  lemma CatchupAnswer(c: Config, t: Talk) returns (log: seq<LogRec>)
    requires OnTrack(t) && IsCatchup(t.leader.log, t.follower.log, t.msg.value)
    ensures Answers(c, t, log, true) && log == t.leader.log[..t.msg.value.prevLogIndex + |t.msg.value.entries|]
  {
    var l, f, m := t.leader.log, t.follower.log, t.msg.value;
    InsertSlice(f, l, |f| + |m.entries|);
    assert |f| > 0 ==> LastTerm(f) == TermAt(l, |f|);
    log := l[..|f| + |m.entries|];
  }

  /** A block that follows a differing record is refused. */
  lemma BlockRefused(c: Config, t: Talk)
    requires OnTrack(t) && IsBlock(t.leader.log, t.follower.log, t.msg.value)
    requires !IsCatchup(t.leader.log, t.follower.log, t.msg.value)
    ensures Answers(c, t, t.follower.log, false) && t.msg.value.prevLogIndex > 0
    ensures LastTerm(t.follower.log) != TermAt(t.leader.log, |t.follower.log|)
  {
    var l, f := t.leader.log, t.follower.log;
    if |f| == 0 || l[|f| - 1].term == f[|f| - 1].term {
      MatchedIsPrefix(l, f);
    }
  }

  lemma MatchedIsPrefix(l: seq<LogRec>, f: seq<LogRec>)
    requires Matching(l, f) && |f| <= |l| && (|f| == 0 || l[|f| - 1].term == f[|f| - 1].term)
    ensures f == l[..|f|]
  {
    assert |f| > 0 ==> Agree(l, f, |f|);
  }

  lemma FromThisLeader(t: Talk)
    requires OnTrack(t)
    ensures FromLeader(t.follower, t.msg.value, t.leader.log)
  {
    var l, f, m := t.leader.log, t.follower.log, t.msg.value;
    forall i: nat {:trigger Agree(f, l, i)} | 1 <= i <= |f| && i <= |l| && f[i - 1].term == l[i - 1].term
      ensures Agree(f, l, i)
    {
      assert Agree(l, f, i);
    }
    assert IsBackdown(l, f, m) ==> l[m.prevLogIndex..m.prevLogIndex + 1] == [l[m.prevLogIndex]];
    assert m.prevLogIndex == |l| ==> l[|l|..] == [];
  }

  /** Following the leader's commit index within what is shared keeps the follower sound. */
  lemma FinishSound(l: seq<LogRec>, n: Node, m: Message)
    requires m.AppendEntries? && Sound(l, n) && Agree(n.log, l, Min(m.commitIndex, |n.log|))
    ensures Sound(l, Finish(n, m).node) && Finish(n, m).node.log == n.log
  {
    var upto := Min(m.commitIndex, |n.log|);
    var n1 := if n.commit < m.commitIndex then n.(commit := Max(n.commit, upto)) else n;
    if n.applied <= upto {
      FollowerApplyExact(n1, upto);
    } else {
      FollowerApplyNothing(n1, upto);
    }
  }

  lemma MergedSound(l: seq<LogRec>, n: Node, log: seq<LogRec>)
    requires Sound(l, n) && Merged(n.log, log, l)
    ensures Sound(l, n.(log := log))
  {
    assert Agree(n.log, log, n.commit);
    assert n.log[..n.applied] == log[..n.applied];
  }

  /** Whatever it answers, the follower stays sound; when it says yes it has caught up with the leader's commit index as
      far as its log goes. */
  lemma HeardSound(c: Config, t: Talk, log: seq<LogRec>, success: bool)
    requires OnTrack(t) && Answers(c, t, log, success)
    requires success ==> Agree(log, t.leader.log, Min(|log|, |t.leader.log|))
    ensures var f := FollowerOnAppendEntries(t.follower, t.msg.value).node;
            Sound(t.leader.log, f) && (success ==> f.commit >= Min(t.leader.commit, |log|))
  {
    var m, l, heard := t.msg.value, t.leader.log, FollowerOnAppendEntries(t.follower, t.msg.value);
    FromThisLeader(t);
    var v := AppendVerdict(t.follower, m, l);
    MergedSound(l, t.follower, v.log);
    var said := AppendResponse(t.follower.me, t.leader.me, t.follower.term, success, |log|, m.prevLogIndex, m.serial);
    assert said in heard.sent;
    if v.Accepted? {
      assert Reply(t.follower.(log := v.log), m, true) in heard.sent;
      assert success && v.log == log;
      FinishSound(l, t.follower.(log := v.log), m);
    }
    if success {
      FollowerYesFollowsCommit(t.follower, m);
    }
  }

  // -------------------------------------------------------------- the leader's side

  ghost predicate SendsNext(n: Node, out: Out, m: Message)
  {
    && out.sent == {m} && m.AppendEntries? && out.node.role.Leader? && out.node.log == n.log
    && out.node.term == n.term == m.term && out.node.commit == n.commit == m.commitIndex
    && out.node.me == n.me == m.sender && Tracked(out.node, m.receiver, m) && !out.node.role.active[m.serial].broadcast
    && m.prevLogIndex <= |n.log| && m.prevLogTerm == TermAt(n.log, m.prevLogIndex)
  }

  lemma SendOneNext(n: Node, uri: Uri, prev: nat, entries: seq<LogRec>)
    requires n.role.Leader? && prev <= |n.log|
    ensures SendsNext(n, SendOne(n, uri, prev, TermAt(n.log, prev), entries),
                      EntriesMessage(n, uri, n.nextSerial, prev, TermAt(n.log, prev), entries))
  {
  }

  /** A refusal is answered with the single record chosen from it. */
  lemma LeaderBacksDown(c: Config, n: Node, m: Message, r: Message) returns (m': Message)
    requires n.role.Leader? && m.AppendEntries? && r.AppendResponse? && Tracked(n, r.sender, m) &&
             r.originalSerial == m.serial
    requires !r.success && (m.entries == [] || !n.role.active[m.serial].broadcast)
    requires 1 <= BackdownIndex(r.maxIndex, r.prevLogIndex) <= |n.log|
    ensures SendsNext(n, OnAppendResponse(c, n, r), m') && m'.receiver == r.sender
    ensures m'.prevLogIndex == (if r.maxIndex < r.prevLogIndex then r.maxIndex else r.prevLogIndex - 1)
    ensures m'.entries == [n.log[m'.prevLogIndex]]
  {
    var i := BackdownIndex(r.maxIndex, r.prevLogIndex);
    var n1 := n.(matchIndex := n.matchIndex[r.sender := r.maxIndex],
                 role := n.role.(active := n.role.active - {m.serial}));
    assert OnAppendResponse(c, n, r) == SendBackdown(c, n1, r);
    var n2 := if i < n1.commit then EnsureTallies(c, n1, {i}) else n1;
    SendOneNext(n2, r.sender, i - 1, [n.log[i - 1]]);
    m' := EntriesMessage(n2, r.sender, n2.nextSerial, i - 1, TermAt(n.log, i - 1), [n.log[i - 1]]);
  }

  /** A success short of the end is answered with the next block, which is never empty. */
  lemma LeaderCatchesUp(c: Config, n: Node, m: Message, r: Message) returns (m': Message)
    requires n.role.Leader? && m.AppendEntries? && r.AppendResponse? && Tracked(n, r.sender, m) &&
             r.originalSerial == m.serial
    requires r.success && !n.role.active[m.serial].broadcast && r.maxIndex < |n.log|
    ensures SendsNext(n, OnAppendResponse(c, n, r), m') && m'.receiver == r.sender
    ensures m'.prevLogIndex == r.maxIndex && m'.entries != [] && r.maxIndex + |m'.entries| <= |n.log|
    ensures m'.entries == n.log[r.maxIndex..r.maxIndex + |m'.entries|]
  {
    var k := r.maxIndex;
    var block := CatchupBlock(c, n.log, k + 1);
    BlockIsSlice(n.log, k + 1, CatchupEnd(c, |n.log|, k + 1), false);
    var n1 := n.(matchIndex := n.matchIndex[r.sender := k], role := n.role.(active := n.role.active - {m.serial}));
    assert OnAppendResponse(c, n, r) == SendCatchup(c, n1, r);
    var n2 := EnsureTallies(c, n1, OpenIndexes(k + 1, |block|, n.commit));
    SendOneNext(n2, r.sender, k, block);
    m' := EntriesMessage(n2, r.sender, n2.nextSerial, k, TermAt(n.log, k), block);
  }

  // -------------------------------------------------------------- one round

  lemma OnlySole(m: Message)
    ensures Only({m}) == Some(m)
  {
    assert Sole({m}, m);
  }

  lemma OnlyNone()
    ensures Only({}) == None
  {
    assert forall m :: Sole({}, m) ==> m in {};
  }

  /** The follower has the leader's log, has committed what the leader has, and is sound. */
  ghost predicate CaughtUp(n: Node, f: Node)
  {
    Agree(n.log, f.log, |n.log|) && n.commit <= f.commit && Sound(n.log, f)
  }

  /** Over, with the follower caught up; or still on track, closer to the end. */
  ghost predicate Advances(c: Config, t: Talk)
    requires OnTrack(t)
  {
    var t' := Round(c, t);
    && t'.leader.role.Leader? && t'.leader.log == t.leader.log && t'.leader.commit == t.leader.commit
    && if t'.msg.None? then CaughtUp(t.leader, t'.follower)
       else OnTrack(t') && Budget(t') < Budget(t)
  }

  lemma PrefixMatching(l: seq<LogRec>, f: seq<LogRec>, f': seq<LogRec>)
    requires Matching(l, f) && |f'| <= |f| && f' == f[..|f'|]
    ensures Matching(l, f')
  {
    forall i: nat {:trigger Agree(l, f', i)} | 1 <= i <= |l| && i <= |f'| && l[i - 1].term == f'[i - 1].term
      ensures Agree(l, f', i)
    {
      assert Agree(l, f, i);
    }
  }

  lemma RefusalAdvances(c: Config, t: Talk, log: seq<LogRec>)
    requires OnTrack(t) && Answers(c, t, log, false)
    requires |log| <= |t.follower.log| && log == t.follower.log[..|log|] && |log| <= t.msg.value.prevLogIndex
    requires t.msg.value.prevLogIndex > 0 && !IsCatchup(t.leader.log, t.follower.log, t.msg.value)
    requires |log| == t.msg.value.prevLogIndex ==> LastTerm(log) != TermAt(t.leader.log, |log|)
    ensures Advances(c, t)
  {
    var n, m := t.leader, t.msg.value;
    var heard := FollowerOnAppendEntries(t.follower, m);
    var r := AppendResponse(t.follower.me, n.me, t.follower.term, false, |log|, m.prevLogIndex, m.serial);
    OnlySole(r);
    var m' := LeaderBacksDown(c, n, m, r);
    OnlySole(m');
    PrefixMatching(n.log, t.follower.log, log);
    HeardSound(c, t, log, false);
    var t' := Round(c, t);
    assert t' == Talk(OnAppendResponse(c, n, r).node, heard.node, Some(m'));
    assert IsBackdown(n.log, log, m');
  }

  /** A success of a backdown or catch-up message: the follower has a prefix of the leader's log. */
  lemma SuccessAdvances(c: Config, t: Talk, k: nat)
    requires OnTrack(t) && !IsHeartbeat(t.leader.log, t.msg.value)
    requires t.msg.value.prevLogIndex < k <= |t.leader.log| && Answers(c, t, t.leader.log[..k], true)
    requires IsCatchup(t.leader.log, t.follower.log, t.msg.value) ==> k > |t.follower.log|
    ensures Advances(c, t)
  {
    var n, m := t.leader, t.msg.value;
    var r := AppendResponse(t.follower.me, n.me, t.follower.term, true, k, m.prevLogIndex, m.serial);
    OnlySole(r);
    HeardSound(c, t, n.log[..k], true);
    if k == |n.log| {
      OnlyNone();
    } else {
      var m' := LeaderCatchesUp(c, n, m, r);
      OnlySole(m');
      var t' := Round(c, t);
      assert t' == Talk(OnAppendResponse(c, n, r).node, FollowerOnAppendEntries(t.follower, m).node, Some(m'));
      assert IsCatchup(n.log, n.log[..k], m');
    }
  }

  /** A heartbeat that fits ends the conversation at once. */
  lemma HeartbeatEnds(c: Config, t: Talk)
    requires OnTrack(t) && IsHeartbeat(t.leader.log, t.msg.value) && Answers(c, t, t.follower.log, true)
    requires |t.leader.log| <= |t.follower.log| && Agree(t.leader.log, t.follower.log, |t.leader.log|)
    ensures Advances(c, t)
  {
    var n, m := t.leader, t.msg.value;
    var r := AppendResponse(t.follower.me, n.me, t.follower.term, true, |t.follower.log|, m.prevLogIndex, m.serial);
    OnlySole(r);
    OnlyNone();
    HeardSound(c, t, t.follower.log, true);
    var out := OnAppendResponse(c, n, r);
    assert out.sent == {} && out.node.role.Leader? && out.node.log == n.log && out.node.commit == n.commit;
  }

  lemma RoundAdvances(c: Config, t: Talk)
    requires OnTrack(t)
    ensures Advances(c, t)
  {
    var l, f, m := t.leader.log, t.follower.log, t.msg.value;
    if IsHeartbeat(l, m) {
      var log, success := HeartbeatAnswer(c, t);
      if success {
        HeartbeatEnds(c, t);
      } else {
        RefusalAdvances(c, t, log);
      }
    } else if IsCatchup(l, f, m) {
      var log := CatchupAnswer(c, t);
      SuccessAdvances(c, t, m.prevLogIndex + |m.entries|);
    } else if IsBlock(l, f, m) {
      BlockRefused(c, t);
      RefusalAdvances(c, t, f);
    } else {
      var log, success := BackdownAnswer(c, t);
      if success {
        SuccessAdvances(c, t, m.prevLogIndex + 1);
      } else {
        RefusalAdvances(c, t, log);
      }
    }
  }

  /** At most `k` rounds, fewer when the conversation ends earlier. */
  ghost function Rounds(c: Config, t: Talk, k: nat): Talk
    decreases k
  {
    if k == 0 || !t.leader.role.Leader? || t.msg.None? || !t.msg.value.AppendEntries? then t
    else Rounds(c, Round(c, t), k - 1)
  }

  /** The conversation is over: the leader is as it was, its log is a prefix of the follower's, and the follower has
      committed what the leader has and executed at least the client commands among it. */
  ghost predicate InSync(t: Talk, n: Node)
  {
    && t.msg.None? && t.leader.log == n.log && t.leader.commit == n.commit <= |n.log|
    && Agree(n.log, t.follower.log, |n.log|) && n.commit <= t.follower.commit
    && Commands(n.log[..n.commit]) <= t.follower.executed
  }

  lemma CaughtUpExecuted(n: Node, f: Node)
    requires CaughtUp(n, f) && n.commit <= |n.log|
    ensures Commands(n.log[..n.commit]) <= f.executed
  {
    CommandsSkip(f.log, f.applied, f.commit);
    CommandsAgree(n.log, f.log, n.commit);
    assert f.log[..f.commit][..n.commit] == f.log[..n.commit];
    CommandsOfExtension(f.log[..f.commit], n.commit);
  }

  lemma RoundsStep(c: Config, t: Talk, k: nat)
    requires OnTrack(t)
    ensures Rounds(c, t, k + 1) == Rounds(c, Round(c, t), k)
  {
  }

  /** One round: over, or still on track with a smaller budget. */
  lemma OneRound(c: Config, t: Talk) returns (t': Talk)
    requires OnTrack(t)
    ensures t' == Round(c, t)
    ensures t'.msg.None? ==> InSync(t', t.leader)
    ensures t'.msg.Some? ==> OnTrack(t') && Budget(t') < Budget(t)
    ensures t'.leader.log == t.leader.log && t'.leader.commit == t.leader.commit
  {
    RoundAdvances(c, t);
    t' := Round(c, t);
    if t'.msg.None? {
      CaughtUpExecuted(t.leader, t'.follower);
    }
  }

  /** Within its budget of rounds every such conversation brings logs, commit indexes and state machines into sync. */
  lemma {:induction false} ResyncConverges(c: Config, t: Talk) returns (k: nat, end: Talk)
    requires OnTrack(t)
    ensures k <= Budget(t) + 1 && end == Rounds(c, t, k) && InSync(end, t.leader)
    decreases Budget(t)
  {
    var t' := OneRound(c, t);
    k, end := 0, t';
    if t'.msg.Some? {
      k, end := ResyncConverges(c, t');
    }
    RoundsStep(c, t, k);
    k := k + 1;
  }

  /** A heartbeat, to everybody or to this follower alone, starts such a conversation. */
  lemma HeartbeatStarts(c: Config, n: Node, f: Node, target: Option<Uri>) returns (m: Message)
    requires n.role.Leader? && f.role.Follower? && n.term == f.term && n.log != [] && Indexed(n.log) &&
             Matching(n.log, f.log)
    requires Sound(n.log, f) && n.commit <= |n.log|
    requires f.me in c.voters && f.me != n.me && (target == None || target == Some(f.me))
    ensures m in SendHeartbeats(c, n, target).sent && m.receiver == f.me
    ensures OnTrack(Talk(SendHeartbeats(c, n, target).node, f, Some(m)))
  {
    if target == None {
      var j :| 0 <= j < |c.voters| && c.voters[j] == f.me;
      var trackers := TrackersTo(c, n, |n.log|, LastTerm(n.log), [], |c.voters|);
      assert IsSlot(c, n.nextSerial, n.me, n.nextSerial + j);
      assert n.nextSerial + j in trackers;
      m := trackers[n.nextSerial + j].message;
      assert m in MessagesOf(trackers);
    } else {
      m := EntriesMessage(n, f.me, n.nextSerial, |n.log|, LastTerm(n.log), []);
    }
  }

  /** Serial `s` is an unanswered message to `uri` with a record beyond `index`. */
  ghost predicate UnderWay(n: Node, uri: Uri, index: nat, s: nat)
    requires n.role.Leader?
  {
    && s in n.role.active && n.role.active[s].uri == uri && n.role.active[s].message.AppendEntries?
    && exists e :: e in n.role.active[s].message.entries && e.index > index
  }

  /** A reply to a broadcast record, from a follower that is behind, starts such a conversation exactly when nothing
      that would take the follower further is still under way to it. */
  lemma BroadcastReplyStarts(c: Config, n: Node, f: Node, m: Message, r: Message)
    requires n.role.Leader? && f.role.Follower? && n.term == f.term && n.log != [] && Indexed(n.log)
    requires Matching(n.log, f.log) && Sound(n.log, f) && n.commit <= |n.log|
    requires m.AppendEntries? && Tracked(n, f.me, m) && n.role.active[m.serial].broadcast && m.entries != []
    requires r.AppendResponse? && r.sender == f.me && r.originalSerial == m.serial
    requires r.maxIndex == |f.log| < |n.log|
    ensures var out := OnAppendResponse(c, n, r);
            if exists s :: UnderWay(n, f.me, r.maxIndex, s) && s != m.serial then out.sent == {}
            else exists m' :: out.sent == {m'} && OnTrack(Talk(out.node, f, Some(m')))
  {
    var n1 := n.(matchIndex := n.matchIndex[r.sender := r.maxIndex],
                 role := n.role.(active := n.role.active - {m.serial}));
    var i := m.entries[0].index;
    var n2 := if i <= |n.log| then AssessLogVote(c, n1, i, r) else n1;
    assert n2.role.Leader? && n2.role.active == n1.role.active && n2.log == n.log && n2.term == n.term;
    assert n2.me == n.me && n2.commit <= |n.log|;
    if s :| UnderWay(n, f.me, r.maxIndex, s) && s != m.serial {
      assert s in n2.role.active && InFlightBeyond(n2, r.sender, r.maxIndex);
    } else {
      if InFlightBeyond(n2, r.sender, r.maxIndex) {
        var s :| s in n2.role.active && n2.role.active[s].uri == r.sender && n2.role.active[s].message.AppendEntries? &&
          exists e :: e in n2.role.active[s].message.entries && e.index > r.maxIndex;
        assert UnderWay(n, f.me, r.maxIndex, s);
      }
      CatchupSent(c, n2, f, r);
    }
  }

  lemma CatchupSent(c: Config, n: Node, f: Node, r: Message)
    requires n.role.Leader? && f.role.Follower? && n.term == f.term && n.log != [] && Indexed(n.log)
    requires Matching(n.log, f.log) && Sound(n.log, f) && n.commit <= |n.log|
    requires r.AppendResponse? && r.sender == f.me && r.maxIndex == |f.log| < |n.log|
    ensures var out := SendCatchup(c, n, r); exists m' :: out.sent == {m'} && OnTrack(Talk(out.node, f, Some(m')))
  {
    var k := r.maxIndex;
    var block := CatchupBlock(c, n.log, k + 1);
    BlockIsSlice(n.log, k + 1, CatchupEnd(c, |n.log|, k + 1), false);
    var n2 := EnsureTallies(c, n, OpenIndexes(k + 1, |block|, n.commit));
    SendOneNext(n2, r.sender, k, block);
    var m' := EntriesMessage(n2, r.sender, n2.nextSerial, k, TermAt(n.log, k), block);
    assert SendCatchup(c, n, r).sent == {m'} && OnTrack(Talk(SendCatchup(c, n, r).node, f, Some(m')));
  }
}

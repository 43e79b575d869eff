/** Commit and applied indexes never fall and executed commands are never taken back. */
module Progress {
  import opened RaftTypes
  import opened Handlers
  import opened Ledger
  import opened Cluster
  import opened Network
  import opened ElectionSteps
  import opened FollowerSteps
  import opened Safety
  import opened Answering

  ghost predicate Advances(n: Node, n': Node)
  {
    n.term <= n'.term && n.commit <= n'.commit && n.applied <= n'.applied && n.executed <= n'.executed
  }

  lemma {:induction false} FollowerApplyAdvances(n: Node, cur: nat, upto: nat)
    requires 1 <= cur && upto <= |n.log|
    ensures Advances(n, FollowerApply(n, cur, upto))
    decreases upto + 1 - cur
  {
    if cur <= upto {
      var rec := n.log[cur - 1];
      var executed := if rec.code == ClientCommand then n.executed + [rec] else n.executed;
      FollowerApplyAdvances(n.(executed := executed, applied := Max(n.applied, cur)), cur + 1, upto);
    }
  }

  lemma {:induction false} LeaderApplyAdvances(n: Node, cur: nat, upto: nat)
    requires 1 <= cur && upto <= |n.log|
    ensures Advances(n, LeaderApply(n, cur, upto))
    decreases upto + 1 - cur
  {
    if cur <= upto {
      var rec := n.log[cur - 1];
      var n1 := match rec.code
        case ClientCommand => n.(executed := n.executed + [rec], applied := Max(n.applied, cur))
        case ClusterConfig => n.(applied := Max(n.applied, cur))
        case TermStart => n;
      LeaderApplyAdvances(n1, cur + 1, upto);
    }
  }

  lemma FinishAdvances(n: Node, m: Message)
    requires m.AppendEntries?
    ensures Advances(n, Finish(n, m).node)
  {
    var upto := Min(m.commitIndex, |n.log|);
    var n1 := if n.commit < m.commitIndex then n.(commit := Max(n.commit, upto)) else n;
    FollowerApplyAdvances(n1, n.applied + 1, upto);
  }

  lemma FollowerAdvances(c: Config, s: System, h: History, m: Message)
    requires Inv(c, s, h) && m in s.net && m.AppendEntries? && m.receiver in s.nodes
    requires var n := s.nodes[m.receiver]; n.role.Follower? && m.term <= n.term && JunkIsJunk(n, m)
    ensures Advances(s.nodes[m.receiver], FollowerOnAppendEntries(s.nodes[m.receiver], m).node)
  {
    var n := s.nodes[m.receiver];
    if m.term == n.term {
      FromLeaderHolds(c, s, h, m);
      var v := AppendVerdict(n, m, h.elections[m.term].log);
      FinishAdvances(n.(log := v.log), m);
    }
  }

  lemma ReplyAdvances(c: Config, n: Node, r: Message)
    requires n.role.Leader? && r.AppendResponse?
    ensures Advances(n, OnAppendResponse(c, n, r).node)
  {
    if r.originalSerial in n.role.active {
      var t := n.role.active[r.originalSerial];
      if Votes(t) && VoteIndex(t) <= |n.log| {
        var n1 := n.(matchIndex := n.matchIndex[r.sender := r.maxIndex],
                     role := n.role.(active := n.role.active - {r.originalSerial}));
        AssessAdvances(c, n1, VoteIndex(t), r);
      }
    }
  }

  lemma ReadyAdvances(n: Node, index: nat)
    requires index <= |n.log|
    ensures Advances(n, ProcessReady(n, index))
  {
    var n1 := n.(commit := Max(n.commit, index));
    if index > n.applied {
      LeaderApplyAdvances(n1, n.applied + 1, index);
    }
  }

  lemma AssessAdvances(c: Config, n: Node, index: nat, r: Message)
    requires n.role.Leader? && r.AppendResponse? && index <= |n.log|
    ensures Advances(n, AssessLogVote(c, n, index, r))
  {
    if index in n.role.tallies {
      ReadyAdvances(n.(role := n.role.(tallies := TalliesAfter(c, n, index, r))), index);
    }
  }

  lemma DeliverAdvances(c: Config, s: System, h: History, m: Message)
    requires Inv(c, s, h) && m in s.net && m.receiver in s.nodes && Hypotheses(s, Deliver(m))
    ensures Advances(s.nodes[m.receiver], OnMessage(c, s.nodes[m.receiver], m).node)
  {
    var u, n1 := m.receiver, Expire(s.nodes[m.receiver], m.term);
    var s1 := After(s, u, Out(n1, {}));
    ExpireInv(c, s, h, u, m.term);
    if m.AppendEntries? {
      if n1.role.Follower? {
        FollowerAdvances(c, s1, h, m);
      } else if n1.role.Candidate? && m.term == n1.term {
        DemoteInv(c, s1, h, u);
        FollowerAdvances(c, After(s1, u, Out(Demote(n1), {})), h, m);
      }
    } else if m.AppendResponse? && n1.role.Leader? {
      ReplyAdvances(c, n1, m);
    }
  }

  lemma NextAdvances(c: Config, s: System, h: History, step: Step, s': System, u: Uri)
    requires Inv(c, s, h) && Next(c, s, step, s') && Hypotheses(s, step) && u in s.nodes
    ensures u in s'.nodes && Advances(s.nodes[u], s'.nodes[u])
  {
    if step.Deliver? { DeliverAdvances(c, s, h, step.m); }
  }

  /** Over a run, every node's term, commit and applied index only rise, its executed commands only grow, and its
      committed records stay in place. */
  lemma {:induction false} ProgressIsPermanent(c: Config, run: seq<System>, steps: seq<Step>, i: nat, j: nat, u: Uri)
    requires IsCarefulRun(c, run, steps) && i <= j && At(run, i, u) && j < |run|
    ensures At(run, j, u) && Advances(run[i].nodes[u], run[j].nodes[u])
    ensures Agree(run[i].nodes[u].log, run[j].nodes[u].log, run[i].nodes[u].commit)
    decreases j - i
  {
    if i < j {
      assert IsCarefulRun(c, run[..i + 1], steps[..i]);
      var h := RunHistory(c, run[..i + 1], steps[..i]);
      NextAdvances(c, run[i], h, steps[i], run[i + 1], u);
      ProgressIsPermanent(c, run, steps, i + 1, j, u);
    }
    CommittedAgree(c, run, steps, i, u, j, u);
    ExactlyOnceApply(c, run, steps, i, u);
  }

  /** Whenever a node says yes to an append_entries, it has then committed everything the leader says is committed, as
      far as its own log goes, and executed exactly the client commands among what it has committed. */
  lemma YesIsExecuted(c: Config, run: seq<System>, steps: seq<Step>, i: nat)
    requires IsCarefulRun(c, run, steps) && i < |steps| && steps[i].Deliver? && steps[i].m.AppendEntries?
    requires var m := steps[i].m;
             At(run, i, m.receiver) && SaysYes(OnMessage(c, run[i].nodes[m.receiver], m).sent)
    ensures var m := steps[i].m;
            && At(run, i + 1, m.receiver)
            && var n := run[i + 1].nodes[m.receiver];
               Min(m.commitIndex, |n.log|) <= n.commit <= |n.log| && n.executed == Commands(n.log[..n.commit])
  {
    var m := steps[i].m;
    assert Next(c, run[i], steps[i], run[i + 1]);
    YesFollowsCommit(c, run[i].nodes[m.receiver], m);
    ExactlyOnceApply(c, run, steps, i + 1, m.receiver);
  }

  /** Every append_entries under way was sent by a node whose commit index, then, it carries. */
  lemma SentWithCommit(c: Config, run: seq<System>, steps: seq<Step>, i: nat, m: Message)
    requires IsRun(c, run, steps) && i < |steps| && m.AppendEntries? && m in run[i + 1].net && m !in run[i].net
    ensures var u := Actor(steps[i]); At(run, i + 1, u) && m.sender == run[i + 1].nodes[u].me
    ensures m.commitIndex == run[i + 1].nodes[Actor(steps[i])].commit
  {
    var u := Actor(steps[i]);
    assert Next(c, run[i], steps[i], run[i + 1]);
    StepTells(c, run[i].nodes[u], steps[i]);
  }
}

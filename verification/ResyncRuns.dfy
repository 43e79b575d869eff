/** Resynchronisation from every state that a run can reach. */
module ResyncRuns {
  import opened RaftTypes
  import opened Handlers
  import opened Ledger
  import opened Cluster
  import opened Safety
  import Elections
  import Resync

  /** From any reachable state, a heartbeat of a leader to a follower of its term starts a conversation that, left
      undisturbed, ends with the leader's log a prefix of the follower's, the follower's commit index not below the
      leader's, and all client commands that the leader has committed executed at the follower. */
  lemma ReachableResync(c: Config, run: seq<System>, steps: seq<Step>, i: nat, u: Uri, v: Uri, target: Option<Uri>)
    returns (m: Message, k: nat)
    requires IsCarefulRun(c, run, steps) && At(run, i, u) && At(run, i, v) && u != v
    requires run[i].nodes[u].role.Leader? && run[i].nodes[v].role.Follower? &&
             run[i].nodes[u].term == run[i].nodes[v].term
    requires target == None || target == Some(v)
    ensures var out := SendHeartbeats(c, run[i].nodes[u], target);
            && m in out.sent && m.receiver == v
            && Resync.InSync(Resync.Rounds(c, Resync.Talk(out.node, run[i].nodes[v], Some(m)), k), run[i].nodes[u])
  {
    var n, f := run[i].nodes[u], run[i].nodes[v];
    assert IsCarefulRun(c, run[..i + 1], steps[..i]);
    var h := RunHistory(c, run[..i + 1], steps[..i]);
    assert NodeOK(h, u, n) && NodeOK(h, v, f) && ElectionOK(c, run[i].nodes, h, n.term);
    Elections.CarefulIsVoting(c, run, steps);
    forall j: nat {:trigger Agree(n.log, f.log, j)} |
        1 <= j <= |n.log| && j <= |f.log| && n.log[j - 1].term == f.log[j - 1].term
      ensures Agree(n.log, f.log, j)
    {
      Elections.LogMatching(c, run, steps, i, u, i, v, j, n.log[j - 1].term);
    }
    ExactlyOnceApply(c, run, steps, i, u);
    ExactlyOnceApply(c, run, steps, i, v);
    FollowerCommitSoundness(c, run, steps, i, v, i, u);
    m := Resync.HeartbeatStarts(c, n, f, target);
    var end;
    k, end := Resync.ResyncConverges(c, Resync.Talk(SendHeartbeats(c, n, target).node, f, Some(m)));
  }
}

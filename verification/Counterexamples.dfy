/** Runs of three voters that show why the safety theorems carry their two hypotheses. */
module Counterexamples {
  import opened RaftTypes
  import opened Handlers
  import opened Cluster

  const THREE := Config([0, 1, 2], 20)

  /** A run whose steps meet both hypotheses, except the one numbered `flaw`. */
  ghost predicate FlawedRun(run: seq<System>, steps: seq<Step>, flaw: nat)
  {
    IsRun(THREE, run, steps) && forall i :: 0 <= i < |steps| && i != flaw ==> Hypotheses(run[i], steps[i])
  }

  /** The node that handles `m`, past the term gate. */
  ghost function Routed(s: System, m: Message): Node
    requires m.receiver in s.nodes
  {
    Expire(s.nodes[m.receiver], m.term)
  }

  lemma Begin(flaw: nat) returns (s: System)
    ensures FlawedRun([s], [], flaw) && s.nodes == map[0 := InitialNode(0), 1 := InitialNode(1), 2 := InitialNode(2)]
  {
    s := System(map u | u in THREE.voters :: InitialNode(u), {});
  }

  /** One more step of the run. */
  lemma Go(run: seq<System>, steps: seq<Step>, flaw: nat, s: System, step: Step, out: Out)
    returns (run': seq<System>, steps': seq<Step>, s': System)
    requires FlawedRun(run, steps, flaw) && run[|run| - 1] == s
    requires Enabled(s, step) && (|steps| == flaw || Hypotheses(s, step))
    requires Act(THREE, s.nodes[Actor(step)], step) == out
    ensures FlawedRun(run', steps', flaw) && run' == run + [s'] && steps' == steps + [step]
    ensures s' == System(s.nodes[Actor(step) := out.node], s.net + out.sent)
  {
    s' := System(s.nodes[Actor(step) := out.node], s.net + out.sent);
    run', steps' := run + [s'], steps + [step];
  }

  /** A node that stands in term `t`, asked by nobody yet. */
  function Standing(n: Node, t: nat): Node
  {
    n.(role := Candidate(map[0 := if n.me == 0 then Some(true) else None, 1 := if n.me == 1 then Some(true) else None,
                             2 := if n.me == 2 then Some(true) else None]), term := t, votedFor := None)
  }

  /** The request `n` sends to `u` when it stands. */
  function Asked(n: Node, u: Uri): Message
  {
    RequestVote(n.me, u, n.term + 1, |n.log|, LastTerm(n.log))
  }

  lemma Stands(n: Node)
    requires n.me in {0, 1, 2}
    ensures var out := StartCampaign(THREE, n);
            && out.node == Standing(n, n.term + 1)
            && forall u {:trigger Asked(n, u)} :: u in {0, 1, 2} && u != n.me ==> Asked(n, u) in out.sent
  {
    assert BlankVotes(THREE.voters, n.me) == Standing(n, 0).role.votes;
  }

  /** Two of three votes win. */
  lemma Wins(n: Node, t: nat, from: Uri)
    requires n.me in {0, 1, 2} && from in {0, 1, 2} && from != n.me && n == Standing(n, t)
    ensures OnVoteResponse(THREE, n, VoteResponse(from, n.me, t, true)) == WinVote(THREE, n)
    ensures WinVote(THREE, n).node.role.Leader? && WinVote(THREE, n).node.term == t
    ensures WinVote(THREE, n).node.log == n.log + [LogRec(|n.log| + 1, t, TermStart, "")]
  {
    var votes := n.role.votes[from := Some(true)];
    assert votes.Keys == {0, 1, 2} && |votes| == |votes.Keys|;
    assert Ayes(votes) == {n.me, from};
  }

  lemma VoteIsRouted(c: Config, n: Node, m: Message)
    requires n.role.Candidate? && m.VoteResponse? && n.term == m.term
    ensures Act(c, n, Deliver(m)) == OnVoteResponse(c, n, m)
  {
    assert Expire(n, m.term) == n;
    assert Handle(c, n, m) == OnVoteResponse(c, n, m);
  }

  lemma WinsByMessage(n: Node, t: nat, from: Uri)
    requires n.me in {0, 1, 2} && from in {0, 1, 2} && from != n.me && n == Standing(n, t)
    ensures Act(THREE, n, Deliver(VoteResponse(from, n.me, t, true))) == WinVote(THREE, n)
    ensures Expire(n, t) == n && n.role.Candidate?
    ensures var n' := WinVote(THREE, n).node;
            n'.role.Leader? && n'.term == t && n'.me == n.me &&
            n'.log == n.log + [LogRec(|n.log| + 1, t, TermStart, "")]
  {
    Wins(n, t, from);
    VoteIsRouted(THREE, n, VoteResponse(from, n.me, t, true));
  }

  lemma StepStands(run: seq<System>, steps: seq<Step>, flaw: nat, s: System, u: Uri)
    returns (run': seq<System>, steps': seq<Step>, s': System)
    requires FlawedRun(run, steps, flaw) && run[|run| - 1] == s
    requires u in s.nodes && u in {0, 1, 2} && s.nodes[u].me == u && !s.nodes[u].role.Leader?
    ensures FlawedRun(run', steps', flaw) && run' == run + [s'] && steps' == steps + [Timeout(u)]
    ensures s'.nodes == s.nodes[u := Standing(s.nodes[u], s.nodes[u].term + 1)] && s.net <= s'.net
    ensures var n := s.nodes[u];
            forall v {:trigger Asked(n, v)} :: v in {0, 1, 2} && v != u ==> Asked(n, v) in s'.net
  {
    Stands(s.nodes[u]);
    run', steps', s' := Go(run, steps, flaw, s, Timeout(u), StartCampaign(THREE, s.nodes[u]));
  }

  /** A yes from `from` makes a candidate of term `t` its leader. */
  lemma StepWins(run: seq<System>, steps: seq<Step>, flaw: nat, s: System, u: Uri, t: nat, from: Uri)
    returns (run': seq<System>, steps': seq<Step>, s': System)
    requires FlawedRun(run, steps, flaw) && run[|run| - 1] == s
    requires u in s.nodes && u in {0, 1, 2} && from in {0, 1, 2} && from != u && s.nodes[u].me == u
    requires s.nodes[u] == Standing(s.nodes[u], t) && VoteResponse(from, u, t, true) in s.net
    ensures FlawedRun(run', steps', flaw) && run' == run + [s'] &&
            steps' == steps + [Deliver(VoteResponse(from, u, t, true))]
    ensures s'.nodes == s.nodes[u := WinVote(THREE, s.nodes[u]).node] &&
            s'.net == s.net + WinVote(THREE, s.nodes[u]).sent
    ensures s'.nodes[u].role.Leader? && s'.nodes[u].term == t && s'.nodes[u].me == u
    ensures s'.nodes[u].log == s.nodes[u].log + [LogRec(|s.nodes[u].log| + 1, t, TermStart, "")]
  {
    var n := s.nodes[u];
    var out := WinVote(THREE, n);
    WinsByMessage(n, t, from);
    run', steps', s' := Go(run, steps, flaw, s, Deliver(VoteResponse(from, u, t, true)), out);
  }

  /** A vote request is answered, whatever the answer. */
  lemma StepAnswers(run: seq<System>, steps: seq<Step>, flaw: nat, s: System, m: Message, granted: bool)
    returns (run': seq<System>, steps': seq<Step>, s': System)
    requires FlawedRun(run, steps, flaw) && run[|run| - 1] == s
    requires m.RequestVote? && m in s.net && m.receiver in s.nodes && s.nodes[m.receiver].me == m.receiver
    requires var n := Expire(s.nodes[m.receiver], m.term);
             && n.role.Follower? && (|steps| == flaw || m.term == n.term)
             && granted == (n.votedFor.None? && LogAcceptable(n.log, m.prevLogIndex, m.prevLogTerm))
    ensures FlawedRun(run', steps', flaw) && run' == run + [s'] && steps' == steps + [Deliver(m)]
    ensures s.net <= s'.net && VoteResponse(m.receiver, m.sender, m.term, granted) in s'.net
    ensures var n := Expire(s.nodes[m.receiver], m.term);
            s'.nodes == s.nodes[m.receiver := if granted then n.(votedFor := Some(m.sender)) else n]
  {
    run', steps', s' := Go(run, steps, flaw, s, Deliver(m), OnVoteRequest(Expire(s.nodes[m.receiver], m.term), m));
  }

  ghost predicate SameTermLeaders(s: System, u: Uri, s': System, v: Uri)
  {
    && u in s.nodes && v in s'.nodes && u != v
    && s.nodes[u].role.Leader? && s'.nodes[v].role.Leader? && s.nodes[u].term == s'.nodes[v].term
  }

  /** Nodes 0 and 1 stand in term 1; node 2's vote makes node 0 the leader. */
  lemma FirstElection(flaw: nat) returns (run: seq<System>, steps: seq<Step>, s: System)
    requires flaw > 4
    ensures FlawedRun(run, steps, flaw) && |run| == 5 && run[4] == s
    ensures s.nodes.Keys == {0, 1, 2} && RequestVote(1, 2, 1, 0, 0) in s.net
    ensures s.nodes[0].me == 0 && s.nodes[0].role.Leader? && s.nodes[0].term == 1
    ensures s.nodes[0].log == [LogRec(1, 1, TermStart, "")]
    ensures s.nodes[1] == Standing(InitialNode(1), 1)
    ensures s.nodes[2] == InitialNode(2).(term := 1, votedFor := Some(0))
  {
    var s0 := Begin(flaw);
    var r1, t1, s1 := StepStands([s0], [], flaw, s0, 0);
    var r2, t2, s2 := StepStands(r1, t1, flaw, s1, 1);
    assert Asked(InitialNode(0), 2) in s2.net && Asked(InitialNode(1), 2) in s2.net;
    var r3, t3, s3 := StepAnswers(r2, t2, flaw, s2, RequestVote(0, 2, 1, 0, 0), true);
    run, steps, s := StepWins(r3, t3, flaw, s3, 0, 1, 2);
  }

  /** Node 2 stands in term 2, node 0 in term 3, and node 2 notices term 3. */
  lemma MoveOn(run: seq<System>, steps: seq<Step>, s: System)
    returns (run': seq<System>, steps': seq<Step>, s': System)
    requires FlawedRun(run, steps, 8) && |run| == 5 && run[4] == s && s.nodes.Keys == {0, 1, 2}
    requires s.nodes[0].me == 0 && s.nodes[0].term == 1 && s.nodes[0].log == [LogRec(1, 1, TermStart, "")]
    requires s.nodes[2] == InitialNode(2).(term := 1, votedFor := Some(0))
    ensures FlawedRun(run', steps', 8) && |run'| == 9 && run'[8] == s' && run'[4] == s && s.net <= s'.net
    ensures s'.nodes.Keys == {0, 1, 2} && s'.nodes[1] == s.nodes[1]
    ensures s'.nodes[2] == InitialNode(2).(term := 3)
  {
    var r5, t5, s5 := StepStands(run, steps, 8, s, 2);
    assert Asked(s.nodes[2], 0) in s5.net;
    var r6, t6, s6 := StepAnswers(r5, t5, 8, s5, RequestVote(2, 0, 2, 0, 0), false);
    var r7, t7, s7 := StepStands(r6, t6, 8, s6, 0);
    assert Asked(s6.nodes[0], 2) in s7.net;
    run', steps', s' := Go(r7, t7, 8, s7, Notice(RequestVote(0, 2, 3, 1, 1)), Out(Expire(s7.nodes[2], 3), {}));
  }

  /** Without the first hypothesis a term can have two leaders: node 2 votes for node 0 in term 1, moves on to term
      3, and is then handed node 1's request of term 1. Only step 8 breaks a hypothesis, and only the first. */
  lemma StaleVoteRequestElectsTwo() returns (run: seq<System>, steps: seq<Step>)
    ensures FlawedRun(run, steps, 8) && |run| == 11
    ensures SameTermLeaders(run[4], 0, run[10], 1)
    ensures steps[8] == Deliver(RequestVote(1, 2, 1, 0, 0)) && 2 in run[8].nodes
    ensures var m := steps[8].m; !FreshVoteRequest(Routed(run[8], m), m) && JunkIsJunk(Routed(run[8], m), m)
  {
    var r4, t4, s4 := FirstElection(8);
    var r8, t8, s8 := MoveOn(r4, t4, s4);
    var r9, t9, s9 := StepAnswers(r8, t8, 8, s8, RequestVote(1, 2, 1, 0, 0), true);
    var r10, t10, s10 := StepWins(r9, t9, 8, s9, 1, 1, 2);
    run, steps := r10, t10;
  }
}

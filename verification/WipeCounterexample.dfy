/** A run of three voters that shows what elections need of the second hypothesis: an old message empties the log of a
    leader that has stepped down, which then votes once more in the term it won. */
module WipeCounterexample {
  import opened RaftTypes
  import opened Handlers
  import opened Cluster
  import opened Counterexamples
  import opened JunkCounterexample

  /** Node 2's first broadcast, of term 1. */
  function Early(u: Uri): Message { AppendEntries(2, u, 1, u, 0, 0, [R1], 0) }

  const T2 := LogRec(2, 2, TermStart, "")

  lemma Wins2(n: Node)
    requires n == Standing(InitialNode(2), 1)
    ensures var out := WinVote(THREE, n);
            && out.node.me == 2 && out.node.role.Leader? && out.node.term == 1 && out.node.log == [R1]
            && Early(0) in out.sent && Early(1) in out.sent
  {
    var n1 := n.(role := Leader(map[], map[1 := map[2 := true]]), votedFor := None, log := [R1]);
    assert WinVote(THREE, n) == Broadcast(THREE, n1, 0, 0, [R1]);
    BroadcastTo(n1, 0, 0, [R1], 0);
    BroadcastTo(n1, 0, 0, [R1], 1);
  }

  /** Node 2 leads term 1 with record 1. */
  ghost predicate Led(n: Node) { n.me == 2 && n.role.Leader? && n.term == 1 && n.log == [R1] }

  lemma Voted2() returns (run: seq<System>, steps: seq<Step>)
    ensures Trace(run, steps, 2) && run[2].nodes[2] == Standing(InitialNode(2), 1) && Follows(run[2].nodes[0], 0, [])
    ensures run[2].nodes[1] == InitialNode(1) && VoteResponse(0, 2, 1, true) in run[2].net
  {
    var s := Begin(10);
    run, steps, s := StepStands([s], [], 10, s, 2);
    assert Asked(InitialNode(2), 0) in s.net;
    run, steps, s := StepAnswers(run, steps, 10, s, RequestVote(2, 0, 1, 0, 0), true);
  }

  lemma Elected2() returns (run: seq<System>, steps: seq<Step>)
    ensures Trace(run, steps, 3) && Led(run[3].nodes[2]) && Follows(run[3].nodes[0], 0, []) &&
            run[3].nodes[1] == InitialNode(1)
    ensures Early(0) in run[3].net && Early(1) in run[3].net
  {
    run, steps := Voted2();
    var s := run[2];
    Wins2(s.nodes[2]);
    run, steps, s := StepWins(run, steps, 10, s, 2, 1, 0);
  }

  lemma Reached() returns (run: seq<System>, steps: seq<Step>)
    ensures Trace(run, steps, 5) && Led(run[5].nodes[2]) && Follows(run[5].nodes[0], 0, [R1]) &&
            Follows(run[5].nodes[1], 1, [R1])
    ensures Early(0) in run[5].net
  {
    run, steps := Elected2();
    assert [] + [R1] == [R1];
    Stores(run[3].nodes[0], 0, Early(0), [], R1);
    run, steps := Forward(run, steps, 3, Deliver(Early(0)));
    Stores(Expire(InitialNode(1), 1), 1, Early(1), [], R1);
    run, steps := Forward(run, steps, 4, Deliver(Early(1)));
  }

  /** A candidate of term 2 whose log is record 1. */
  ghost predicate Stands2(n: Node, u: Uri) { n.me == u && n.log == [R1] && n == Standing(n, 2) }

  lemma BothStand() returns (run: seq<System>, steps: seq<Step>)
    ensures Trace(run, steps, 7) && Led(run[7].nodes[2]) && Stands2(run[7].nodes[0], 0) && Stands2(run[7].nodes[1], 1)
    ensures Early(0) in run[7].net && RequestVote(0, 2, 2, 1, 1) in run[7].net &&
            RequestVote(1, 0, 2, 1, 1) in run[7].net
  {
    run, steps := Reached();
    var s := run[5];
    var n0, n1 := s.nodes[0], s.nodes[1];
    run, steps, s := StepStands(run, steps, 10, s, 0);
    assert Asked(n0, 2) in s.net;
    run, steps, s := StepStands(run, steps, 10, s, 1);
    assert Asked(n1, 0) in s.net;
  }

  /** Node 0 has won term 2. */
  ghost predicate Won(n: Node) { n.me == 0 && n.role.Leader? && n.term == 2 && n.log == [R1, T2] }

  lemma FirstOfTwo() returns (run: seq<System>, steps: seq<Step>)
    ensures Trace(run, steps, 9) && Won(run[9].nodes[0]) && Stands2(run[9].nodes[1], 1)
    ensures Early(0) in run[9].net && RequestVote(1, 0, 2, 1, 1) in run[9].net
  {
    run, steps := BothStand();
    var s := run[7];
    run, steps, s := StepAnswers(run, steps, 10, s, RequestVote(0, 2, 2, 1, 1), true);
    run, steps, s := StepWins(run, steps, 10, s, 0, 2, 2);
    assert [R1] + [T2] == [R1, T2];
  }

  lemma Emptied(n: Node)
    requires n.me == 0 && n.role.Follower? && n.votedFor == None && n.term == 2 && n.log == [R1, T2]
    ensures var n' := OnMessage(THREE, n, Early(0)).node;
            n'.me == 0 && n'.role.Follower? && n'.votedFor == None && n'.term == 2 && n'.log == [R1]
    ensures FreshVoteRequest(n, Early(0)) && !KeepsOwnTerm(n, Early(0))
  {
    assert [R1][1..] == [];
    assert InsertAll([], [R1]) == InsertAll([R1], []);
  }

  lemma SteppedDown() returns (run: seq<System>, steps: seq<Step>)
    ensures Trace(run, steps, 11) && steps[10] == Deliver(Early(0)) && 0 in run[9].nodes && Won(run[9].nodes[0]) &&
            0 in run[10].nodes
    ensures var n := Routed(run[10], Early(0)); FreshVoteRequest(n, Early(0)) && !KeepsOwnTerm(n, Early(0))
    ensures var n := run[11].nodes[0];
            n.me == 0 && n.role.Follower? && n.votedFor == None && n.term == 2 && n.log == [R1]
    ensures Stands2(run[11].nodes[1], 1) && RequestVote(1, 0, 2, 1, 1) in run[11].net
  {
    run, steps := FirstOfTwo();
    run, steps := Forward(run, steps, 9, Resign(0));
    Emptied(run[10].nodes[0]);
    run, steps := Forward(run, steps, 10, Deliver(Early(0)));
  }

  /** Without that part of the second hypothesis a term can have two leaders. Only step 10 breaks a hypothesis: it
      hands node 0 a message of term 1 that empties its log of the record that made it leader of term 2. */
  lemma StaleJunkElectsTwo() returns (run: seq<System>, steps: seq<Step>)
    ensures FlawedRun(run, steps, 10) && |run| == 14 && steps[10] == Deliver(Early(0)) && 0 in run[10].nodes
    ensures var n := Routed(run[10], Early(0)); FreshVoteRequest(n, Early(0)) && !KeepsOwnTerm(n, Early(0))
    ensures SameTermLeaders(run[9], 0, run[13], 1)
  {
    run, steps := SteppedDown();
    var s := run[11];
    run, steps, s := StepAnswers(run, steps, 10, s, RequestVote(1, 0, 2, 1, 1), true);
    run, steps, s := StepWins(run, steps, 10, s, 1, 2, 0);
  }
}

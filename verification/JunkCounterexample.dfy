/** A run of three voters that shows why the safety theorems need their second hypothesis: a late message tells a
    follower that its log is junk although it is not, and a committed record is lost. */
module JunkCounterexample {
  import opened RaftTypes
  import opened Handlers
  import opened Cluster
  import opened Counterexamples

  const R1 := LogRec(1, 1, TermStart, "")
  const R2 := LogRec(2, 1, ClientCommand, "x")

  /** Broadcasts of the first two records by node 0, the heartbeat and the refusal between them, and the backdown
      message that the refusal provokes. */
  function First(u: Uri): Message { AppendEntries(0, u, 1, u, 0, 0, [R1], 0) }

  const BEAT := AppendEntries(0, 1, 1, 3, 1, 1, [], 0)
  const NO := AppendResponse(1, 0, 1, false, 0, 1, 3)
  const LATE := AppendEntries(0, 1, 1, 4, 0, 0, [R1], 0)
  const SECOND := AppendEntries(0, 1, 1, 6, 1, 1, [R2], 0)
  const YES := AppendResponse(1, 0, 1, true, 2, 1, 6)

  /** One step; what it does to the acting node and to the net. */
  lemma Move(run: seq<System>, steps: seq<Step>, flaw: nat, step: Step)
    returns (run': seq<System>, steps': seq<Step>, s': System)
    requires |run| == |steps| + 1 && FlawedRun(run, steps, flaw)
    requires Enabled(run[|steps|], step) && (|steps| == flaw || Hypotheses(run[|steps|], step))
    ensures FlawedRun(run', steps', flaw) && run' == run + [s'] && steps' == steps + [step]
    ensures var s := run[|steps|];
            var out := Act(THREE, s.nodes[Actor(step)], step);
            s' == System(s.nodes[Actor(step) := out.node], s.net + out.sent)
  {
    var s := run[|steps|];
    run', steps', s' := Go(run, steps, flaw, s, step, Act(THREE, s.nodes[Actor(step)], step));
  }

  lemma BroadcastTo(n: Node, prev: nat, prevTerm: nat, entries: seq<LogRec>, u: Uri)
    requires n.role.Leader? && n.me in {0, 1, 2} && u in {0, 1, 2} && u != n.me
    ensures var out := Broadcast(THREE, n, prev, prevTerm, entries);
            var s := n.nextSerial + u;
            && EntriesMessage(n, u, s, prev, prevTerm, entries) in out.sent
            && s in out.node.role.active
            && out.node.role.active[s] == Tracker(u, EntriesMessage(n, u, s, prev, prevTerm, entries), true)
            && out.node == n.(role := n.role.(active := out.node.role.active), nextSerial := n.nextSerial + 3)
  {
    var trackers := TrackersTo(THREE, n, prev, prevTerm, entries, 3);
    assert IsSlot(THREE, n.nextSerial, n.me, n.nextSerial + u);
    assert n.nextSerial + u in trackers && trackers[n.nextSerial + u].message in MessagesOf(trackers);
  }

  /** What matters of node 0 while it leads. */
  ghost predicate Leads(n: Node, log: seq<LogRec>, serial: nat)
  {
    n.me == 0 && n.role.Leader? && n.term == 1 && n.log == log && n.commit == 0 && n.applied == 0 &&
    n.nextSerial == serial
  }

  lemma Wins0(n: Node)
    requires n == Standing(InitialNode(0), 1)
    ensures Leads(WinVote(THREE, n).node, [R1], 3) && First(1) in WinVote(THREE, n).sent &&
            First(2) in WinVote(THREE, n).sent
  {
    var n1 := n.(role := Leader(map[], map[1 := map[0 := true]]), votedFor := None, log := [R1]);
    assert WinVote(THREE, n) == Broadcast(THREE, n1, 0, 0, [R1]);
    BroadcastTo(n1, 0, 0, [R1], 1);
    BroadcastTo(n1, 0, 0, [R1], 2);
  }

  lemma Beats0(n: Node)
    requires Leads(n, [R1], 3)
    ensures var out := SendHeartbeats(THREE, n, Some(1));
            Leads(out.node, [R1], 4) && out.sent == {BEAT} && 3 in out.node.role.active &&
            out.node.role.active[3] == Tracker(1, BEAT, false)
  {
  }

  lemma BacksDown0(n: Node)
    requires Leads(n, [R1], 4) && 3 in n.role.active && n.role.active[3] == Tracker(1, BEAT, false)
    ensures var out := OnMessage(THREE, n, NO); Leads(out.node, [R1], 5) && out.sent == {LATE}
  {
  }

  lemma Proposes0(n: Node)
    requires Leads(n, [R1], 5)
    ensures var out := AppendAndBroadcast(THREE, n, ClientCommand, "x");
            && Leads(out.node, [R1, R2], 8) && SECOND in out.sent
            && 6 in out.node.role.active && out.node.role.active[6] == Tracker(1, SECOND, true)
            && 2 in out.node.role.tallies && out.node.role.tallies[2] == map[0 := true]
  {
    var n1 := n.(log := [R1, R2], role := n.role.(tallies := n.role.tallies[2 := map[0 := true]]));
    assert n.log + [R2] == [R1, R2];
    assert AppendAndBroadcast(THREE, n, ClientCommand, "x") == Broadcast(THREE, n1, 1, 1, [R2]);
    BroadcastTo(n1, 1, 1, [R2], 1);
  }

  lemma Commits0(n: Node)
    requires Leads(n, [R1, R2], 8) && 6 in n.role.active && n.role.active[6] == Tracker(1, SECOND, true)
    requires 2 in n.role.tallies && n.role.tallies[2] == map[0 := true]
    ensures var n' := OnMessage(THREE, n, YES).node; n'.term == 1 && n'.log == [R1, R2] && n'.commit == 2 && n'.me == 0
  {
    var n0 := n.(matchIndex := n.matchIndex[1 := 2]);
    var n1 := n0.(role := n0.role.(active := n0.role.active - {6}));
    assert Yes(THREE, Counted(n1, 2, YES)) == {0, 1};
    assert |Yes(THREE, Counted(n1, 2, YES))| == 2;
  }

  ghost predicate Follows(n: Node, u: Uri, log: seq<LogRec>)
  {
    n.me == u && n.role.Follower? && n.term == 1 && n.log == log && n.commit == 0 && n.applied == 0
  }

  lemma Stores(n: Node, u: Uri, m: Message, log: seq<LogRec>, rec: LogRec)
    requires Follows(n, u, log) && m.AppendEntries? && m.term == 1 && m.entries == [rec] && m.commitIndex == 0
    requires m.prevLogIndex == |log| && m.prevLogTerm == LastTerm(log) && rec.index == |log| + 1
    ensures var out := OnMessage(THREE, n, m);
            Follows(out.node, u, log + [rec]) &&
            AppendResponse(u, m.sender, 1, true, |log| + 1, |log|, m.serial) in out.sent
  {
    assert [rec][1..] == [];
    assert InsertAll(log, [rec]) == InsertAll(log + [rec], []);
  }

  lemma Wiped(n: Node)
    requires Follows(n, 1, [R1, R2])
    ensures Follows(OnMessage(THREE, n, LATE).node, 1, [R1])
    ensures !JunkIsJunk(n, LATE) && KeepsOwnTerm(n, LATE)
  {
    assert [R1][1..] == [];
    assert InsertAll([], [R1]) == InsertAll([R1], []);
  }

  // -------------------------------------------------------------- the run

  /** A run of `k` steps of which only number 10 may be flawed. */
  ghost predicate Trace(run: seq<System>, steps: seq<Step>, k: nat)
  {
    FlawedRun(run, steps, 10) && |steps| == k && |run| == k + 1 && run[k].nodes.Keys == {0, 1, 2}
  }

  lemma Forward(run: seq<System>, steps: seq<Step>, k: nat, step: Step) returns (run': seq<System>, steps': seq<Step>)
    requires Trace(run, steps, k) && Enabled(run[k], step) && (k == 10 || Hypotheses(run[k], step))
    ensures Trace(run', steps', k + 1) && run' == run + [run'[k + 1]] && steps' == steps + [step]
    ensures var out := Act(THREE, run[k].nodes[Actor(step)], step);
            && run'[k + 1].nodes == run[k].nodes[Actor(step) := out.node]
            && run'[k + 1].net == run[k].net + out.sent
  {
    var s';
    run', steps', s' := Move(run, steps, 10, step);
  }

  lemma Voted0() returns (run: seq<System>, steps: seq<Step>)
    ensures Trace(run, steps, 2) && run[2].nodes[0] == Standing(InitialNode(0), 1) && Follows(run[2].nodes[1], 1, [])
    ensures run[2].nodes[2] == InitialNode(2) && VoteResponse(1, 0, 1, true) in run[2].net
  {
    var s := Begin(10);
    run, steps, s := StepStands([s], [], 10, s, 0);
    assert Asked(InitialNode(0), 1) in s.net;
    run, steps, s := StepAnswers(run, steps, 10, s, RequestVote(0, 1, 1, 0, 0), true);
  }

  lemma Elected0() returns (run: seq<System>, steps: seq<Step>)
    ensures Trace(run, steps, 3) && Leads(run[3].nodes[0], [R1], 3) && Follows(run[3].nodes[1], 1, [])
    ensures run[3].nodes[2] == InitialNode(2) && First(1) in run[3].net && First(2) in run[3].net
  {
    run, steps := Voted0();
    var s := run[2];
    Wins0(s.nodes[0]);
    run, steps, s := StepWins(run, steps, 10, s, 0, 1, 1);
  }

  lemma Beaten() returns (run: seq<System>, steps: seq<Step>)
    ensures Trace(run, steps, 5) && Leads(run[5].nodes[0], [R1], 4) && Follows(run[5].nodes[1], 1, [])
    ensures 3 in run[5].nodes[0].role.active && run[5].nodes[0].role.active[3] == Tracker(1, BEAT, false)
    ensures run[5].nodes[2] == InitialNode(2) && First(1) in run[5].net && First(2) in run[5].net && NO in run[5].net
  {
    run, steps := Elected0();
    Beats0(run[3].nodes[0]);
    run, steps := Forward(run, steps, 3, Heartbeat(0, Some(1)));
    assert OnMessage(THREE, run[4].nodes[1], BEAT) == Out(run[4].nodes[1], {NO});
    run, steps := Forward(run, steps, 4, Deliver(BEAT));
  }

  lemma Refused() returns (run: seq<System>, steps: seq<Step>)
    ensures Trace(run, steps, 7) && Leads(run[7].nodes[0], [R1, R2], 8) && Follows(run[7].nodes[1], 1, [])
    ensures 6 in run[7].nodes[0].role.active && run[7].nodes[0].role.active[6] == Tracker(1, SECOND, true)
    ensures 2 in run[7].nodes[0].role.tallies && run[7].nodes[0].role.tallies[2] == map[0 := true]
    ensures run[7].nodes[2] == InitialNode(2) && {First(1), First(2), LATE, SECOND} <= run[7].net
  {
    run, steps := Beaten();
    BacksDown0(run[5].nodes[0]);
    run, steps := Forward(run, steps, 5, Deliver(NO));
    Proposes0(run[6].nodes[0]);
    run, steps := Forward(run, steps, 6, Propose(0, ClientCommand, "x"));
  }

  lemma Stored() returns (run: seq<System>, steps: seq<Step>)
    ensures Trace(run, steps, 9) && Leads(run[9].nodes[0], [R1, R2], 8) && Follows(run[9].nodes[1], 1, [R1, R2])
    ensures 6 in run[9].nodes[0].role.active && run[9].nodes[0].role.active[6] == Tracker(1, SECOND, true)
    ensures 2 in run[9].nodes[0].role.tallies && run[9].nodes[0].role.tallies[2] == map[0 := true]
    ensures run[9].nodes[2] == InitialNode(2) && {First(2), LATE, YES} <= run[9].net
  {
    run, steps := Refused();
    Stores(run[7].nodes[1], 1, First(1), [], R1);
    run, steps := Forward(run, steps, 7, Deliver(First(1)));
    assert [] + [R1] == [R1] && [R1] + [R2] == [R1, R2];
    Stores(run[8].nodes[1], 1, SECOND, [R1], R2);
    run, steps := Forward(run, steps, 8, Deliver(SECOND));
  }

  /** Node 0 has committed record 2, and node 1 is about to be told that its log is junk by a message of its own term
      that carries its own first record. */
  ghost predicate AboutToDrop(s: System)
  {
    && s.nodes.Keys == {0, 1, 2} && s.nodes[0].term == 1 && s.nodes[0].log == [R1, R2] && s.nodes[0].commit == 2
    && var n := Routed(s, LATE); FreshVoteRequest(n, LATE) && !JunkIsJunk(n, LATE) && KeepsOwnTerm(n, LATE)
  }

  lemma Committed0() returns (run: seq<System>, steps: seq<Step>)
    ensures Trace(run, steps, 10) && AboutToDrop(run[10]) && Follows(run[10].nodes[1], 1, [R1, R2])
    ensures run[10].nodes[2] == InitialNode(2) && First(2) in run[10].net && LATE in run[10].net
  {
    run, steps := Stored();
    Commits0(run[9].nodes[0]);
    run, steps := Forward(run, steps, 9, Deliver(YES));
    Wiped(run[10].nodes[1]);
  }

  lemma Dropped() returns (run: seq<System>, steps: seq<Step>)
    ensures Trace(run, steps, 11) && steps[10] == Deliver(LATE) && AboutToDrop(run[10])
    ensures Follows(run[11].nodes[1], 1, [R1]) && run[11].nodes[2] == InitialNode(2) && First(2) in run[11].net
  {
    run, steps := Committed0();
    Wiped(run[10].nodes[1]);
    run, steps := Forward(run, steps, 10, Deliver(LATE));
  }

  lemma Second2() returns (run: seq<System>, steps: seq<Step>)
    ensures Trace(run, steps, 12) && steps[10] == Deliver(LATE) && AboutToDrop(run[10])
    ensures Follows(run[12].nodes[1], 1, [R1]) && Follows(run[12].nodes[2], 2, [R1])
  {
    run, steps := Dropped();
    Stores(Expire(InitialNode(2), 1), 2, First(2), [], R1);
    assert [] + [R1] == [R1];
    run, steps := Forward(run, steps, 11, Deliver(First(2)));
  }

  lemma Asks2() returns (run: seq<System>, steps: seq<Step>)
    ensures Trace(run, steps, 14) && steps[10] == Deliver(LATE) && AboutToDrop(run[10])
    ensures var n := run[14].nodes[2];
            n.me == 2 && n.log == [R1] && n == Standing(n, 2) && VoteResponse(1, 2, 2, true) in run[14].net
  {
    run, steps := Second2();
    var s, n := run[12], run[12].nodes[2];
    run, steps, s := StepStands(run, steps, 10, s, 2);
    assert Asked(n, 1) in s.net;
    run, steps, s := StepAnswers(run, steps, 10, s, RequestVote(2, 1, 2, 1, 1), true);
  }

  /** Without the second hypothesis a leader of a later term can lack a committed record: node 1 drops record 2 on a
      late backdown message whose first record it already has. Only step 10 breaks a hypothesis, and only the second. */
  lemma JunkMessageLosesCommitted() returns (run: seq<System>, steps: seq<Step>)
    ensures FlawedRun(run, steps, 10) && |run| == 16 && steps[10] == Deliver(LATE)
    ensures AboutToDrop(run[10]) && 2 in run[15].nodes
    ensures var n, n' := run[10].nodes[0], run[15].nodes[2];
            n.commit == 2 && n'.role.Leader? && n.term < n'.term && !Agree(n.log, n'.log, n.commit)
  {
    run, steps := Asks2();
    var s := run[14];
    run, steps, s := StepWins(run, steps, 10, s, 2, 2, 1);
    assert s.nodes[2].log[1] != R2;
  }
}

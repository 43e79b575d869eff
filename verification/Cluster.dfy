/** The distributed system: every node of a fixed voter list, all messages ever sent, one step per handler call
    or timer. A delivered message stays available, so loss, delay, reordering and duplication are all covered. */
module Cluster {
  import opened RaftTypes
  import opened Handlers
  import opened Ledger

  datatype System = System(nodes: Nodes, net: set<Message>)

  /** Timers and user calls are steps that may be taken at any time. */
  datatype Step =
    | Timeout(u: Uri)                                          // leader lost, election timer, or power handed over
    | Resign(u: Uri)                                           // failed quorum check, or a candidate yields to a
                                                               // leader whose message is then lost
    | Propose(u: Uri, code: RecordCode, command: string)       // run_command or a settings update
    | Heartbeat(u: Uri, target: Option<Uri>)
    | Deliver(m: Message)
    | Notice(m: Message)                                       // demoted by a message whose handling is then lost

  function Actor(step: Step): Uri
  {
    match step
    case Timeout(u) => u
    case Resign(u) => u
    case Propose(u, _, _) => u
    case Heartbeat(u, _) => u
    case Deliver(m) => m.receiver
    case Notice(m) => m.receiver
  }

  ghost predicate Enabled(s: System, step: Step)
  {
    && Actor(step) in s.nodes
    && var n := s.nodes[Actor(step)];
       match step
       case Timeout(_) => !n.role.Leader?
       case Resign(_) => !n.role.Follower?
       case Propose(_, code, _) => n.role.Leader? && code != TermStart
       case Heartbeat(_, target) => n.role.Leader? && (target.Some? ==> target.value in s.nodes)
       case Deliver(m) => m in s.net
       case Notice(m) => m in s.net && !n.role.Follower?
  }

  function Act(c: Config, n: Node, step: Step): Out
    requires step.Propose? || step.Heartbeat? ==> n.role.Leader?
  {
    match step
    case Timeout(_) => StartCampaign(c, n)
    case Resign(_) => Out(Demote(n), {})
    case Propose(_, code, command) => AppendAndBroadcast(c, n, code, command)
    case Heartbeat(_, target) => SendHeartbeats(c, n, target)
    case Deliver(m) => OnMessage(c, n, m)
    case Notice(m) => Out(Expire(n, m.term), {})
  }

  ghost predicate Initial(c: Config, s: System)
  {
    s.nodes == (map u | u in c.voters :: InitialNode(u)) && s.net == {}
  }

  ghost predicate Next(c: Config, s: System, step: Step, s': System)
  {
    && Enabled(s, step)
    && var out := Act(c, s.nodes[Actor(step)], step);
       s' == System(s.nodes[Actor(step) := out.node], s.net + out.sent)
  }

  /** H1: a follower is not handed a request_vote below its own term. */
  ghost predicate FreshVoteRequest(n: Node, m: Message)
  {
    m.RequestVote? && n.role.Follower? ==> m.term == n.term
  }

  /** H2: a follower is told that its log is junk only by a message of its own term that carries a first record
      of another term than its own first record. */
  ghost predicate JunkIsJunk(n: Node, m: Message)
  {
    m.AppendEntries? && !n.role.Leader? && (n.role.Candidate? ==> m.term == n.term) && SaysJunk(n, m) ==>
    m.term == n.term && m.entries != [] && m.entries[0].term != n.log[0].term
  }

  /** The two hypotheses, on the state in which the routed handler runs (after the term gate). */
  ghost predicate Hypotheses(s: System, step: Step)
  {
    step.Deliver? && step.m.receiver in s.nodes ==>
    var n := Expire(s.nodes[step.m.receiver], step.m.term);
    FreshVoteRequest(n, step.m) && JunkIsJunk(n, step.m)
  }

  /** What elections need of the second hypothesis: a message of an earlier term does not empty the log of a node that
      holds a record of its own term. */
  ghost predicate KeepsOwnTerm(n: Node, m: Message)
  {
    m.AppendEntries? && !n.role.Leader? && (n.role.Candidate? ==> m.term == n.term) && SaysJunk(n, m) ==>
    m.term == n.term || LastTerm(n.log) != n.term
  }

  ghost predicate VoteHypotheses(s: System, step: Step)
  {
    step.Deliver? && step.m.receiver in s.nodes ==>
    var n := Expire(s.nodes[step.m.receiver], step.m.term);
    FreshVoteRequest(n, step.m) && KeepsOwnTerm(n, step.m)
  }

  ghost predicate IsRun(c: Config, run: seq<System>, steps: seq<Step>)
  {
    && ValidConfig(c)
    && |run| == |steps| + 1
    && Initial(c, run[0])
    && forall i :: 0 <= i < |steps| ==> Next(c, run[i], steps[i], run[i + 1])
  }

  /** A node at a point of a run. */
  ghost predicate At(run: seq<System>, i: nat, u: Uri) { i < |run| && u in run[i].nodes }

  /** A run in which every step meets both hypotheses. */
  ghost predicate IsCarefulRun(c: Config, run: seq<System>, steps: seq<Step>)
  {
    IsRun(c, run, steps) && forall i :: 0 <= i < |steps| ==> Hypotheses(run[i], steps[i])
  }

  /** A run in which every step meets the hypotheses that elections need; every careful run is one. */
  ghost predicate IsVotingRun(c: Config, run: seq<System>, steps: seq<Step>)
  {
    IsRun(c, run, steps) && forall i :: 0 <= i < |steps| ==> VoteHypotheses(run[i], steps[i])
  }
}

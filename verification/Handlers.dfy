/** What each message handler and each timer of one node computes, as functions on the node's state.
    The class in Replica.dfy does the same work step by step and is proved equal to these functions. */
module Handlers {
  import opened RaftTypes

  /** `voters` is the fixed node list; `maxEntries` is `max_entries_per_message`. */
  datatype Config = Config(voters: seq<Uri>, maxEntries: nat)

  /** An append_entries message still waiting for its reply. */
  datatype Tracker = Tracker(uri: Uri, message: Message, broadcast: bool)

  datatype Role =
    | Follower
    | Candidate(votes: map<Uri, Option<bool>>)
    | Leader(active: map<nat, Tracker>, tallies: map<nat, map<Uri, bool>>)

  /** `executed` records every call of the user's process_command, in call order.
      `matchIndex` is the last index each follower reported; it survives role changes. */
  datatype Node = Node(
    me: Uri, role: Role, term: nat, votedFor: Option<Uri>, log: seq<LogRec>, commit: nat, applied: nat,
    executed: seq<LogRec>, nextSerial: nat, matchIndex: map<Uri, nat>)

  datatype Out = Out(node: Node, sent: set<Message>)

  function InitialNode(u: Uri): Node
  {
    Node(u, Follower, 0, None, [], 0, 0, [], 0, map[])
  }

  // ---------------------------------------------------------------- elections

  function BlankVotes(voters: seq<Uri>, me: Uri): map<Uri, Option<bool>>
  {
    map u | u in voters :: if u == me then Some(true) else None
  }

  function VoteRequests(n: Node, voters: seq<Uri>): set<Message>
  {
    set u | u in voters && u != n.me :: RequestVote(n.me, u, n.term, |n.log|, LastTerm(n.log))
  }

  function StartCampaign(c: Config, n: Node): Out
  {
    var n1 := n.(role := Candidate(BlankVotes(c.voters, n.me)), term := n.term + 1, votedFor := None);
    Out(n1, VoteRequests(n1, c.voters))
  }

  /** The log test of a voter: both the index and the term must be at least the voter's own. */
  predicate LogAcceptable(log: seq<LogRec>, prevLogIndex: nat, prevLogTerm: nat)
  {
    |log| == 0 || (|log| <= prevLogIndex && LastTerm(log) <= prevLogTerm)
  }

  function OnVoteRequest(n: Node, m: Message): Out
    requires m.RequestVote?
  {
    if n.votedFor.Some? || !LogAcceptable(n.log, m.prevLogIndex, m.prevLogTerm) then
      Out(n, {VoteResponse(n.me, m.sender, m.term, false)})
    else
      Out(n.(votedFor := Some(m.sender)), {VoteResponse(n.me, m.sender, m.term, true)})
  }

  function Ayes(votes: map<Uri, Option<bool>>): set<Uri>
  {
    set u | u in votes && votes[u] == Some(true)
  }

  function OnVoteResponse(c: Config, n: Node, m: Message): Out
    requires n.role.Candidate? && m.VoteResponse?
  {
    if m.term < n.term then Out(n, {})
    else
      var votes := n.role.votes[m.sender := Some(m.vote)];
      if 2 * |Ayes(votes)| > |votes| then WinVote(c, n) else Out(n.(role := Candidate(votes)), {})
  }

  function WinVote(c: Config, n: Node): Out
  {
    AppendAndBroadcast(c, n.(role := Leader(map[], map[]), votedFor := None), TermStart, "")
  }

  /** Term gate of every role: a higher term makes the node a follower of that term without a vote. */
  function Expire(n: Node, term: nat): Node
  {
    if term > n.term then n.(role := Follower, term := term, votedFor := None) else n
  }

  function Demote(n: Node): Node { n.(role := Follower, votedFor := None) }

  // ---------------------------------------------------------------- leader: sending

  function EntriesMessage(n: Node, uri: Uri, serial: nat, prev: nat, prevTerm: nat, entries: seq<LogRec>): Message
  {
    AppendEntries(n.me, uri, n.term, serial, prev, prevTerm, entries, n.commit)
  }

  /** Serial `base + k` addresses `voters[k]`, unless that is the sender itself. */
  predicate IsSlot(c: Config, base: nat, me: Uri, s: nat)
  {
    base <= s < base + |c.voters| && c.voters[s - base] != me
  }

  /** Trackers for the messages to the first `k` voters; the one to `voters[j]` gets serial `nextSerial + j`. */
  function TrackersTo(c: Config, n: Node, prev: nat, prevTerm: nat, entries: seq<LogRec>, k: nat): map<nat, Tracker>
    requires k <= |c.voters|
  {
    map s | n.nextSerial <= s < n.nextSerial + k && IsSlot(c, n.nextSerial, n.me, s) ::
      var uri := c.voters[s - n.nextSerial];
      Tracker(uri, EntriesMessage(n, uri, s, prev, prevTerm, entries), true)
  }

  function MessagesOf(trackers: map<nat, Tracker>): set<Message>
  {
    set s | s in trackers :: trackers[s].message
  }

  /** One message to every other voter. */
  function Broadcast(c: Config, n: Node, prev: nat, prevTerm: nat, entries: seq<LogRec>): Out
    requires n.role.Leader?
  {
    var trackers := TrackersTo(c, n, prev, prevTerm, entries, |c.voters|);
    Out(n.(role := n.role.(active := n.role.active + trackers), nextSerial := n.nextSerial + |c.voters|),
        MessagesOf(trackers))
  }

  function AppendAndBroadcast(c: Config, n: Node, code: RecordCode, command: string): Out
    requires n.role.Leader?
  {
    var rec := LogRec(|n.log| + 1, n.term, code, command);
    var n1 := n.(log := n.log + [rec], role := n.role.(tallies := n.role.tallies[rec.index := map[n.me := true]]));
    Broadcast(c, n1, |n.log|, LastTerm(n.log), [rec])
  }

  /** Record one message outside any broadcast and send it. */
  function SendOne(n: Node, uri: Uri, prev: nat, prevTerm: nat, entries: seq<LogRec>): Out
    requires n.role.Leader?
  {
    var m := EntriesMessage(n, uri, n.nextSerial, prev, prevTerm, entries);
    Out(n.(role := n.role.(active := n.role.active[n.nextSerial := Tracker(uri, m, false)]),
           nextSerial := n.nextSerial + 1),
        {m})
  }

  function SendHeartbeats(c: Config, n: Node, target: Option<Uri>): Out
    requires n.role.Leader?
  {
    match target
    case None => Broadcast(c, n, |n.log|, LastTerm(n.log), [])
    case Some(uri) => if uri == n.me then Out(n, {}) else SendOne(n, uri, |n.log|, LastTerm(n.log), [])
  }

  function GuessedVotes(voters: seq<Uri>, me: Uri, matchIndex: map<Uri, nat>, index: nat): map<Uri, bool>
  {
    map u | u in voters :: u == me || (u in matchIndex && matchIndex[u] >= index)
  }

  function GuessedTallies(c: Config, n: Node, indexes: set<nat>): map<nat, map<Uri, bool>>
  {
    map i | i in indexes :: GuessedVotes(c.voters, n.me, n.matchIndex, i)
  }

  /** A vote tracker for an index that has none is filled from the reported last indexes. */
  function EnsureTallies(c: Config, n: Node, indexes: set<nat>): Node
    requires n.role.Leader?
  {
    n.(role := n.role.(tallies := GuessedTallies(c, n, indexes) + n.role.tallies))
  }

  /** Index to retry with after a refusal. */
  function BackdownIndex(maxIndex: nat, prevLogIndex: nat): nat
  {
    if maxIndex < prevLogIndex then maxIndex + 1 else prevLogIndex
  }

  /** Reading outside the log raises, so nothing is sent then. */
  function SendBackdown(c: Config, n: Node, r: Message): Out
    requires n.role.Leader? && r.AppendResponse?
  {
    var i := BackdownIndex(r.maxIndex, r.prevLogIndex);
    if !(1 <= i <= |n.log|) then Out(n, {})
    else
      var n1 := if i < n.commit then EnsureTallies(c, n, {i}) else n;
      SendOne(n1, r.sender, i - 1, TermAt(n.log, i - 1), [n.log[i - 1]])
  }

  /** Records from index `i` to `end`, stopping before a second configuration record. */
  function Block(log: seq<LogRec>, i: nat, end: nat, seen: bool): seq<LogRec>
    requires 1 <= i && end <= |log|
    decreases end + 1 - i
  {
    if i > end then []
    else
      var config := log[i - 1].code == ClusterConfig;
      if config && seen then [] else [log[i - 1]] + Block(log, i + 1, end, seen || config)
  }

  function CatchupEnd(c: Config, last: nat, start: nat): nat
  {
    if last > start + c.maxEntries then start + c.maxEntries else last
  }

  /** Indexes of a block of `size` records from `start` that the leader has not committed. */
  function OpenIndexes(start: nat, size: nat, commit: nat): set<nat>
  {
    set i | start <= i < start + size && IsOpen(i, commit)
  }

  predicate IsOpen(index: nat, commit: nat) { index > commit }

  function CatchupBlock(c: Config, log: seq<LogRec>, start: nat): seq<LogRec>
    requires 1 <= start
  {
    Block(log, start, CatchupEnd(c, |log|, start), false)
  }

  function SendCatchup(c: Config, n: Node, r: Message): Out
    requires n.role.Leader? && r.AppendResponse?
  {
    var block := CatchupBlock(c, n.log, r.maxIndex + 1);
    var n1 := EnsureTallies(c, n, OpenIndexes(r.maxIndex + 1, |block|, n.commit));
    if r.maxIndex > |n.log| then Out(n1, {})
    else SendOne(n1, r.sender, r.maxIndex, TermAt(n.log, r.maxIndex), block)
  }

  // ---------------------------------------------------------------- leader: replies

  /** Voters of the list that said yes; a reply is a win once they are at least half of the list, rounded up. */
  function Yes(c: Config, votes: map<Uri, bool>): set<Uri>
  {
    set u | u in c.voters && u in votes && votes[u]
  }

  function WinCount(size: nat): nat { (size + 1) / 2 }

  /** Apply the records from `cur` to `upto`. The leader executes commands and marks commands and
      configuration records applied; it never marks a term start. */
  function LeaderApply(n: Node, cur: nat, upto: nat): (r: Node)
    requires 1 <= cur && upto <= |n.log|
    ensures r == n.(executed := r.executed, applied := r.applied)
    decreases upto + 1 - cur
  {
    if cur > upto then n
    else
      var rec := n.log[cur - 1];
      var n1 := match rec.code
        case ClientCommand => n.(executed := n.executed + [rec], applied := Max(n.applied, cur))
        case ClusterConfig => n.(applied := Max(n.applied, cur))
        case TermStart => n;
      LeaderApply(n1, cur + 1, upto)
  }

  function ProcessReady(n: Node, index: nat): Node
    requires index <= |n.log|
  {
    var n1 := n.(commit := Max(n.commit, index));
    if index > n.applied then LeaderApply(n1, n.applied + 1, index) else n1
  }

  function Counted(n: Node, index: nat, r: Message): map<Uri, bool>
    requires n.role.Leader? && r.AppendResponse? && index in n.role.tallies
  {
    n.role.tallies[index][r.sender := r.success]
  }

  /** A tally in which every voter has answered is dropped. */
  function TalliesAfter(c: Config, n: Node, index: nat, r: Message): map<nat, map<Uri, bool>>
    requires n.role.Leader? && r.AppendResponse? && index in n.role.tallies
  {
    if |Counted(n, index, r)| == |c.voters| then n.role.tallies - {index}
    else n.role.tallies[index := Counted(n, index, r)]
  }

  /** Count one reply to the broadcast of the record at `index`. */
  function AssessLogVote(c: Config, n: Node, index: nat, r: Message): Node
    requires n.role.Leader? && r.AppendResponse? && index <= |n.log|
  {
    if index !in n.role.tallies then n
    else
      var n1 := n.(role := n.role.(tallies := TalliesAfter(c, n, index, r)));
      if |Yes(c, Counted(n, index, r))| >= WinCount(|c.voters|) then ProcessReady(n1, index) else n1
  }

  predicate InFlightBeyond(n: Node, uri: Uri, index: nat)
    requires n.role.Leader?
  {
    exists s :: s in n.role.active && n.role.active[s].uri == uri && n.role.active[s].message.AppendEntries? &&
      exists e :: e in n.role.active[s].message.entries && e.index > index
  }

  function OnAppendResponse(c: Config, n: Node, r: Message): Out
    requires n.role.Leader? && r.AppendResponse?
  {
    var n0 := n.(matchIndex := n.matchIndex[r.sender := r.maxIndex]);
    var s := r.originalSerial;
    if s !in n.role.active || n.role.active[s].uri != r.sender || !n.role.active[s].message.AppendEntries? then
      Out(n0, {})
    else
      var t := n.role.active[s];
      var n1 := n0.(role := n0.role.(active := n0.role.active - {s}));
      if !t.broadcast then
        if !r.success then SendBackdown(c, n1, r)
        else if r.maxIndex == |n.log| then Out(n1, {})
        else SendCatchup(c, n1, r)
      else if t.message.entries == [] then
        if r.success then Out(n1, {}) else SendBackdown(c, n1, r)
      else
        var n2 := if t.message.entries[0].index <= |n.log|
                  then AssessLogVote(c, n1, t.message.entries[0].index, r) else n1;
        if r.maxIndex < |n.log| && !InFlightBeyond(n2, r.sender, r.maxIndex)
        then SendCatchup(c, n2, r) else Out(n2, {})
  }

  // ---------------------------------------------------------------- follower

  /** Log after a run of insertions or comparisons, and whether an exception cut it short. */
  datatype Scan = Scan(log: seq<LogRec>, raised: bool)

  /** Compare each sent entry with the stored one and delete from the first differing index on.
      An entry past the end reads None, whose term raises. */
  function DropConflicts(log: seq<LogRec>, entries: seq<LogRec>): Scan
    decreases |entries|
  {
    if entries == [] then Scan(log, false)
    else
      var e := entries[0];
      if !(1 <= e.index <= |log|) then Scan(log, true)
      else if log[e.index - 1].term != e.term then DropConflicts(log[..e.index - 1], entries[1..])
      else DropConflicts(log, entries[1..])
  }

  /** Insert each entry at its own index; past the end plus one raises. */
  function InsertAll(log: seq<LogRec>, entries: seq<LogRec>): Scan
    decreases |entries|
  {
    if entries == [] then Scan(log, false)
    else
      var e := entries[0];
      if e.index > |log| + 1 then Scan(log, true)
      else if e.index == 0 then InsertAll(log + [e.(index := |log| + 1)], entries[1..])
      else if e.index == |log| + 1 then InsertAll(log + [e], entries[1..])
      else InsertAll(log[e.index - 1 := e], entries[1..])
  }

  /** Deleting rows lowers the stored commit and applied indexes to the new last index. */
  function WithLog(n: Node, kept: nat, log: seq<LogRec>): Node
  {
    n.(log := log, commit := Min(n.commit, kept), applied := Min(n.applied, kept))
  }

  function Reply(n: Node, m: Message, success: bool): Message
    requires m.AppendEntries?
  {
    AppendResponse(n.me, m.sender, n.term, success, |n.log|, m.prevLogIndex, m.serial)
  }

  /** Apply the records from `cur` to `upto`; a follower marks every record applied. */
  function FollowerApply(n: Node, cur: nat, upto: nat): (r: Node)
    requires 1 <= cur && upto <= |n.log|
    ensures r == n.(executed := r.executed, applied := r.applied)
    decreases upto + 1 - cur
  {
    if cur > upto then n
    else
      var rec := n.log[cur - 1];
      var executed := if rec.code == ClientCommand then n.executed + [rec] else n.executed;
      FollowerApply(n.(executed := executed, applied := Max(n.applied, cur)), cur + 1, upto)
  }

  function NewLeaderCommitIndex(n: Node, leaderCommit: nat): Node
  {
    var upto := Min(leaderCommit, |n.log|);
    var n1 := if n.commit < leaderCommit then n.(commit := Max(n.commit, upto)) else n;
    FollowerApply(n1, n.applied + 1, upto)
  }

  /** Fall-through part of on_append_entries: store the entries, answer, then commit and apply. */
  function StoreAndCommit(n: Node, m: Message): Out
    requires m.AppendEntries?
  {
    var scan := InsertAll(n.log, m.entries);
    var n1 := n.(log := scan.log);
    if scan.raised then Out(n1, {})
    else
      var n2 := if m.commitIndex > n1.commit || m.commitIndex > n1.applied
                then NewLeaderCommitIndex(n1, m.commitIndex) else n1;
      Out(n2, {Reply(n1, m, true)})
  }

  /** The "log is junk" branch. It comes before the term test. */
  predicate SaysJunk(n: Node, m: Message)
    requires m.AppendEntries?
  {
    m.prevLogIndex == 0 && |n.log| > 0
  }

  function FollowerOnAppendEntries(n: Node, m: Message): Out
    requires m.AppendEntries?
  {
    if SaysJunk(n, m) then
      StoreAndCommit(WithLog(n, 0, []), m)
    else if m.term != n.term then
      Out(n, {Reply(n, m, false)})
    else if |n.log| > m.prevLogIndex then
      if n.log[m.prevLogIndex - 1].term != m.prevLogTerm then
        var n1 := WithLog(n, m.prevLogIndex - 1, n.log[..m.prevLogIndex - 1]);
        Out(n1, {Reply(n1, m, false)})
      else
        var scan := DropConflicts(n.log, m.entries);
        var n1 := WithLog(n, |scan.log|, scan.log);
        if scan.raised then Out(n1, {}) else StoreAndCommit(n1, m)
    else if |n.log| != m.prevLogIndex || LastTerm(n.log) != m.prevLogTerm then
      Out(n, {Reply(n, m, false)})
    else
      StoreAndCommit(n, m)
  }

  // ---------------------------------------------------------------- dispatch

  /** Routing by role, for a message whose term is not above the node's. */
  function Handle(c: Config, n: Node, m: Message): Out
  {
    match m
    case RequestVote(_, _, _, _, _) =>
      if n.role.Follower? then OnVoteRequest(n, m) else Out(n, {VoteResponse(n.me, m.sender, m.term, false)})
    case VoteResponse(_, _, _, _) =>
      if n.role.Candidate? then OnVoteResponse(c, n, m) else Out(n, {})
    case AppendEntries(_, _, _, _, _, _, _, _) =>
      if n.role.Follower? then FollowerOnAppendEntries(n, m)
      else if n.role.Candidate? && m.term == n.term then FollowerOnAppendEntries(Demote(n), m)
      else Out(n, {Reply(n, m, false)})
    case AppendResponse(_, _, _, _, _, _, _) =>
      if n.role.Leader? then OnAppendResponse(c, n, m) else Out(n, {})
  }

  function OnMessage(c: Config, n: Node, m: Message): Out
  {
    Handle(c, Expire(n, m.term), m)
  }
}

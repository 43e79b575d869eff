/** Cluster membership: one change at a time, active when its record is stored, permanent when it is committed,
    undone when it is truncated. */
module Membership {
  import opened RaftTypes

  datatype NodeRec = NodeRec(uri: Uri, adding: bool, removing: bool)

  /** Periods and timeouts are counted in ticks. */
  datatype Settings = Settings(heartbeat: nat, electionMin: nat, electionMax: nat, maxEntries: nat,
                               preVote: bool, checkQuorum: bool, dynamicConfig: bool, idempotent: bool)

  datatype Cluster = Cluster(nodes: map<Uri, NodeRec>, pending: Option<NodeRec>, settings: Settings)

  /** The decoded command of a configuration record. */
  datatype Change = AddNode(uri: Uri) | RemoveNode(uri: Uri) | UpdateSettings(settings: Settings)

  predicate Flagged(n: NodeRec) { n.adding || n.removing }

  /** Members are filed under their own uri and carry no flag; a pending node is flagged one way and is no member. */
  predicate WellFormed(c: Cluster)
  {
    && (forall u :: u in c.nodes ==> c.nodes[u] == NodeRec(u, false, false))
    && (c.pending.Some? ==> c.pending.value.uri !in c.nodes && c.pending.value.adding != c.pending.value.removing)
  }

  function PlanAdd(c: Cluster, u: Uri): Option<Cluster>
  {
    if c.pending.Some? || u in c.nodes then None else Some(c.(pending := Some(NodeRec(u, true, false))))
  }

  function PlanRemove(c: Cluster, u: Uri): Option<Cluster>
  {
    if c.pending.Some? || u !in c.nodes then None
    else Some(c.(nodes := c.nodes - {u}, pending := Some(c.nodes[u].(removing := true))))
  }

  function Started(plan: Option<Cluster>): Result<Cluster> { if plan.Some? then Ok(plan.value) else Raised }

  function FinishAdd(c: Cluster, u: Uri): Result<Cluster>
  {
    if c.pending.Some? && c.pending.value.uri == u
    then Ok(c.(nodes := c.nodes[u := c.pending.value.(adding := false)], pending := None))
    else Raised
  }

  function FinishRemove(c: Cluster, u: Uri): Result<Cluster>
  {
    if c.pending.Some? && c.pending.value.uri == u && c.pending.value.removing then Ok(c.(pending := None)) else Raised
  }

  /** handle_membership_change_log_update. */
  function LogUpdate(c: Cluster, ch: Change): Result<Cluster>
  {
    match ch
    case AddNode(u) => Started(PlanAdd(c, u))
    case RemoveNode(u) => Started(PlanRemove(c, u))
    case UpdateSettings(_) => Ok(c)
  }

  /** handle_membership_change_log_commit at node `me`. */
  function LogCommit(c: Cluster, ch: Change, me: Uri): Result<Cluster>
  {
    match ch
    case AddNode(u) => if u == me && c.pending.None? then Ok(c) else FinishAdd(c, u)
    case RemoveNode(u) => FinishRemove(c, u)
    case UpdateSettings(s) => Ok(c.(settings := s))
  }

  /** reverse_config_change. */
  function Reverse(c: Cluster, ch: Change): Cluster
  {
    if ch.RemoveNode? && c.pending.Some? && c.pending.value.uri == ch.uri
    then c.(nodes := c.nodes[ch.uri := c.pending.value.(removing := false)], pending := None)
    else c.(pending := None)
  }

  // -------------------------------------------------------------- one change

  /** The change can start: nothing is pending and it adds a stranger or removes a member. */
  predicate Applicable(c: Cluster, ch: Change)
  {
    match ch
    case AddNode(u) => c.pending.None? && u !in c.nodes
    case RemoveNode(u) => c.pending.None? && u in c.nodes
    case UpdateSettings(_) => true
  }

  /** The permanent effect of a change. */
  function Done(c: Cluster, ch: Change): Cluster
  {
    match ch
    case AddNode(u) => c.(nodes := c.nodes[u := NodeRec(u, false, false)])
    case RemoveNode(u) => c.(nodes := c.nodes - {u})
    case UpdateSettings(s) => c.(settings := s)
  }

  /** From a settled configuration, storing a change succeeds exactly when it is applicable; then truncating it
      restores the configuration, and committing it changes the membership by exactly that node. */
  lemma OneChange(c: Cluster, ch: Change, me: Uri)
    requires WellFormed(c)
    ensures LogUpdate(c, ch).Ok? <==> Applicable(c, ch)
    ensures Applicable(c, ch) && c.pending.None? ==>
              && WellFormed(LogUpdate(c, ch).value)
              && Reverse(LogUpdate(c, ch).value, ch) == c
              && LogCommit(LogUpdate(c, ch).value, ch, me) == Ok(Done(c, ch))
              && WellFormed(Done(c, ch)) && Done(c, ch).pending.None?
    ensures Applicable(c, ch) && c.pending.None? ==>
              Done(c, ch).nodes.Keys == match ch
                                        case AddNode(u) => c.nodes.Keys + {u}
                                        case RemoveNode(u) => c.nodes.Keys - {u}
                                        case UpdateSettings(_) => c.nodes.Keys
  {
    if Applicable(c, ch) && c.pending.None? {
      match ch {
        case AddNode(u) =>
        case RemoveNode(u) =>
          assert c.nodes == (c.nodes - {u})[u := NodeRec(u, false, false)];
        case UpdateSettings(_) =>
      }
    }
  }

  /** The change that a well-formed configuration has open. */
  function PendingChange(c: Cluster): Option<Change>
  {
    if c.pending.None? then None
    else Some(if c.pending.value.adding then AddNode(c.pending.value.uri) else RemoveNode(c.pending.value.uri))
  }

  /** Committing a record in any well-formed configuration: with new settings it takes effect at once; otherwise it does
      if it is the open change, or is this node's own addition and nothing is open. An addition of the node whose
      removal is open leaves that node a member still marked for removal; everything else raises. */
  lemma CommitExactly(c: Cluster, ch: Change, me: Uri)
    requires WellFormed(c)
    ensures var r := LogCommit(c, ch, me);
            if ch.UpdateSettings? then r == Ok(c.(settings := ch.settings))
            else if PendingChange(c) == Some(ch) then
              && r.Ok? && r.value.pending.None? && WellFormed(r.value) && r.value.settings == c.settings
              && r.value.nodes.Keys == c.nodes.Keys + (if ch.AddNode? then {ch.uri} else {})
            else if ch == AddNode(me) && c.pending.None? then r == Ok(c)
            else if ch.AddNode? && PendingChange(c) == Some(RemoveNode(ch.uri)) then
              r.Ok? && !WellFormed(r.value) && r.value.nodes.Keys == c.nodes.Keys + {ch.uri}
            else r.Raised?
  {
    if ch.AddNode? && c.pending.Some? && c.pending.value.uri == ch.uri {
      var v := LogCommit(c, ch, me).value;
      assert v.nodes[ch.uri] == c.pending.value.(adding := false);
      assert WellFormed(v) ==> v.nodes[ch.uri] == NodeRec(ch.uri, false, false);
    }
  }

  /** Reversing a record in any well-formed configuration leaves nothing open and every member as it was; a node whose
      removal was open is a member again if it is that removal that is reversed, and is lost otherwise. The outcome is
      well-formed unless a removal is reversed while the addition of that node is open. */
  lemma ReverseExactly(c: Cluster, ch: Change)
    requires WellFormed(c)
    ensures var r := Reverse(c, ch);
            && r.pending.None? && r.settings == c.settings
            && (forall u :: u in c.nodes ==> u in r.nodes && r.nodes[u] == c.nodes[u])
            && r.nodes.Keys == c.nodes.Keys + (if c.pending.Some? && ch == RemoveNode(c.pending.value.uri)
                                               then {ch.uri} else {})
            && (WellFormed(r) <==> !(ch.RemoveNode? && PendingChange(c) == Some(AddNode(ch.uri))))
  {
    if ch.RemoveNode? && c.pending.Some? && c.pending.value.uri == ch.uri {
      var r := Reverse(c, ch);
      assert r.nodes[ch.uri] == c.pending.value.(removing := false);
      assert WellFormed(r) ==> r.nodes[ch.uri] == NodeRec(ch.uri, false, false);
    }
  }

  // -------------------------------------------------------------- the configuration follows the log

  /** A node's log, how far it has been applied, and its stored configuration. `read` decodes a record's command. */
  datatype Member = Member(log: seq<LogRec>, applied: nat, cluster: Cluster)

  datatype Env = Env(me: Uri, initial: Cluster, read: string -> Change)

  predicate IsConfig(rec: LogRec) { rec.code == ClusterConfig }

  datatype Event = Store(rec: LogRec) | ApplyNext | Truncate(from: nat)

  /** The record is appended before the change is started, so it stays even when starting raises. */
  function StoreRec(e: Env, m: Member, rec: LogRec): Member
  {
    var m1 := m.(log := m.log + [rec]);
    if !IsConfig(rec) then m1
    else
      var r := LogUpdate(m.cluster, e.read(rec.command));
      if r.Ok? then m1.(cluster := r.value) else m1
  }

  function ApplyRec(e: Env, m: Member): Member
    requires m.applied < |m.log|
  {
    var rec := m.log[m.applied];
    if !IsConfig(rec) then m.(applied := m.applied + 1)
    else
      var r := LogCommit(m.cluster, e.read(rec.command), e.me);
      if r.Ok? then m.(cluster := r.value, applied := m.applied + 1) else m
  }

  /** One turn of the truncation loop. */
  function CutLast(e: Env, m: Member): Member
    requires m.log != []
  {
    var rec := m.log[|m.log| - 1];
    m.(log := m.log[..|m.log| - 1],
       cluster := if IsConfig(rec) then Reverse(m.cluster, e.read(rec.command)) else m.cluster)
  }

  /** delete_log_from: record by record from the end, each configuration record reversed. */
  function CutFrom(e: Env, m: Member, from: nat): Member
    requires from >= 1
    decreases |m.log|
  {
    if |m.log| < from then m else CutFrom(e, CutLast(e, m), from)
  }

  /** The configuration after the changes of a whole log have become permanent. */
  function Fold(e: Env, log: seq<LogRec>): Cluster
    decreases |log|
  {
    if log == [] then e.initial
    else
      var before := Fold(e, log[..|log| - 1]);
      var rec := log[|log| - 1];
      if IsConfig(rec) then Done(before, e.read(rec.command)) else before
  }

  /** A configuration record that is stored and not applied. */
  ghost predicate Open(m: Member, i: nat) { m.applied < i <= |m.log| && IsConfig(m.log[i - 1]) }

  ghost predicate Settled(m: Member) { forall i :: !Open(m, i) }

  /** The stored configuration is the fold of the applied changes, with the one open change started on top. */
  ghost predicate Follows(e: Env, m: Member)
  {
    && m.applied <= |m.log|
    && (forall i, j :: Open(m, i) && Open(m, j) ==> i == j)
    && var base := Fold(e, m.log[..m.applied]);
       && WellFormed(base) && base.pending.None?
       && (Settled(m) ==> m.cluster == base)
       && (forall i :: Open(m, i) ==> Applicable(base, e.read(m.log[i - 1].command)) &&
                                      LogUpdate(base, e.read(m.log[i - 1].command)) == Ok(m.cluster))
  }

  /** One change at a time, applied records are never truncated. */
  ghost predicate Orderly(e: Env, m: Member, ev: Event)
  {
    match ev
    case Store(rec) => IsConfig(rec) ==> Settled(m) && Applicable(m.cluster, e.read(rec.command))
    case ApplyNext => m.applied < |m.log|
    case Truncate(from) => from > m.applied
  }

  function React(e: Env, m: Member, ev: Event): Member
    requires ev.ApplyNext? ==> m.applied < |m.log|
    requires ev.Truncate? ==> ev.from >= 1
  {
    match ev
    case Store(rec) => StoreRec(e, m, rec)
    case ApplyNext => ApplyRec(e, m)
    case Truncate(from) => CutFrom(e, m, from)
  }

  lemma StorePlainFollows(e: Env, m: Member, rec: LogRec)
    requires Follows(e, m) && !IsConfig(rec)
    ensures Follows(e, StoreRec(e, m, rec))
  {
    var m' := StoreRec(e, m, rec);
    assert m'.log[..m.applied] == m.log[..m.applied];
    assert forall i :: Open(m', i) <==> Open(m, i);
    assert forall i :: Open(m, i) ==> m'.log[i - 1] == m.log[i - 1];
  }

  lemma StoreConfigFollows(e: Env, m: Member, rec: LogRec)
    requires Follows(e, m) && IsConfig(rec) && Settled(m) && Applicable(m.cluster, e.read(rec.command))
    ensures Follows(e, StoreRec(e, m, rec))
  {
    var m' := StoreRec(e, m, rec);
    assert m'.log[..m.applied] == m.log[..m.applied];
    assert m'.log[|m.log|] == rec;
    assert forall i :: Open(m', i) <==> i == |m.log| + 1 by {
      assert forall i: nat {:trigger Open(m', i)} :: Open(m', i) && i <= |m.log| ==> Open(m, i);
    }
    OneChange(m.cluster, e.read(rec.command), e.me);
    assert Open(m', |m.log| + 1);
    forall i | Open(m', i)
      ensures e.read(m'.log[i - 1].command) == e.read(rec.command)
    {
      assert m'.log[i - 1] == rec;
    }
  }

  lemma StoreFollows(e: Env, m: Member, rec: LogRec)
    requires Follows(e, m) && Orderly(e, m, Store(rec))
    ensures Follows(e, StoreRec(e, m, rec))
  {
    if IsConfig(rec) {
      StoreConfigFollows(e, m, rec);
    } else {
      StorePlainFollows(e, m, rec);
    }
  }

  /** Storing a record keeps the configuration in step exactly when it is plain, or nothing is open and its change is
      applicable. */
  lemma StoreFollowsExactly(e: Env, m: Member, rec: LogRec)
    requires Follows(e, m)
    ensures Follows(e, StoreRec(e, m, rec)) <==> Orderly(e, m, Store(rec))
  {
    if Orderly(e, m, Store(rec)) {
      StoreFollows(e, m, rec);
    } else {
      var m' := StoreRec(e, m, rec);
      assert m'.log[|m.log|] == rec && m'.log[..m.applied] == m.log[..m.applied];
      assert Open(m', |m.log| + 1);
      if i :| Open(m, i) {
        assert Open(m', i);
      }
    }
  }

  lemma ApplyFollows(e: Env, m: Member)
    requires Follows(e, m) && m.applied < |m.log|
    ensures Follows(e, ApplyRec(e, m)) && ApplyRec(e, m).applied == m.applied + 1
  {
    var k := m.applied;
    var rec := m.log[k];
    var base := Fold(e, m.log[..k]);
    assert m.log[..k + 1][..k] == m.log[..k];
    if IsConfig(rec) {
      assert Open(m, k + 1);
      OneChange(base, e.read(rec.command), e.me);
    }
    var m' := ApplyRec(e, m);
    assert forall i :: Open(m', i) <==> Open(m, i) && i != k + 1;
  }

  lemma CutLastFollows(e: Env, m: Member)
    requires Follows(e, m) && m.applied < |m.log|
    ensures Follows(e, CutLast(e, m))
  {
    var n, m1 := |m.log|, CutLast(e, m);
    assert m1.log[..m.applied] == m.log[..m.applied];
    assert forall i :: Open(m1, i) <==> Open(m, i) && i != n;
    if IsConfig(m.log[n - 1]) {
      assert Open(m, n);
      OneChange(Fold(e, m.log[..m.applied]), e.read(m.log[n - 1].command), e.me);
    }
  }

  lemma {:induction false} TruncateFollows(e: Env, m: Member, from: nat)
    requires Follows(e, m) && from > m.applied
    ensures Follows(e, CutFrom(e, m, from))
    ensures CutFrom(e, m, from).log == m.log[..Min(|m.log|, from - 1)] && CutFrom(e, m, from).applied == m.applied
    decreases |m.log|
  {
    if |m.log| >= from {
      CutLastFollows(e, m);
      TruncateFollows(e, CutLast(e, m), from);
    }
  }

  ghost predicate OrderlyRun(e: Env, run: seq<Member>, events: seq<Event>)
  {
    && |run| == |events| + 1 && run[0] == Member([], 0, e.initial)
    && WellFormed(e.initial) && e.initial.pending.None?
    && forall k :: 0 <= k < |events| ==> Orderly(e, run[k], events[k]) && run[k + 1] == React(e, run[k], events[k])
  }

  /** In every orderly run the stored configuration is the fold of the applied changes plus the one open change. */
  lemma {:induction false} ConfigFollowsLog(e: Env, run: seq<Member>, events: seq<Event>, k: nat)
    requires OrderlyRun(e, run, events) && k < |run|
    ensures Follows(e, run[k])
  {
    if k > 0 {
      ConfigFollowsLog(e, run, events, k - 1);
      var m, ev := run[k - 1], events[k - 1];
      assert Orderly(e, m, ev) && run[k] == React(e, m, ev);
      match ev
      case Store(rec) => StoreFollows(e, m, rec);
      case ApplyNext => ApplyFollows(e, m);
      case Truncate(from) => TruncateFollows(e, m, from);
    }
  }
}

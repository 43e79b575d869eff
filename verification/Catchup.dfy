/** Catch-up respects one change at a time. */
module Catchup {
  import opened RaftTypes
  import opened Handlers
  import opened Blocks
  import opened Membership

  datatype Stored = Stored(member: Member, raised: bool)

  predicate Raises(e: Env, m: Member, rec: LogRec)
  {
    IsConfig(rec) && LogUpdate(m.cluster, e.read(rec.command)).Raised?
  }

  /** The follower stores the records of a block until one raises; that one is in the log already. */
  function StoreEach(e: Env, m: Member, recs: seq<LogRec>): Stored
    decreases |recs|
  {
    if recs == [] then Stored(m, false)
    else if Raises(e, m, recs[0]) then Stored(StoreRec(e, m, recs[0]), true)
    else StoreEach(e, StoreRec(e, m, recs[0]), recs[1..])
  }

  function ApplyUpTo(e: Env, m: Member, upto: nat): Member
    requires upto <= |m.log|
    decreases upto - m.applied
  {
    if m.applied >= upto then m
    else
      var m' := ApplyRec(e, m);
      if m'.applied == m.applied then m' else ApplyUpTo(e, m', upto)
  }

  /** Only a block that was stored whole is followed by applying, up to the leader's commit index as far as the log
      goes. */
  function Receive(e: Env, m: Member, block: seq<LogRec>, commit: nat): Member
  {
    var stored := StoreEach(e, m, block);
    if stored.raised then stored.member else ApplyUpTo(e, stored.member, Min(commit, |stored.member.log|))
  }

  /** Every configuration record with an index above `k` and up to `l` is applicable where it stands. */
  ghost predicate ValidChain(e: Env, log: seq<LogRec>, k: nat, l: nat)
  {
    forall i {:trigger ConfigAt(log, i)} :: k < i <= l && ConfigAt(log, i) ==>
      Applicable(Fold(e, log[..i - 1]), e.read(log[i - 1].command))
  }

  ghost predicate AllButLastCommitted(log: seq<LogRec>, commit: nat)
  {
    forall i: nat, j: nat {:trigger ConfigAt(log, i), ConfigAt(log, j)} ::
      ConfigAt(log, i) && ConfigAt(log, j) && i < j ==> i <= commit
  }

  lemma {:induction false} FoldSkips(e: Env, log: seq<LogRec>, a: nat, b: nat)
    requires a <= b <= |log| && forall i :: a < i <= b ==> !ConfigAt(log, i)
    ensures Fold(e, log[..b]) == Fold(e, log[..a])
    decreases b
  {
    if a < b {
      FoldSkips(e, log, a, b - 1);
      assert log[..b][..b - 1] == log[..b - 1];
      assert !ConfigAt(log, b);
    }
  }

  /** The follower holds a prefix of the leader's log, its configuration follows it, and a change that is still open
      is the last one the leader has. */
  ghost predicate OnCourse(e: Env, m: Member, log: seq<LogRec>)
  {
    && Follows(e, m) && |m.log| <= |log| && m.log == log[..|m.log|]
    && forall i: nat, j: nat {:trigger Open(m, i), ConfigAt(log, j)} :: Open(m, i) && ConfigAt(log, j) ==> j <= |m.log|
  }

  /** With no change open, the leader's next record can be stored exactly when its change is applicable there. */
  lemma NextOrderly(e: Env, m: Member, log: seq<LogRec>)
    requires Follows(e, m) && |m.log| < |log| && m.log == log[..|m.log|]
    requires ConfigAt(log, |m.log| + 1) ==> Settled(m)
    ensures Orderly(e, m, Store(log[|m.log|])) <==> ValidChain(e, log, |m.log|, |m.log| + 1)
    ensures Raises(e, m, log[|m.log|]) <==> !ValidChain(e, log, |m.log|, |m.log| + 1)
  {
    var k := |m.log|;
    if ConfigAt(log, k + 1) {
      forall i: nat | m.applied < i <= k
        ensures !ConfigAt(log, i)
      {
        assert !Open(m, i);
      }
      FoldSkips(e, log, m.applied, k);
      assert m.log[..m.applied] == log[..m.applied];
      OneChange(m.cluster, e.read(log[k].command), e.me);
    }
  }

  /** The next `n` records of the leader fit: at most one configuration record, and none when a change is open. */
  ghost predicate Fits(m: Member, log: seq<LogRec>, n: nat)
  {
    && |m.log| + n <= |log| && m.log == log[..|m.log|]
    && (forall j: nat {:trigger ConfigAt(log, j)} :: |m.log| < j <= |m.log| + n && ConfigAt(log, j) ==> Settled(m))
    && (forall i: nat, j: nat {:trigger ConfigAt(log, i), ConfigAt(log, j)} ::
          |m.log| < i < j <= |m.log| + n && ConfigAt(log, i) ==> !ConfigAt(log, j))
  }

  lemma StoreFits(e: Env, m: Member, log: seq<LogRec>, n: nat)
    requires Follows(e, m) && Fits(m, log, n) && n > 0
    ensures var m1 := StoreRec(e, m, log[|m.log|]);
            && m1.log == log[..|m.log| + 1] && m1.applied == m.applied
            && (Follows(e, m1) <==> ValidChain(e, log, |m.log|, |m.log| + 1))
            && (Raises(e, m, log[|m.log|]) <==> !Follows(e, m1))
            && (Follows(e, m1) ==> Fits(m1, log, n - 1))
  {
    var k := |m.log|;
    var m1 := StoreRec(e, m, log[k]);
    NextOrderly(e, m, log);
    StoreFollowsExactly(e, m, log[k]);
    assert m1.log == log[..k + 1];
    forall j: nat {:trigger ConfigAt(log, j)} | k + 1 < j <= k + n && ConfigAt(log, j)
      ensures Settled(m1)
    {
      assert !ConfigAt(log, k + 1);
      assert forall i: nat {:trigger Open(m1, i)} :: Open(m1, i) ==> Open(m, i);
    }
  }

  lemma ChainSplits(e: Env, log: seq<LogRec>, k: nat, j: nat, l: nat)
    requires k <= j <= l
    ensures ValidChain(e, log, k, l) <==> ValidChain(e, log, k, j) && ValidChain(e, log, j, l)
  {
  }

  /** What storing the records above `k` and up to `l` comes to. */
  ghost predicate StoredUpTo(e: Env, log: seq<LogRec>, applied: nat, k: nat, l: nat, s: Stored)
    requires l <= |log|
  {
    if ValidChain(e, log, k, l)
    then !s.raised && Follows(e, s.member) && s.member.log == log[..l] && s.member.applied == applied
    else s.raised && !Follows(e, s.member) && k < |s.member.log|
  }

  lemma StoredOneMore(e: Env, log: seq<LogRec>, applied: nat, k: nat, l: nat, s: Stored)
    requires k < l <= |log| && ValidChain(e, log, k, k + 1) && StoredUpTo(e, log, applied, k + 1, l, s)
    ensures StoredUpTo(e, log, applied, k, l, s)
  {
    ChainSplits(e, log, k, k + 1, l);
  }

  lemma StoredStopped(e: Env, log: seq<LogRec>, applied: nat, k: nat, l: nat, s: Stored)
    requires k < l <= |log| && !ValidChain(e, log, k, k + 1) && s.raised && !Follows(e, s.member) && k < |s.member.log|
    ensures StoredUpTo(e, log, applied, k, l, s)
  {
    ChainSplits(e, log, k, k + 1, l);
  }

  lemma StoreEachHead(e: Env, m: Member, log: seq<LogRec>, k: nat, l: nat)
    requires k < l <= |log|
    ensures StoreEach(e, m, log[k..l]) == if Raises(e, m, log[k]) then Stored(StoreRec(e, m, log[k]), true)
                                          else StoreEach(e, StoreRec(e, m, log[k]), log[k + 1..l])
  {
    assert log[k..l][0] == log[k] && log[k..l][1..] == log[k + 1..l];
  }

  /** A fitting block is stored whole, with the configuration in step, exactly when its change is applicable; otherwise
      storing stops at the change with the configuration out of step. */
  lemma {:induction false} StoreEachExactly(e: Env, m: Member, log: seq<LogRec>, k: nat, l: nat)
    requires Follows(e, m) && |m.log| == k <= l <= |log| && Fits(m, log, l - k)
    ensures StoredUpTo(e, log, m.applied, k, l, StoreEach(e, m, log[k..l]))
    decreases l - k
  {
    if k < l {
      var m1, s := StoreRec(e, m, log[k]), StoreEach(e, m, log[k..l]);
      StoreFits(e, m, log, l - k);
      StoreEachHead(e, m, log, k, l);
      if Raises(e, m, log[k]) {
        StoredStopped(e, log, m.applied, k, l, s);
      } else {
        StoreEachExactly(e, m1, log, k + 1, l);
        StoredOneMore(e, log, m.applied, k, l, s);
      }
    }
  }

  lemma {:induction false} ApplyUpToFollows(e: Env, m: Member, upto: nat)
    requires Follows(e, m) && upto <= |m.log|
    ensures var m' := ApplyUpTo(e, m, upto);
            Follows(e, m') && m'.log == m.log && m'.applied == Max(m.applied, upto)
    decreases upto - m.applied
  {
    if m.applied < upto {
      ApplyFollows(e, m);
      ApplyUpToFollows(e, ApplyRec(e, m), upto);
    }
  }

  lemma BlockFits(e: Env, c: Config, m: Member, log: seq<LogRec>)
    requires OnCourse(e, m, log) && |m.log| < |log|
    ensures var block := CatchupBlock(c, log, |m.log| + 1);
            && Fits(m, log, |block|) && |block| > 0 && block == log[|m.log|..|m.log| + |block|]
  {
    var k := |m.log|;
    var end := CatchupEnd(c, |log|, k + 1);
    var block := CatchupBlock(c, log, k + 1);
    BlockIsSlice(log, k + 1, end, false);
    forall i: nat, j: nat {:trigger ConfigAt(log, i), ConfigAt(log, j)} | k < i < j <= k + |block| && ConfigAt(log, i)
      ensures !ConfigAt(log, j)
    {
      if ConfigAt(log, j) {
        BlockOneConfig(log, k + 1, end, false, i, j);
      }
    }
  }

  /** After applying up to the leader's commit index, an open change is the leader's last one. */
  lemma AppliedOnCourse(e: Env, m: Member, log: seq<LogRec>, commit: nat)
    requires Follows(e, m) && |m.log| <= |log| && m.log == log[..|m.log|]
    requires AllButLastCommitted(log, commit) && Min(commit, |m.log|) <= m.applied
    ensures OnCourse(e, m, log)
  {
    forall i: nat, j: nat {:trigger Open(m, i), ConfigAt(log, j)} | Open(m, i) && ConfigAt(log, j)
      ensures j <= |m.log|
    {
      assert ConfigAt(log, i);
    }
  }

  /** A block that was stored whole. */
  lemma WholeBlock(e: Env, s: Stored, log: seq<LogRec>, l: nat, commit: nat)
    requires AllButLastCommitted(log, commit) && Follows(e, s.member) && l <= |log| && s.member.log == log[..l]
    ensures var m' := ApplyUpTo(e, s.member, Min(commit, l));
            OnCourse(e, m', log) && |m'.log| == l && Min(commit, l) <= m'.applied
  {
    ApplyUpToFollows(e, s.member, Min(commit, l));
    AppliedOnCourse(e, ApplyUpTo(e, s.member, Min(commit, l)), log, commit);
  }

  /** One block brings the follower forward, and keeps it on course exactly when its change is applicable. */
  lemma BlockOnCourse(e: Env, c: Config, m: Member, log: seq<LogRec>, commit: nat)
    requires AllButLastCommitted(log, commit) && OnCourse(e, m, log) && |m.log| < |log|
    ensures var block := CatchupBlock(c, log, |m.log| + 1);
            var m' := Receive(e, m, block, commit);
            && |m.log| < |m'.log|
            && (OnCourse(e, m', log) <==> ValidChain(e, log, |m.log|, |m.log| + |block|))
            && (OnCourse(e, m', log) ==> |m'.log| == |m.log| + |block| && Min(commit, |m'.log|) <= m'.applied)
  {
    var k, block := |m.log|, CatchupBlock(c, log, |m.log| + 1);
    var l := k + |block|;
    BlockFits(e, c, m, log);
    var s := StoreEach(e, m, log[k..l]);
    StoreEachExactly(e, m, log, k, l);
    if ValidChain(e, log, k, l) {
      WholeBlock(e, s, log, l, commit);
    } else {
      assert Receive(e, m, block, commit) == s.member && !OnCourse(e, s.member, log);
    }
  }

  /** The follower is on course now and after every further block, until it has the leader's whole log. */
  ghost predicate StaysOnCourse(e: Env, c: Config, m: Member, log: seq<LogRec>, commit: nat)
    decreases |log| - |m.log|
  {
    && OnCourse(e, m, log)
    && (|m.log| < |log| ==>
          var m' := Receive(e, m, CatchupBlock(c, log, |m.log| + 1), commit);
          |m.log| < |m'.log| && StaysOnCourse(e, c, m', log, commit))
  }

  /** If every configuration record but the last is committed at the leader, a follower on course that is fed catch-up
      blocks stays on course to the end, so that no change is ever started while another is pending, exactly when every
      change still to come is applicable where it stands in the leader's log. */
  lemma {:induction false} CatchUpOneChangeAtATime(e: Env, c: Config, m: Member, log: seq<LogRec>, commit: nat)
    requires AllButLastCommitted(log, commit) && OnCourse(e, m, log)
    ensures StaysOnCourse(e, c, m, log, commit) <==> ValidChain(e, log, |m.log|, |log|)
    decreases |log| - |m.log|
  {
    if |m.log| < |log| {
      var block := CatchupBlock(c, log, |m.log| + 1);
      var m' := Receive(e, m, block, commit);
      BlockOnCourse(e, c, m, log, commit);
      BlockFits(e, c, m, log);
      ChainSplits(e, log, |m.log|, |m.log| + |block|, |log|);
      if OnCourse(e, m', log) {
        CatchUpOneChangeAtATime(e, c, m', log, commit);
      }
    }
  }

  // -------------------------------------------------------------- a chain that is not valid

  const SETTINGS := Settings(1, 10, 20, 20, false, false, false, false)

  /** Removing a stranger, then adding two nodes; a leader logs a removal before it tests it. */
  function Decoded(command: string): Change
  {
    if command == "remove 7" then RemoveNode(7) else if command == "add 8" then AddNode(8) else AddNode(9)
  }

  const ENV := Env(0, Cluster(map[0 := NodeRec(0, false, false), 1 := NodeRec(1, false, false)], None, SETTINGS),
                   Decoded)
  const C1 := LogRec(1, 1, ClusterConfig, "remove 7")
  const C2 := LogRec(2, 1, ClusterConfig, "add 8")
  const C3 := LogRec(3, 1, ClusterConfig, "add 9")
  const EIGHT := ENV.initial.(pending := Some(NodeRec(8, true, false)))

  /** With all three records committed at the leader, the follower raises on the first, never applies anything, starts
      the second change for good, and raises on the third. */
  lemma InvalidChainStalls(c: Config)
    ensures var m0 := Member([], 0, ENV.initial);
            var log := [C1, C2, C3];
            var m1 := Receive(ENV, m0, CatchupBlock(c, log, 1), 3);
            var m2 := Receive(ENV, m1, CatchupBlock(c, log, 2), 3);
            var m3 := Receive(ENV, m2, CatchupBlock(c, log, 3), 3);
            m1 == Member([C1], 0, ENV.initial) && m2 == Member([C1, C2], 0, EIGHT) && m3 == Member(log, 0, EIGHT)
  {
    var log := [C1, C2, C3];
    OneEach(c, log, 1);
    OneEach(c, log, 2);
    OneEach(c, log, 3);
    StallFirst();
    StallSecond();
    assert [C1, C2] + [C3] == log;
  }

  lemma OneEach(c: Config, log: seq<LogRec>, i: nat)
    requires log == [C1, C2, C3] && 1 <= i <= 3
    ensures CatchupBlock(c, log, i) == [log[i - 1]]
  {
    var end := CatchupEnd(c, 3, i);
    assert Block(log, i + 1, end, true) == [];
  }

  lemma StallFirst()
    ensures Receive(ENV, Member([], 0, ENV.initial), [C1], 3) == Member([C1], 0, ENV.initial)
  {
    assert [] + [C1] == [C1];
  }

  lemma StallSecond()
    ensures Receive(ENV, Member([C1], 0, ENV.initial), [C2], 3) == Member([C1, C2], 0, EIGHT)
  {
    assert [C1] + [C2] == [C1, C2] && [C2][1..] == [];
    var m := Member([C1], 0, ENV.initial);
    assert StoreRec(ENV, m, C2) == Member([C1, C2], 0, EIGHT);
    assert StoreEach(ENV, m, [C2]) == StoreEach(ENV, Member([C1, C2], 0, EIGHT), []);
    assert ApplyRec(ENV, Member([C1, C2], 0, EIGHT)) == Member([C1, C2], 0, EIGHT);
  }
}

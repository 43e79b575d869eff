/** Which vote sets of one voter list, or of two lists one change apart, must share a node. */
module Quorums {
  import opened RaftTypes
  import opened Handlers
  import opened Ledger

  /** Wins an election among `list`: more than half. */
  ghost predicate Elected(q: set<Uri>, list: set<Uri>) { q <= list && 2 * |q| > |list| }

  /** Commits a record among `list`: half, rounded up. */
  ghost predicate Stored(q: set<Uri>, list: set<Uri>) { q <= list && |q| >= WinCount(|list|) }

  /** Commits a record when leader `l` is on its way out of `list`: it is not counted, in neither number. */
  ghost predicate StoredLeaving(q: set<Uri>, list: set<Uri>, l: Uri)
  {
    l in list && q <= list - {l} && |q| >= WinCount(|list| - 1)
  }

  ghost predicate Neighbours(a: set<Uri>, b: set<Uri>)
  {
    exists x :: (x !in a && b == a + {x}) || (x !in b && a == b + {x})
  }

  ghost predicate Meeting(a: set<Uri>, b: set<Uri>) { a * b != {} }

  lemma Crowded(a: set<Uri>, b: set<Uri>, list: set<Uri>)
    requires a <= list && b <= list && |a| + |b| > |list|
    ensures Meeting(a, b)
  {
    SubsetSize(a + b, list);
    assert |a + b| + |a * b| == |a| + |b|;
  }

  lemma SameList(r: set<Uri>, e: set<Uri>, list: set<Uri>)
    requires Stored(r, list) && Elected(e, list)
    ensures Meeting(r, e)
  {
    Crowded(r, e, list);
  }

  lemma ElectionsMeet(e: set<Uri>, list: set<Uri>, e': set<Uri>, list': set<Uri>)
    requires Elected(e, list) && Elected(e', list') && Neighbours(list, list')
    ensures Meeting(e, e')
  {
    Crowded(e, e', list + list');
  }

  lemma ReplicationMeets(r: set<Uri>, list: set<Uri>, e: set<Uri>, list': set<Uri>)
    requires Stored(r, list) && Elected(e, list') && Neighbours(list, list') && |list| % 2 == 1
    ensures Meeting(r, e)
  {
    Crowded(r, e, list + list');
  }

  /** A subset of any size up to the whole. */
  lemma {:induction false} Part(list: set<Uri>, n: nat) returns (p: set<Uri>)
    requires n <= |list|
    ensures p <= list && |p| == n
    decreases |list|
  {
    if n == |list| {
      p := list;
    } else {
      var x :| x in list;
      p := Part(list - {x}, n);
    }
  }

  /** In a list of even size, half of it commits, and the other half is enough to win in a neighbouring list. */
  lemma EvenListSplits(list: set<Uri>, list': set<Uri>) returns (r: set<Uri>, e: set<Uri>)
    requires Neighbours(list, list') && |list| % 2 == 0 && list != {}
    ensures Stored(r, list) && Elected(e, list') && !Meeting(r, e)
  {
    var half := |list| / 2;
    if x :| x !in list && list' == list + {x} {
      r := Part(list, half);
      e := list' - r;
      assert |e| == |list'| - |r|;
    } else {
      var x :| x !in list' && list == list' + {x};
      var p := Part(list', half - 1);
      r := p + {x};
      e := list' - p;
      assert |e| == |list'| - |p|;
    }
  }

  /** A commit in one list is sure to reach every election of a neighbouring list exactly when its own list has odd
      size. */
  lemma ReplicationMeetsExactly(list: set<Uri>, list': set<Uri>)
    requires Neighbours(list, list') && list != {}
    ensures (forall r, e :: Stored(r, list) && Elected(e, list') ==> Meeting(r, e)) <==> |list| % 2 == 1
  {
    if |list| % 2 == 1 {
      forall r, e | Stored(r, list) && Elected(e, list')
        ensures Meeting(r, e)
      {
        ReplicationMeets(r, list, e, list');
      }
    } else {
      var r, e := EvenListSplits(list, list');
    }
  }

  /** While the leader is leaving, the nodes that stored a record, together with the leader, meet every election set
      of the old list; without it they meet every election set of the new one. */
  lemma LeavingMeets(q: set<Uri>, list: set<Uri>, l: Uri, e: set<Uri>)
    requires StoredLeaving(q, list, l)
    ensures Elected(e, list) ==> Meeting(q + {l}, e)
    ensures Elected(e, list - {l}) ==> Meeting(q, e)
  {
    if Elected(e, list) {
      Crowded(q + {l}, e, list);
    }
    if Elected(e, list - {l}) {
      Crowded(q, e, list - {l});
    }
  }

  /** A reply makes a candidate leader exactly when the yes votes then win the election. */
  lemma TallyElects(c: Config, n: Node, m: Message)
    requires n.role.Candidate? && m.VoteResponse? && n.term <= m.term
    requires n.role.votes.Keys == Voters(c) && m.sender in Voters(c)
    ensures OnVoteResponse(c, n, m).node.role.Leader? <==>
              Elected(Ayes(n.role.votes[m.sender := Some(m.vote)]), Voters(c))
  {
    var votes := n.role.votes[m.sender := Some(m.vote)];
    assert votes.Keys == Voters(c) && |votes| == |votes.Keys|;
  }

  /** A counted reply advances the commit index to the record exactly when the yes votes then commit it. */
  lemma CountCommits(c: Config, n: Node, index: nat, r: Message)
    requires ValidConfig(c) && n.role.Leader? && index in n.role.tallies && r.AppendResponse? && 1 <= index <= |n.log|
    requires n.commit < index && n.applied <= |n.log|
    ensures AssessLogVote(c, n, index, r).commit == index <==> Stored(Yes(c, Counted(n, index, r)), Voters(c))
  {
    DistinctSize(c.voters);
  }
}

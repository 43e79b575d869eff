/** Elections and commits over whole series of replies, stated over the replies alone: when a candidate becomes leader,
    and when a leader commits the record it has broadcast. */
module Counting {
  import opened RaftTypes
  import opened Handlers
  import opened Ledger
  import opened Quorums
  import opened Answering

  // -------------------------------------------------------------- votes

  /** Replies to a candidacy, from other voters and of its term. */
  ghost predicate VoteReplies(c: Config, n: Node, rs: seq<Message>)
  {
    forall i :: 0 <= i < |rs| ==>
      rs[i].VoteResponse? && rs[i].term == n.term && rs[i].sender in Voters(c) && rs[i].sender != n.me
  }

  /** The latest reply of `y` is a yes. */
  ghost predicate LatestYes(rs: seq<Message>, y: Uri)
  {
    exists i :: 0 <= i < |rs| && rs[i].VoteResponse? && rs[i].sender == y && rs[i].vote &&
      forall j :: i < j < |rs| ==> rs[j].sender != y
  }

  ghost function Supporters(c: Config, me: Uri, rs: seq<Message>): set<Uri>
  {
    set y | y in Voters(c) && (y == me || LatestYes(rs, y))
  }

  lemma LatestOfMore(rs: seq<Message>, r: Message, y: Uri)
    requires r.VoteResponse?
    ensures LatestYes(rs + [r], y) <==> if r.sender == y then r.vote else LatestYes(rs, y)
  {
    var more := rs + [r];
    assert more[|rs|] == r;
    if r.sender != y && LatestYes(rs, y) {
      var i :| 0 <= i < |rs| && rs[i].VoteResponse? && rs[i].sender == y && rs[i].vote &&
        forall j :: i < j < |rs| ==> rs[j].sender != y;
      assert more[i] == rs[i];
    }
    if r.sender != y && LatestYes(more, y) {
      var i :| 0 <= i < |more| && more[i].VoteResponse? && more[i].sender == y && more[i].vote &&
        forall j :: i < j < |more| ==> more[j].sender != y;
      assert rs[i] == more[i] && forall j :: i < j < |rs| ==> rs[j] == more[j];
    }
  }

  /** After the first `k` replies the candidate and its supporters are more than half of the list. */
  ghost predicate WonBy(c: Config, me: Uri, rs: seq<Message>, k: nat)
  {
    1 <= k <= |rs| && Elected(Supporters(c, me, rs[..k]), Voters(c))
  }

  ghost predicate Won(c: Config, me: Uri, rs: seq<Message>) { exists k :: WonBy(c, me, rs, k) }

  lemma WonMore(c: Config, me: Uri, rs: seq<Message>, r: Message)
    ensures Won(c, me, rs + [r]) <==> Won(c, me, rs) || Elected(Supporters(c, me, rs + [r]), Voters(c))
  {
    var more := rs + [r];
    assert more[..|more|] == more;
    forall k | 0 <= k <= |rs|
      ensures WonBy(c, me, more, k) <==> WonBy(c, me, rs, k)
    {
      assert more[..k] == rs[..k];
    }
    assert WonBy(c, me, more, |more|) <==> Elected(Supporters(c, me, more), Voters(c));
  }

  /** The candidate `n` has heard `rs` and not won yet: its votes are those of the replies. */
  ghost predicate Standing(c: Config, n: Node, n': Node, rs: seq<Message>)
  {
    && n'.role.Candidate? && n' == n.(role := n'.role) && n'.role.votes.Keys == Voters(c)
    && forall y :: y in Voters(c) ==> (n'.role.votes[y] == Some(true) <==> y in Supporters(c, n.me, rs))
  }

  lemma OneMoreVote(c: Config, n: Node, n': Node, rs: seq<Message>, r: Message)
    requires Standing(c, n, n', rs) && VoteReplies(c, n, rs + [r])
    ensures var more := Supporters(c, n.me, rs + [r]);
            var n'' := OnMessage(c, n', r).node;
            if Elected(more, Voters(c)) then n''.role.Leader? && n''.term == n.term && n''.me == n.me
            else Standing(c, n, n'', rs + [r])
  {
    assert (rs + [r])[|rs|] == r;
    var votes := n'.role.votes[r.sender := Some(r.vote)];
    forall y | y in Voters(c)
      ensures votes[y] == Some(true) <==> y in Supporters(c, n.me, rs + [r])
    {
      LatestOfMore(rs, r, y);
    }
    assert votes.Keys == Voters(c) && |votes| == |votes.Keys|;
    assert Ayes(votes) == Supporters(c, n.me, rs + [r]);
    assert OnMessage(c, n', r) == OnVoteResponse(c, n', r);
  }

  lemma {:induction false} CampaignSoFar(c: Config, n: Node, rs: seq<Message>)
    requires Standing(c, n, n, []) && VoteReplies(c, n, rs)
    ensures var n' := AfterAll(c, n, rs);
            if Won(c, n.me, rs) then n'.role.Leader? && n'.term == n.term && n'.me == n.me else Standing(c, n, n', rs)
    decreases |rs|
  {
    if rs == [] {
      assert forall k :: !WonBy(c, n.me, rs, k);
    } else {
      var front, r := rs[..|rs| - 1], rs[|rs| - 1];
      assert rs == front + [r];
      CampaignSoFar(c, n, front);
      WonMore(c, n.me, front, r);
      if !Won(c, n.me, front) {
        OneMoreVote(c, n, AfterAll(c, n, front), front, r);
      }
    }
  }

  /** What a node that stands asks of `u`. */
  function Request(n: Node, u: Uri): Message
  {
    RequestVote(n.me, u, n.term + 1, |n.log|, if n.log == [] then 0 else n.log[|n.log| - 1].term)
  }

  ghost function Requests(c: Config, n: Node): set<Message>
  {
    set u | u in Voters(c) && u != n.me :: Request(n, u)
  }

  lemma CampaignAsks(c: Config, n: Node)
    ensures StartCampaign(c, n).sent == Requests(c, n)
  {
    var sent := StartCampaign(c, n).sent;
    forall m | m in sent
      ensures m in Requests(c, n)
    {
      assert m == Request(n, m.receiver);
    }
    forall u | u in Voters(c) && u != n.me
      ensures Request(n, u) in sent
    {
      assert u in c.voters;
    }
  }

  /** A node that stands asks every other voter; and after any series of replies of its term it is leader if and only if
      at some point it and the voters whose latest reply was yes were more than half of the list. */
  lemma ElectedByReplies(c: Config, n: Node, rs: seq<Message>)
    requires n.me in Voters(c) && VoteReplies(c, StartCampaign(c, n).node, rs)
    ensures var out := StartCampaign(c, n);
            && out.node.term == n.term + 1
            && out.sent == Requests(c, n)
            && (AfterAll(c, out.node, rs).role.Leader? <==> exists k :: WonBy(c, n.me, rs, k))
  {
    var n1 := StartCampaign(c, n).node;
    CampaignAsks(c, n);
    assert forall y :: !LatestYes([], y);
    assert n1.role.votes.Keys == Voters(c);
    CampaignSoFar(c, n1, rs);
  }

  // -------------------------------------------------------------- replies to the broadcast of a record

  /** Serial `s` went to voter `y` in a broadcast that started with serial `base`. */
  ghost predicate IsSerial(c: Config, base: nat, y: Uri, s: nat)
  {
    base <= s < base + |c.voters| && c.voters[s - base] == y
  }

  /** Replies to a broadcast of leader `n` that started with serial `base`, from other voters and of its term. */
  ghost predicate RecordReplies(c: Config, n: Node, base: nat, rs: seq<Message>)
  {
    forall i :: 0 <= i < |rs| ==>
      && rs[i].AppendResponse? && rs[i].term == n.term && rs[i].sender in Voters(c) && rs[i].sender != n.me
      && IsSerial(c, base, rs[i].sender, rs[i].originalSerial)
  }

  ghost predicate Replied(rs: seq<Message>, y: Uri) { exists i :: 0 <= i < |rs| && rs[i].sender == y }

  /** The first reply of `y`, which is the one that counts, is a yes. */
  ghost predicate FirstYes(rs: seq<Message>, y: Uri)
  {
    exists i :: 0 <= i < |rs| && rs[i].AppendResponse? && rs[i].sender == y && rs[i].success &&
      forall j :: 0 <= j < i ==> rs[j].sender != y
  }

  ghost function Keepers(c: Config, me: Uri, rs: seq<Message>): set<Uri>
  {
    set y | y in Voters(c) && (y == me || FirstYes(rs, y))
  }

  ghost function Heard(c: Config, me: Uri, rs: seq<Message>): set<Uri>
  {
    set y | y in Voters(c) && (y == me || Replied(rs, y))
  }

  lemma FirstOfMore(rs: seq<Message>, r: Message, y: Uri)
    requires r.AppendResponse?
    ensures Replied(rs + [r], y) <==> Replied(rs, y) || r.sender == y
    ensures FirstYes(rs + [r], y) <==> FirstYes(rs, y) || (r.sender == y && r.success && !Replied(rs, y))
  {
    var more := rs + [r];
    assert more[|rs|] == r && forall j :: 0 <= j < |rs| ==> more[j] == rs[j];
    if FirstYes(rs, y) {
      var i :| 0 <= i < |rs| && rs[i].AppendResponse? && rs[i].sender == y && rs[i].success &&
        forall j :: 0 <= j < i ==> rs[j].sender != y;
      assert more[i] == rs[i];
    }
    if i :| 0 <= i < |rs| && rs[i].sender == y {
      assert more[i].sender == y;
    }
  }

  /** After the first `k` replies the leader and the voters that said yes are half of the list, rounded up. */
  ghost predicate KeptBy(c: Config, me: Uri, rs: seq<Message>, k: nat)
  {
    1 <= k <= |rs| && Stored(Keepers(c, me, rs[..k]), Voters(c))
  }

  ghost predicate Kept(c: Config, me: Uri, rs: seq<Message>) { exists k :: KeptBy(c, me, rs, k) }

  lemma KeptMore(c: Config, me: Uri, rs: seq<Message>, r: Message)
    ensures Kept(c, me, rs + [r]) <==> Kept(c, me, rs) || Stored(Keepers(c, me, rs + [r]), Voters(c))
  {
    var more := rs + [r];
    assert more[..|more|] == more;
    forall k | 0 <= k <= |rs|
      ensures KeptBy(c, me, more, k) <==> KeptBy(c, me, rs, k)
    {
      assert more[..k] == rs[..k];
    }
    assert KeptBy(c, me, more, |more|) <==> Stored(Keepers(c, me, more), Voters(c));
  }

  /** An unanswered message of the broadcast of the record at `index`. */
  ghost predicate Awaited(n: Node, y: Uri, s: nat, index: nat)
    requires n.role.Leader?
  {
    && s in n.role.active && n.role.active[s].uri == y && n.role.active[s].broadcast
    && n.role.active[s].message.AppendEntries? && |n.role.active[s].message.entries| == 1
    && n.role.active[s].message.entries[0].index == index
  }

  /** The leader keeps its log and seat, and all trackers but that of serial `s`; new ones get new serials. */
  ghost predicate Settles(n: Node, n': Node, s: nat)
    requires n.role.Leader?
  {
    && n'.role.Leader? && n'.me == n.me && n'.term == n.term && n'.log == n.log && n.nextSerial <= n'.nextSerial
    && forall s' {:trigger s' in n'.role.active} :: s' < n.nextSerial ==>
         (s' in n'.role.active <==> s' in n.role.active && s' != s) &&
         (s' in n'.role.active ==> n'.role.active[s'] == n.role.active[s'])
  }

  /** What one awaited reply does. */
  lemma ReplyCounts(c: Config, n: Node, r: Message, index: nat)
    requires n.role.Leader? && r.AppendResponse? && r.originalSerial < n.nextSerial && index <= |n.log|
    requires Awaited(n, r.sender, r.originalSerial, index) && index in n.role.tallies
    ensures var n', votes := OnAppendResponse(c, n, r).node, n.role.tallies[index][r.sender := r.success];
            && Settles(n, n', r.originalSerial)
            && (|votes| != |c.voters| ==> index in n'.role.tallies && n'.role.tallies[index] == votes)
            && n'.commit == if |Yes(c, votes)| >= WinCount(|c.voters|) then Max(n.commit, index) else n.commit
  {
    var n0 := n.(matchIndex := n.matchIndex[r.sender := r.maxIndex]);
    var n1 := n0.(role := n0.role.(active := n0.role.active - {r.originalSerial}));
    var n2 := AssessLogVote(c, n1, index, r);
    assert Settles(n, n2, r.originalSerial);
    var out := OnAppendResponse(c, n, r);
    assert out == SendCatchup(c, n2, r) || out == Out(n2, {});
  }

  /** A reply that is not awaited changes nothing but the follower's last known index. */
  lemma ReplyIgnored(c: Config, n: Node, r: Message)
    requires n.role.Leader? && r.AppendResponse? && r.originalSerial !in n.role.active
    ensures OnAppendResponse(c, n, r).node == n.(matchIndex := n.matchIndex[r.sender := r.maxIndex])
  {
  }

  /** Leader `n` has broadcast the record at `index` with serials from `base` on and heard `rs`. */
  ghost predicate Tallying(c: Config, n: Node, base: nat, index: nat, rs: seq<Message>, n': Node)
  {
    && n'.role.Leader? && n'.me == n.me && n'.term == n.term && n'.log == n.log && base + |c.voters| <= n'.nextSerial
    && (forall y, s {:trigger IsSerial(c, base, y, s)} :: IsSerial(c, base, y, s) && y != n.me ==>
          if Replied(rs, y) then s !in n'.role.active else Awaited(n', y, s, index))
    && (Heard(c, n.me, rs) != Voters(c) ==>
          index in n'.role.tallies && TallyOf(c, n.me, rs, n'.role.tallies[index]))
    && n'.commit == if Kept(c, n.me, rs) then index else n.commit
  }

  lemma SameSizeSame(a: set<Uri>, b: set<Uri>)
    requires a <= b && |a| == |b|
    ensures a == b
  {
    if y :| y in b && y !in a {
      SubsetSize(a, b - {y});
    }
  }

  /** A reply from a voter that has replied before. */
  lemma RepeatedReply(c: Config, n: Node, base: nat, index: nat, rs: seq<Message>, n': Node, r: Message)
    requires Tallying(c, n, base, index, rs, n') && RecordReplies(c, n, base, rs + [r]) && Replied(rs, r.sender)
    ensures Tallying(c, n, base, index, rs + [r], OnMessage(c, n', r).node)
  {
    assert (rs + [r])[|rs|] == r;
    assert IsSerial(c, base, r.sender, r.originalSerial);
    ReplyIgnored(c, n', r);
    assert OnMessage(c, n', r) == OnAppendResponse(c, n', r);
    SameSets(c, n.me, rs, r);
    KeptMore(c, n.me, rs, r);
    assert rs != [] && rs[..|rs|] == rs;
    assert Stored(Keepers(c, n.me, rs), Voters(c)) ==> KeptBy(c, n.me, rs, |rs|);
  }

  lemma SameSets(c: Config, me: Uri, rs: seq<Message>, r: Message)
    requires r.AppendResponse? && Replied(rs, r.sender)
    ensures Keepers(c, me, rs + [r]) == Keepers(c, me, rs) && Heard(c, me, rs + [r]) == Heard(c, me, rs)
    ensures forall y :: Replied(rs + [r], y) <==> Replied(rs, y)
  {
    forall y
      ensures Replied(rs + [r], y) <==> Replied(rs, y)
      ensures FirstYes(rs + [r], y) <==> FirstYes(rs, y)
    {
      FirstOfMore(rs, r, y);
    }
  }

  lemma MoreSets(c: Config, me: Uri, rs: seq<Message>, r: Message)
    requires r.AppendResponse? && !Replied(rs, r.sender) && r.sender in Voters(c) && r.sender != me
    ensures Heard(c, me, rs + [r]) == Heard(c, me, rs) + {r.sender} && r.sender !in Heard(c, me, rs)
    ensures r.sender !in Keepers(c, me, rs)
    ensures Keepers(c, me, rs + [r]) == Keepers(c, me, rs) + if r.success then {r.sender} else {}
    ensures forall y :: Replied(rs + [r], y) <==> Replied(rs, y) || y == r.sender
  {
    forall y
      ensures Replied(rs + [r], y) <==> Replied(rs, y) || y == r.sender
      ensures FirstYes(rs + [r], y) <==> FirstYes(rs, y) || (r.sender == y && r.success)
      ensures FirstYes(rs, y) ==> Replied(rs, y)
    {
      FirstOfMore(rs, r, y);
    }
  }

  /** A tally says of every voter heard whether it keeps the record. */
  ghost predicate TallyIs(votes: map<Uri, bool>, heard: set<Uri>, keep: set<Uri>)
  {
    votes.Keys == heard && forall y :: y in votes ==> (votes[y] <==> y in keep)
  }

  lemma TallyIsMore(votes: map<Uri, bool>, heard: set<Uri>, keep: set<Uri>, y: Uri, yes: bool)
    requires TallyIs(votes, heard, keep) && keep <= heard && y !in heard
    ensures TallyIs(votes[y := yes], heard + {y}, keep + if yes then {y} else {})
  {
  }

  lemma YesIs(c: Config, votes: map<Uri, bool>, heard: set<Uri>, keep: set<Uri>)
    requires ValidConfig(c) && TallyIs(votes, heard, keep) && keep <= heard <= Voters(c)
    ensures Yes(c, votes) == keep && (|votes| == |c.voters| ==> heard == Voters(c))
  {
    assert |votes| == |votes.Keys|;
    DistinctSize(c.voters);
    if |votes| == |c.voters| {
      SameSizeSame(heard, Voters(c));
    }
  }

  lemma KeepersHeard(c: Config, me: Uri, rs: seq<Message>)
    ensures Keepers(c, me, rs) <= Heard(c, me, rs) <= Voters(c)
  {
    forall y | y in Keepers(c, me, rs)
      ensures y in Heard(c, me, rs)
    {
      assert FirstYes(rs, y) ==> Replied(rs, y);
    }
  }

  ghost predicate TallyOf(c: Config, me: Uri, rs: seq<Message>, votes: map<Uri, bool>)
  {
    TallyIs(votes, Heard(c, me, rs), Keepers(c, me, rs))
  }

  lemma TallyOfMore(c: Config, me: Uri, rs: seq<Message>, votes: map<Uri, bool>, r: Message)
    requires ValidConfig(c) && TallyOf(c, me, rs, votes)
    requires r.AppendResponse? && !Replied(rs, r.sender) && r.sender in Voters(c) && r.sender != me
    ensures var more := votes[r.sender := r.success];
            && TallyOf(c, me, rs + [r], more) && Yes(c, more) == Keepers(c, me, rs + [r])
            && (|more| == |c.voters| ==> Heard(c, me, rs + [r]) == Voters(c))
  {
    var more, heard, keep := votes[r.sender := r.success], Heard(c, me, rs + [r]), Keepers(c, me, rs + [r]);
    MoreSets(c, me, rs, r);
    KeepersHeard(c, me, rs);
    TallyIsMore(votes, Heard(c, me, rs), Keepers(c, me, rs), r.sender, r.success);
    KeepersHeard(c, me, rs + [r]);
    YesIs(c, more, heard, keep);
  }

  lemma FreshCount(c: Config, n: Node, base: nat, index: nat, rs: seq<Message>, n': Node, r: Message)
    requires ValidConfig(c) && n.me in Voters(c) && n.commit < index <= |n.log|
    requires Tallying(c, n, base, index, rs, n') && r.AppendResponse? && !Replied(rs, r.sender)
    requires r.sender in Voters(c) && r.sender != n.me && IsSerial(c, base, r.sender, r.originalSerial)
    ensures var n'' := OnAppendResponse(c, n', r).node;
            && Settles(n', n'', r.originalSerial)
            && (Heard(c, n.me, rs + [r]) != Voters(c) ==>
                  index in n''.role.tallies && TallyOf(c, n.me, rs + [r], n''.role.tallies[index]))
            && n''.commit == if Kept(c, n.me, rs + [r]) then index else n.commit
  {
    MoreSets(c, n.me, rs, r);
    KeptMore(c, n.me, rs, r);
    assert Awaited(n', r.sender, r.originalSerial, index);
    TallyOfMore(c, n.me, rs, n'.role.tallies[index], r);
    ReplyCounts(c, n', r, index);
    DistinctSize(c.voters);
  }

  /** The first reply of a voter. */
  lemma FreshReply(c: Config, n: Node, base: nat, index: nat, rs: seq<Message>, n': Node, r: Message)
    requires ValidConfig(c) && n.me in Voters(c) && n.commit < index <= |n.log|
    requires Tallying(c, n, base, index, rs, n') && RecordReplies(c, n, base, rs + [r]) && !Replied(rs, r.sender)
    ensures Tallying(c, n, base, index, rs + [r], OnMessage(c, n', r).node)
  {
    assert (rs + [r])[|rs|] == r;
    MoreSets(c, n.me, rs, r);
    FreshCount(c, n, base, index, rs, n', r);
    FreshTrackers(c, n, base, index, rs, n', r);
    assert OnMessage(c, n', r) == OnAppendResponse(c, n', r);
  }

  lemma FreshTrackers(c: Config, n: Node, base: nat, index: nat, rs: seq<Message>, n': Node, r: Message)
    requires ValidConfig(c) && Tallying(c, n, base, index, rs, n') && r.AppendResponse? && !Replied(rs, r.sender)
    requires IsSerial(c, base, r.sender, r.originalSerial)
    requires forall y :: Replied(rs + [r], y) <==> Replied(rs, y) || y == r.sender
    requires Settles(n', OnAppendResponse(c, n', r).node, r.originalSerial)
    ensures var n'' := OnAppendResponse(c, n', r).node;
            forall y, s {:trigger IsSerial(c, base, y, s)} :: IsSerial(c, base, y, s) && y != n.me ==>
              if Replied(rs + [r], y) then s !in n''.role.active else Awaited(n'', y, s, index)
  {
    var n'' := OnAppendResponse(c, n', r).node;
    forall y, s {:trigger IsSerial(c, base, y, s)} | IsSerial(c, base, y, s) && y != n.me
      ensures if Replied(rs + [r], y) then s !in n''.role.active else Awaited(n'', y, s, index)
    {
      assert s in n''.role.active <==> s in n'.role.active && s != r.originalSerial;
    }
  }

  lemma {:induction false} TallySoFar(c: Config, n: Node, base: nat, index: nat, rs: seq<Message>)
    requires ValidConfig(c) && n.me in Voters(c) && n.commit < index <= |n.log|
    requires Tallying(c, n, base, index, [], n) && RecordReplies(c, n, base, rs)
    ensures Tallying(c, n, base, index, rs, AfterAll(c, n, rs))
    decreases |rs|
  {
    if rs != [] {
      var front, r := rs[..|rs| - 1], rs[|rs| - 1];
      assert rs == front + [r];
      TallySoFar(c, n, base, index, front);
      if Replied(front, r.sender) {
        RepeatedReply(c, n, base, index, front, AfterAll(c, n, front), r);
      } else {
        FreshReply(c, n, base, index, front, AfterAll(c, n, front), r);
      }
    }
  }

  /** The record that a leader stores next. */
  function NewRecord(n: Node, code: RecordCode, command: string): LogRec { LogRec(|n.log| + 1, n.term, code, command) }

  /** What a leader that has stored `rec` sends to `y` under serial `s`. */
  function Proposal(n: Node, y: Uri, s: nat, rec: LogRec): Message
  {
    AppendEntries(n.me, y, n.term, s, |n.log|, LastTerm(n.log), [rec], n.commit)
  }

  lemma ProposalTracked(c: Config, n: Node, n1: Node, rec: LogRec, y: Uri, s: nat)
    requires n.role.Leader? && n1.role.Leader? && IsSerial(c, n.nextSerial, y, s) && y != n.me
    requires n1 == n.(log := n1.log, role := n.role.(tallies := n1.role.tallies))
    ensures var out := Broadcast(c, n1, |n.log|, LastTerm(n.log), [rec]);
            Proposal(n, y, s, rec) in out.sent && Awaited(out.node, y, s, rec.index)
  {
    var trackers := TrackersTo(c, n1, |n.log|, LastTerm(n.log), [rec], |c.voters|);
    assert IsSlot(c, n.nextSerial, n.me, s);
    assert s in trackers && trackers[s].message in MessagesOf(trackers);
  }

  /** A new record goes at the end of the log and out to every other voter, under a serial of its own. */
  lemma ProposalReaches(c: Config, n: Node, code: RecordCode, command: string)
    requires ValidConfig(c) && n.role.Leader? && n.me in Voters(c) && n.commit <= |n.log|
    ensures var out, rec := AppendAndBroadcast(c, n, code, command), NewRecord(n, code, command);
            && out.node.log == n.log + [rec]
            && (forall y, s {:trigger IsSerial(c, n.nextSerial, y, s)} ::
                  IsSerial(c, n.nextSerial, y, s) && y != n.me ==> Proposal(n, y, s, rec) in out.sent)
            && Tallying(c, out.node, n.nextSerial, rec.index, [], out.node)
  {
    var out, rec := AppendAndBroadcast(c, n, code, command), NewRecord(n, code, command);
    var n1 := n.(log := n.log + [rec], role := n.role.(tallies := n.role.tallies[rec.index := map[n.me := true]]));
    assert out == Broadcast(c, n1, |n.log|, LastTerm(n.log), [rec]);
    forall y, s {:trigger IsSerial(c, n.nextSerial, y, s)} | IsSerial(c, n.nextSerial, y, s) && y != n.me
      ensures Proposal(n, y, s, rec) in out.sent && Awaited(out.node, y, s, rec.index)
    {
      ProposalTracked(c, n, n1, rec, y, s);
    }
    assert forall y :: !Replied([], y) && !FirstYes([], y);
    assert Heard(c, n.me, []) == {n.me} && Keepers(c, n.me, []) == {n.me};
  }

  /** After any series of replies to the broadcast of a record, its leader has committed it if and only if at some point
      it and the voters whose first reply was yes were at least half of the list, rounded up. */
  lemma CommittedByReplies(c: Config, n: Node, code: RecordCode, command: string, rs: seq<Message>)
    requires ValidConfig(c) && n.role.Leader? && n.me in Voters(c) && n.commit <= |n.log|
    requires RecordReplies(c, n, n.nextSerial, rs)
    ensures var n' := AfterAll(c, AppendAndBroadcast(c, n, code, command).node, rs);
            && n'.role.Leader? && n'.log == n.log + [NewRecord(n, code, command)]
            && (n'.commit == |n.log| + 1 <==> exists k :: KeptBy(c, n.me, rs, k))
            && (n'.commit == |n.log| + 1 || n'.commit == n.commit)
  {
    var n1 := AppendAndBroadcast(c, n, code, command).node;
    ProposalReaches(c, n, code, command);
    TallySoFar(c, n1, n.nextSerial, |n.log| + 1, rs);
  }

  // -------------------------------------------------------------- tallies that come and go

  lemma AssessedTallies(c: Config, n: Node, index: nat, r: Message)
    requires n.role.Leader? && r.AppendResponse? && index <= |n.log| && index in n.role.tallies
    ensures AssessLogVote(c, n, index, r).role == n.role.(tallies := TalliesAfter(c, n, index, r))
  {
  }

  lemma VotersIn<T>(votes: map<Uri, T>, c: Config)
    requires ValidConfig(c) && votes.Keys <= Voters(c)
    ensures |votes| == |c.voters| <==> votes.Keys == Voters(c)
  {
    assert |votes| == |votes.Keys|;
    DistinctSize(c.voters);
    if |votes| == |c.voters| {
      SameSizeSame(votes.Keys, Voters(c));
    }
  }

  /** Once every voter has answered, the tally is dropped. */
  lemma FullTallyDropped(c: Config, n: Node, index: nat, r: Message)
    requires ValidConfig(c) && n.role.Leader? && r.AppendResponse? && index <= |n.log| && index in n.role.tallies
    requires n.role.tallies[index].Keys <= Voters(c) && r.sender in Voters(c)
    ensures index in AssessLogVote(c, n, index, r).role.tallies <==>
            n.role.tallies[index].Keys + {r.sender} != Voters(c)
  {
    AssessedTallies(c, n, index, r);
    VotersIn(Counted(n, index, r), c);
    assert Counted(n, index, r).Keys == n.role.tallies[index].Keys + {r.sender};
  }

  /** The last index that `y` reported in a series of replies, or else `was`. */
  ghost function Reported(rs: seq<Message>, y: Uri, was: Option<nat>): Option<nat>
  {
    if rs == [] then was
    else
      var r := rs[|rs| - 1];
      if r.AppendResponse? && r.sender == y then Some(r.maxIndex) else Reported(rs[..|rs| - 1], y, was)
  }

  function Known(n: Node, y: Uri): Option<nat> { if y in n.matchIndex then Some(n.matchIndex[y]) else None }

  /** A leader remembers of every follower the last index it reported, whatever else its replies say. */
  lemma {:induction false} RemembersReported(c: Config, n: Node, rs: seq<Message>, y: Uri)
    requires n.role.Leader? && forall i :: 0 <= i < |rs| ==> rs[i].AppendResponse? && rs[i].term <= n.term
    ensures var n' := AfterAll(c, n, rs);
            n'.role.Leader? && n'.term == n.term && Known(n', y) == Reported(rs, y, Known(n, y))
    decreases |rs|
  {
    if rs != [] {
      var front, r := rs[..|rs| - 1], rs[|rs| - 1];
      RemembersReported(c, n, front, y);
      ReplyRemembers(c, AfterAll(c, n, front), r);
    }
  }

  /** Still leader of its term, with what the followers reported. */
  predicate SameReports(n: Node, n': Node) { n'.role.Leader? && n'.term == n.term && n'.matchIndex == n.matchIndex }

  lemma ResendKeepsReports(c: Config, n: Node, r: Message)
    requires n.role.Leader? && r.AppendResponse?
    ensures SameReports(n, SendBackdown(c, n, r).node) && SameReports(n, SendCatchup(c, n, r).node)
  {
  }

  lemma AssessKeepsReports(c: Config, n: Node, index: nat, r: Message)
    requires n.role.Leader? && r.AppendResponse? && index <= |n.log|
    ensures SameReports(n, AssessLogVote(c, n, index, r))
  {
  }

  lemma ReplyRemembers(c: Config, n: Node, r: Message)
    requires n.role.Leader? && r.AppendResponse? && r.term <= n.term
    ensures SameReports(n.(matchIndex := n.matchIndex[r.sender := r.maxIndex]), OnMessage(c, n, r).node)
  {
    var n0 := n.(matchIndex := n.matchIndex[r.sender := r.maxIndex]);
    var s := r.originalSerial;
    assert OnMessage(c, n, r) == OnAppendResponse(c, n, r);
    if s in n.role.active && n.role.active[s].uri == r.sender && n.role.active[s].message.AppendEntries? {
      var t := n.role.active[s];
      var n1 := n0.(role := n0.role.(active := n0.role.active - {s}));
      ResendKeepsReports(c, n1, r);
      if t.broadcast && t.message.entries != [] && t.message.entries[0].index <= |n.log| {
        var n2 := AssessLogVote(c, n1, t.message.entries[0].index, r);
        AssessKeepsReports(c, n1, t.message.entries[0].index, r);
        ResendKeepsReports(c, n2, r);
      }
    }
  }

  /** A record that goes out again without a tally gets one in which the leader and exactly the voters known to reach it
      say yes; an existing tally is left alone. */
  lemma GuessedTally(c: Config, n: Node, indexes: set<nat>, i: nat)
    requires n.role.Leader? && i in indexes
    ensures var n' := EnsureTallies(c, n, indexes);
            && n' == n.(role := n'.role) && n'.role.Leader? && n'.role.active == n.role.active
            && i in n'.role.tallies
            && if i in n.role.tallies then n'.role.tallies[i] == n.role.tallies[i]
               else n'.role.tallies[i].Keys == Voters(c) &&
                    Yes(c, n'.role.tallies[i]) ==
                    set y | y in Voters(c) && (y == n.me || (y in n.matchIndex && n.matchIndex[y] >= i))
  {
  }

  /** After a backdown or catch-up message every record in it that the leader still tallies, or had to, has a tally. */
  lemma ResentAreTallied(c: Config, n: Node, r: Message)
    requires n.role.Leader? && r.AppendResponse?
    ensures var i := BackdownIndex(r.maxIndex, r.prevLogIndex);
            1 <= i <= |n.log| && i < n.commit ==> i in SendBackdown(c, n, r).node.role.tallies
    ensures forall i {:trigger i in SendCatchup(c, n, r).node.role.tallies} ::
              r.maxIndex < i <= r.maxIndex + |CatchupBlock(c, n.log, r.maxIndex + 1)| && i > n.commit ==>
                i in SendCatchup(c, n, r).node.role.tallies
  {
    var k := r.maxIndex + 1;
    var block := CatchupBlock(c, n.log, k);
    forall i: nat {:trigger i in SendCatchup(c, n, r).node.role.tallies} | k <= i < k + |block| && i > n.commit
      ensures i in SendCatchup(c, n, r).node.role.tallies
    {
      assert IsOpen(i, n.commit) && i in OpenIndexes(k, |block|, n.commit);
    }
  }
}

/** How a node lets its messages into the role one at a time: each arrival is filed in a dictionary that keeps
    insertion order, and waits on a condition variable until its entry is the first. Timeouts are left out. */
module Serializer {
  import opened RaftTypes

  type Key = nat                   // sender:serial

  datatype Gate = Gate(
    active: seq<Key>,              // filed messages, oldest first
    inside: set<Key>,              // those inside role.on_message
    woken: set<Key>,               // waiting ones that were notified and have not looked again
    blocked: Option<Key>,          // one inside that has called back in and waits for itself
    entered: seq<Key>)             // history: the order in which messages went in

  datatype Step =
    | Arrive(key: Key)             // filed; goes straight in when nobody else is filed
    | Look(key: Key)               // a notified waiter looks whether it is first
    | Finish(key: Key)             // done: unfiled, and everybody is notified
    | Reenter(key: Key)            // demoted while handling it: the same message is handed in again from inside

  const OPEN := Gate([], {}, {}, None, [])

  function Waiting(g: Gate): set<Key> { (set k | k in g.active) - g.inside }

  /** Serial numbers are drawn once, so a key never arrives twice. */
  predicate Enabled(g: Gate, arrived: seq<Key>, step: Step)
  {
    match step
    case Arrive(k) => k !in arrived
    case Look(k) => k in g.woken
    case Finish(k) => k in g.inside && g.blocked != Some(k)
    case Reenter(k) => k in g.inside && g.blocked != Some(k)
  }

  function Drop(s: seq<Key>, k: Key): seq<Key>
  {
    if s == [] then [] else (if s[0] == k then [] else [s[0]]) + Drop(s[1..], k)
  }

  function Act(g: Gate, step: Step): Gate
  {
    match step
    case Arrive(k) =>
      var active := g.active + [k];
      if |active| > 1 then g.(active := active)
      else g.(active := active, inside := g.inside + {k}, entered := g.entered + [k])
    case Look(k) =>
      if g.active != [] && g.active[0] == k then
        if g.blocked == Some(k) then g.(woken := g.woken - {k}, blocked := None)
        else g.(woken := g.woken - {k}, inside := g.inside + {k}, entered := g.entered + [k])
      else g.(woken := g.woken - {k})
    case Finish(k) =>
      var left := g.(active := Drop(g.active, k), inside := g.inside - {k});
      left.(woken := Waiting(left) + if left.blocked.Some? then {left.blocked.value} else {})
    case Reenter(k) =>
      if |g.active| > 1 then g.(blocked := Some(k)) else g
  }

  function Arrived(arrived: seq<Key>, step: Step): seq<Key> { if step.Arrive? then arrived + [step.key] else arrived }

  ghost predicate IsRun(run: seq<Gate>, arrived: seq<seq<Key>>, steps: seq<Step>)
  {
    && |run| == |arrived| == |steps| + 1 && run[0] == OPEN && arrived[0] == []
    && forall i :: 0 <= i < |steps| ==>
         Enabled(run[i], arrived[i], steps[i]) && run[i + 1] == Act(run[i], steps[i]) &&
         arrived[i + 1] == Arrived(arrived[i], steps[i])
  }

  ghost predicate Distinct(s: seq<Key>) { forall i, j :: 0 <= i < j < |s| ==> s[i] != s[j] }

  /** Those that have not entered yet: all that is filed, less the first when it is inside. */
  ghost function Outside(g: Gate): seq<Key>
  {
    if g.active != [] && g.active[0] in g.inside then g.active[1..] else g.active
  }

  /** Only the first filed message can be inside; whoever is next has been told; nobody has overtaken. */
  ghost predicate Inv(g: Gate, arrived: seq<Key>)
  {
    && Distinct(arrived) && arrived == g.entered + Outside(g) && Distinct(g.active)
    && (forall k :: k in g.active ==> k in arrived)
    && (g.inside == {} || (g.active != [] && g.inside == {g.active[0]}))
    && (g.active != [] && g.inside == {} ==> g.active[0] in g.woken)
    && (forall k :: k in g.woken ==> k in g.active && k !in g.inside)
    && (g.blocked.Some? ==> g.inside == {g.blocked.value} && |g.active| > 1)
  }

  lemma DropFirst(s: seq<Key>)
    requires s != [] && Distinct(s)
    ensures Drop(s, s[0]) == s[1..]
  {
    DropOther(s[1..], s[0]);
  }

  lemma {:induction false} DropOther(s: seq<Key>, k: Key)
    requires k !in s
    ensures Drop(s, k) == s
  {
    if s != [] {
      DropOther(s[1..], k);
    }
  }

  lemma ArriveInv(g: Gate, arrived: seq<Key>, k: Key)
    requires Inv(g, arrived) && k !in arrived
    ensures Inv(Act(g, Arrive(k)), arrived + [k])
  {
    assert g.active != [] ==> (g.active + [k])[1..] == g.active[1..] + [k];
  }

  lemma LookInv(g: Gate, arrived: seq<Key>, k: Key)
    requires Inv(g, arrived) && k in g.woken
    ensures Inv(Act(g, Look(k)), arrived)
  {
    if g.active[0] == k {
      assert g.entered + g.active == g.entered + [k] + g.active[1..];
    }
  }

  lemma FinishInv(g: Gate, arrived: seq<Key>, k: Key)
    requires Inv(g, arrived) && k in g.inside && g.blocked != Some(k)
    ensures Inv(Act(g, Finish(k)), arrived)
  {
    DropFirst(g.active);
    var g' := Act(g, Finish(k));
    assert g'.active == g.active[1..] && g'.inside == {};
  }

  lemma StepInv(g: Gate, arrived: seq<Key>, step: Step)
    requires Inv(g, arrived) && Enabled(g, arrived, step)
    ensures Inv(Act(g, step), Arrived(arrived, step))
  {
    match step
    case Arrive(k) => ArriveInv(g, arrived, k);
    case Look(k) => LookInv(g, arrived, k);
    case Finish(k) => FinishInv(g, arrived, k);
    case Reenter(k) =>
  }

  lemma {:induction false} RunInv(run: seq<Gate>, arrived: seq<seq<Key>>, steps: seq<Step>, i: nat)
    requires IsRun(run, arrived, steps) && i < |run|
    ensures Inv(run[i], arrived[i])
  {
    if i > 0 {
      RunInv(run, arrived, steps, i - 1);
      StepInv(run[i - 1], arrived[i - 1], steps[i - 1]);
    }
  }

  /** In every interleaving at most one message is inside, messages enter in arrival order, and unless everything has
      been handled somebody is inside or the next in line has been told to look. */
  lemma OneAtATimeInOrder(run: seq<Gate>, arrived: seq<seq<Key>>, steps: seq<Step>, i: nat)
    requires IsRun(run, arrived, steps) && i < |run|
    ensures |run[i].inside| <= 1
    ensures run[i].entered <= arrived[i]
    ensures run[i].active != [] && run[i].inside == {} ==>
              Enabled(run[i], arrived[i], Look(run[i].active[0])) &&
              Act(run[i], Look(run[i].active[0])).inside == {run[i].active[0]}
    ensures run[i].active == [] ==> run[i].entered == arrived[i]
  {
    RunInv(run, arrived, steps, i);
  }

  /** A message that is handed in again while another one waits is never let in: only a timeout ends this. */
  lemma {:induction false} ReentryNeverEnds(run: seq<Gate>, arrived: seq<seq<Key>>, steps: seq<Step>, i: nat, j: nat,
                                            k: Key)
    requires IsRun(run, arrived, steps) && i <= j < |run| && run[i].blocked == Some(k)
    ensures run[j].blocked == Some(k) && run[j].entered == run[i].entered
    decreases j
  {
    if i < j {
      ReentryNeverEnds(run, arrived, steps, i, j - 1, k);
      RunInv(run, arrived, steps, j - 1);
      assert Enabled(run[j - 1], arrived[j - 1], steps[j - 1]);
    }
  }

  /** A run that comes to this: message 1 is inside and message 2 waits when message 1 demotes the node. */
  lemma ReentryReached() returns (run: seq<Gate>, arrived: seq<seq<Key>>, steps: seq<Step>)
    ensures IsRun(run, arrived, steps) && |run| == 4 && run[3].blocked == Some(1)
  {
    var g1 := Act(OPEN, Arrive(1));
    var g2 := Act(g1, Arrive(2));
    var g3 := Act(g2, Reenter(1));
    assert g1.active == [1] && g2.active == [1, 2];
    run, arrived, steps := [OPEN, g1, g2, g3], [[], [1], [1, 2], [1, 2]], [Arrive(1), Arrive(2), Reenter(1)];
    assert [] + [1] == [1] && [1] + [2] == [1, 2];
  }
}

/** Serial numbers: the second in which they are drawn, and a counter within it. */
module Serials {
  import opened RaftTypes

  const PER_SECOND := 1000000

  datatype Counter = Counter(timebase: Option<int>, counter: nat)

  /** A counter about to be used in second `now`. */
  function Turned(s: Counter, now: int): Counter { if s.timebase == Some(now) then s else Counter(Some(now), 0) }

  function Serial(s: Counter, now: int): int { now * PER_SECOND + Turned(s, now).counter }

  function After(s: Counter, now: int): Counter { Counter(Some(now), (Turned(s, now).counter + 1) % PER_SECOND) }

  class SerialNumberGenerator {
    var lastTimebase: Option<int>
    var counter: nat

    function View(): Counter
      reads this
    {
      Counter(lastTimebase, counter)
    }

    constructor ()
      ensures View() == Counter(None, 0)
    {
      lastTimebase, counter := None, 0;
    }

    /** `now` is the clock in whole seconds since the epoch. */
    method Generate(now: int) returns (serial: int)
      modifies this
      ensures serial == Serial(old(View()), now) && View() == After(old(View()), now)
    {
      var days, seconds := now / 86400, now % 86400;
      var timebase := days * 86400 + seconds;
      if lastTimebase != Some(timebase) {
        counter := 0;
        lastTimebase := Some(timebase);
      }
      serial := timebase * PER_SECOND + counter;
      counter := (counter + 1) % PER_SECOND;
    }
  }

  /** The state after draws at these seconds. */
  function State(clock: seq<int>): Counter
  {
    if clock == [] then Counter(None, 0) else After(State(clock[..|clock| - 1]), clock[|clock| - 1])
  }

  /** The serial of draw `i`. */
  function Drawn(clock: seq<int>, i: nat): int
    requires i < |clock|
  {
    Serial(State(clock[..i]), clock[i])
  }

  /** How many draws in a row, up to draw `i`, fell into the same second. */
  function Streak(clock: seq<int>, i: nat): nat
    requires i < |clock|
  {
    if i > 0 && clock[i - 1] == clock[i] then Streak(clock, i - 1) + 1 else 1
  }

  /** The counter that draw `i` finds. */
  function Place(clock: seq<int>, i: nat): nat
    requires i < |clock|
  {
    (Streak(clock, i) - 1) % PER_SECOND
  }

  lemma {:induction false} PlaceIs(clock: seq<int>, i: nat)
    requires i < |clock|
    ensures Turned(State(clock[..i]), clock[i]).counter == Place(clock, i)
  {
    if i > 0 {
      PlaceIs(clock, i - 1);
      assert clock[..i][..i - 1] == clock[..i - 1];
      var s := Turned(State(clock[..i - 1]), clock[i - 1]);
      assert State(clock[..i]) == Counter(Some(clock[i - 1]), (s.counter + 1) % PER_SECOND);
      NextPlace(Streak(clock, i - 1));
    }
  }

  lemma NextPlace(streak: nat)
    requires streak >= 1
    ensures ((streak - 1) % PER_SECOND + 1) % PER_SECOND == streak % PER_SECOND
  {
  }

  lemma DrawnIs(clock: seq<int>, i: nat)
    requires i < |clock|
    ensures Drawn(clock, i) == clock[i] * PER_SECOND + Place(clock, i)
  {
    PlaceIs(clock, i);
  }

  /** Within a second's worth of counters the seconds decide. */
  lemma ByTheSecond(a: int, b: int, x: nat, y: nat)
    requires x < PER_SECOND && y < PER_SECOND
    ensures a * PER_SECOND + x < b * PER_SECOND + y <==> a < b || (a == b && x < y)
  {
  }

  /** The next draw: higher, unless the clock stepped back or the second is used up. */
  lemma NextHigherExactly(clock: seq<int>, i: nat)
    requires i + 1 < |clock|
    ensures Drawn(clock, i) < Drawn(clock, i + 1) <==>
              clock[i] < clock[i + 1] || (clock[i] == clock[i + 1] && Streak(clock, i) % PER_SECOND != 0)
  {
    DrawnIs(clock, i);
    DrawnIs(clock, i + 1);
    ByTheSecond(clock[i], clock[i + 1], Place(clock, i), Place(clock, i + 1));
    NextPlace(Streak(clock, i));
  }

  /** The clock never steps back, and no second sees more than a million draws. */
  ghost predicate Steady(clock: seq<int>)
  {
    && (forall i {:trigger clock[i]} :: 0 < i < |clock| ==> clock[i - 1] <= clock[i])
    && (forall i :: 0 <= i < |clock| ==> Streak(clock, i) <= PER_SECOND)
  }

  ghost predicate Increasing(clock: seq<int>, n: nat)
    requires n <= |clock|
  {
    forall i, j :: 0 <= i < j < n ==> Drawn(clock, i) < Drawn(clock, j)
  }

  lemma {:induction false} SteadyIncreases(clock: seq<int>, n: nat)
    requires Steady(clock) && n <= |clock|
    ensures Increasing(clock, n)
  {
    if n >= 2 {
      SteadyIncreases(clock, n - 1);
      assert clock[n - 2] <= clock[n - 1];
      assert Streak(clock, n - 1) <= PER_SECOND;
      NextHigherExactly(clock, n - 2);
    }
  }

  lemma {:induction false} StreakBounded(clock: seq<int>, i: nat)
    requires Increasing(clock, |clock|) && i < |clock|
    ensures Streak(clock, i) <= PER_SECOND
  {
    if i > 0 {
      StreakBounded(clock, i - 1);
      NextHigherExactly(clock, i - 1);
    }
  }

  /** Serial numbers strictly increase over a run exactly when the clock never steps back and no more than a million
      are drawn in any one second. */
  lemma IncreasingExactly(clock: seq<int>)
    ensures Increasing(clock, |clock|) <==> Steady(clock)
  {
    if Steady(clock) {
      SteadyIncreases(clock, |clock|);
    }
    if Increasing(clock, |clock|) {
      forall i | 0 <= i < |clock|
        ensures Streak(clock, i) <= PER_SECOND && (0 < i ==> clock[i - 1] <= clock[i])
      {
        StreakBounded(clock, i);
        if 0 < i {
          NextHigherExactly(clock, i - 1);
        }
      }
    }
  }
}

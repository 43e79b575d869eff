/** What a catch-up block contains. */
module Blocks {
  import opened RaftTypes
  import opened Handlers

  /** A block is a contiguous slice of the log. */
  lemma {:induction false} BlockIsSlice(log: seq<LogRec>, i: nat, end: nat, seen: bool)
    requires 1 <= i && end <= |log|
    ensures var b := Block(log, i, end, seen);
            i - 1 + |b| <= Max(end, i - 1) && (i - 1 <= |log| ==> b == log[i - 1..i - 1 + |b|])
    decreases end + 1 - i
  {
    if i <= end && !(log[i - 1].code == ClusterConfig && seen) {
      BlockIsSlice(log, i + 1, end, seen || log[i - 1].code == ClusterConfig);
      var rest := Block(log, i + 1, end, seen || log[i - 1].code == ClusterConfig);
      assert [log[i - 1]] + log[i..i + |rest|] == log[i - 1..i + |rest|];
    }
  }

  ghost predicate ConfigAt(log: seq<LogRec>, i: nat) { 1 <= i <= |log| && log[i - 1].code == ClusterConfig }

  /** At most one configuration record, and none after one was seen. */
  lemma {:induction false} BlockOneConfig(log: seq<LogRec>, i: nat, end: nat, seen: bool, j: nat, k: nat)
    requires 1 <= i && end <= |log| && i <= j <= k < i + |Block(log, i, end, seen)|
    requires ConfigAt(log, j) && ConfigAt(log, k)
    ensures !seen && j == k
    decreases end + 1 - i
  {
    var config := log[i - 1].code == ClusterConfig;
    if j > i {
      BlockOneConfig(log, i + 1, end, seen || config, j, k);
    } else if k > i {
      BlockOneConfig(log, i + 1, end, seen || config, k, k);
    }
  }

  /** A block is as long as it may be: it goes on to `end`, or stops just before a second configuration record. */
  lemma {:induction false} BlockIsFull(log: seq<LogRec>, i: nat, end: nat, seen: bool)
    requires 1 <= i <= end + 1 && end <= |log|
    ensures var k := i + |Block(log, i, end, seen)|;
            || k == end + 1
            || (k <= end && ConfigAt(log, k) && (seen || exists j :: i <= j < k && ConfigAt(log, j)))
    decreases end + 1 - i
  {
    if i <= end && !(log[i - 1].code == ClusterConfig && seen) {
      BlockIsFull(log, i + 1, end, seen || log[i - 1].code == ClusterConfig);
      assert log[i - 1].code == ClusterConfig ==> ConfigAt(log, i);
    }
  }

  /** A catch-up block holds one record more than the setting says, or all that is left, unless a second configuration
      record cuts it short. */
  lemma CatchupBlockIsFull(c: Config, log: seq<LogRec>, start: nat)
    requires 1 <= start <= |log|
    ensures var n := |CatchupBlock(c, log, start)|;
            || n == Min(c.maxEntries + 1, |log| + 1 - start)
            || (n < Min(c.maxEntries + 1, |log| + 1 - start) && ConfigAt(log, start + n) &&
                exists j :: start <= j < start + n && ConfigAt(log, j))
  {
    BlockIsFull(log, start, CatchupEnd(c, |log|, start), false);
  }
}

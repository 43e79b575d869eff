/** Log records, messages and the sequence vocabulary shared by the whole project.
    A log without a snapshot is a `seq<LogRec>`: the record with index `i` sits at position `i - 1`. */
module RaftTypes {

  type Uri = nat

  datatype Option<+T> = None | Some(value: T)

  /** A call that may raise. */
  datatype Result<+T> = Ok(value: T) | Raised

  datatype RecordCode = TermStart | ClientCommand | ClusterConfig

  datatype LogRec = LogRec(index: nat, term: nat, code: RecordCode, command: string)

  datatype Message =
    | RequestVote(sender: Uri, receiver: Uri, term: nat, prevLogIndex: nat, prevLogTerm: nat)
    | VoteResponse(sender: Uri, receiver: Uri, term: nat, vote: bool)
    | AppendEntries(sender: Uri, receiver: Uri, term: nat, serial: nat, prevLogIndex: nat, prevLogTerm: nat,
                    entries: seq<LogRec>, commitIndex: nat)
    | AppendResponse(sender: Uri, receiver: Uri, term: nat, success: bool, maxIndex: nat, prevLogIndex: nat,
                     originalSerial: nat)

  function Min(a: nat, b: nat): nat { if a <= b then a else b }

  function Max(a: nat, b: nat): nat { if a <= b then b else a }

  /** Term of the record at index `i`; index 0 stands for the empty prefix. */
  function TermAt(log: seq<LogRec>, i: nat): nat
    requires i <= |log|
  {
    if i == 0 then 0 else log[i - 1].term
  }

  function LastTerm(log: seq<LogRec>): nat { TermAt(log, |log|) }

  /** The two logs coincide on their first `k` records (and both have them). */
  ghost predicate Agree(a: seq<LogRec>, b: seq<LogRec>, k: nat)
  {
    k <= |a| && k <= |b| && forall j :: 0 <= j < k ==> a[j] == b[j]
  }

  /** A record of term `t` sits at index `i`. */
  ghost predicate Has(log: seq<LogRec>, i: nat, t: nat)
  {
    1 <= i <= |log| && log[i - 1].term == t
  }

  /** Equal terms at an index mean equal records up to it. */
  ghost predicate Matching(a: seq<LogRec>, b: seq<LogRec>)
  {
    forall i: nat {:trigger Agree(a, b, i)} ::
      1 <= i <= |a| && i <= |b| && a[i - 1].term == b[i - 1].term ==> Agree(a, b, i)
  }

  /** Every record carries the index of its position. */
  ghost predicate Indexed(log: seq<LogRec>)
  {
    forall j :: 0 <= j < |log| ==> log[j].index == j + 1
  }

  ghost predicate Ascending(log: seq<LogRec>)
  {
    forall i, j :: 0 <= i <= j < |log| ==> log[i].term <= log[j].term
  }

  /** The client commands among the records, in order: what a state machine fed with `log` executes. */
  function Commands(log: seq<LogRec>): seq<LogRec>
  {
    if log == [] then []
    else
      var rest := Commands(log[..|log| - 1]);
      if log[|log| - 1].code == ClientCommand then rest + [log[|log| - 1]] else rest
  }

  lemma {:induction false} CommandsOfExtension(log: seq<LogRec>, k: nat)
    requires k <= |log|
    ensures Commands(log[..k]) <= Commands(log)
    decreases |log|
  {
    if k == |log| {
      assert log[..k] == log;
    } else {
      CommandsOfExtension(log[..|log| - 1], k);
      assert log[..|log| - 1][..k] == log[..k];
    }
  }

  /** Nothing but term starts between the indexes `a` (exclusive) and `b`. */
  ghost predicate OnlyTermStarts(log: seq<LogRec>, a: nat, b: nat)
  {
    forall j {:trigger log[j]} :: a <= j < b && j < |log| ==> log[j].code == TermStart
  }

  lemma {:induction false} CommandsSkip(log: seq<LogRec>, a: nat, b: nat)
    requires a <= b <= |log| && OnlyTermStarts(log, a, b)
    ensures Commands(log[..b]) == Commands(log[..a])
    decreases b
  {
    if a < b {
      CommandsSkip(log, a, b - 1);
      assert log[..b][..b - 1] == log[..b - 1];
    }
  }

  lemma CommandsAgree(a: seq<LogRec>, b: seq<LogRec>, k: nat)
    requires Agree(a, b, k)
    ensures Commands(a[..k]) == Commands(b[..k])
  {
    assert a[..k] == b[..k];
  }
}

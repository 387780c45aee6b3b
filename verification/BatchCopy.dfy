/** The batch copy over SFTP, item by item, with a fresh session whenever the old one has closed. */
module BatchCopy {

  const MAX_SFTP_RETRIES := 3

  /** What one attempt at an item comes to; after a closed session a new one is asked for. */
  datatype Answer = Copied | SessionClosed(reconnected: bool) | CopyFailed | TimedOut

  datatype Attempt = Attempt(item: nat, answer: Answer)

  datatype Result = Done | Disconnected(item: nat) | Failed(item: nat)

  /** How many attempts there were at an item. */
  function AttemptsAt(log: seq<Attempt>, item: nat): nat {
    if log == [] then 0
    else AttemptsAt(log[..|log| - 1], item) + if log[|log| - 1].item == item then 1 else 0
  }

  /** The items that were copied, in order. */
  function CopiedItems(log: seq<Attempt>): seq<nat> {
    if log == [] then []
    else
      var before := CopiedItems(log[..|log| - 1]);
      if log[|log| - 1].answer == Copied then before + [log[|log| - 1].item] else before
  }

  function UpTo(n: nat): (items: seq<nat>)
    ensures |items| == n
  {
    seq(n, i => i)
  }

  lemma Logged(log: seq<Attempt>, a: Attempt)
    ensures CopiedItems(log + [a]) == if a.answer == Copied then CopiedItems(log) + [a.item] else CopiedItems(log)
    ensures forall k :: AttemptsAt(log + [a], k) == AttemptsAt(log, k) + if a.item == k then 1 else 0
  {
    assert (log + [a])[..|log|] == log;
  }

  /** An attempt after which the batch goes on. */
  predicate GoesOn(a: Attempt) {
    a.answer == Copied || a.answer == SessionClosed(true)
  }

  /** The last attempt explains why the batch stopped: the copy failed or there was no new session; or it took too long,
      or the session closed once more than the retries allow. */
  predicate Explains(log: seq<Attempt>, result: Result) {
    log != [] &&
    match result
    case Done => false
    case Failed(item) =>
      log[|log| - 1] == Attempt(item, CopyFailed) || log[|log| - 1] == Attempt(item, SessionClosed(false))
    case Disconnected(item) =>
      || log[|log| - 1] == Attempt(item, TimedOut)
      || (log[|log| - 1] == Attempt(item, SessionClosed(true)) && AttemptsAt(log, item) == 4)
  }

  /** The SFTP loop of `fs_copy_batch`. Success means that every item was copied exactly once and in order; no item is
      attempted more often than the retries allow, so the number of all attempts is bounded. */
  method CopyItems(count: nat) returns (result: Result, log: seq<Attempt>)
    ensures result == Done <==> CopiedItems(log) == UpTo(count)
    ensures result != Done ==> result.item < count && CopiedItems(log) == UpTo(result.item)
    ensures forall k: nat :: AttemptsAt(log, k) <= MAX_SFTP_RETRIES + 1 && (k >= count ==> AttemptsAt(log, k) == 0)
    ensures |log| <= (MAX_SFTP_RETRIES + 1) * count
    ensures forall i :: 0 <= i < |log| - 1 ==> GoesOn(log[i])
    ensures result != Done ==> Explains(log, result)
  {
    log := [];
    var idx, retry := 0, 0;
    while idx < count
      invariant idx <= count && retry <= MAX_SFTP_RETRIES
      invariant CopiedItems(log) == UpTo(idx)
      invariant forall k: nat :: AttemptsAt(log, k) <= MAX_SFTP_RETRIES + 1 && (k > idx ==> AttemptsAt(log, k) == 0)
      invariant AttemptsAt(log, idx) == retry && (idx == count ==> retry == 0)
      invariant |log| <= (MAX_SFTP_RETRIES + 1) * idx + retry
      invariant forall i :: 0 <= i < |log| ==> GoesOn(log[i])
      decreases count - idx, MAX_SFTP_RETRIES - retry
    {
      var answer: Answer := *;
      Logged(log, Attempt(idx, answer));
      log := log + [Attempt(idx, answer)];
      match answer {
        case Copied =>
          retry := 0;
          idx := idx + 1;
          assert UpTo(idx) == UpTo(idx - 1) + [idx - 1];
        case SessionClosed(reconnected) =>
          retry := if retry == 255 then 255 else retry + 1;
          if !reconnected { return Failed(idx), log; }
          if retry > MAX_SFTP_RETRIES { return Disconnected(idx), log; }
        case CopyFailed => return Failed(idx), log;
        case TimedOut => return Disconnected(idx), log;
      }
    }
    return Done, log;
  }
}

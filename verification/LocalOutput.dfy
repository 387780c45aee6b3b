/**
  The queue of a local pane and its two writers: the reader of the terminal, which queues every
  chunk it reads and then its own end, and the task that waits for the child, which queues the
  exit code once. The two are not ordered, so the code may come at any place.
 */
module LocalOutput {
  import opened Wrappers
  import opened WireCodec
  import opened PtyOutput

  /** What the reader queues. */
  function ReaderTurns(chunks: seq<seq<byte>>): (turns: seq<LocalTurn>)
    ensures |turns| == |chunks| + 1
  {
    if chunks == [] then [Finished(None)] else [Chunk(chunks[0])] + ReaderTurns(chunks[1..])
  }

  /** The queue when the exit code comes before the `k`-th thing the reader queues. */
  function Queue(chunks: seq<seq<byte>>, exitCode: Option<nat>, k: nat): seq<LocalTurn>
    requires k <= |chunks| + 1
  {
    ReaderTurns(chunks)[..k] + [Finished(exitCode)] + ReaderTurns(chunks)[k..]
  }

  function Concat(chunks: seq<seq<byte>>): seq<byte> {
    if chunks == [] then [] else chunks[0] + Concat(chunks[1..])
  }

  /** The turns of the loop without those of its own timer. */
  function WithoutTimers(turns: seq<LocalTurn>): seq<LocalTurn> {
    if turns == [] then []
    else (if turns[0].LocalTimerFired? then [] else [turns[0]]) + WithoutTimers(turns[1..])
  }

  lemma {:induction false} TimersChangeNothing(turns: seq<LocalTurn>)
    ensures LocalReceived(WithoutTimers(turns)) == LocalReceived(turns)
    ensures FirstLocalEnding(WithoutTimers(turns)) == FirstLocalEnding(turns)
  {
    if turns != [] {
      TimersChangeNothing(turns[1..]);
      var rest := WithoutTimers(turns[1..]);
      if turns[0].LocalTimerFired? {
        assert WithoutTimers(turns) == rest;
      } else {
        assert WithoutTimers(turns)[1..] == rest;
      }
    }
  }

  lemma QueueFirst(chunks: seq<seq<byte>>, exitCode: Option<nat>, k: nat)
    requires chunks != [] && 0 < k <= |chunks| + 1
    ensures Queue(chunks, exitCode, k) == [Chunk(chunks[0])] + Queue(chunks[1..], exitCode, k - 1)
  {
    var reader, rest := ReaderTurns(chunks), ReaderTurns(chunks[1..]);
    assert reader[..k] == [Chunk(chunks[0])] + rest[..k - 1] && reader[k..] == rest[k - 1..];
  }

  /** Reading the queue: the chunks before the exit code, and then whichever end comes first. */
  lemma {:induction false} QueueRead(chunks: seq<seq<byte>>, exitCode: Option<nat>, k: nat)
    requires k <= |chunks| + 1
    ensures LocalReceived(Queue(chunks, exitCode, k)) == Concat(chunks[..if k < |chunks| then k else |chunks|])
    ensures FirstLocalEnding(Queue(chunks, exitCode, k)) == Some(LocalExited(if k <= |chunks| then exitCode else None))
  {
    var queue := Queue(chunks, exitCode, k);
    if k == 0 {
      assert queue[0] == Finished(exitCode) && chunks[..0] == [];
    } else if chunks == [] {
      assert queue[0] == Finished(None);
    } else {
      hide Queue, ReaderTurns;
      QueueRead(chunks[1..], exitCode, k - 1);
      QueueFirst(chunks, exitCode, k);
      assert queue[1..] == Queue(chunks[1..], exitCode, k - 1);
      var n := if k < |chunks| then k else |chunks|;
      assert chunks[..n][1..] == chunks[1..][..n - 1];
    }
  }

  lemma PrefixBehind(a: seq<byte>, b: seq<byte>, c: seq<byte>)
    requires b <= c
    ensures a + b <= a + c
  {
  }

  lemma {:induction false} ConcatTake(chunks: seq<seq<byte>>, n: nat)
    requires n <= |chunks| && forall i :: 0 <= i < |chunks| ==> chunks[i] != []
    ensures Concat(chunks[..n]) <= Concat(chunks)
    ensures |Concat(chunks[..n])| == |Concat(chunks)| <==> n == |chunks|
    decreases |chunks|
  {
    if n > 0 {
      ConcatTake(chunks[1..], n - 1);
      assert chunks[..n][1..] == chunks[1..][..n - 1];
      PrefixBehind(chunks[0], Concat(chunks[1..][..n - 1]), Concat(chunks[1..]));
    } else {
      assert chunks[..n] == [];
    }
  }

  /** A local pane shows the output up to the exit code, and all of it if and only if the exit code does not come before
      a chunk. It reports the child's exit code if that comes before the end of the output is queued, and none
      otherwise; so both are right only if the exit code comes between the last chunk and the end of the output. */
  lemma OutputIsWholeExactly(turns: seq<LocalTurn>, chunks: seq<seq<byte>>, exitCode: Option<nat>, k: nat)
    requires k <= |chunks| + 1 && forall i :: 0 <= i < |chunks| ==> chunks[i] != []
    requires WithoutTimers(turns) == Queue(chunks, exitCode, k)
    ensures LocalReceived(turns) <= Concat(chunks)
    ensures LocalReceived(turns) == Concat(chunks) <==> k >= |chunks|
    ensures FirstLocalEnding(turns) == Some(LocalExited(if k <= |chunks| then exitCode else None))
    ensures LocalReceived(turns) == Concat(chunks) && FirstLocalEnding(turns) == Some(LocalExited(exitCode))
       <==> k == |chunks| || (k == |chunks| + 1 && exitCode == None)
  {
    hide Concat, Queue, WithoutTimers, LocalReceived, FirstLocalEnding;
    TimersChangeNothing(turns);
    QueueRead(chunks, exitCode, k);
    ConcatTake(chunks, if k < |chunks| then k else |chunks|);
    assert chunks[..|chunks|] == chunks;
  }
}

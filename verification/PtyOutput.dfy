/** The output of a terminal on its way to the window: batching, frames, and the end of a pane. */
module PtyOutput {
  import opened Wrappers
  import opened WireCodec

  const THRESHOLD := 4096

  // ----- Frames -----

  /** A frame: the generation of the session in little-endian order, and the output. */
  function EncodeFrame(generation: nat, output: seq<byte>): seq<byte> {
    var b := U32Bytes(generation);
    [b[3], b[2], b[1], b[0]] + output
  }

  datatype Frame = Frame(generation: nat, data: seq<byte>)

  /** What the window makes of a frame; frames without a header are ignored. */
  function DecodeFrame(frame: seq<byte>): Option<Frame> {
    if |frame| < 4 then None else Some(Frame(U32Value([frame[3], frame[2], frame[1], frame[0]]), frame[4..]))
  }

  lemma FrameReadsBack(generation: nat, output: seq<byte>)
    requires generation < U32_MODULUS
    ensures DecodeFrame(EncodeFrame(generation, output)) == Some(Frame(generation, output))
  {
    var frame, b := EncodeFrame(generation, output), U32Bytes(generation);
    U32RoundTrip(generation);
    assert [frame[3], frame[2], frame[1], frame[0]] == b && frame[4..] == output;
  }

  // ----- A pane -----

  /** What leaves a pane, in order. */
  datatype Event = Output(frame: seq<byte>) | TerminalExit(exitCode: Option<nat>) | TransportLost

  /** A running pane: output not yet sent, whether the flush timer is set, and what has been sent. */
  datatype Pane = Pane(pending: seq<byte>, hasDeadline: bool, log: seq<Event>)

  const NEW_PANE := Pane([], false, [])

  /** What a window that expects `generation` shows of the events. */
  function Shown(log: seq<Event>, generation: nat): seq<byte> {
    if log == [] then []
    else
      var before := Shown(log[..|log| - 1], generation);
      match log[|log| - 1]
      case Output(frame) =>
        (match DecodeFrame(frame)
         case Some(f) => if f.generation == generation then before + f.data else before
         case None => before)
      case _ => before
  }

  /** `flush_pending_output`. */
  function Flush(p: Pane, generation: nat): Pane {
    if p.pending == [] then p else p.(pending := [], log := p.log + [Output(EncodeFrame(generation, p.pending))])
  }

  /** New output, in both loops. */
  function Buffer(p: Pane, generation: nat, data: seq<byte>): Pane {
    var more := p.(pending := p.pending + data);
    if |more.pending| >= THRESHOLD then Flush(more, generation).(hasDeadline := false)
    else more.(hasDeadline := true)
  }

  function FireTimer(p: Pane, generation: nat): Pane {
    Flush(p, generation).(hasDeadline := false)
  }

  /** Every event so far is a frame of this generation with something in it. */
  ghost predicate OnlyFrames(log: seq<Event>, generation: nat) {
    forall i :: 0 <= i < |log| ==> log[i].Output? && IsFrameOf(log[i].frame, generation)
  }

  ghost predicate IsFrameOf(frame: seq<byte>, generation: nat) {
    exists data :: data != [] && frame == EncodeFrame(generation, data)
  }

  /** Nothing received is missing, little is held back, and what is held back will be flushed. */
  ghost predicate Sound(p: Pane, generation: nat, received: seq<byte>) {
    && Shown(p.log, generation) + p.pending == received
    && |p.pending| < THRESHOLD && (p.pending != [] ==> p.hasDeadline)
    && OnlyFrames(p.log, generation)
  }

  /** Everything received has been sent, and the timer is off. */
  ghost predicate IsFlushed(p: Pane, generation: nat, received: seq<byte>) {
    p.pending == [] && !p.hasDeadline && Shown(p.log, generation) == received
  }

  lemma ShownAppends(log: seq<Event>, event: Event, generation: nat)
    ensures Shown(log + [event], generation) ==
      Shown(log, generation) + (
        if event.Output? && DecodeFrame(event.frame).Some? && DecodeFrame(event.frame).value.generation == generation
        then DecodeFrame(event.frame).value.data else [])
  {
    assert (log + [event])[..|log|] == log;
  }

  lemma FlushKeeps(p: Pane, generation: nat)
    requires generation < U32_MODULUS && OnlyFrames(p.log, generation)
    ensures Shown(Flush(p, generation).log, generation) == Shown(p.log, generation) + p.pending
    ensures OnlyFrames(Flush(p, generation).log, generation) && Flush(p, generation).pending == []
  {
    hide Shown, DecodeFrame, EncodeFrame;
    if p.pending != [] {
      var frame := EncodeFrame(generation, p.pending);
      FrameReadsBack(generation, p.pending);
      ShownAppends(p.log, Output(frame), generation);
      assert IsFrameOf(frame, generation);
    }
  }

  lemma BufferKeeps(p: Pane, generation: nat, received: seq<byte>, data: seq<byte>)
    requires generation < U32_MODULUS && Sound(p, generation, received)
    ensures Sound(Buffer(p, generation, data), generation, received + data)
  {
    hide Shown, OnlyFrames, Flush;
    var more := p.(pending := p.pending + data);
    assert Shown(p.log, generation) + more.pending == received + data;
    FlushKeeps(more, generation);
  }

  lemma TimerKeeps(p: Pane, generation: nat, received: seq<byte>)
    requires generation < U32_MODULUS && Sound(p, generation, received)
    ensures Sound(FireTimer(p, generation), generation, received)
    ensures IsFlushed(FireTimer(p, generation), generation, received)
  {
    hide Shown, OnlyFrames, Flush;
    FlushKeeps(p, generation);
  }

  lemma NothingHeldBack(p: Pane, generation: nat, received: seq<byte>)
    requires Sound(p, generation, received) && !p.hasDeadline
    ensures IsFlushed(p, generation, received)
  {
    assert Shown(p.log, generation) + [] == Shown(p.log, generation);
  }

  /** Output is held back only below the threshold, and then nothing is sent and the timer is set; at the threshold all
      of it is sent. */
  lemma BufferBatches(p: Pane, generation: nat, received: seq<byte>, data: seq<byte>)
    requires generation < U32_MODULUS && Sound(p, generation, received)
    ensures var buffered := Buffer(p, generation, data);
            if |p.pending| + |data| < 4096
            then buffered.log == p.log && buffered.pending == p.pending + data && buffered.hasDeadline
            else IsFlushed(buffered, generation, received + data)
  {
    hide Shown, OnlyFrames, Flush;
    FlushKeeps(p.(pending := p.pending + data), generation);
    BufferKeeps(p, generation, received, data);
  }

  // ----- A remote pane -----

  datatype Message =
    | Data(data: seq<byte>) | ExtendedData(data: seq<byte>) | ExitStatus(status: nat) | ExitSignal | Close | Eof | Other

  datatype WaitAction = BufferOutput | PaneExit(exitCode: Option<nat>) | TransportDrop | KeepWaiting

  /** `remote_wait_action`; no message means that the channel is gone. */
  function RemoteWaitAction(message: Option<Message>): WaitAction {
    match message
    case None => TransportDrop
    case Some(Data(_)) => BufferOutput
    case Some(ExtendedData(_)) => BufferOutput
    case Some(ExitStatus(status)) => PaneExit(Some(status))
    case Some(ExitSignal) => PaneExit(None)
    case Some(Close) => PaneExit(None)
    case Some(Eof) => KeepWaiting
    case Some(Other) => KeepWaiting
  }

  /** What one turn of the loop turns out to be. */
  datatype Turn = Waited(message: Option<Message>) | TimerFired | InputSent(ok: bool) | Resized

  datatype Ending = Exited(exitCode: Option<nat>) | Dropped

  /** Whether a turn ends the pane, and how. */
  function EndingOf(turn: Turn): Option<Ending> {
    match turn
    case Waited(message) =>
      (match RemoteWaitAction(message)
       case PaneExit(code) => Some(Exited(code))
       case TransportDrop => Some(Dropped)
       case _ => None)
    case InputSent(ok) => if ok then None else Some(Dropped)
    case _ => None
  }

  function OutputOf(turn: Turn): seq<byte> {
    if turn.Waited? && turn.message.Some? && (turn.message.value.Data? || turn.message.value.ExtendedData?)
    then turn.message.value.data else []
  }

  /** The output that reaches the pane: all of it up to the turn that ends it. */
  function Received(turns: seq<Turn>): seq<byte> {
    if turns == [] || EndingOf(turns[0]).Some? then [] else OutputOf(turns[0]) + Received(turns[1..])
  }

  function FirstEnding(turns: seq<Turn>): Option<Ending> {
    if turns == [] then None
    else if EndingOf(turns[0]).Some? then EndingOf(turns[0])
    else FirstEnding(turns[1..])
  }

  function EventOf(ending: Ending): Event {
    match ending case Exited(code) => TerminalExit(code) case Dropped => TransportLost
  }

  /** A pane whose loop is over: one event at the end, everything received shown before it. */
  ghost predicate Ended(p: Pane, generation: nat, received: seq<byte>, ending: Ending) {
    && p.log != [] && p.log[|p.log| - 1] == EventOf(ending)
    && OnlyFrames(p.log[..|p.log| - 1], generation)
    && Shown(p.log[..|p.log| - 1], generation) == received && p.pending == []
  }

  /** The state of a pane's task; the source keeps it in the variables of the loop. */
  class PaneTask {
    const generation: nat
    var pane: Pane
    ghost var received: seq<byte>

    constructor (generation: nat)
      requires generation < U32_MODULUS
      ensures Running() && received == [] && pane == NEW_PANE && this.generation == generation
    {
      this.generation := generation;
      pane := NEW_PANE;
      received := [];
    }

    ghost predicate Running()
      reads this
    {
      generation < U32_MODULUS && Sound(pane, generation, received)
    }

    method FlushPendingOutput()
      requires generation < U32_MODULUS && OnlyFrames(pane.log, generation)
      modifies this`pane
      ensures pane == Flush(old(pane), generation)
    {
      if pane.pending != [] {
        var frame := EncodeFrame(generation, pane.pending);
        pane := pane.(pending := [], log := pane.log + [Output(frame)]);
      }
    }

    method BufferWaitOutput(data: seq<byte>)
      requires Running()
      modifies this
      ensures Running() && received == old(received) + data && pane == Buffer(old(pane), generation, data)
      ensures if |old(pane.pending)| + |data| < 4096
              then pane.log == old(pane.log) && pane.pending == old(pane.pending) + data && pane.hasDeadline
              else IsFlushed(pane, generation, received)
    {
      BufferKeeps(pane, generation, received, data);
      BufferBatches(pane, generation, received, data);
      pane := pane.(pending := pane.pending + data);
      received := received + data;
      if |pane.pending| >= THRESHOLD {
        FlushPendingOutput();
        pane := pane.(hasDeadline := false);
      } else {
        pane := pane.(hasDeadline := true);
      }
    }

    method TimerFires()
      requires Running() && pane.hasDeadline
      modifies this
      ensures Running() && received == old(received) && pane == FireTimer(old(pane), generation)
      ensures IsFlushed(pane, generation, received)
    {
      TimerKeeps(pane, generation, received);
      FlushPendingOutput();
      pane := pane.(hasDeadline := false);
    }

    method Emit(event: Event)
      modifies this`pane
      ensures pane == old(pane).(log := old(pane).log + [event])
    {
      pane := pane.(log := pane.log + [event]);
    }

    /** The task of a remote pane: turns are taken until one of them ends it. */
    method RunRemote(turns: seq<Turn>) returns (ending: Option<Ending>)
      requires Running() && received == []
      modifies this
      ensures ending == FirstEnding(turns)
      ensures received == Received(turns)
      ensures ending.None? ==> Running()
      ensures ending.Some? ==> Ended(pane, generation, received, ending.value)
      ensures turns != [] && turns[|turns| - 1] == TimerFired && ending.None? ==> IsFlushed(pane, generation, received)
    {
      hide Sound, Shown, OnlyFrames, OutputOf, EndingOf, Ended, IsFlushed;
      ending := None;
      var i := 0;
      assert turns[0..] == turns;
      while i < |turns| && ending.None?
        invariant i <= |turns|
        invariant Running()
        invariant ending.None? ==> received + Received(turns[i..]) == Received(turns)
                                   && FirstEnding(turns) == FirstEnding(turns[i..])
        invariant ending.Some? ==> received == Received(turns) && FirstEnding(turns) == ending
        invariant i > 0 && turns[i - 1] == TimerFired && ending.None? ==> IsFlushed(pane, generation, received)
        decreases |turns| - i, ending.None?
      {
        var turn := turns[i];
        ghost var rest := turns[i..];
        assert rest[0] == turn && rest[1..] == turns[i + 1..];
        ending := TakeTurn(turn);
        i := i + 1;
      }
      if ending.Some? { Finish(ending.value); }
    }

    /** What follows the loop: a last flush, and the one event. */
    method Finish(ending: Ending)
      requires Running()
      modifies this`pane
      ensures Ended(pane, generation, received, ending)
    {
      hide Shown, OnlyFrames;
      FlushKeeps(pane, generation);
      FlushPendingOutput();
      ghost var log := pane.log;
      Emit(EventOf(ending));
      assert pane.log[..|pane.log| - 1] == log;
    }

    /** One turn; a turn that ends the pane changes nothing but, at most, flushes. */
    method TakeTurn(turn: Turn) returns (ending: Option<Ending>)
      requires Running()
      modifies this
      ensures Running() && ending == EndingOf(turn)
      ensures received == old(received) + if ending.Some? then [] else OutputOf(turn)
      ensures turn.Waited? && turn.message.Some? && (turn.message.value.Data? || turn.message.value.ExtendedData?)
              ==> received == old(received) + turn.message.value.data
      ensures turn == TimerFired ==> IsFlushed(pane, generation, received)
    {
      hide Shown, OnlyFrames;
      match turn
      case Waited(message) =>
        var action := RemoteWaitAction(message);
        if action == BufferOutput {
          BufferWaitOutput(message.value.data);
          return None;
        } else if action.PaneExit? {
          FlushKeeps(pane, generation);
          FlushPendingOutput();
          return Some(Exited(action.exitCode));
        } else if action == TransportDrop {
          FlushKeeps(pane, generation);
          FlushPendingOutput();
          return Some(Dropped);
        }
        return None;
      case TimerFired =>
        if pane.hasDeadline { TimerFires(); } else { NothingHeldBack(pane, generation, received); }
        return None;
      case InputSent(ok) =>
        return if ok then None else Some(Dropped);
      case Resized =>
        return None;
    }
  }

  // ----- A local pane -----

  /** What one turn of the loop of a local pane turns out to be; the queue is closed once both of its writers, the
      reader of the terminal and the one that waits for the child, are gone. */
  datatype LocalTurn = Chunk(data: seq<byte>) | Finished(exitCode: Option<nat>) | QueueClosed | LocalTimerFired

  datatype LocalEnding = LocalExited(exitCode: Option<nat>) | Abandoned

  function LocalEndingOf(turn: LocalTurn): Option<LocalEnding> {
    match turn
    case Finished(code) => Some(LocalExited(code))
    case QueueClosed => Some(Abandoned)
    case _ => None
  }

  function ChunkOf(turn: LocalTurn): seq<byte> {
    if turn.Chunk? then turn.data else []
  }

  /** The output up to the turn that ends the pane. */
  function LocalReceived(turns: seq<LocalTurn>): seq<byte> {
    if turns == [] || LocalEndingOf(turns[0]).Some? then [] else ChunkOf(turns[0]) + LocalReceived(turns[1..])
  }

  function FirstLocalEnding(turns: seq<LocalTurn>): Option<LocalEnding> {
    if turns == [] then None
    else if LocalEndingOf(turns[0]).Some? then LocalEndingOf(turns[0])
    else FirstLocalEnding(turns[1..])
  }

  /** The task of a local pane. When the child's end is reported, what is held back is flushed before the one exit
      event; when the queue is closed without such a report, what is held back is dropped and there is no event. */
  method RunLocal(task: PaneTask, turns: seq<LocalTurn>) returns (ending: Option<LocalEnding>)
    requires task.Running() && task.received == []
    modifies task
    ensures ending == FirstLocalEnding(turns) && task.received == LocalReceived(turns)
    ensures ending.None? || ending == Some(Abandoned) ==> task.Running()
    ensures ending.Some? && ending.value.LocalExited?
            ==> Ended(task.pane, task.generation, task.received, Exited(ending.value.exitCode))
    ensures turns != [] && turns[|turns| - 1] == LocalTimerFired && ending.None?
            ==> IsFlushed(task.pane, task.generation, task.received)
  {
    hide *;
    NoLocalTurns(turns);
    ending := None;
    var i := 0;
    while i < |turns| && ending.None?
      invariant i <= |turns| && task.Running()
      invariant ending.None? ==> task.received + LocalReceived(turns[i..]) == LocalReceived(turns)
                                 && FirstLocalEnding(turns) == FirstLocalEnding(turns[i..])
      invariant ending.Some? ==> task.received == LocalReceived(turns) && FirstLocalEnding(turns) == ending
      invariant i > 0 && turns[i - 1] == LocalTimerFired && ending.None?
                ==> IsFlushed(task.pane, task.generation, task.received)
      decreases |turns| - i, ending.None?
    {
      NextLocalTurn(turns, i, task.received);
      ending := TakeLocalTurn(task, turns[i]);
      i := i + 1;
    }
    assert i == |turns| ==> turns[i..] == [];
    NoLocalTurns([]);
    if ending.Some? && ending.value.LocalExited? {
      task.Finish(Exited(ending.value.exitCode));
    }
  }

  lemma NoLocalTurns(turns: seq<LocalTurn>)
    ensures turns[0..] == turns && [] + LocalReceived(turns) == LocalReceived(turns)
    ensures LocalReceived([]) == [] && FirstLocalEnding([]) == None
  {
  }

  lemma NextLocalTurn(turns: seq<LocalTurn>, i: nat, received: seq<byte>)
    requires i < |turns|
    ensures LocalEndingOf(turns[i]).Some? ==>
              && FirstLocalEnding(turns[i..]) == LocalEndingOf(turns[i])
              && received + LocalReceived(turns[i..]) == received
    ensures LocalEndingOf(turns[i]).None? ==>
              && FirstLocalEnding(turns[i..]) == FirstLocalEnding(turns[i + 1..])
              && received + LocalReceived(turns[i..]) == received + ChunkOf(turns[i]) + LocalReceived(turns[i + 1..])
  {
    assert turns[i..][0] == turns[i] && turns[i..][1..] == turns[i + 1..];
  }

  /** One turn of the loop of a local pane. */
  method TakeLocalTurn(task: PaneTask, turn: LocalTurn) returns (ending: Option<LocalEnding>)
    requires task.Running()
    modifies task
    ensures task.Running() && ending == LocalEndingOf(turn)
    ensures task.received == old(task.received) + if ending.Some? then [] else ChunkOf(turn)
    ensures turn == LocalTimerFired ==> IsFlushed(task.pane, task.generation, task.received)
  {
    hide Sound, Shown, OnlyFrames;
    match turn
    case Chunk(data) =>
      task.BufferWaitOutput(data);
      return None;
    case Finished(code) =>
      return Some(LocalExited(code));
    case QueueClosed =>
      return Some(Abandoned);
    case LocalTimerFired =>
      if task.pane.hasDeadline {
        task.TimerFires();
      } else {
        NothingHeldBack(task.pane, task.generation, task.received);
      }
      return None;
  }

  // ----- What ends a pane -----

  predicate EndsPane(turn: Turn) {
    || (turn.InputSent? && !turn.ok)
    || (turn.Waited? && (turn.message.None? || turn.message.value.ExitStatus? || turn.message.value.ExitSignal?
                         || turn.message.value.Close?))
  }

  /** A vanished channel or failed input drops the connection; otherwise the pane exits, with a code if it was sent. */
  function EndingFor(turn: Turn): Ending
    requires EndsPane(turn)
  {
    if turn.InputSent? || turn.message.None? then Dropped
    else if turn.message.value.ExitStatus? then Exited(Some(turn.message.value.status))
    else Exited(None)
  }

  lemma EndsOneFor(turn: Turn)
    ensures EndingOf(turn) == if EndsPane(turn) then Some(EndingFor(turn)) else None
  {
  }

  /** A remote pane ends at the first exit status, exit signal, close, vanished channel or failed input, and at nothing
      else; the end of the input stream alone ends nothing. */
  lemma {:induction false} EndsOnlyFor(turns: seq<Turn>, i: nat)
    requires i <= |turns| && forall j :: 0 <= j < i ==> !EndsPane(turns[j])
    ensures i == |turns| ==> FirstEnding(turns) == None
    ensures i < |turns| && EndsPane(turns[i]) ==> FirstEnding(turns) == Some(EndingFor(turns[i]))
  {
    hide EndsPane, EndingFor, EndingOf;
    if turns != [] {
      EndsOneFor(turns[0]);
      if i > 0 { EndsOnlyFor(turns[1..], i - 1); }
    }
  }

  // ----- What the window shows -----

  /** A window that expects another generation shows nothing of the frames. */
  lemma {:induction false} OtherGenerationsShowNothing(log: seq<Event>, generation: nat, other: nat)
    requires generation < U32_MODULUS && OnlyFrames(log, generation) && other != generation
    ensures Shown(log, other) == []
  {
    if log != [] {
      OtherGenerationsShowNothing(log[..|log| - 1], generation, other);
      assert IsFrameOf(log[|log| - 1].frame, generation);
      var data :| data != [] && log[|log| - 1].frame == EncodeFrame(generation, data);
      FrameReadsBack(generation, data);
    }
  }
}

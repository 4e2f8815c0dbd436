/**
 * The v3 writer task of src/recovery_runtime.rs with its real fields, over the replay buffer and
 * the ACK state. Each method is proved to make the moves of `Sending`, so what is proved of runs
 * of those moves holds of the task.
 */
module WriterTask {
  import opened Base
  import opened Replay
  import opened Sending
  import Receiver

  datatype Command = AttachTo(gen: nat, transport: nat, resumeSeq: nat) | DetachFrom(gen: nat)

  /** What a waiting writer task wakes up for; a ready source is one that has something. */
  datatype Wake = OnClosed | OnSignal | OnCommand | OnFrame | OnTimer(heartbeat: bool)

  /** The move of one command: a detach of an older transport does nothing. */
  function CommandMove(gen: nat, c: Command): seq<Move> {
    match c
    case AttachTo(_, transport, resumeSeq) => [Attach(transport, resumeSeq)]
    case DetachFrom(g) => if g == gen then [Detach] else []
  }

  /** The moves of commands applied in a row. */
  function CommandMoves(gen: nat, commands: seq<Command>): seq<Move>
    decreases |commands|
  {
    if commands == [] then []
    else CommandMove(gen, commands[0]) + CommandMoves(NextGen(gen, commands[0]), commands[1..])
  }

  function NextGen(gen: nat, c: Command): nat {
    if c.AttachTo? then c.gen else gen
  }

  /** The generation of the task once the commands are applied. */
  function GenAfter(gen: nat, commands: seq<Command>): nat
    decreases |commands|
  {
    if commands == [] then gen else GenAfter(NextGen(gen, commands[0]), commands[1..])
  }

  /** The last attach of a list of commands, or their number if there is none. */
  function LastAttach(commands: seq<Command>): (k: nat)
    ensures k <= |commands| && (k < |commands| ==> commands[k].AttachTo?)
    ensures forall i :: k < i < |commands| ==> commands[i].DetachFrom?
    ensures k == |commands| ==> forall i :: 0 <= i < k ==> commands[i].DetachFrom?
  {
    if commands == [] then 0
    else if commands[|commands| - 1].AttachTo? then |commands| - 1
    else
      var k := LastAttach(commands[..|commands| - 1]);
      if k == |commands| - 1 then |commands| else k
  }

  /** The highest number acknowledged after attaches that report numbers, each capped by what was sent. */
  function Reported(acked: nat, commands: seq<Command>, sent: nat): nat {
    if commands == [] then acked
    else
      var c := commands[|commands| - 1];
      var before := Reported(acked, commands[..|commands| - 1], sent);
      if c.AttachTo? then Max(before, Min(c.resumeSeq, sent)) else before
  }

  /** What commands change of the task. */
  datatype Attachment = Attachment(gen: nat, writer: Option<nat>, lastSent: nat, acked: nat, resume: seq<FrameRecord>)

  /**
   * What commands applied to attachment a come to. The last attach decides, and a detach of its generation
   * behind it; without an attach, a detach of the present one.
   */
  ghost predicate Applied(a: Attachment, commands: seq<Command>, headerLen: nat, log: seq<Frame>, b: Attachment) {
    var k := LastAttach(commands);
    && b.acked == Reported(a.acked, commands, |log|) <= |log|
    && (if k == |commands| then
          b == a.(writer := if DetachFrom(a.gen) in commands then None else a.writer)
        else
          var c := commands[k];
          && b.gen == c.gen && b.lastSent == Min(c.resumeSeq, |log|)
          && b.resume == Records(headerLen, log, b.acked)
          && b.writer == if DetachFrom(c.gen) in commands[k + 1..] then None else Some(c.transport))
  }

  /** One more command. */
  lemma AppliedNext(a: Attachment, commands: seq<Command>, c: Command, headerLen: nat, log: seq<Frame>,
                    b: Attachment, b': Attachment)
    requires Applied(a, commands, headerLen, log, b)
    requires match c
      case AttachTo(g, t, n) =>
        var acked := Max(b.acked, Min(n, |log|));
        b' == Attachment(g, Some(t), Min(n, |log|), acked, Records(headerLen, log, acked))
      case DetachFrom(g) => b' == b.(writer := if g == b.gen then None else b.writer)
    ensures Applied(a, commands + [c], headerLen, log, b')
  {
    var more, k := commands + [c], LastAttach(commands);
    assert more[..|commands|] == commands;
    if c.DetachFrom? && k < |commands| {
      assert more[k + 1..] == commands[k + 1..] + [c];
    } else if c.AttachTo? {
      assert more[|commands| + 1..] == [];
    }
  }

  /** The task once its commands are applied. */
  function Drained(o: Outcome, gen: nat, commands: seq<Command>): Option<Outcome> {
    RunMoves(o, CommandMoves(gen, commands))
  }

  /** The moves of a turn up to its wait: the commands, and what is ready if they leave a transport. */
  function TurnMoves(o: Outcome, gen: nat, commands: seq<Command>, now: nat, ok: bool): seq<Move>
    requires Drained(o, gen, commands).Some?
  {
    var d := Drained(o, gen, commands).value;
    CommandMoves(gen, commands) + if d.tx.writer.None? then [] else Priority(d.tx, d.acks, now, ok)
  }

  /** What a turn has written when it comes to wait: nothing without a transport, an ACK, or the next frame. */
  ghost predicate TurnWrote(d: Outcome, now: nat, ok: bool, t: Sender, out: seq<Sent>, wait: bool)
    requires d.tx.lastAcked <= |d.tx.log|
  {
    if d.tx.writer.None? then
      t == d.tx && out == [] && !wait
    else if d.acks.lastAckSent < d.acks.lastRecv && (d.acks.due || (d.acks.dueAt != 0 && now >= d.acks.dueAt)) then
      && t == d.tx.(writer := if ok then d.tx.writer else None) && !wait
      && out == if ok then [Sent(d.tx.writer.value, Ack(d.acks.lastRecv))] else []
    else
      && WroteFrame(d.tx, ok, t, out)
      && (wait <==> d.tx.resume == [] && (t.held.Some? || (d.tx.held.None? && d.tx.queue == [])))
  }

  function AttachmentOf(tx: Sender, gen: nat): Attachment {
    Attachment(gen, tx.writer, tx.lastSent, tx.lastAcked, tx.resume)
  }

  /** Commands leave everything else alone. */
  ghost predicate OnlyAttachment(s: Sender, t: Sender) {
    t == s.(writer := t.writer, lastSent := t.lastSent, lastAcked := t.lastAcked, resume := t.resume)
  }

  lemma CommandMeans(s: Sender, acks: Receiver.Acks, gen: nat, c: Command)
    requires s.lastAcked <= |s.log| && !s.done
    ensures RunMoves(Outcome(s, acks, []), CommandMove(gen, c)).Some?
    ensures var n := RunMoves(Outcome(s, acks, []), CommandMove(gen, c)).value;
      && OnlyAttachment(s, n.tx) && n.acks == acks && n.out == [] && n.tx.lastAcked <= |s.log|
      && match c
         case AttachTo(g, t, v) =>
           var acked := Max(s.lastAcked, Min(v, |s.log|));
           AttachmentOf(n.tx, NextGen(gen, c))
             == Attachment(g, Some(t), Min(v, |s.log|), acked, Records(s.budget.headerLen, s.log, acked))
         case DetachFrom(g) =>
           AttachmentOf(n.tx, NextGen(gen, c)) == AttachmentOf(s, gen).(writer := if g == gen then None else s.writer)
  {
    var moves := CommandMove(gen, c);
    if moves != [] {
      OneMove(Outcome(s, acks, []), moves[0]);
      assert moves == [moves[0]];
    }
  }

  lemma {:induction false} MovesOfMore(gen: nat, commands: seq<Command>, c: Command)
    ensures CommandMoves(gen, commands + [c]) == CommandMoves(gen, commands) + CommandMove(GenAfter(gen, commands), c)
    ensures GenAfter(gen, commands + [c]) == NextGen(GenAfter(gen, commands), c)
    decreases |commands|
  {
    var more := commands + [c];
    if commands == [] {
      assert more[0] == c && more[1..] == [];
      assert CommandMove(gen, c) + [] == CommandMove(gen, c);
    } else {
      assert more[0] == commands[0] && more[1..] == commands[1..] + [c];
      MovesOfMore(NextGen(gen, commands[0]), commands[1..], c);
    }
  }

  /** What a list of commands comes to. */
  lemma {:induction false} CommandsMean(s: Sender, acks: Receiver.Acks, gen: nat, commands: seq<Command>)
    requires s.lastAcked <= |s.log| && !s.done
    ensures RunMoves(Outcome(s, acks, []), CommandMoves(gen, commands)).Some?
    ensures var n := RunMoves(Outcome(s, acks, []), CommandMoves(gen, commands)).value;
      && OnlyAttachment(s, n.tx) && n.acks == acks && n.out == [] && n.tx.lastAcked <= |s.log|
      && Applied(AttachmentOf(s, gen), commands, s.budget.headerLen, s.log, AttachmentOf(n.tx, GenAfter(gen, commands)))
    decreases |commands|
  {
    if commands != [] {
      var past, c := commands[..|commands| - 1], commands[|commands| - 1];
      assert past + [c] == commands;
      var o := Outcome(s, acks, []);
      CommandsMean(s, acks, gen, past);
      var mid := RunMoves(o, CommandMoves(gen, past)).value;
      MovesOfMore(gen, past, c);
      RunMovesConcat(o, CommandMoves(gen, past), CommandMove(GenAfter(gen, past), c));
      CommandMeans(mid.tx, acks, GenAfter(gen, past), c);
      var end := RunMoves(mid, CommandMove(GenAfter(gen, past), c)).value;
      AppliedNext(AttachmentOf(s, gen), past, c, s.budget.headerLen, s.log, AttachmentOf(mid.tx, GenAfter(gen, past)),
                  AttachmentOf(end.tx, GenAfter(gen, commands)));
    }
  }

  /** What a task without a transport does when it wakes up. */
  function WaitMoves(tx: Sender, gen: nat, commands: seq<Command>, closing: bool, wake: Wake): seq<Move> {
    match wake
    case OnClosed => [Stop]
    case OnCommand => if commands == [] then [] else CommandMove(gen, commands[0])
    case OnFrame => if tx.held.None? && tx.queue != [] then [StageNext] else []
    case OnSignal => if tx.held.Some? && closing then [Stop] else []
    case OnTimer(_) => []
  }

  /** Whether the task then waits: it has a transport, and nothing to write, or no room for it. */
  predicate Waits(d: Outcome, now: nat, after: Sender) {
    && d.tx.writer.Some? && d.acks.Take(now).1.None? && d.tx.resume == []
    && if d.tx.held.None? && d.tx.queue == [] then true else after.held.Some?
  }

  lemma TurnMeans(o: Outcome, gen: nat, commands: seq<Command>, now: nat, ok: bool)
    requires o.tx.Ok() && !o.tx.done && o.out == []
    ensures Drained(o, gen, commands).Some? && Drained(o, gen, commands).value.tx.Ok()
    ensures RunMoves(o, TurnMoves(o, gen, commands, now, ok)).Some?
    ensures var d, n := Drained(o, gen, commands).value, RunMoves(o, TurnMoves(o, gen, commands, now, ok)).value;
      TurnWrote(d, now, ok, n.tx, n.out, Waits(d, now, n.tx))
  {
    CommandsMean(o.tx, o.acks, gen, commands);
    assert Outcome(o.tx, o.acks, []) == o;
    var moves := CommandMoves(gen, commands);
    RunMovesKeep(o, moves);
    var d := Drained(o, gen, commands).value;
    var next := if d.tx.writer.None? then [] else Priority(d.tx, d.acks, now, ok);
    RunMovesConcat(o, moves, next);
    if d.tx.writer.Some? {
      assert d == Outcome(d.tx, d.acks, []);
      PriorityRuns(d.tx, d.acks, now, ok);
      NextFrameMeans(d.tx, d.acks.Take(now).0, ok);
    }
  }

  /** What a wake-up without a transport comes to. */
  ghost predicate Waited(s: Sender, gen: nat, commands: seq<Command>, closing: bool, wake: Wake, t: Sender, gen': nat)
    requires s.lastAcked <= |s.log|
  {
    match wake
    case OnClosed => t == s.(done := true)
    case OnSignal => t == s.(done := s.done || (s.held.Some? && closing))
    case OnTimer(_) => t == s
    case OnFrame =>
      if s.held.Some? || s.queue == [] then t == s
      else
        var o := s.queue[0];
        && t.queue == s.queue[1..] && t.writer == s.writer
        && if o.CloseMarker? then t.done && t.closeWritten == Some(false) && t.log == s.log && t.held.None?
           else WasStaged(s, o, t)
    case OnCommand =>
      if commands == [] then t == s
      else
        && OnlyAttachment(s, t)
        && Applied(AttachmentOf(s, gen), [commands[0]], s.budget.headerLen, s.log, AttachmentOf(t, gen'))
  }

  lemma WaitMeans(s: Sender, acks: Receiver.Acks, gen: nat, commands: seq<Command>, closing: bool, wake: Wake)
    requires s.lastAcked <= |s.log| && !s.done && s.writer.None?
    ensures RunMoves(Outcome(s, acks, []), WaitMoves(s, gen, commands, closing, wake)).Some?
    ensures var n := RunMoves(Outcome(s, acks, []), WaitMoves(s, gen, commands, closing, wake)).value;
      Waited(s, gen, commands, closing, wake, n.tx, if commands == [] then gen else NextGen(gen, commands[0]))
  {
    if wake.OnCommand? {
      if commands != [] {
        CommandMeans(s, acks, gen, commands[0]);
        OneCommand(s, acks, gen, commands[0]);
      }
    } else {
      var moves := WaitMoves(s, gen, commands, closing, wake);
      if moves != [] {
        OneMove(Outcome(s, acks, []), moves[0]);
        assert moves == [moves[0]];
        if wake.OnFrame? && !s.queue[0].CloseMarker? {
          DetachedStage(s);
        }
      }
    }
  }

  lemma DetachedStage(s: Sender)
    requires s.lastAcked <= |s.log| && s.held.None? && s.queue != [] && !s.queue[0].CloseMarker?
    ensures var t := s.(queue := s.queue[1..]).Stage(s.queue[0]).0;
      WasStaged(s, s.queue[0], t) && t.queue == s.queue[1..] && t.writer == s.writer
  {
    var u := s.(queue := s.queue[1..]);
    StageMeans(u, s.queue[0]);
    StageLeaves(u, s.queue[0]);
    assert u.Used() == s.Used();
  }

  lemma OneCommand(s: Sender, acks: Receiver.Acks, gen: nat, c: Command)
    requires s.lastAcked <= |s.log| && !s.done
    ensures RunMoves(Outcome(s, acks, []), CommandMove(gen, c)).Some?
    ensures var t := RunMoves(Outcome(s, acks, []), CommandMove(gen, c)).value.tx;
      Applied(AttachmentOf(s, gen), [c], s.budget.headerLen, s.log, AttachmentOf(t, NextGen(gen, c)))
  {
    CommandMeans(s, acks, gen, c);
    var t := RunMoves(Outcome(s, acks, []), CommandMove(gen, c)).value.tx;
    var a := AttachmentOf(s, gen);
    assert Applied(a, [], s.budget.headerLen, s.log, a);
    AppliedNext(a, [], c, s.budget.headerLen, s.log, a, AttachmentOf(t, NextGen(gen, c)));
    assert [] + [c] == [c];
  }

  /** What a flush and a wake-up with a transport come to. */
  ghost predicate Flushed(s: Sender, gen: nat, commands: seq<Command>, flushed: bool, wake: Wake, ok: bool,
                          t: Sender, gen': nat, out: seq<Sent>)
    requires s.lastAcked <= |s.log| && s.writer.Some?
  {
    if !flushed then t == s.(writer := None) && out == []
    else match wake
      case OnClosed => t == s.(done := true) && out == []
      case OnSignal => t == s && out == []
      case OnTimer(heartbeat) =>
        && t == s.(writer := if heartbeat && !ok then None else s.writer)
        && out == if heartbeat && ok then [Sent(s.writer.value, Ping)] else []
      case OnFrame =>
        if s.held.Some? || s.queue == [] then t == s && out == []
        else WentLive(s, s.queue[0], ok, t, out) && t.queue == s.queue[1..] && t.resume == s.resume
      case OnCommand =>
        && out == []
        && if commands == [] then t == s
           else
             && OnlyAttachment(s, t)
             && Applied(AttachmentOf(s, gen), [commands[0]], s.budget.headerLen, s.log, AttachmentOf(t, gen'))
  }

  lemma FlushMeans(s: Sender, acks: Receiver.Acks, gen: nat, commands: seq<Command>, flushed: bool, wake: Wake, ok: bool)
    requires s.lastAcked <= |s.log| && !s.done && s.writer.Some? && s.resume == []
    ensures RunMoves(Outcome(s, acks, []), FlushMoves(s, gen, commands, flushed, wake, ok)).Some?
    ensures var n := RunMoves(Outcome(s, acks, []), FlushMoves(s, gen, commands, flushed, wake, ok)).value;
      Flushed(s, gen, commands, flushed, wake, ok, n.tx, if commands == [] then gen else NextGen(gen, commands[0]), n.out)
  {
    if flushed && wake.OnCommand? {
      if commands != [] {
        CommandMeans(s, acks, gen, commands[0]);
        OneCommand(s, acks, gen, commands[0]);
      }
    } else {
      var moves := FlushMoves(s, gen, commands, flushed, wake, ok);
      if moves != [] {
        OneMove(Outcome(s, acks, []), moves[0]);
        assert moves == [moves[0]];
        if flushed && wake.OnFrame? {
          var u, o := s.(queue := s.queue[1..]), s.queue[0];
          LiveMeans(u, o, ok);
          SameLive(s, u, o, ok, u.WriteLive(o, ok).0, u.WriteLive(o, ok).1);
        }
      }
    }
  }

  /** What a task with a transport does after its flush and the wake-up behind it. */
  function FlushMoves(tx: Sender, gen: nat, commands: seq<Command>, flushed: bool, wake: Wake, ok: bool): seq<Move> {
    if !flushed then [FlushFailed]
    else match wake
      case OnClosed => [Stop]
      case OnSignal => []
      case OnCommand => if commands == [] then [] else CommandMove(gen, commands[0])
      case OnFrame => if tx.held.None? && tx.queue != [] then [SendNext(ok)] else []
      case OnTimer(heartbeat) => if heartbeat then [WritePing(ok)] else []
  }

  lemma Regroup(a: seq<Move>, b: seq<Move>, c: seq<Move>)
    ensures a + (b + c) == (a + b) + c && a + [] == a
  {
  }

  class RecoveryWriter {
    const replay: ReplayBuffer
    const recovery: Receiver.RecoveryState
    var closed: bool
    var closing: bool
    var nextSendSeq: nat
    var outbound: seq<Outbound>
    var commands: seq<Command>
    var replies: seq<(nat, bool)>
    var writer: Option<nat>
    var gen: nat
    var lastSentSeq: nat
    var resume: seq<FrameRecord>
    var held: Option<Outbound>
    var closeWritten: Option<bool>
    var done: bool
    /** Whether the one transport that CLOSE goes to will shut down, and what its closer was told. */
    const shutsDown: bool
    var told: Option<bool>
    /** The generations that the task has reported as lost, by `detach_transport`. */
    var detached: seq<nat>
    ghost var log: seq<Frame>
    ghost var taken: seq<Outbound>

    /** The buffer holds exactly the kept frames after the last acknowledged one. */
    ghost predicate Valid()
      reads this, replay
    {
      && replay.Valid()
      && replay.lastAcked <= |log| == nextSendSeq
      && replay.queue == Records(replay.headerLen, log, replay.lastAcked)
      && ToldRight()
    }

    /** The closer is told so only of a CLOSE that was written. */
    ghost predicate ToldRight()
      reads this
    {
      told == if closeWritten.Some? then Some(closeWritten.value && shutsDown) else None
    }

    ghost function View(): Sender
      reads this, replay
    {
      Sender(Budget(replay.headerLen, replay.maxBytes), outbound, held, taken, log, replies,
             replay.lastAcked, writer, lastSentSeq, resume, closeWritten, done)
    }

    /** What only commands and other tasks change. */
    ghost function Others(): (nat, seq<Command>, bool, bool)
      reads this
    {
      (gen, commands, closed, closing)
    }

    ghost function Attached(): Attachment
      reads this, replay
    {
      AttachmentOf(View(), gen)
    }

    constructor (headerLen: nat, maxBytes: int, ackEvery: nat, ackDelay: nat, shutsDown: bool)
      ensures Valid() && View().Ok() && View().Enqueued() == [] && log == []
      ensures fresh(replay) && fresh(recovery) && recovery.View().Booked()
      ensures replay.headerLen == headerLen && replay.maxBytes == maxBytes && replay.lastAcked == 0
      ensures writer.None? && gen == 0 && resume == [] && held.None? && outbound == [] && commands == [] && !done && !closed
      ensures recovery.ackEvery == ackEvery && recovery.ackDelay == ackDelay && this.shutsDown == shutsDown
    {
      replay := new ReplayBuffer(headerLen, maxBytes);
      recovery := new Receiver.RecoveryState(ackEvery, ackDelay);
      closed, closing, nextSendSeq, outbound, commands, replies := false, false, 0, [], [], [];
      writer, gen, lastSentSeq, resume, held, closeWritten, done := None, 0, 0, [], None, None, false;
      this.shutsDown, told, detached := shutsDown, None, [];
      log, taken := [], [];
    }

    /** `enqueue_frame` puts a frame behind the others. */
    method Enqueue(o: Outbound)
      requires Valid()
      modifies this`outbound
      ensures Valid() && View() == old(View()).(queue := old(outbound) + [o]) && outbound == old(outbound) + [o]
    {
      outbound := outbound + [o];
    }

    /**
     * An ACK frees the frames up to its number. One beyond what was sent, which no honest peer sends,
     * frees all of them, and leaves the buffer such that it refuses the next number.
     */
    method AckReceived(v: nat)
      requires Valid()
      modifies replay
      ensures replay.Valid() && replay.lastAcked == Max(old(replay.lastAcked), v)
      ensures v <= nextSendSeq ==> Valid() && View() == old(View()).Acknowledged(v)
      ensures v > nextSendSeq ==> replay.queue == [] && nextSendSeq + 1 <= replay.lastAcked
    {
      RecordsAfter(replay.headerLen, log, replay.lastAcked, Min(v, nextSendSeq));
      ghost var before := replay.queue;
      var _ := replay.Ack(v);
      if v > nextSendSeq {
        AfterIsSuffix(before, v, |before|);
      }
    }

    /** Gives up the transport and reports its generation as lost. */
    method Detach()
      modifies this`writer, this`detached
      ensures writer == None && detached == old(detached) + [gen]
    {
      detached := detached + [gen];
      writer := None;
    }

    method Write(f: WireFrame, ok: bool) returns (written: bool, out: seq<Sent>)
      requires Valid() && writer.Some?
      modifies this`writer, this`detached
      ensures Valid() && written == ok
      ensures writer == (if ok then old(writer) else None)
      ensures out == if ok then [Sent(old(writer).value, f)] else []
      ensures (View(), out) == old(View()).Write(f, ok)
      ensures detached == old(detached) + if ok then [] else [gen]
    {
      if ok {
        return true, [Sent(writer.value, f)];
      }
      Detach();
      return false, [];
    }

    method WriteRecord(r: FrameRecord, ok: bool) returns (out: seq<Sent>)
      requires Valid() && writer.Some?
      modifies this`writer, this`lastSentSeq, this`detached
      ensures Valid()
      ensures writer == (if ok then old(writer) else None) && lastSentSeq == (if ok then r.seqNo else old(lastSentSeq))
      ensures out == if ok then [Sent(old(writer).value, Data(r))] else []
      ensures (View(), out) == old(View()).WriteRecord(r, ok)
      ensures detached == old(detached) + if ok then [] else [gen]
    {
      var written;
      written, out := Write(Data(r), ok);
      if written {
        lastSentSeq := r.seqNo;
      }
    }

    /** Tells the waiting sender, if there is one. */
    method Reply(o: Outbound, kept: bool)
      requires !o.CloseMarker?
      modifies this`replies
      ensures replies == if o.Recovery? then old(replies) + [(o.ticket, kept)] else old(replies)
    {
      if o.Recovery? {
        replies := replies + [(o.ticket, kept)];
      }
    }

    /**
     * Offers a frame to the buffer under the next number. The buffer never answers that the number is
     * stale: it keeps the frame, or is full, or refuses the frame for its size.
     */
    method Offer(f: Frame) returns (r: Result<Staged>)
      requires Valid()
      modifies replay`usedBytes, replay`queue
      ensures replay.Valid()
      ensures var s := old(View());
        var size := replay.headerLen + |f.payload|;
        && (s.budget.Fits(f) <==> !(0 < replay.maxBytes < size))
        && (s.Room(f) <==> !(0 < replay.maxBytes < old(replay.usedBytes) + size))
        && if s.Room(f) then
          var record := FrameRecord(nextSendSeq + 1, f, replay.headerLen + |f.payload|);
          r == Ok(Kept(record)) && replay.queue == old(replay.queue) + [record]
        else
          && r == (if s.budget.Fits(f) then Ok(Full(f.payload)) else Err(FrameTooLarge(|f.payload|)))
          && Valid() && View() == s
    {
      BufferAgrees(f);
      r := replay.Stage(nextSendSeq + 1, f);
    }

    /** Stages a data frame as `Sending` says. */
    method StageFrame(o: Outbound) returns (r: Option<FrameRecord>)
      requires Valid() && !o.CloseMarker? && held.None?
      modifies this`nextSendSeq, this`held, this`replies, this`log, this`taken, replay`usedBytes, replay`queue
      ensures Others() == old(Others())
      ensures Valid()
      ensures (View(), r) == old(View()).Stage(o)
    {
      var staged := Offer(o.frame);
      match staged {
        case Ok(Kept(record)) =>
          Keep(o, record);
          return Some(record);
        case Ok(Full(payload)) =>
          Hold(o, payload);
          return None;
        case Err(_) =>
          Refuse(o);
          return None;
      }
    }

    /** Holds a frame until there is room, with the payload that the buffer gave back. */
    method Hold(o: Outbound, payload: seq<byte>)
      requires Valid() && !o.CloseMarker? && payload == o.frame.payload
      modifies this`held
      ensures Others() == old(Others())
      ensures Valid() && View() == old(View()).(held := Some(o))
    {
      var frame := o.frame.(payload := payload);
      held := Some(if o.Recovery? then Recovery(frame, o.ticket) else Plain(frame));
    }

    /** Drops a frame that can never fit, and tells its sender. */
    method Refuse(o: Outbound)
      requires Valid() && !o.CloseMarker?
      modifies this`replies, this`taken
      ensures Others() == old(Others())
      ensures Valid()
      ensures View() == old(View()).(taken := old(taken) + [o],
                                     replies := if o.Recovery? then old(replies) + [(o.ticket, false)] else old(replies))
    {
      taken := taken + [o];
      Reply(o, false);
    }

    /** Numbers the kept frame as the next one and answers its sender. */
    method Keep(o: Outbound, record: FrameRecord)
      requires replay.Valid() && replay.lastAcked <= |log| == nextSendSeq && ToldRight() && !o.CloseMarker?
      requires replay.queue == Records(replay.headerLen, log, replay.lastAcked) + [record]
      requires record == FrameRecord(nextSendSeq + 1, o.frame, replay.headerLen + |o.frame.payload|)
      modifies this`nextSendSeq, this`replies, this`log, this`taken
      ensures Others() == old(Others())
      ensures Valid() && record == Record(replay.headerLen, log, |log|)
      ensures View() == old(View()).(taken := old(taken) + [o], log := old(log) + [o.frame],
                                     replies := if o.Recovery? then old(replies) + [(o.ticket, true)] else old(replies))
    {
      ghost var s := View();
      NextRecord(replay.headerLen, log, o.frame, replay.lastAcked);
      log, taken := log + [o.frame], taken + [o];
      nextSendSeq := nextSendSeq + 1;
      Reply(o, true);
      assert View() == s.(taken := taken, log := log, replies := replies);
    }

    /** The three cases of `ReplayBuffer.Stage`, read off the log; its number is always the next one. */
    lemma BufferAgrees(f: Frame)
      requires Valid()
      ensures var size, s := replay.headerLen + |f.payload|, View();
        && (s.budget.Fits(f) <==> !(0 < replay.maxBytes < size))
        && (s.Room(f) <==> !(0 < replay.maxBytes < TotalSize(replay.queue) + size))
        && (s.Room(f) ==> s.budget.Fits(f))
      ensures forall i :: 0 <= i < |replay.queue| ==> replay.queue[i].seqNo < nextSendSeq + 1
    {
    }

    /**
     * The close marker ends the task, after CLOSE if a transport takes it. The closer is told that it was
     * written only if the transport was shut down, too.
     */
    method FinishOnClose(ok: bool) returns (out: seq<Sent>)
      requires Valid()
      modifies this`closeWritten, this`done, this`taken, this`told
      ensures Others() == old(Others())
      ensures Valid() && done
      ensures closeWritten == Some(writer.Some? && ok) && told == Some(writer.Some? && ok && shutsDown)
      ensures out == if writer.Some? && ok then [Sent(writer.value, Close)] else []
      ensures (View(), out) == old(View()).Finish(ok)
    {
      var written := writer.Some? && ok;
      closeWritten := Some(written);
      told := Some(written && shutsDown);
      done := true;
      taken := taken + [CloseMarker];
      return if written then [Sent(writer.value, Close)] else [];
    }

    /** Writes a frame just kept, unless the peer has it. */
    method WriteKept(r: Option<FrameRecord>, ok: bool) returns (out: seq<Sent>)
      requires Valid() && writer.Some?
      modifies this`writer, this`lastSentSeq, this`detached
      ensures Others() == old(Others())
      ensures Valid()
      ensures (View(), out) == if r.Some? && r.value.seqNo > old(lastSentSeq) then old(View()).WriteRecord(r.value, ok)
                               else (old(View()), [])
    {
      out := [];
      if r.Some? && r.value.seqNo > lastSentSeq {
        out := WriteRecord(r.value, ok);
      }
    }

    method WriteLive(o: Outbound, ok: bool) returns (out: seq<Sent>)
      requires Valid() && writer.Some? && held.None?
      modifies this`nextSendSeq, this`held, this`replies, this`log, this`taken, this`writer, this`lastSentSeq, this`detached
      modifies this`closeWritten, this`done, this`told, replay`usedBytes, replay`queue
      ensures Valid() && Others() == old(Others())
      ensures WentLive(old(View()), o, ok, View(), out)
      ensures (View(), out) == old(View()).WriteLive(o, ok)
    {
      ghost var s := View();
      if o.CloseMarker? {
        out := FinishOnClose(ok);
      } else {
        var r := StageFrame(o);
        ghost var t := View();
        assert (t, r) == s.Stage(o);
        out := WriteKept(r, ok);
        LiveParts(s, o, ok, t, r);
      }
      LiveMeans(s, o, ok);
    }

    /** What the peer has is acknowledged by it, and what is left in the buffer is to be replayed. */
    method PrepareResume(lastSeq: nat) returns (frames: seq<FrameRecord>)
      requires Valid() && lastSeq <= nextSendSeq
      modifies replay
      ensures Valid() && replay.lastAcked == Max(old(replay.lastAcked), lastSeq)
      ensures frames == Records(replay.headerLen, log, replay.lastAcked)
    {
      RecordsAfter(replay.headerLen, log, replay.lastAcked, lastSeq);
      var _ := replay.Ack(lastSeq);
      RecordsAfter(replay.headerLen, log, replay.lastAcked, lastSeq);
      frames := replay.SnapshotFrom(lastSeq);
    }

    /** The number reported by the peer, capped by what was sent, acknowledges; the rest is replayed. */
    method AttachWriter(transport: nat, resumeSeq: nat)
      requires Valid()
      modifies this`lastSentSeq, this`resume, this`writer, replay
      ensures Valid() && View() == old(View()).Attached(transport, resumeSeq)
      ensures writer == Some(transport) && lastSentSeq == Min(resumeSeq, nextSendSeq)
      ensures replay.lastAcked == Max(old(replay.lastAcked), Min(resumeSeq, nextSendSeq))
      ensures resume == Records(replay.headerLen, log, replay.lastAcked)
    {
      ghost var s := View();
      lastSentSeq := if resumeSeq < nextSendSeq then resumeSeq else nextSendSeq;
      resume := PrepareResume(lastSentSeq);
      writer := Some(transport);
      assert View() == s.(writer := writer, lastSent := lastSentSeq, lastAcked := replay.lastAcked, resume := resume);
    }

    /** Makes the move of one command. */
    method Apply(c: Command)
      requires Valid() && !done
      modifies this, replay
      ensures Valid() && closed == old(closed) && closing == old(closing) && commands == old(commands) && !done
      ensures log == old(log) && held == old(held) && outbound == old(outbound) && nextSendSeq == old(nextSendSeq)
      ensures gen == NextGen(old(gen), c)
      ensures match c
        case AttachTo(g, transport, n) =>
          && gen == g && writer == Some(transport) && lastSentSeq == Min(n, nextSendSeq)
          && replay.lastAcked == Max(old(replay.lastAcked), Min(n, nextSendSeq))
          && resume == Records(replay.headerLen, log, replay.lastAcked)
        case DetachFrom(g) =>
          Attached() == old(Attached()).(writer := if g == old(gen) then None else old(writer))
      ensures RunMoves(Outcome(old(View()), recovery.View(), []), CommandMove(old(gen), c))
           == Some(Outcome(View(), recovery.View(), []))
    {
      if CommandMove(gen, c) != [] {
        OneMove(Outcome(View(), recovery.View(), []), CommandMove(gen, c)[0]);
      }
      match c {
        case AttachTo(g, transport, resumeSeq) =>
          gen := g;
          AttachWriter(transport, resumeSeq);
        case DetachFrom(g) =>
          if g == gen {
            writer := None;
          }
      }
    }

    /** Takes the next command and applies it. */
    method TakeCommand()
      requires Valid() && !done && commands != []
      modifies this, replay
      ensures Valid() && closed == old(closed) && closing == old(closing) && !done
      ensures commands == old(commands)[1..] && gen == NextGen(old(gen), old(commands)[0])
      ensures RunMoves(Outcome(old(View()), recovery.View(), []), CommandMove(old(gen), old(commands)[0]))
           == Some(Outcome(View(), recovery.View(), []))
    {
      var c := commands[0];
      commands := commands[1..];
      Apply(c);
    }

    /** Whether an ACK is owed and due. */
    predicate AckTakable(now: nat)
      reads recovery
    {
      && recovery.lastAckSent < recovery.lastRecvSeq
      && (recovery.ackDue || (recovery.ackDueAt != 0 && now >= recovery.ackDueAt))
    }

    /**
     * Writes what is ready: an ACK that is owed and due, else the next record to replay, else the held
     * frame, else the head of the queue. It reports that there may be more unless it found nothing, or a
     * frame it could not find room for; and then it has come further.
     */
    method WriteNext(now: nat, ok: bool) returns (more: bool, out: seq<Sent>)
      requires Valid() && View().Ok() && !done && writer.Some?
      modifies this, replay`usedBytes, replay`queue, recovery
      ensures Valid() && Others() == old(Others())
      ensures old(AckTakable(now)) ==>
                && more && recovery.lastAckSent == recovery.lastRecvSeq == old(recovery.lastRecvSeq)
                && View() == old(View()).(writer := if ok then old(writer) else None)
                && out == if ok then [Sent(old(writer).value, Ack(old(recovery.lastRecvSeq)))] else []
      ensures !old(AckTakable(now)) && old(resume) != [] ==>
                var r := old(resume)[0];
                var goes := r.seqNo > old(lastSentSeq) && r.seqNo > old(replay.lastAcked);
                && more && resume == old(resume)[1..] && held == old(held) && outbound == old(outbound) && log == old(log)
                && writer == (if goes && !ok then None else old(writer))
                && out == if goes && ok then [Sent(old(writer).value, Data(r))] else []
      ensures !old(AckTakable(now)) && old(resume) == [] && old(held).Some? ==>
                WentLive(old(View()), old(held).value, ok, View(), out) && outbound == old(outbound) && more == held.None?
      ensures !old(AckTakable(now)) && old(resume) == [] && old(held).None? && old(outbound) != [] ==>
                WentLive(old(View()), old(outbound)[0], ok, View(), out) && outbound == old(outbound)[1..] && more == held.None?
      ensures !old(AckTakable(now)) && old(resume) == [] && old(held).None? && old(outbound) == [] ==>
                !more && out == [] && View() == old(View())
      ensures more && !old(AckTakable(now)) ==> Ahead(View()) < Ahead(old(View()))
      ensures RunMoves(Outcome(old(View()), old(recovery.View()), []), Priority(old(View()), old(recovery.View()), now, ok))
           == Some(Outcome(View(), recovery.View(), out))
      ensures !more ==> out == [] && !done && writer == old(writer) && resume == [] && (held.Some? || outbound == [])
    {
      PriorityRuns(View(), recovery.View(), now, ok);
      var ack := recovery.TakePendingAck(now);
      if ack.Some? {
        var written;
        written, out := Write(Ack(ack.value), ok);
        return true, out;
      }
      more, out := WriteFrame(ok);
    }

    /** Writes the next frame, if there is one. */
    method WriteFrame(ok: bool) returns (more: bool, out: seq<Sent>)
      requires Valid() && View().Ok() && !done && writer.Some?
      modifies this, replay`usedBytes, replay`queue
      ensures Valid() && Others() == old(Others())
      ensures WroteFrame(old(View()), ok, View(), out)
      ensures more == if old(resume) != [] then true else held.None? && Ahead(old(View())) > 0
      ensures more ==> Ahead(View()) < Ahead(old(View()))
      ensures RunMoves(Outcome(old(View()), recovery.View(), []), NextFrame(old(View()), ok))
           == Some(Outcome(View(), recovery.View(), out))
      ensures !more ==> out == [] && !done && writer == old(writer) && resume == [] && (held.Some? || outbound == [])
    {
      NextFrameMeans(View(), recovery.View(), ok);
      if resume != [] {
        out := ReplayNext(ok);
        return true, out;
      }
      if held.Some? {
        out := SendHeldFrame(ok);
        return held.None?, out;
      }
      if outbound == [] {
        return false, [];
      }
      out := TakeLive(ok);
      return held.None?, out;
    }

    /** Tries the held frame again. */
    method SendHeldFrame(ok: bool) returns (out: seq<Sent>)
      requires Valid() && View().Ok() && !done && writer.Some? && resume == [] && held.Some?
      modifies this`nextSendSeq, this`held, this`replies, this`log, this`taken, this`writer, this`lastSentSeq, this`detached
      modifies this`closeWritten, this`done, this`told, replay`usedBytes, replay`queue
      ensures Valid() && Others() == old(Others())
      ensures RunMoves(Outcome(old(View()), recovery.View(), []), [SendHeld(ok)]) == Some(Outcome(View(), recovery.View(), out))
      ensures held.Some? ==> out == [] && !done && writer == old(writer) && resume == []
    {
      OneMove(Outcome(View(), recovery.View(), []), SendHeld(ok));
      var frame := held.value;
      held := None;
      ghost var s := View();
      LiveHolds(s, frame, ok);
      out := WriteLive(frame, ok);
    }

    /** Writes the first frame left to replay, unless the peer has it by now. */
    method ReplayNext(ok: bool) returns (out: seq<Sent>)
      requires Valid() && !done && writer.Some? && resume != []
      modifies this`writer, this`lastSentSeq, this`resume, this`detached
      ensures Valid() && resume == old(resume)[1..]
      ensures var r := old(resume)[0];
        var goes := r.seqNo > old(lastSentSeq) && r.seqNo > replay.lastAcked;
        && writer == (if goes && !ok then None else old(writer))
        && lastSentSeq == (if goes && ok then r.seqNo else old(lastSentSeq))
        && out == if goes && ok then [Sent(old(writer).value, Data(r))] else []
      ensures RunMoves(Outcome(old(View()), recovery.View(), []), [Replay(ok)]) == Some(Outcome(View(), recovery.View(), out))
    {
      OneMove(Outcome(View(), recovery.View(), []), Replay(ok));
      var r := resume[0];
      resume := resume[1..];
      out := [];
      if r.seqNo > lastSentSeq && r.seqNo > replay.lastAcked {
        out := WriteRecord(r, ok);
      }
    }

    /** Takes the next queued frame and writes it live. */
    method TakeLive(ok: bool) returns (out: seq<Sent>)
      requires Valid() && !done && writer.Some? && resume == [] && held.None? && outbound != []
      modifies this`nextSendSeq, this`held, this`replies, this`log, this`taken, this`writer, this`lastSentSeq, this`detached
      modifies this`closeWritten, this`done, this`told, replay`usedBytes, replay`queue, this`outbound
      ensures Valid() && Others() == old(Others())
      ensures RunMoves(Outcome(old(View()), recovery.View(), []), [SendNext(ok)]) == Some(Outcome(View(), recovery.View(), out))
      ensures held.Some? ==> out == [] && !done && writer == old(writer) && resume == []
    {
      ghost var before := View();
      OneMove(Outcome(before, recovery.View(), []), SendNext(ok));
      var frame := outbound[0];
      outbound := outbound[1..];
      ghost var s := View();
      assert s == before.(queue := before.queue[1..]);
      LiveHolds(s, frame, ok);
      out := WriteLive(frame, ok);
      assert before.Do(recovery.View(), SendNext(ok)) == Outcome(View(), recovery.View(), out);
    }

    /** One wake-up of a task that has nothing to write to. */
    method WaitDetached(wake: Wake)
      requires Valid() && !done && writer.None?
      modifies this, replay
      ensures Valid() && closing == old(closing) && closed == old(closed)
      ensures commands == if wake.OnCommand? && old(commands) != [] then old(commands)[1..] else old(commands)
      ensures !wake.OnCommand? || old(commands) == [] ==> gen == old(gen)
      ensures Waited(old(View()), old(gen), old(commands), closing, wake, View(), gen)
      ensures RunMoves(Outcome(old(View()), recovery.View(), []), WaitMoves(old(View()), old(gen), old(commands), closing, wake))
           == Some(Outcome(View(), recovery.View(), []))
    {
      ghost var o, moves := Outcome(View(), recovery.View(), []), WaitMoves(View(), gen, commands, closing, wake);
      if moves != [] && !wake.OnCommand? {
        OneMove(o, moves[0]);
      }
      match wake {
        case OnClosed =>
          done := true;
          assert View() == o.tx.(done := true);
        case OnCommand =>
          if commands != [] {
            TakeCommand();
          }
        case OnFrame =>
          if held.None? && outbound != [] {
            StageDetached();
          }
        case OnSignal =>
          if held.Some? && closing {
            done := true;
            assert View() == o.tx.(done := true);
          }
        case OnTimer(_) =>
      }
      assert RunMoves(o, moves) == Some(Outcome(View(), recovery.View(), []));
      WaitMeans(o.tx, o.acks, old(gen), old(commands), closing, wake);
    }

    /** Takes the next frame while detached: a close marker just ends the task. */
    method StageDetached()
      requires Valid() && !done && writer.None? && held.None? && outbound != []
      modifies this`nextSendSeq, this`held, this`replies, this`log, this`taken, this`writer, this`lastSentSeq, this`detached
      modifies this`closeWritten, this`done, this`told, replay`usedBytes, replay`queue, this`outbound
      ensures outbound == old(outbound)[1..] && Others() == old(Others())
      ensures Valid() && View() == old(View()).Do(recovery.View(), StageNext).tx
    {
      ghost var s := View();
      var frame := outbound[0];
      outbound := outbound[1..];
      assert View() == s.(queue := s.queue[1..]);
      if frame.CloseMarker? {
        var _ := FinishOnClose(true);
      } else {
        var _ := StageFrame(frame);
      }
    }

    /** One wake-up of a task that has written all it has. */
    method FlushAndWait(flushed: bool, wake: Wake, ok: bool) returns (out: seq<Sent>)
      requires Valid() && !done && writer.Some? && resume == []
      modifies this, replay
      ensures Valid()
      ensures commands == if flushed && wake.OnCommand? && old(commands) != [] then old(commands)[1..] else old(commands)
      ensures !flushed || !wake.OnCommand? || old(commands) == [] ==> gen == old(gen)
      ensures Flushed(old(View()), old(gen), old(commands), flushed, wake, ok, View(), gen, out)
      ensures RunMoves(Outcome(old(View()), recovery.View(), []),
                       FlushMoves(old(View()), old(gen), old(commands), flushed, wake, ok))
           == Some(Outcome(View(), recovery.View(), out))
      ensures !flushed ==> detached == old(detached) + [gen]
    {
      ghost var o, moves := Outcome(View(), recovery.View(), []), FlushMoves(View(), gen, commands, flushed, wake, ok);
      if moves != [] && (!flushed || !wake.OnCommand?) {
        OneMove(o, moves[0]);
      }
      out := [];
      if !flushed {
        Detach();
      } else { match wake {
        case OnClosed => done := true;
        case OnSignal =>
        case OnCommand =>
          if commands != [] {
            TakeCommand();
          }
        case OnFrame =>
          if held.None? && outbound != [] {
            out := TakeLive(ok);
          }
        case OnTimer(heartbeat) =>
          if heartbeat {
            var written;
            written, out := Write(Ping, ok);
          }
      } }
      assert RunMoves(o, moves) == Some(Outcome(View(), recovery.View(), out));
      FlushMeans(o.tx, o.acks, old(gen), old(commands), flushed, wake, ok);
    }

    /** Applies every command queued so far. */
    method DrainCommands()
      requires Valid() && !done
      modifies this, replay
      ensures Valid() && !done && commands == [] && closed == old(closed) && closing == old(closing)
      ensures OnlyAttachment(old(View()), View())
      ensures Applied(old(Attached()), old(commands), replay.headerLen, log, Attached())
      ensures gen == GenAfter(old(gen), old(commands))
      ensures RunMoves(Outcome(old(View()), recovery.View(), []), CommandMoves(old(gen), old(commands)))
           == Some(Outcome(View(), recovery.View(), []))
    {
      ghost var o := Outcome(View(), recovery.View(), []);
      ghost var moves := [];
      ghost var total := CommandMoves(gen, commands);
      while commands != []
        invariant Valid() && !done && closed == old(closed) && closing == old(closing)
        invariant RunMoves(o, moves) == Some(Outcome(View(), recovery.View(), []))
        invariant total == moves + CommandMoves(gen, commands)
        invariant GenAfter(gen, commands) == GenAfter(old(gen), old(commands))
        decreases |commands|
      {
        var c := commands[0];
        ghost var more := CommandMove(gen, c);
        commands := commands[1..];
        RunMovesConcat(o, moves, more);
        Regroup(moves, more, CommandMoves(NextGen(gen, c), commands));
        Apply(c);
        moves := moves + more;
      }
      CommandsMean(o.tx, o.acks, old(gen), old(commands));
      Regroup(moves, [], []);
    }

    /** Applies the commands queued so far, then writes what is ready if a transport is left. */
    method WriteReady(now: nat, ok: bool) returns (wait: bool, out: seq<Sent>, ghost moves: seq<Move>)
      requires Valid() && View().Ok() && !done
      modifies this, replay, recovery
      ensures Valid() && commands == [] && gen == GenAfter(old(gen), old(commands))
      ensures Drained(Outcome(old(View()), old(recovery.View()), []), old(gen), old(commands)).Some?
      ensures
        var o := Outcome(old(View()), old(recovery.View()), []);
        && moves == TurnMoves(o, old(gen), old(commands), now, ok)
        && wait == Waits(Drained(o, old(gen), old(commands)).value, now, View())
        && Drained(o, old(gen), old(commands)).value.tx.Ok()
        && TurnWrote(Drained(o, old(gen), old(commands)).value, now, ok, View(), out, wait)
      ensures RunMoves(Outcome(old(View()), old(recovery.View()), []), moves) == Some(Outcome(View(), recovery.View(), out))
      ensures wait ==> out == [] && !done && writer.Some? && resume == []
    {
      ghost var o := Outcome(View(), recovery.View(), []);
      TurnMeans(o, gen, commands, now, ok);
      moves := CommandMoves(gen, commands);
      DrainCommands();
      if writer.None? {
        assert moves + [] == moves;
        return false, [], moves;
      }
      RunMovesKeep(o, moves);
      ghost var next := Priority(View(), recovery.View(), now, ok);
      RunMovesConcat(o, moves, next);
      var again;
      again, out := WriteNext(now, ok);
      return !again, out, moves + next;
    }

    /** Other tasks queue frames and commands while the task waits. */
    method Arrive(frames: seq<Outbound>, late: seq<Command>)
      requires Valid() && View().Ok()
      modifies this`outbound, this`commands
      ensures Valid() && View().Ok()
      ensures View() == old(View()).(queue := old(outbound) + frames) && commands == old(commands) + late
      ensures View().Enqueued() == old(View()).Enqueued() + frames
    {
      ArrivedOk(Outcome(View(), recovery.View(), []), frames);
      outbound, commands := outbound + frames, commands + late;
    }

    /** The turn up to its wait: the task stops, waits without a transport, or writes what is ready. */
    method BeforeWait(now: nat, ok: bool, wake: Wake) returns (wait: bool, out: seq<Sent>, ghost moves: seq<Move>)
      requires Valid() && View().Ok() && !done
      modifies this, replay, recovery
      ensures Valid() && View().Ok() && View().Enqueued() == old(View()).Enqueued() && old(log) <= log
      ensures RunMoves(Outcome(old(View()), old(recovery.View()), []), moves) == Some(Outcome(View(), recovery.View(), out))
      ensures old(closed) ==> moves == [Stop] && !wait && out == [] && View() == old(View()).(done := true)
      ensures !old(closed) && old(writer).None? ==>
                && moves == WaitMoves(old(View()), old(gen), old(commands), old(closing), wake) && !wait && out == []
                && Waited(old(View()), old(gen), old(commands), old(closing), wake, View(), gen)
      ensures !old(closed) && old(writer).Some? ==>
                && commands == [] && gen == GenAfter(old(gen), old(commands))
                && Drained(Outcome(old(View()), old(recovery.View()), []), old(gen), old(commands)).Some?
      ensures !old(closed) && old(writer).Some? ==>
                var o := Outcome(old(View()), old(recovery.View()), []);
                && moves == TurnMoves(o, old(gen), old(commands), now, ok)
                && wait == Waits(Drained(o, old(gen), old(commands)).value, now, View())
                && Drained(o, old(gen), old(commands)).value.tx.Ok()
                && TurnWrote(Drained(o, old(gen), old(commands)).value, now, ok, View(), out, wait)
      ensures wait ==> out == [] && !done && writer.Some? && resume == []
    {
      ghost var o := Outcome(View(), recovery.View(), []);
      wait := false;
      if closed {
        moves, out, done := [Stop], [], true;
        OneMove(o, Stop);
      } else if writer.None? {
        moves, out := WaitMoves(View(), gen, commands, closing, wake), [];
        WaitDetached(wake);
      } else {
        wait, out, moves := WriteReady(now, ok);
      }
      RunMovesKeep(o, moves);
    }

    /** The turn from its wait on: other tasks queue `frames` and `late` commands, and it may flush and wait. */
    method AfterWait(wait: bool, written: seq<Sent>, flushed: bool, frames: seq<Outbound>, late: seq<Command>,
                     wake: Wake, ok: bool) returns (out: seq<Sent>, ghost more: seq<Move>)
      requires Valid() && View().Ok()
      requires wait ==> !done && writer.Some? && resume == [] && written == []
      modifies this, replay
      ensures Valid() && View().Ok() && View().Enqueued() == old(View()).Enqueued() + frames && old(log) <= log
      ensures var mid := Arrived(Outcome(old(View()), recovery.View(), written), frames);
        RunMoves(mid, more) == Some(Outcome(View(), recovery.View(), out))
      ensures !wait ==> more == [] && out == written && gen == old(gen) && View() == old(View()).(queue := old(outbound) + frames)
      ensures wait ==>
                var tx := old(View()).(queue := old(outbound) + frames);
                && more == FlushMoves(tx, old(gen), old(commands) + late, flushed, wake, ok)
                && Flushed(tx, old(gen), old(commands) + late, flushed, wake, ok, View(), gen, out)
    {
      ghost var mid := Outcome(View(), recovery.View(), written);
      Arrive(frames, late);
      more, out := [], written;
      if wait {
        more := FlushMoves(View(), gen, commands, flushed, wake, ok);
        out := FlushAndWait(flushed, wake, ok);
        RunMovesKeep(Arrived(mid, frames), more);
      }
    }

    /**
     * One turn of the task's loop: it stops if the connection is closed, waits without a transport, and
     * else applies its commands, writes what is ready and waits behind a flush if nothing more is. It
     * makes exactly these moves; what they come to is the matter of `WaitMeans`, `TurnMeans` and
     * `FlushMeans`. While it waits, other tasks queue `frames` and `late` commands.
     */
    method Step(now: nat, ok: bool, flushed: bool, frames: seq<Outbound>, late: seq<Command>, wake: Wake, live: bool)
      returns (out: seq<Sent>, ghost moves: seq<Move>, ghost mid: Outcome, ghost more: seq<Move>)
      requires Valid() && View().Ok() && !done
      modifies this, replay, recovery
      ensures Valid()
      ensures View().Ok() && View().Enqueued() == old(View()).Enqueued() + frames && old(log) <= log
      ensures RunMoves(Outcome(old(View()), old(recovery.View()), []), moves) == Some(mid)
      ensures RunMoves(Arrived(mid, frames), more) == Some(Outcome(View(), recovery.View(), out))
      ensures old(closed) ==> moves == [Stop] && more == []
      ensures !old(closed) && old(writer).None? ==>
                moves == WaitMoves(old(View()), old(gen), old(commands), old(closing), wake) && more == []
      ensures !old(closed) && old(writer).Some? ==>
                Drained(Outcome(old(View()), old(recovery.View()), []), old(gen), old(commands)).Some?
      ensures !old(closed) && old(writer).Some? ==>
                var o := Outcome(old(View()), old(recovery.View()), []);
                && moves == TurnMoves(o, old(gen), old(commands), now, ok)
                && more == if Waits(Drained(o, old(gen), old(commands)).value, now, mid.tx)
                           then FlushMoves(Arrived(mid, frames).tx, GenAfter(old(gen), old(commands)), late, flushed, wake, live)
                           else []
    {
      var wait;
      wait, out, moves := BeforeWait(now, ok, wake);
      mid := Outcome(View(), recovery.View(), out);
      out, more := AfterWait(wait, out, flushed, frames, late, wake, live);
    }
  }

  /** Frames queued by other tasks between two moves. */
  function Arrived(o: Outcome, frames: seq<Outbound>): Outcome {
    o.(tx := o.tx.(queue := o.tx.queue + frames))
  }

  lemma ArrivedOk(o: Outcome, frames: seq<Outbound>)
    requires o.tx.Ok()
    ensures Arrived(o, frames).tx.Ok() && Arrived(o, frames).tx.Enqueued() == o.tx.Enqueued() + frames
  {
    assert Arrived(o, frames).tx.Used() == o.tx.Used();
  }
}

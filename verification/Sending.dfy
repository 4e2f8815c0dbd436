/**
 * The sending half of an endpoint, as a value: what the v3 writer task of
 * src/recovery_runtime.rs has taken, kept and left to replay, and its single moves.
 * The replay buffer appears only as the log of kept frames and the number acknowledged.
 */
module Sending {
  import opened Base
  import opened Replay
  import Receiver

  /** A queued frame; `Recovery` carries the sender waiting for its outcome. */
  datatype Outbound = Plain(frame: Frame) | Recovery(frame: Frame, ticket: nat) | CloseMarker

  datatype WireFrame = Data(record: FrameRecord) | Ack(value: nat) | Ping | Close

  /** A frame written to a transport. */
  datatype Sent = Sent(transport: nat, frame: WireFrame)

  /** One move of the writer task; `ok` says whether the transport took the write. */
  datatype Move =
    | TakeAck(now: nat, ok: bool)
    | Replay(ok: bool)
    | SendHeld(ok: bool)
    | SendNext(ok: bool)
    | StageNext
    | WritePing(ok: bool)
    | FlushFailed
    | Attach(transport: nat, resumeSeq: nat)
    | Detach
    | Stop

  datatype Outcome = Outcome(tx: Sender, acks: Receiver.Acks, out: seq<Sent>)

  function Record(headerLen: nat, log: seq<Frame>, n: nat): FrameRecord
    requires 1 <= n <= |log|
  {
    FrameRecord(n, log[n - 1], headerLen + |log[n - 1].payload|)
  }

  /** The records of the frames numbered above `from`. */
  function Records(headerLen: nat, log: seq<Frame>, from: nat): (r: seq<FrameRecord>)
    requires from <= |log|
    ensures |r| == |log| - from
    ensures forall i :: 0 <= i < |r| ==> r[i] == Record(headerLen, log, from + 1 + i)
  {
    seq(|log| - from, i requires 0 <= i < |log| - from => Record(headerLen, log, from + 1 + i))
  }

  /** The close marker is the last frame the writer takes. */
  ghost predicate EndsWithMarker(taken: seq<Outbound>) {
    && taken != []
    && taken[|taken| - 1] == CloseMarker
    && CloseMarker !in taken[..|taken| - 1]
  }

  /** The replay budget; `maxBytes <= 0` means unlimited. */
  datatype Budget = Budget(headerLen: nat, maxBytes: int)
  {
    function Size(f: Frame): nat {
      headerLen + |f.payload|
    }

    predicate Fits(f: Frame) {
      maxBytes <= 0 || Size(f) <= maxBytes
    }

    /** The frames of `taken` that fit the budget, in queue order. */
    function Kept(taken: seq<Outbound>): seq<Frame> {
      if taken == [] then []
      else
        var o := taken[|taken| - 1];
        Kept(taken[..|taken| - 1]) + if o.CloseMarker? || !Fits(o.frame) then [] else [o.frame]
    }

    /** What each waiting sender is told, in queue order: whether its frame fits the budget. */
    function Verdicts(taken: seq<Outbound>): seq<(nat, bool)> {
      if taken == [] then []
      else
        var o := taken[|taken| - 1];
        Verdicts(taken[..|taken| - 1]) + if o.Recovery? then [(o.ticket, Fits(o.frame))] else []
    }
  }

  datatype Sender = Sender(
    budget: Budget,
    queue: seq<Outbound>,
    held: Option<Outbound>,
    taken: seq<Outbound>,
    log: seq<Frame>,
    replies: seq<(nat, bool)>,
    lastAcked: nat,
    writer: Option<nat>,
    lastSent: nat,
    resume: seq<FrameRecord>,
    closeWritten: Option<bool>,
    done: bool)
  {
    function Used(): nat
      requires lastAcked <= |log|
    {
      TotalSize(Records(budget.headerLen, log, lastAcked))
    }

    predicate Room(f: Frame)
      requires lastAcked <= |log|
    {
      budget.maxBytes <= 0 || Used() + budget.Size(f) <= budget.maxBytes
    }

    /** Every frame ever enqueued, wherever it is now. */
    function Enqueued(): seq<Outbound> {
      if held.Some? then taken + [held.value] + queue else taken + queue
    }

    /** What the writer task has done with the frames enqueued so far. */
    ghost predicate Conserved() {
      && lastAcked <= |log|
      && (budget.maxBytes > 0 ==> Used() <= budget.maxBytes)
      && (held.Some? ==> !held.value.CloseMarker? && budget.Fits(held.value.frame))
      && log == budget.Kept(taken)
      && replies == budget.Verdicts(taken)
      && (if closeWritten.Some? then EndsWithMarker(taken) && held.None? && done else CloseMarker !in taken)
    }

    /** The local invariant: the frames left to replay end with the last kept one. */
    ghost predicate Ok() {
      && Conserved()
      && lastSent <= |log|
      && (writer.Some? ==> |resume| <= |log| && resume == Records(budget.headerLen, log, |log| - |resume|))
    }

    /** `RecoveryWriter::stage`: keep, hold or refuse a data frame. */
    function Stage(o: Outbound): (Sender, Option<FrameRecord>)
      requires lastAcked <= |log| && !o.CloseMarker?
    {
      if Room(o.frame) then
        var s := this.(taken := taken + [o], log := log + [o.frame],
                       replies := if o.Recovery? then replies + [(o.ticket, true)] else replies);
        (s, Some(Record(budget.headerLen, s.log, |s.log|)))
      else if budget.Fits(o.frame) then
        (this.(held := Some(o)), None)
      else
        (this.(taken := taken + [o], replies := if o.Recovery? then replies + [(o.ticket, false)] else replies), None)
    }

    /** Writes to the current transport; a failed write detaches it. */
    function Write(f: WireFrame, ok: bool): (Sender, seq<Sent>)
      requires writer.Some?
    {
      if ok then (this, [Sent(writer.value, f)]) else (this.(writer := None), [])
    }

    function WriteRecord(r: FrameRecord, ok: bool): (Sender, seq<Sent>)
      requires writer.Some?
    {
      var (s, out) := Write(Data(r), ok);
      (if ok then s.(lastSent := r.seqNo) else s, out)
    }

    /** The close marker: CLOSE goes out if a transport is attached and takes it, and the task ends. */
    function Finish(ok: bool): (Sender, seq<Sent>) {
      var written := writer.Some? && ok;
      (this.(taken := taken + [CloseMarker], closeWritten := Some(written), done := true),
       if written then [Sent(writer.value, Close)] else [])
    }

    function WriteLive(o: Outbound, ok: bool): (Sender, seq<Sent>)
      requires lastAcked <= |log| && writer.Some?
    {
      if o.CloseMarker? then Finish(ok)
      else
        var (s, r) := Stage(o);
        if r.Some? && r.value.seqNo > s.lastSent then s.WriteRecord(r.value, ok) else (s, [])
    }

    /** `WriterCommand::Attach`: the peer's number acknowledges, and the rest is replayed. */
    function Attached(transport: nat, resumeSeq: nat): Sender
      requires lastAcked <= |log|
    {
      var sent := if resumeSeq < |log| then resumeSeq else |log|;
      var acked := if lastAcked < sent then sent else lastAcked;
      this.(lastSent := sent, lastAcked := acked, resume := Records(budget.headerLen, log, acked), writer := Some(transport))
    }

    predicate Enabled(m: Move) {
      && !done
      && match m
         case TakeAck(_, _) => writer.Some?
         case Replay(_) => writer.Some? && resume != []
         case SendHeld(_) => writer.Some? && resume == [] && held.Some?
         case SendNext(_) => writer.Some? && resume == [] && held.None? && queue != []
         case StageNext => writer.None? && held.None? && queue != []
         case WritePing(_) => writer.Some?
         case FlushFailed => writer.Some?
         case Attach(_, _) => true
         case Detach => true
         case Stop => true
    }

    function Do(acks: Receiver.Acks, m: Move): Outcome
      requires lastAcked <= |log| && Enabled(m)
    {
      match m
      case TakeAck(now, ok) =>
        var (a, v) := acks.Take(now);
        if v.None? then Outcome(this, a, [])
        else var (s, out) := Write(Ack(v.value), ok); Outcome(s, a, out)
      case Replay(ok) =>
        var s := this.(resume := resume[1..]);
        if resume[0].seqNo > lastSent && resume[0].seqNo > lastAcked then
          var (s', out) := s.WriteRecord(resume[0], ok); Outcome(s', acks, out)
        else Outcome(s, acks, [])
      case SendHeld(ok) =>
        var (s, out) := this.(held := None).WriteLive(held.value, ok); Outcome(s, acks, out)
      case SendNext(ok) =>
        var (s, out) := this.(queue := queue[1..]).WriteLive(queue[0], ok); Outcome(s, acks, out)
      case StageNext =>
        var s := this.(queue := queue[1..]);
        Outcome(if queue[0].CloseMarker? then s.Finish(true).0 else s.Stage(queue[0]).0, acks, [])
      case WritePing(ok) =>
        var (s, out) := Write(Ping, ok); Outcome(s, acks, out)
      case FlushFailed => Outcome(this.(writer := None), acks, [])
      case Attach(transport, resumeSeq) => Outcome(Attached(transport, resumeSeq), acks, [])
      case Detach => Outcome(this.(writer := None), acks, [])
      case Stop => Outcome(this.(done := true), acks, [])
    }

    /** An acknowledgement of a number that was really sent. */
    function Acknowledged(v: nat): Sender {
      if v <= lastAcked then this else this.(lastAcked := v)
    }
  }

  /** One more move after what has happened so far. */
  function After1(o: Outcome, m: Move): Outcome
    requires o.tx.lastAcked <= |o.tx.log| && o.tx.Enabled(m)
  {
    var n := o.tx.Do(o.acks, m);
    n.(out := o.out + n.out)
  }

  /** Moves in a row; `None` if one of them is not enabled. */
  function RunMoves(o: Outcome, moves: seq<Move>): Option<Outcome>
    decreases |moves|
  {
    if moves == [] then Some(o)
    else if o.tx.lastAcked > |o.tx.log| || !o.tx.Enabled(moves[0]) then None
    else RunMoves(After1(o, moves[0]), moves[1..])
  }

  /** The next frame to write: of the replay, else the held frame, else the head of the queue. */
  function NextFrame(s: Sender, ok: bool): seq<Move> {
    if s.resume != [] then [Replay(ok)]
    else if s.held.Some? then [SendHeld(ok)]
    else if s.queue != [] then [SendNext(ok)]
    else []
  }

  /** What `write_next` does: an ACK that is due, or else the next frame. */
  function Priority(s: Sender, acks: Receiver.Acks, now: nat, ok: bool): seq<Move> {
    [TakeAck(now, ok)] + if acks.Take(now).1.Some? then [] else NextFrame(s, ok)
  }

  lemma RecordsAppend(headerLen: nat, log: seq<Frame>, f: Frame, from: nat)
    requires from <= |log|
    ensures Records(headerLen, log + [f], from)
         == Records(headerLen, log, from) + [Record(headerLen, log + [f], |log| + 1)]
  {
  }

  lemma NextRecord(headerLen: nat, log: seq<Frame>, f: Frame, from: nat)
    requires from <= |log|
    ensures var record := FrameRecord(|log| + 1, f, headerLen + |f.payload|);
      && record == Record(headerLen, log + [f], |log + [f]|)
      && Records(headerLen, log, from) + [record] == Records(headerLen, log + [f], from)
  {
    RecordsAppend(headerLen, log, f, from);
  }

  /** Filtering the buffer by number is dropping a prefix of the log. */
  lemma RecordsAfter(headerLen: nat, log: seq<Frame>, from: nat, last: nat)
    requires from <= |log| && last <= |log|
    ensures After(Records(headerLen, log, from), last) == Records(headerLen, log, Max(from, last))
  {
    var r := Records(headerLen, log, from);
    var k := Max(from, last) - from;
    AfterIsSuffix(r, last, k);
    assert r[k..] == Records(headerLen, log, Max(from, last));
  }

  lemma {:induction false} UsedShrinks(headerLen: nat, log: seq<Frame>, from: nat, to: nat)
    requires from <= to <= |log|
    ensures TotalSize(Records(headerLen, log, to)) <= TotalSize(Records(headerLen, log, from))
    decreases |log| - from
  {
    if from < to {
      UsedShrinks(headerLen, log, from + 1, to);
      assert Records(headerLen, log, from)[1..] == Records(headerLen, log, from + 1);
    }
  }

  lemma KeptAppend(b: Budget, taken: seq<Outbound>, o: Outbound)
    ensures b.Kept(taken + [o]) == b.Kept(taken) + if o.CloseMarker? || !b.Fits(o.frame) then [] else [o.frame]
    ensures b.Verdicts(taken + [o]) == b.Verdicts(taken) + if o.Recovery? then [(o.ticket, b.Fits(o.frame))] else []
  {
    assert (taken + [o])[..|taken|] == taken;
  }

  lemma UsedGrows(s: Sender, f: Frame)
    requires s.lastAcked <= |s.log|
    ensures s.(log := s.log + [f]).Used() == s.Used() + s.budget.Size(f)
  {
    RecordsAppend(s.budget.headerLen, s.log, f, s.lastAcked);
    TotalSizeConcat(Records(s.budget.headerLen, s.log, s.lastAcked), [Record(s.budget.headerLen, s.log + [f], |s.log| + 1)]);
  }

  /**
   * The buffer stays inside its budget, a frame is refused exactly when it exceeds the whole
   * budget, and a held or refused frame takes no number.
   */
  lemma StageKeeps(s: Sender, o: Outbound)
    requires s.Conserved() && s.held.None? && !o.CloseMarker? && !s.done
    ensures var (t, r) := s.Stage(o);
      && t.Conserved()
      && t.log == s.log + (if r.Some? then [o.frame] else [])
      && (r.Some? ==> r.value == Record(s.budget.headerLen, t.log, |t.log|))
      && t.Enqueued() == s.taken + [o] + s.queue
      && (t.taken != s.taken && r.None? <==> !s.budget.Fits(o.frame))
      && (t.held.Some? <==> s.budget.Fits(o.frame) && !s.Room(o.frame))
  {
    KeptAppend(s.budget, s.taken, o);
    var (t, r) := s.Stage(o);
    if s.Room(o.frame) {
      UsedGrows(s, o.frame);
      assert t.Used() == s.Used() + s.budget.Size(o.frame);
    } else {
      assert t.Used() == s.Used();
    }
  }

  /** A frame just kept is what is left to be written, if there is a transport to write it to. */
  lemma StagedOk(s: Sender, o: Outbound)
    requires s.Ok() && s.held.None? && !o.CloseMarker? && !s.done && (s.writer.Some? ==> s.resume == [])
    ensures var (t, r) := s.Stage(o);
      var tx := t.(resume := if r.Some? then [r.value] else s.resume);
      && tx.Ok() && tx.budget == s.budget && tx.lastAcked == s.lastAcked && tx.lastSent == s.lastSent
      && tx.writer == s.writer && tx.closeWritten == s.closeWritten
      && tx.log == s.log + (if r.Some? then [o.frame] else [])
  {
    StageKeeps(s, o);
    StageLeaves(s, o);
    var (t, r) := s.Stage(o);
    var tx := t.(resume := if r.Some? then [r.value] else s.resume);
    SameBooks(t, tx);
    if tx.writer.Some? {
      assert tx.resume == Records(tx.budget.headerLen, tx.log, |tx.log| - |tx.resume|);
    }
  }

  /** Staging does not touch the transport or the replay position. */
  lemma StageLeaves(s: Sender, o: Outbound)
    requires s.lastAcked <= |s.log| && !o.CloseMarker?
    ensures var t := s.Stage(o).0;
      t == s.(held := t.held, taken := t.taken, log := t.log, replies := t.replies)
  {
  }

  /** Once everything is acknowledged a held frame has room. */
  lemma HeldFitsWhenAcknowledged(s: Sender)
    requires s.Ok() && s.held.Some? && s.lastAcked == |s.log|
    ensures s.Used() == 0 && s.Room(s.held.value.frame)
  {
  }

  /** So a held frame without room waits for some kept frame to be acknowledged. */
  lemma HeldMeansUnacknowledged(s: Sender)
    requires s.Ok() && s.held.Some? && !s.Room(s.held.value.frame)
    ensures s.lastAcked < |s.log|
  {
    if s.lastAcked == |s.log| {
      HeldFitsWhenAcknowledged(s);
    }
  }

  /** The transport and the replay position do not enter the books. */
  lemma SameBooks(s: Sender, t: Sender)
    requires s.Conserved()
    requires t == s.(writer := t.writer, lastSent := t.lastSent, resume := t.resume, done := t.done)
    requires s.done ==> t.done
    ensures t.Conserved() && t.Enqueued() == s.Enqueued()
  {
    assert t.Used() == s.Used();
  }

  /** What each move does to the log: it only ever appends the frame it keeps. */
  lemma MoveKeeps(s: Sender, acks: Receiver.Acks, m: Move)
    requires s.Ok() && s.Enabled(m)
    ensures var t := s.Do(acks, m).tx;
      && t.Ok()
      && t.Enqueued() == s.Enqueued()
      && t.budget == s.budget
      && s.log <= t.log
      && s.lastAcked <= t.lastAcked
  {
    if m.SendHeld? {
      SendHeldKeeps(s, acks, m.ok);
    } else if m.SendNext? || m.StageNext? {
      TakeNextKeeps(s, acks, m);
    } else {
      QuietMoveKeeps(s, acks, m);
    }
  }

  lemma SendHeldKeeps(s: Sender, acks: Receiver.Acks, ok: bool)
    requires s.Ok() && s.Enabled(SendHeld(ok))
    ensures var t := s.Do(acks, SendHeld(ok)).tx;
      t.Ok() && t.Enqueued() == s.Enqueued() && t.budget == s.budget && s.log <= t.log && s.lastAcked == t.lastAcked
  {
    var u := s.(held := None);
    InHand(s, u);
    StageMoveKeeps(u, s.held.value, ok, true);
  }

  lemma TakeNextKeeps(s: Sender, acks: Receiver.Acks, m: Move)
    requires s.Ok() && s.Enabled(m) && (m.SendNext? || m.StageNext?)
    ensures var t := s.Do(acks, m).tx;
      t.Ok() && t.Enqueued() == s.Enqueued() && t.budget == s.budget && s.log <= t.log && s.lastAcked == t.lastAcked
  {
    var u := s.(queue := s.queue[1..]);
    InHand(s, u);
    if m.SendNext? {
      StageMoveKeeps(u, s.queue[0], m.ok, true);
    } else {
      StageMoveKeeps(u, s.queue[0], true, false);
    }
    FrontOf(s.taken, s.queue);
  }

  lemma FrontOf(taken: seq<Outbound>, queue: seq<Outbound>)
    requires queue != []
    ensures taken + [queue[0]] + queue[1..] == taken + queue
  {
  }

  lemma InHand(s: Sender, t: Sender)
    requires s.Conserved() && t == s.(held := None, queue := t.queue)
    ensures t.Conserved()
  {
    assert t.Used() == s.Used();
  }

  /** The moves that keep no frame leave the books alone. */
  lemma QuietMoveKeeps(s: Sender, acks: Receiver.Acks, m: Move)
    requires s.Ok() && s.Enabled(m) && !m.SendHeld? && !m.SendNext? && !m.StageNext?
    ensures var t := s.Do(acks, m).tx;
      && t.Ok()
      && t.Enqueued() == s.Enqueued()
      && t.log == s.log
      && t.budget == s.budget
      && s.lastAcked <= t.lastAcked
  {
    var t := s.Do(acks, m).tx;
    if m.Attach? {
      AttachKeeps(s, m.transport, m.resumeSeq);
    } else {
      assert t == s.(writer := t.writer, lastSent := t.lastSent, resume := t.resume, done := t.done);
      SameBooks(s, t);
    }
  }

  /** An ACK frees frames and leaves the rest of the books alone. */
  lemma AcknowledgedKeeps(s: Sender, v: nat)
    requires s.Ok() && v <= |s.log|
    ensures var t := s.Acknowledged(v); t.Ok() && t.Enqueued() == s.Enqueued()
  {
    var t := s.Acknowledged(v);
    UsedShrinks(s.budget.headerLen, s.log, s.lastAcked, t.lastAcked);
    assert t.Used() <= s.Used();
  }

  lemma AttachKeeps(s: Sender, transport: nat, resumeSeq: nat)
    requires s.Ok()
    ensures var t := s.Attached(transport, resumeSeq); t.Ok() && t.Enqueued() == s.Enqueued()
  {
    var t := s.Attached(transport, resumeSeq);
    UsedShrinks(s.budget.headerLen, s.log, s.lastAcked, t.lastAcked);
    assert t.Used() <= s.Used();
  }

  /** Taking one frame in hand: the marker ends the task, any other frame is staged. */
  lemma StageMoveKeeps(s: Sender, o: Outbound, ok: bool, live: bool)
    requires s.Conserved() && s.lastSent <= |s.log| && s.held.None? && !s.done
    requires if live then s.writer.Some? && s.resume == [] else s.writer.None?
    ensures var t := if live then s.WriteLive(o, ok).0 else if o.CloseMarker? then s.Finish(true).0 else s.Stage(o).0;
      && t.Ok()
      && t.Enqueued() == s.taken + [o] + s.queue
      && t.budget == s.budget
      && s.log <= t.log
      && s.lastAcked == t.lastAcked
  {
    if o.CloseMarker? {
      KeptAppend(s.budget, s.taken, o);
      assert (s.taken + [o])[..|s.taken|] == s.taken;
    } else {
      StageKeeps(s, o);
      var (t, r) := s.Stage(o);
      if live && r.Some? {
        var u := t.WriteRecord(r.value, ok).0;
        assert u == t.(writer := u.writer, lastSent := u.lastSent);
        SameBooks(t, u);
      }
    }
  }

  /** A frame that has to be held leaves the transport alone. */
  lemma LiveHolds(s: Sender, o: Outbound, ok: bool)
    requires s.lastAcked <= |s.log| && s.writer.Some? && s.held.None?
    ensures var (t, out) := s.WriteLive(o, ok);
      t.held.Some? ==> out == [] && t == s.(held := t.held)
  {
  }

  /** How far a frame was taken care of: kept behind the log, held for want of room, or refused. */
  ghost predicate WasStaged(s: Sender, o: Outbound, t: Sender)
    requires s.lastAcked <= |s.log| && !o.CloseMarker?
  {
    var size, max := s.budget.headerLen + |o.frame.payload|, s.budget.maxBytes;
    && t.done == s.done && t.closeWritten == s.closeWritten
    && if 0 < max < size then t.log == s.log && t.held.None?
       else if 0 < max < s.Used() + size then t.log == s.log && t.held == Some(o)
       else t.log == s.log + [o.frame] && t.held.None?
  }

  /** And written: CLOSE for the marker, else the frame if it was kept and the peer does not have it. */
  ghost predicate WentLive(s: Sender, o: Outbound, ok: bool, t: Sender, out: seq<Sent>)
    requires s.lastAcked <= |s.log| && s.writer.Some?
  {
    if o.CloseMarker? then
      && t.done && t.closeWritten == Some(ok) && t.log == s.log && t.held.None?
      && out == if ok then [Sent(s.writer.value, Close)] else []
    else
      var goes := t.log != s.log && |t.log| > s.lastSent;
      var record := FrameRecord(|t.log|, o.frame, s.budget.headerLen + |o.frame.payload|);
      && WasStaged(s, o, t)
      && out == (if goes && ok then [Sent(s.writer.value, Data(record))] else [])
      && t.writer == (if goes && !ok then None else s.writer)
      && t.lastSent == if goes && ok then |t.log| else s.lastSent
  }

  lemma StageMeans(s: Sender, o: Outbound)
    requires s.lastAcked <= |s.log| && s.held.None? && !o.CloseMarker?
    ensures WasStaged(s, o, s.Stage(o).0)
  {
  }

  /** A data frame is staged, and then written if it is kept and the peer does not have it. */
  lemma LiveParts(s: Sender, o: Outbound, ok: bool, t: Sender, r: Option<FrameRecord>)
    requires s.lastAcked <= |s.log| && s.writer.Some? && !o.CloseMarker? && s.Stage(o) == (t, r)
    ensures t.writer == s.writer && t.lastSent == s.lastSent
    ensures s.WriteLive(o, ok) == if r.Some? && r.value.seqNo > t.lastSent then t.WriteRecord(r.value, ok) else (t, [])
  {
  }

  lemma LiveMeans(s: Sender, o: Outbound, ok: bool)
    requires s.lastAcked <= |s.log| && s.held.None? && s.writer.Some?
    ensures var (t, out) := s.WriteLive(o, ok);
      WentLive(s, o, ok, t, out) && t.queue == s.queue && t.resume == s.resume
  {
    if !o.CloseMarker? {
      StageMeans(s, o);
      StageLeaves(s, o);
    }
  }

  /** What is in hand does not bear on it. */
  lemma SameLive(s: Sender, u: Sender, o: Outbound, ok: bool, t: Sender, out: seq<Sent>)
    requires s.lastAcked <= |s.log| && s.writer.Some? && u == s.(held := u.held, queue := u.queue)
    requires WentLive(u, o, ok, t, out)
    ensures WentLive(s, o, ok, t, out)
  {
    assert u.Used() == s.Used();
  }

  /** The frames that a sender has still to write or to take in hand. */
  function Ahead(s: Sender): nat {
    |s.resume| + (if s.held.Some? then 1 else 0) + |s.queue|
  }

  /** What the next frame comes to. */
  ghost predicate WroteFrame(s: Sender, ok: bool, t: Sender, out: seq<Sent>)
    requires s.lastAcked <= |s.log| && s.writer.Some?
  {
    if s.resume != [] then
      var r := s.resume[0];
      var goes := r.seqNo > s.lastSent && r.seqNo > s.lastAcked;
      && t.resume == s.resume[1..] && t.held == s.held && t.queue == s.queue && t.log == s.log
      && t.writer == (if goes && !ok then None else s.writer)
      && out == (if goes && ok then [Sent(s.writer.value, Data(r))] else [])
    else if s.held.Some? then
      WentLive(s, s.held.value, ok, t, out) && t.resume == [] && t.queue == s.queue
    else if s.queue != [] then
      WentLive(s, s.queue[0], ok, t, out) && t.resume == [] && t.queue == s.queue[1..]
    else
      t == s && out == []
  }

  lemma NextFrameMeans(s: Sender, acks: Receiver.Acks, ok: bool)
    requires s.Ok() && !s.done && s.writer.Some?
    ensures RunMoves(Outcome(s, acks, []), NextFrame(s, ok)).Some?
    ensures var n := RunMoves(Outcome(s, acks, []), NextFrame(s, ok)).value;
      && WroteFrame(s, ok, n.tx, n.out) && n.acks == acks
      && (s.resume != [] || (n.tx.held.None? && Ahead(s) > 0) ==> Ahead(n.tx) < Ahead(s))
  {
    if Ahead(s) > 0 {
      var m := NextFrame(s, ok)[0];
      OneMove(Outcome(s, acks, []), m);
      if s.resume == [] {
        var u := if s.held.Some? then s.(held := None) else s.(queue := s.queue[1..]);
        var o := if s.held.Some? then s.held.value else s.queue[0];
        LiveMeans(u, o, ok);
        SameLive(s, u, o, ok, u.WriteLive(o, ok).0, u.WriteLive(o, ok).1);
      }
    }
  }

  /** Only an ACK that is due goes out, and it acknowledges what was received; the rest is left alone. */
  lemma AckTaken(tx: Sender, acks: Receiver.Acks, m: Move)
    requires tx.lastAcked <= |tx.log| && tx.Enabled(m) && acks.Booked()
    ensures var o := tx.Do(acks, m);
      && o.acks.Booked() && o.acks.lastRecv == acks.lastRecv
      && |o.out| <= 1 && (o.out != [] && o.out[0].frame.Ack? ==> o.out[0].frame.value == acks.lastRecv)
  {
  }

  lemma {:induction false} RunMovesKeep(o: Outcome, moves: seq<Move>)
    requires o.tx.Ok() && RunMoves(o, moves).Some?
    ensures var t := RunMoves(o, moves).value.tx;
      t.Ok() && t.Enqueued() == o.tx.Enqueued() && o.tx.log <= t.log
    decreases |moves|
  {
    if moves != [] {
      MoveKeeps(o.tx, o.acks, moves[0]);
      RunMovesKeep(After1(o, moves[0]), moves[1..]);
    }
  }

  lemma OneMove(o: Outcome, m: Move)
    requires o.tx.lastAcked <= |o.tx.log| && o.tx.Enabled(m) && o.out == []
    ensures RunMoves(o, [m]) == Some(o.tx.Do(o.acks, m))
  {
    var n := o.tx.Do(o.acks, m);
    assert n.(out := [] + n.out) == n;
    assert RunMoves(After1(o, m), [m][1..]) == Some(After1(o, m));
  }

  lemma {:induction false} RunMovesConcat(o: Outcome, a: seq<Move>, b: seq<Move>)
    requires RunMoves(o, a).Some?
    ensures RunMoves(o, a + b) == RunMoves(RunMoves(o, a).value, b)
    decreases |a|
  {
    if a == [] {
      assert a + b == b;
    } else {
      assert (a + b)[0] == a[0] && (a + b)[1..] == a[1..] + b;
      assert RunMoves(o, a + b) == RunMoves(After1(o, a[0]), a[1..] + b);
      RunMovesConcat(After1(o, a[0]), a[1..], b);
    }
  }

  /** An ACK that is owed and due goes out alone; otherwise it is the next frame. */
  lemma PriorityRuns(s: Sender, acks: Receiver.Acks, now: nat, ok: bool)
    requires s.lastAcked <= |s.log| && s.Enabled(TakeAck(now, ok))
    ensures var o, moves := Outcome(s, acks, []), Priority(s, acks, now, ok);
      var (a, v) := acks.Take(now);
      && v.Some? == (acks.lastAckSent < acks.lastRecv && (acks.due || (acks.dueAt != 0 && now >= acks.dueAt)))
      && if v.Some? then
           RunMoves(o, moves) == Some(Outcome(if ok then s else s.(writer := None), a,
                                              if ok then [Sent(s.writer.value, Ack(acks.lastRecv))] else []))
         else RunMoves(o, moves) == RunMoves(Outcome(s, a, []), NextFrame(s, ok))
  {
    var o := Outcome(s, acks, []);
    OneMove(o, TakeAck(now, ok));
    var next := if acks.Take(now).1.Some? then [] else NextFrame(s, ok);
    RunMovesConcat(o, [TakeAck(now, ok)], next);
  }
}

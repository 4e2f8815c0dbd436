/**
 * Whether a sender whose frame is held can still be freed, while one transport stays up and only
 * its own frames are read. The attach exchange decides it, by the number the peer reports.
 */
module Progress {
  import opened Base
  import opened Sending
  import opened Wires
  import opened Direction
  import opened Session
  import Receiver

  ghost predicate AckInFlight(frames: seq<WireFrame>, above: int) {
    exists i :: 0 <= i < |frames| && frames[i].Ack? && frames[i].value > above
  }

  /** Something will still acknowledge a frame: it is to be replayed, in flight, or an ACK is on its way. */
  ghost predicate Wakeable(d: Dir, t: nat)
    requires t in d.out && t in d.back
  {
    || (exists i :: 0 <= i < |d.tx.resume| && d.tx.resume[i].seqNo > d.tx.lastAcked)
    || (exists i :: 0 <= i < |d.out[t].frames| && d.out[t].frames[i].Data? && d.out[t].frames[i].record.seqNo > d.tx.lastAcked)
    || d.inbox.acks.Scheduled()
    || AckInFlight(d.back[t].frames, d.tx.lastAcked)
  }

  /** The sender is waiting: its next frame has no room. */
  predicate Waiting(tx: Sender)
    requires tx.lastAcked <= |tx.log|
  {
    tx.held.Some? && !tx.held.value.CloseMarker? && !tx.Room(tx.held.value.frame)
  }

  /** The whole log will be acknowledged, by what is missing, scheduled or in flight. */
  ghost predicate Driven(d: Dir, t: nat)
    requires t in d.back
  {
    || d.Got() < |d.tx.log|
    || d.inbox.acks.lastAckSent < d.Got()
    || d.tx.lastAcked == |d.tx.log|
    || AckInFlight(d.back[t].frames, |d.tx.log| - 1)
  }

  /** The peer has every frame and has acknowledged every frame, and the sender will never learn it. */
  ghost predicate Stranded(d: Dir, t: nat)
    requires t in d.back
  {
    && d.Got() == |d.tx.log| == d.inbox.acks.lastAckSent
    && d.tx.lastAcked < |d.tx.log|
    && !AckInFlight(d.back[t].frames, d.tx.lastAcked)
  }

  /** Both writers are on transport t and neither wire of it has broken. */
  ghost predicate Linked(s: System, t: nat) {
    forall x: Side :: s.At(x).tx.writer == Some(t) && t in s.Out(x) && !s.Out(x)[t].cut
  }

  /** A step that stays on transport t. */
  ghost predicate On(t: nat, p: Step) {
    && (p.action.Move? ==> !p.action.move.Attach?)
    && (p.action.Read? ==> p.action.transport == t)
  }

  /** A run that starts linked on t and stays so. */
  ghost predicate LinkedRun(states: seq<System>, steps: seq<Step>, t: nat) {
    && |states| == |steps| + 1
    && states[0].Ok()
    && (forall i :: 0 <= i < |states| ==> Linked(states[i], t))
    && (forall i :: 0 <= i < |steps| ==>
          On(t, steps[i]) && states[i].Enabled(steps[i]) && states[i + 1] == states[i].Next(steps[i]))
  }

  lemma DrivenMeansWakeable(d: Dir, t: nat)
    requires d.Ok() && t in d.out && t in d.back && !d.out[t].cut && d.tx.writer == Some(t)
    requires Driven(d, t) && Waiting(d.tx)
    ensures Wakeable(d, t)
  {
    HeldMeansUnacknowledged(d.tx);
    if d.Got() < |d.tx.log| {
      if d.tx.resume != [] {
        assert d.tx.resume[|d.tx.resume| - 1].seqNo == |d.tx.log|;
      } else {
        TopInFlight(d.out[t].frames, d.Got());
      }
    }
  }

  lemma StrandedIsNotWakeable(d: Dir, t: nat)
    requires d.Ok() && t in d.out && t in d.back && Stranded(d, t)
    ensures !Driven(d, t) && !d.inbox.acks.Scheduled()
  {
  }

  lemma AckAppend(frames: seq<WireFrame>, f: WireFrame, above: int)
    ensures AckInFlight(frames + [f], above) <==> AckInFlight(frames, above) || (f.Ack? && f.value > above)
  {
    if AckInFlight(frames, above) {
      var i :| 0 <= i < |frames| && frames[i].Ack? && frames[i].value > above;
      assert (frames + [f])[i] == frames[i];
    }
    assert (frames + [f])[|frames|] == f;
  }

  lemma AckPop(frames: seq<WireFrame>, above: int)
    requires frames != []
    ensures AckInFlight(frames, above) <==> AckInFlight(frames[1..], above) || (frames[0].Ack? && frames[0].value > above)
  {
    if AckInFlight(frames[1..], above) {
      var i :| 0 <= i < |frames[1..]| && frames[1..][i].Ack? && frames[1..][i].value > above;
      assert frames[i + 1] == frames[1..][i];
    }
    if AckInFlight(frames, above) {
      var i :| 0 <= i < |frames| && frames[i].Ack? && frames[i].value > above;
      assert i > 0 ==> frames[1..][i - 1] == frames[i];
    }
  }

  /** A waiting sender with a transport keeps its frame held, and no move but an attach acknowledges. */
  lemma WaitingMove(s: Sender, acks: Receiver.Acks, m: Move)
    requires s.Ok() && s.Enabled(m) && !m.Attach?
    ensures var t := s.Do(acks, m).tx;
      && t.lastAcked == s.lastAcked
      && (Waiting(s) && t.writer.Some? ==> t.log == s.log && t.held == s.held)
  {
  }

  /** The sender's own moves: its log may grow, and nothing else changes in its favour or against it. */
  lemma OwnMove(d: Dir, d': Dir, acks: Receiver.Acks, m: Move, t: nat)
    requires d.Ok() && d.tx.Enabled(m) && !m.Attach? && d' == Moved(d, acks, m) && t in d.back
    ensures Driven(d, t) ==> Driven(d', t)
    ensures Stranded(d, t) ==> Stranded(d', t) || d.tx.log != d'.tx.log
    ensures Waiting(d.tx) && d'.tx.writer.Some? ==>
              d'.tx.log == d.tx.log && d'.tx.lastAcked == d.tx.lastAcked && d'.tx.held == d.tx.held
  {
    MoveKeeps(d.tx, acks, m);
    WaitingMove(d.tx, acks, m);
    var tx := d.tx.Do(acks, m).tx;
    assert d'.tx == tx && d'.inbox == d.inbox && d'.back == d.back;
  }

  /** The moves of the peer's writer task: an ACK taken is an ACK in flight. */
  lemma PeerMove(d: Dir, d': Dir, peer: Sender, m: Move, t: nat)
    requires d.Ok() && peer.Ok() && peer.Enabled(m) && !m.Attach? && d' == MovedBack(d, peer, m)
    requires peer.writer == Some(t) && t in d.back && !d.back[t].cut
    requires peer.Do(d.inbox.acks, m).tx.writer == Some(t)
    ensures Driven(d, t) ==> Driven(d', t)
    ensures Stranded(d, t) ==> Stranded(d', t)
  {
    var o := peer.Do(d.inbox.acks, m);
    if o.out != [] {
      assert o.out[0].transport == t;
      AckAppend(d.back[t].frames, o.out[0].frame, |d.tx.log| - 1);
      AckAppend(d.back[t].frames, o.out[0].frame, d.tx.lastAcked);
    }
  }

  /** The peer reads a frame: the last one to arrive schedules its ACK. */
  lemma PeerReads(d: Dir, d': Dir, t: nat, now: nat)
    requires d.Ok() && t in d.out && d.out[t].frames != [] && t in d.back
    requires d' == d.(inbox := Delivered(d, t, now), out := Popped(d.out, t))
    ensures Driven(d, t) ==> Driven(d', t)
    ensures Stranded(d, t) ==> Stranded(d', t)
  {
    DeliverKeeps(d, t, now);
  }

  /** The sender reads a frame of the peer: an ACK that arrives has done its work. */
  lemma OwnReads(d: Dir, d': Dir, t: nat)
    requires d.Ok() && t in d.back && d.back[t].frames != []
    requires d' == d.(tx := Acked(d.tx, d.back[t].frames[0]), back := Popped(d.back, t))
    ensures Driven(d, t) ==> Driven(d', t)
    ensures Stranded(d, t) ==> Stranded(d', t) && d'.tx == d.tx
  {
    AckPop(d.back[t].frames, |d.tx.log| - 1);
    AckPop(d.back[t].frames, d.tx.lastAcked);
  }

  /** What a step on a live transport does to a direction. */
  ghost predicate Advances(d: Dir, d': Dir, t: nat) {
    && t in d.back && t in d'.back && d.tx.lastAcked <= |d.tx.log|
    && d'.tx.budget == d.tx.budget
    && (Driven(d, t) ==> Driven(d', t))
    && (Stranded(d, t) && Waiting(d.tx) ==>
          Stranded(d', t) && d'.tx.log == d.tx.log && d'.tx.lastAcked == d.tx.lastAcked && d'.tx.held == d.tx.held)
  }

  lemma LinkedMove(s: System, y: Side, m: Move, t: nat, x: Side)
    requires s.Ok() && Linked(s, t) && !m.Attach?
    requires s.Enabled(Step(y, Move(m))) && Linked(s.Next(Step(y, Move(m))), t)
    ensures Advances(s.From(x), s.Next(Step(y, Move(m))).From(x), t)
  {
    var s' := s.Next(Step(y, Move(m)));
    var d, d' := s.From(x), s'.From(x);
    MoveViews(s, y, m);
    assert d.Ok() && s.From(y).Ok();
    assert t in s.Out(x) && t in s.Out(x.Peer()) && !s.Out(y)[t].cut;
    assert s'.At(x).tx.writer == Some(t) && s'.At(y).tx.writer == Some(t) && s.At(y).tx.writer == Some(t);
    if y == x {
      OwnMove(d, d', s.At(x).inbox.acks, m, t);
      MoveKeeps(d.tx, s.At(x).inbox.acks, m);
    } else {
      PeerMove(d, d', s.At(y).tx, m, t);
    }
  }

  lemma LinkedRead(s: System, y: Side, t: nat, now: nat, x: Side)
    requires s.Ok() && Linked(s, t) && s.Enabled(Step(y, Read(t, now)))
    ensures Advances(s.From(x), s.Next(Step(y, Read(t, now))).From(x), t)
  {
    var s' := s.Next(Step(y, Read(t, now)));
    var d, d' := s.From(x), s'.From(x);
    ReadViews(s, y, t, now);
    assert d.Ok() && t in s.Out(x) && t in s.Out(x.Peer());
    if y == x {
      OwnReads(d, d', t);
    } else {
      PeerReads(d, d', t, now);
    }
  }

  lemma LinkedStep(s: System, p: Step, t: nat, x: Side)
    requires s.Ok() && Linked(s, t) && On(t, p) && s.Enabled(p) && Linked(s.Next(p), t)
    ensures Advances(s.From(x), s.Next(p).From(x), t)
  {
    match p.action
    case Move(m) => LinkedMove(s, p.side, m, t, x);
    case Read(_, now) => LinkedRead(s, p.side, t, now, x);
    case _ => LinkedQuiet(s, p, t, x);
  }

  /** Queueing a frame, new ACK options and losses elsewhere do not bear on a direction's standing. */
  lemma SameStanding(d: Dir, d': Dir, t: nat)
    requires d.Ok() && t in d.back && t in d'.back && d'.back[t] == d.back[t] && d'.Got() == d.Got()
    requires d'.inbox.acks.lastAckSent == d.inbox.acks.lastAckSent && d'.tx == d.tx.(queue := d'.tx.queue)
    ensures Advances(d, d', t)
  {
  }

  lemma LinkedQuiet(s: System, p: Step, t: nat, x: Side)
    requires s.Ok() && Linked(s, t) && !p.action.Move? && !p.action.Read? && s.Enabled(p) && Linked(s.Next(p), t)
    ensures Advances(s.From(x), s.Next(p).From(x), t)
  {
    assert s.From(x).Ok() && t in s.Out(x) && t in s.Out(x.Peer());
    if p.action.Break? {
      BreakViews(s, p.side, p.action.transport, p.action.kept);
      assert !s.Next(p).Out(p.side)[t].cut;
    }
    var d, d' := s.From(x), s.Next(p).From(x);
    SameStanding(d, d', t);
  }

  /**
   * No sender gets stuck: if the attach left the direction driven, then for as long as the transport
   * lives a sender without room always has a frame to replay or in flight, or an ACK due or in flight.
   */
  lemma {:induction false} NoSenderStuck(states: seq<System>, steps: seq<Step>, t: nat, x: Side, i: nat)
    requires LinkedRun(states, steps, t) && i < |states| && Driven(states[0].From(x), t)
    ensures states[i].Ok() && Driven(states[i].From(x), t)
    ensures states[i].At(x).tx.lastAcked <= |states[i].At(x).tx.log|
    ensures Waiting(states[i].At(x).tx) ==> Wakeable(states[i].From(x), t)
  {
    if i > 0 {
      NoSenderStuck(states, steps, t, x, i - 1);
      var s, p := states[i - 1], steps[i - 1];
      assert Linked(s, t) && On(t, p) && states[i] == s.Next(p) && Linked(states[i], t);
      StepKeeps(s, p);
      LinkedStep(s, p, t, x);
    }
    DrivenSide(states[i], t, x);
  }

  lemma DrivenSide(s: System, t: nat, x: Side)
    requires s.Ok() && Linked(s, t) && t in s.Out(x.Peer()) && Driven(s.From(x), t)
    ensures t in s.Out(x) && s.At(x).tx.lastAcked <= |s.At(x).tx.log|
    ensures Waiting(s.At(x).tx) ==> Wakeable(s.From(x), t)
  {
    assert s.From(x).Ok() && s.At(x).tx.writer == Some(t) && t in s.Out(x) && !s.Out(x)[t].cut;
    if Waiting(s.At(x).tx) {
      DrivenMeansWakeable(s.From(x), t);
    }
  }

  /** The sender of direction d is still waiting with the frame it held as `first`. */
  ghost predicate StuckSince(first: Sender, d: Dir, t: nat) {
    && first.lastAcked <= |first.log| && Waiting(first)
    && t in d.back && Stranded(d, t)
    && d.tx.held == first.held && d.tx.log == first.log && d.tx.lastAcked == first.lastAcked && d.tx.budget == first.budget
  }

  /**
   * A stranded sender is never freed: as long as the transport lives, its frame stays held and no
   * acknowledgement reaches it.
   */
  lemma {:induction false} StrandedForever(states: seq<System>, steps: seq<Step>, t: nat, x: Side, i: nat)
    requires LinkedRun(states, steps, t) && i < |states|
    requires StuckSince(states[0].At(x).tx, states[0].From(x), t)
    ensures states[i].Ok() && Linked(states[i], t) && StuckSince(states[0].At(x).tx, states[i].From(x), t)
  {
    if i > 0 {
      StrandedForever(states, steps, t, x, i - 1);
      assert states[i] == states[i - 1].Next(steps[i - 1]) && Linked(states[i], t);
      StepKeeps(states[i - 1], steps[i - 1]);
      StuckStep(states[0].At(x).tx, states[i - 1], steps[i - 1], t, x);
    }
  }

  lemma StuckStep(first: Sender, s: System, p: Step, t: nat, x: Side)
    requires s.Ok() && Linked(s, t) && On(t, p) && s.Enabled(p) && Linked(s.Next(p), t)
    requires StuckSince(first, s.From(x), t)
    ensures StuckSince(first, s.Next(p).From(x), t)
  {
    assert s.From(x).Ok();
    SameRoom(first, s.At(x).tx);
    LinkedStep(s, p, t, x);
  }

  /** Once its replay has drained, nothing is left that could free it. */
  lemma StrandedDrained(s: System, t: nat, x: Side)
    requires s.Ok() && t in s.Out(x) && t in s.Out(x.Peer()) && Stranded(s.From(x), t)
    ensures s.At(x).tx.resume == [] && s.Out(x)[t].frames == [] ==> !Wakeable(s.From(x), t)
  {
    assert s.From(x).Ok();
    StrandedIsNotWakeable(s.From(x), t);
  }

  lemma SameRoom(s: Sender, u: Sender)
    requires s.lastAcked <= |s.log| && u.lastAcked == s.lastAcked
    requires u.budget == s.budget && u.log == s.log && u.held == s.held
    ensures Waiting(u) <==> Waiting(s)
  {
    assert u.Used() == s.Used();
  }

  /** Both ends attach to a new transport; each is given a number that the other side had reached. */
  ghost predicate Exchange(s: System, s': System, t: nat, toClient: nat, toServer: nat) {
    var p, q := Step(Client, Move(Attach(t, toClient))), Step(Server, Move(Attach(t, toServer)));
    && s.Enabled(p) && s.Next(p).Enabled(q) && s' == s.Next(p).Next(q)
  }

  lemma AfterExchange(s: System, s': System, t: nat, toClient: nat, toServer: nat, x: Side)
    requires s.Ok() && Exchange(s, s', t, toClient, toServer)
    ensures s'.Ok() && Linked(s', t)
    ensures s.From(x).Ok()
    ensures s'.From(x).tx == s.From(x).tx.Attached(t, if x.Client? then toClient else toServer)
    ensures s'.From(x).inbox == s.From(x).inbox
    ensures s'.From(x).back[t] == Wire([], false, [])
  {
    StepKeeps(s, Step(Client, Move(Attach(t, toClient))));
    StepKeeps(s.Next(Step(Client, Move(Attach(t, toClient)))), Step(Server, Move(Attach(t, toServer))));
  }

  /**
   * The exchange decides: the sender at x is driven afterwards if and only if it is not the case
   * that the peer holds its whole log, has acknowledged all of it, and the number reported still
   * leaves something unacknowledged. A number that covers the ACKs sent, such as the exact one, is enough.
   */
  lemma ExchangeDecides(s: System, s': System, t: nat, toClient: nat, toServer: nat, x: Side)
    requires s.Ok() && Exchange(s, s', t, toClient, toServer)
    ensures s'.Ok() && Linked(s', t)
    ensures var d, v := s.From(x), if x.Client? then toClient else toServer;
      && (Driven(s'.From(x), t) <==> !(d.Got() == |d.tx.log| == d.inbox.acks.lastAckSent && Max(d.tx.lastAcked, v) < |d.tx.log|))
      && (Driven(s'.From(x), t) <==> !Stranded(s'.From(x), t))
      && (v >= d.inbox.acks.lastAckSent ==> Driven(s'.From(x), t))
      && (v == d.Got() ==> Driven(s'.From(x), t))
  {
    AfterExchange(s, s', t, toClient, toServer, x);
  }
}

/**
 * A driven sender does not wait for ever. On a transport that lives, in every infinite run in which what
 * is to happen next for the sender always happens in the end, whatever else happens in between, its held
 * frame gets room.
 */
module Liveness {
  import opened Base
  import opened Sending
  import opened Wires
  import opened Direction
  import opened Session
  import opened Progress
  import Receiver

  predicate Is(f: WireFrame, ack: bool) {
    if ack then f.Ack? else f.Data?
  }

  /** How many frames have to be read to have read the last ACK, or the last data frame. */
  function Depth(frames: seq<WireFrame>, ack: bool): nat
    decreases |frames|
  {
    if frames == [] then 0
    else
      var behind := Depth(frames[1..], ack);
      if behind > 0 then behind + 1 else if Is(frames[0], ack) then 1 else 0
  }

  lemma {:induction false} DepthAppend(frames: seq<WireFrame>, f: WireFrame, ack: bool)
    requires !Is(f, ack)
    ensures Depth(frames + [f], ack) == Depth(frames, ack)
    decreases |frames|
  {
    if frames == [] {
      assert [f][1..] == [];
    } else {
      assert (frames + [f])[1..] == frames[1..] + [f];
      DepthAppend(frames[1..], f, ack);
    }
  }

  lemma {:induction false} DepthZero(frames: seq<WireFrame>, ack: bool, i: nat)
    requires Depth(frames, ack) == 0 && i < |frames|
    ensures !Is(frames[i], ack)
    decreases |frames|
  {
    if i > 0 {
      DepthZero(frames[1..], ack, i - 1);
    }
  }

  /** The data frames to be read, unless there are more to replay. */
  function Data(d: Dir, t: nat): nat
    requires t in d.out
  {
    Depth(d.out[t].frames, false)
  }

  function Owed(d: Dir): nat {
    if d.inbox.acks.lastAckSent < d.Got() then 1 else 0
  }

  function Acks(d: Dir, t: nat): nat
    requires t in d.back
  {
    Depth(d.back[t].frames, true)
  }

  /** Less is left to do: to replay, then to read, then to acknowledge, then of ACKs to read. */
  predicate Less(d': Dir, d: Dir, t: nat)
    requires t in d.out && t in d.back && t in d'.out && t in d'.back
  {
    || |d'.tx.resume| < |d.tx.resume|
    || (d'.tx.resume == d.tx.resume
        && (|| Data(d', t) < Data(d, t)
            || (Data(d', t) == Data(d, t)
                && (|| Owed(d') < Owed(d)
                    || (Owed(d') == Owed(d) && Acks(d', t) < Acks(d, t))))))
  }

  predicate Same(d': Dir, d: Dir, t: nat)
    requires t in d.out && t in d.back && t in d'.out && t in d'.back
  {
    d'.tx.resume == d.tx.resume && Data(d', t) == Data(d, t) && Owed(d') == Owed(d) && Acks(d', t) == Acks(d, t)
  }

  /** What is to happen next: a replay, a read by the peer, an ACK that is due, a read of what it wrote. */
  ghost predicate Helpful(s: System, t: nat, x: Side, p: Step)
    requires t in s.Out(x) && t in s.Out(x.Peer())
  {
    var d := s.From(x);
    if d.tx.resume != [] then p.side == x && p.action.Move? && p.action.move.Replay?
    else if Data(d, t) > 0 then p.side == x.Peer() && p.action.Read?
    else if Owed(d) > 0 then
      && p.side == x.Peer() && p.action.Move? && p.action.move.TakeAck?
      && d.inbox.acks.MayBeDue(p.action.move.now)
    else p.side == x && p.action.Read?
  }

  /** With nothing left to do a driven sender has its acknowledgement. */
  lemma NothingLeft(d: Dir, t: nat)
    requires d.Ok() && t in d.out && t in d.back && !d.out[t].cut && d.tx.writer == Some(t)
    requires Driven(d, t) && Waiting(d.tx)
    requires d.tx.resume == [] && Data(d, t) == 0 && Owed(d) == 0
    ensures Acks(d, t) > 0
  {
    HeldMeansUnacknowledged(d.tx);
    TopInFlight(d.out[t].frames, d.Got());
    forall i | 0 <= i < |d.out[t].frames| ensures !d.out[t].frames[i].Data? {
      DepthZero(d.out[t].frames, false, i);
    }
    if Acks(d, t) == 0 {
      forall i | 0 <= i < |d.back[t].frames| ensures !d.back[t].frames[i].Ack? {
        DepthZero(d.back[t].frames, true, i);
      }
    }
  }

  /** The moves of a waiting sender: a replay is progress, and nothing else matters. */
  lemma OwnMoves(d: Dir, d': Dir, acks: Receiver.Acks, m: Move, t: nat)
    requires d.Ok() && d.tx.Enabled(m) && !m.Attach? && d' == Moved(d, acks, m) && Waiting(d.tx)
    requires t in d.out && t in d.back && !d.out[t].cut && d.tx.writer == Some(t) && d'.tx.writer == Some(t)
    ensures t in d'.out && t in d'.back && (Less(d', d, t) || Same(d', d, t))
    ensures m.Replay? ==> Less(d', d, t)
  {
    if m.SendHeld? {
      LiveHolds(d.tx.(held := None), d.tx.held.value, m.ok);
      WaitsOn(d.tx, m.ok);
    } else if !m.Replay? {
      var out := d.tx.Do(acks, m).out;
      if out != [] {
        DepthAppend(d.out[t].frames, out[0].frame, false);
      }
    }
  }

  /** Trying the held frame again finds no room again. */
  lemma WaitsOn(tx: Sender, ok: bool)
    requires tx.lastAcked <= |tx.log| && Waiting(tx) && tx.writer.Some?
    requires tx.budget.Fits(tx.held.value.frame)
    ensures tx.(held := None).WriteLive(tx.held.value, ok) == (tx, [])
  {
    assert tx.(held := None).Used() == tx.Used();
  }

  /** The moves of the peer's writer task: an ACK is progress if one was owed, and nothing else matters. */
  lemma PeerMoves(d: Dir, d': Dir, peer: Sender, m: Move, t: nat)
    requires d.Ok() && peer.Ok() && peer.Enabled(m) && !m.Attach? && d' == MovedBack(d, peer, m)
    requires t in d.out && t in d.back && peer.writer == Some(t)
    ensures t in d'.out && t in d'.back && (Less(d', d, t) || Same(d', d, t))
    ensures m.TakeAck? && d.inbox.acks.MayBeDue(m.now) && Owed(d) > 0 ==> Less(d', d, t)
  {
    var out := peer.Do(d.inbox.acks, m).out;
    if out != [] && !out[0].frame.Ack? {
      DepthAppend(d.back[t].frames, out[0].frame, true);
    }
  }

  /** Reads on either side. */
  lemma PeerReadsNext(d: Dir, d': Dir, t: nat, now: nat)
    requires d.Ok() && t in d.out && t in d.back && d.out[t].frames != []
    requires d' == d.(inbox := Delivered(d, t, now), out := Popped(d.out, t))
    ensures t in d'.out && t in d'.back && (Less(d', d, t) || Same(d', d, t))
    ensures Data(d, t) > 0 ==> Less(d', d, t)
  {
  }

  lemma OwnReadsNext(d: Dir, d': Dir, t: nat)
    requires t in d.out && t in d.back && d.back[t].frames != []
    requires d' == d.(tx := Acked(d.tx, d.back[t].frames[0]), back := Popped(d.back, t))
    ensures t in d'.out && t in d'.back && (Less(d', d, t) || Same(d', d, t))
    ensures Acks(d, t) > 0 ==> Less(d', d, t)
  {
  }

  /** Whatever happens on a live transport, no more is left to do for a waiting sender; what helps does some. */
  ghost predicate Nearer(s: System, p: Step, t: nat, x: Side)
    requires s.Enabled(p)
  {
    var s' := s.Next(p);
    && t in s.Out(x) && t in s.Out(x.Peer()) && t in s'.Out(x) && t in s'.Out(x.Peer())
    && (Less(s'.From(x), s.From(x), t) || Same(s'.From(x), s.From(x), t))
    && (Helpful(s, t, x, p) ==> Less(s'.From(x), s.From(x), t))
  }

  /** The sender does not wait. */
  ghost predicate Free(s: System, x: Side) {
    s.At(x).tx.lastAcked <= |s.At(x).tx.log| && !Waiting(s.At(x).tx)
  }

  /** A waiting, driven sender on transport t, and a step that stays on it. */
  ghost predicate OnTheWay(s: System, p: Step, t: nat, x: Side) {
    && s.Ok() && Linked(s, t) && On(t, p) && s.Enabled(p) && Linked(s.Next(p), t)
    && !Free(s, x) && t in s.Out(x.Peer()) && Driven(s.From(x), t)
  }

  lemma MoveNearer(s: System, p: Step, t: nat, x: Side)
    requires OnTheWay(s, p, t, x) && p.action.Move?
    ensures Nearer(s, p, t, x)
  {
    var y, m, s' := p.side, p.action.move, s.Next(p);
    MoveViews(s, y, m);
    assert s.From(x).Ok() && s.From(y).Ok() && t in s.Out(x) && !s.Out(x)[t].cut;
    assert s.At(x).tx.writer == Some(t) && s.At(y).tx.writer == Some(t) && s'.At(x).tx.writer == Some(t);
    StillWaits(s, t, x);
    if y == x {
      OwnMoves(s.From(x), s'.From(x), s.At(x).inbox.acks, m, t);
    } else {
      PeerMoves(s.From(x), s'.From(x), s.At(y).tx, m, t);
    }
  }

  lemma ReadNearer(s: System, p: Step, t: nat, x: Side)
    requires OnTheWay(s, p, t, x) && p.action.Read?
    ensures Nearer(s, p, t, x)
  {
    var y, now, s' := p.side, p.action.now, s.Next(p);
    ReadViews(s, y, t, now);
    assert s.From(x).Ok() && t in s.Out(x) && t in s.Out(x.Peer());
    StillWaits(s, t, x);
    if y == x {
      OwnReadsNext(s.From(x), s'.From(x), t);
    } else {
      PeerReadsNext(s.From(x), s'.From(x), t, now);
    }
  }

  lemma StillWaits(s: System, t: nat, x: Side)
    requires s.Ok() && Linked(s, t) && t in s.Out(x.Peer()) && Driven(s.From(x), t)
    requires !Free(s, x)
    ensures t in s.Out(x)
    ensures var d := s.From(x); d.tx.resume == [] && Data(d, t) == 0 && Owed(d) == 0 ==> Acks(d, t) > 0
  {
    assert s.From(x).Ok() && s.At(x).tx.writer == Some(t) && t in s.Out(x) && !s.Out(x)[t].cut;
    var d := s.From(x);
    if d.tx.resume == [] && Data(d, t) == 0 && Owed(d) == 0 {
      NothingLeft(d, t);
    }
  }

  lemma QuietNearer(s: System, p: Step, t: nat, x: Side)
    requires OnTheWay(s, p, t, x) && !p.action.Move? && !p.action.Read?
    ensures Nearer(s, p, t, x)
  {
    StillWaits(s, t, x);
    QuietWires(s, p, t, x);
    NothingNearer(s.From(x), s.Next(p).From(x), t);
  }

  lemma QuietWires(s: System, p: Step, t: nat, x: Side)
    requires Linked(s, t) && s.Enabled(p) && !p.action.Move? && !p.action.Read? && Linked(s.Next(p), t)
    ensures t in s.Out(x) && t in s.Out(x.Peer()) && t in s.Next(p).Out(x) && t in s.Next(p).Out(x.Peer())
    ensures var d, d' := s.From(x), s.Next(p).From(x);
      && d'.out[t] == d.out[t] && d'.back[t] == d.back[t]
      && d'.tx.resume == d.tx.resume && d'.Got() == d.Got() && d'.inbox.acks.lastAckSent == d.inbox.acks.lastAckSent
  {
    var s' := s.Next(p);
    assert t in s.Out(x) && t in s.Out(x.Peer());
    if p.action.Break? {
      assert !s'.Out(p.side)[t].cut;
    }
  }

  lemma NothingNearer(d: Dir, d': Dir, t: nat)
    requires t in d.out && t in d.back && t in d'.out && t in d'.back && d'.out[t] == d.out[t] && d'.back[t] == d.back[t]
    requires d'.tx.resume == d.tx.resume && d'.Got() == d.Got() && d'.inbox.acks.lastAckSent == d.inbox.acks.lastAckSent
    ensures Same(d', d, t)
  {
  }

  /** An infinite run on a live transport. */
  ghost predicate Forever(f: nat -> System, g: nat -> Step, t: nat) {
    && f(0).Ok()
    && forall i: nat :: Goes(f(i), g(i), f(i + 1), t)
  }

  ghost predicate Goes(s: System, p: Step, s': System, t: nat) {
    Linked(s, t) && On(t, p) && s.Enabled(p) && s' == s.Next(p) && Linked(s', t)
  }

  /** What is to happen next happens in the end, or the sender has its room by then. */
  ghost predicate Fair(f: nat -> System, g: nat -> Step, t: nat, x: Side) {
    forall i: nat :: DueAfter(f, g, t, x, i)
  }

  ghost predicate DueAfter(f: nat -> System, g: nat -> Step, t: nat, x: Side, i: nat) {
    exists j: nat :: Due(f, g, t, x, i, j)
  }

  ghost predicate Due(f: nat -> System, g: nat -> Step, t: nat, x: Side, i: nat, j: nat) {
    && i <= j
    && (Free(f(j), x) || (t in f(j).Out(x) && t in f(j).Out(x.Peer()) && Helpful(f(j), t, x, g(j))))
  }

  lemma OneStepOn(s: System, p: Step, s': System, t: nat, x: Side)
    requires s.Ok() && Goes(s, p, s', t) && t in s.Out(x.Peer()) && Driven(s.From(x), t) && !Free(s, x)
    ensures s'.Ok() && t in s'.Out(x.Peer()) && Driven(s'.From(x), t)
    ensures Nearer(s, p, t, x)
  {
    DrivenStep(s, p, s', t, x);
    match p.action
    case Move(_) => MoveNearer(s, p, t, x);
    case Read(_, _) => ReadNearer(s, p, t, x);
    case _ => QuietNearer(s, p, t, x);
  }

  /** From state i, with the next helpful step at h. */
  lemma {:induction false} FreedFrom(f: nat -> System, g: nat -> Step, t: nat, x: Side, i: nat, h: nat) returns (j: nat)
    requires Forever(f, g, t) && Fair(f, g, t, x) && Due(f, g, t, x, i, h)
    requires f(i).Ok() && t in f(i).Out(x) && t in f(i).Out(x.Peer()) && Driven(f(i).From(x), t)
    ensures i <= j && Free(f(j), x)
    decreases |f(i).At(x).tx.resume|, Data(f(i).From(x), t), Owed(f(i).From(x)), Acks(f(i).From(x), t), h - i
  {
    if Free(f(i), x) {
      j := i;
    } else {
      assert Goes(f(i), g(i), f(i + 1), t);
      OneStepOn(f(i), g(i), f(i + 1), t, x);
      if i < h {
        j := FreedFrom(f, g, t, x, i + 1, h);
      } else {
        assert DueAfter(f, g, t, x, i + 1);
        var next: nat :| Due(f, g, t, x, i + 1, next);
        j := FreedFrom(f, g, t, x, i + 1, next);
      }
    }
  }

  lemma GoesOn(f: nat -> System, g: nat -> Step, t: nat, i: nat)
    requires Forever(f, g, t)
    ensures Goes(f(i), g(i), f(i + 1), t)
  {
  }

  lemma {:induction false} DrivenForever(f: nat -> System, g: nat -> Step, t: nat, x: Side, i: nat)
    requires Forever(f, g, t) && t in f(0).Out(x.Peer()) && Driven(f(0).From(x), t)
    ensures f(i).Ok() && t in f(i).Out(x.Peer()) && Driven(f(i).From(x), t)
  {
    if i > 0 {
      DrivenForever(f, g, t, x, i - 1);
      GoesOn(f, g, t, i - 1);
      DrivenStep(f(i - 1), g(i - 1), f(i), t, x);
    }
  }

  lemma DrivenStep(s: System, p: Step, s': System, t: nat, x: Side)
    requires s.Ok() && Goes(s, p, s', t) && t in s.Out(x.Peer()) && Driven(s.From(x), t)
    ensures s'.Ok() && t in s'.Out(x.Peer()) && Driven(s'.From(x), t)
  {
    StepKeeps(s, p);
    LinkedStep(s, p, t, x);
  }

  /**
   * No sender waits for ever: if the attach left its direction driven, then in every infinite fair run on
   * the transport, from any state on, there is a later one in which the sender is not waiting.
   */
  lemma EventuallyFreed(f: nat -> System, g: nat -> Step, t: nat, x: Side, i: nat) returns (j: nat)
    requires Forever(f, g, t) && Fair(f, g, t, x) && t in f(0).Out(x.Peer()) && Driven(f(0).From(x), t)
    ensures i <= j && Free(f(j), x)
  {
    DrivenForever(f, g, t, x, i);
    GoesOn(f, g, t, i);
    assert t in f(i).Out(x);
    assert DueAfter(f, g, t, x, i);
    var h: nat :| Due(f, g, t, x, i, h);
    j := FreedFrom(f, g, t, x, i, h);
  }

  lemma StuckStepOn(first: Sender, s: System, p: Step, s': System, t: nat, x: Side)
    requires s.Ok() && Goes(s, p, s', t) && StuckSince(first, s.From(x), t)
    ensures s'.Ok() && StuckSince(first, s'.From(x), t)
  {
    StepKeeps(s, p);
    StuckStep(first, s, p, t, x);
  }

  lemma {:induction false} StuckForever(f: nat -> System, g: nat -> Step, t: nat, x: Side, j: nat)
    requires Forever(f, g, t) && StuckSince(f(0).At(x).tx, f(0).From(x), t)
    ensures f(j).Ok() && StuckSince(f(0).At(x).tx, f(j).From(x), t)
  {
    if j > 0 {
      StuckForever(f, g, t, x, j - 1);
      GoesOn(f, g, t, j - 1);
      StuckStepOn(f(0).At(x).tx, f(j - 1), g(j - 1), f(j), t, x);
    }
  }

  lemma StrandedIsNeverFree(f: nat -> System, g: nat -> Step, t: nat, x: Side, j: nat)
    requires Forever(f, g, t) && StuckSince(f(0).At(x).tx, f(0).From(x), t)
    ensures !Free(f(j), x)
  {
    StuckForever(f, g, t, x, j);
    StuckWaits(f(0).At(x).tx, f(j), t, x);
  }

  lemma StuckWaits(first: Sender, s: System, t: nat, x: Side)
    requires s.Ok() && StuckSince(first, s.From(x), t)
    ensures !Free(s, x)
  {
    assert s.From(x).Ok();
    SameRoom(first, s.At(x).tx);
  }

  /**
   * The exact condition, over infinite runs: a sender that waits after the attach of any reachable state
   * gets its room in a fair run on the new transport if and only if it is not the case that the peer
   * has, and has acknowledged, its whole log while the number reported leaves part of it unacknowledged.
   */
  lemma FreedInTheEndIffNotStranded(s: System, f: nat -> System, g: nat -> Step, t: nat,
                                    toClient: nat, toServer: nat, x: Side)
    requires Reachable(s) && Exchange(s, f(0), t, toClient, toServer)
    requires Forever(f, g, t) && Fair(f, g, t, x) && !Free(f(0), x)
    ensures var d, v := s.From(x), if x.Client? then toClient else toServer;
      (exists j: nat :: Free(f(j), x)) <==>
        !(d.Got() == |d.tx.log| == d.inbox.acks.lastAckSent && Max(d.tx.lastAcked, v) < |d.tx.log|)
  {
    var states, steps :| IsRun(states, steps) && states[|steps|] == s;
    RunOk(states, steps, |steps|);
    ExchangeDecides(s, f(0), t, toClient, toServer, x);
    assert t in f(0).Out(x) && t in f(0).Out(x.Peer());
    if Driven(f(0).From(x), t) {
      var j := EventuallyFreed(f, g, t, x, 0);
    } else {
      assert f(0).From(x).Ok();
      forall j: nat ensures !Free(f(j), x) {
        StrandedIsNeverFree(f, g, t, x, j);
      }
    }
  }
}

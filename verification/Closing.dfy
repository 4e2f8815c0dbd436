/**
 * A close that was written is not forgotten: until the peer has read CLOSE it is on the wire it was written
 * to, behind the whole log, or that wire has broken. And a peer can come to read it.
 */
module Closing {
  import opened Base
  import opened Replay
  import opened Sending
  import opened Wires
  import opened Direction
  import opened Session
  import opened Stranding
  import Receiver

  /** Where CLOSE is once it has been written; `peerClosed` says that the peer has read it. */
  predicate OnItsWay(d: Dir, peerClosed: bool) {
    d.tx.closeWritten == Some(true) ==>
      && d.tx.writer.Some? && d.tx.writer.value in d.out
      && (peerClosed || d.out[d.tx.writer.value].cut || Close in d.out[d.tx.writer.value].frames)
  }

  lemma MoveWrites(d: Dir, acks: Receiver.Acks, m: Move, peerClosed: bool)
    requires d.Ok() && d.tx.Enabled(m) && d.tx.closeWritten.None?
    ensures OnItsWay(Moved(d, acks, m), peerClosed)
  {
    if m.SendNext? && d.tx.queue[0].CloseMarker? && m.ok {
      var w := d.out[d.tx.writer.value];
      assert (w.frames + [Close])[|w.frames|] == Close;
    }
  }

  lemma ReadTakes(d: Dir, t: nat, now: nat, peerClosed: bool)
    requires t in d.out && d.out[t].frames != [] && OnItsWay(d, peerClosed)
    ensures OnItsWay(d.(inbox := Delivered(d, t, now), out := Popped(d.out, t)), peerClosed || d.out[t].frames[0].Close?)
  {
    var frames := d.out[t].frames;
    if Close in frames && !frames[0].Close? {
      var i :| 0 <= i < |frames| && frames[i] == Close;
      assert frames[1..][i - 1] == Close;
    }
  }

  lemma BreakCuts(d: Dir, t: nat, kept: nat, peerClosed: bool)
    requires t in d.out && kept <= |d.out[t].frames| && OnItsWay(d, peerClosed)
    ensures OnItsWay(d.(out := d.out[t := d.out[t].Break(kept)]), peerClosed)
  {
  }

  /** So it is with the CLOSE of side x. */
  ghost predicate CloseSent(s: System, x: Side) {
    OnItsWay(s.From(x), s.At(x.Peer()).status.PeerClosed?)
  }

  lemma MoveKeepsClose(s: System, y: Side, m: Move, x: Side)
    requires s.Ok() && s.Enabled(Step(y, Move(m))) && CloseSent(s, x)
    ensures CloseSent(s.Next(Step(y, Move(m))), x)
  {
    assert s.From(x).Ok() && s.From(y).Ok();
    MoveViews(s, y, m);
    DoneStays(s.At(y).tx, s.At(y).inbox.acks, m);
    if y == x {
      MoveWrites(s.From(x), s.At(x).inbox.acks, m, s.At(x.Peer()).status.PeerClosed?);
    }
  }

  lemma ReadKeepsClose(s: System, y: Side, t: nat, now: nat, x: Side)
    requires s.Enabled(Step(y, Read(t, now))) && CloseSent(s, x)
    ensures CloseSent(s.Next(Step(y, Read(t, now))), x)
  {
    ReadViews(s, y, t, now);
    if y != x {
      ReadTakes(s.From(x), t, now, s.At(y).status.PeerClosed?);
    }
  }

  lemma StepKeepsClose(s: System, p: Step, x: Side)
    requires s.Ok() && s.Enabled(p) && CloseSent(s, x)
    ensures CloseSent(s.Next(p), x)
  {
    match p.action
    case Move(m) => MoveKeepsClose(s, p.side, m, x);
    case Read(t, now) => ReadKeepsClose(s, p.side, t, now, x);
    case Break(t, kept) =>
      BreakViews(s, p.side, t, kept);
      if p.side == x {
        BreakCuts(s.From(x), t, kept, s.At(x.Peer()).status.PeerClosed?);
      }
    case _ =>
  }

  lemma {:induction false} RunKeepsClose(states: seq<System>, steps: seq<Step>, i: nat, x: Side)
    requires IsRun(states, steps) && i < |states|
    ensures CloseSent(states[i], x)
  {
    if i == 0 {
      assert IsNew(states[0].At(x));
    } else {
      RunKeepsClose(states, steps, i - 1, x);
      RunOk(states, steps, i - 1);
      StepKeepsClose(states[i - 1], steps[i - 1], x);
    }
  }

  /** A reader that comes to a CLOSE has the whole log by then. */
  lemma {:induction false} CloseBehindLog(frames: seq<WireFrame>, got: nat, k: Ledger, i: nat)
    requires InFlight(frames, got, k) && i < |frames| && frames[i].Close?
    ensures Top(frames[..i], got) >= |k.log|
    decreases |frames|
  {
    if i > 0 {
      assert frames[..i][0] == frames[0] && frames[..i][1..] == frames[1..][..i - 1];
      CloseBehindLog(frames[1..], if frames[0].Data? then Max(got, frames[0].record.seqNo) else got, k, i - 1);
    }
  }

  /**
   * A written CLOSE is on its way: in every state of every run, once a side has written CLOSE, either the
   * peer has read it, or the wire it was written to has broken, or it is on that wire, and who reads up to
   * it has every frame the side has kept.
   */
  lemma CloseIsOnItsWay(states: seq<System>, steps: seq<Step>, i: nat, x: Side)
    requires IsRun(states, steps) && i < |states| && states[i].At(x).tx.closeWritten == Some(true)
    ensures var s, tx := states[i], states[i].At(x).tx;
      && tx.writer.Some? && tx.writer.value in s.Out(x)
      && var w := s.Out(x)[tx.writer.value];
         || s.At(x.Peer()).status.PeerClosed?
         || w.cut
         || exists k :: 0 <= k < |w.frames| && w.frames[k] == Close && Top(w.frames[..k], s.From(x).Got()) >= |tx.log|
  {
    RunKeepsClose(states, steps, i, x);
    RunOk(states, steps, i);
    var s, tx := states[i], states[i].At(x).tx;
    assert s.From(x).Ok();
    var w := s.Out(x)[tx.writer.value];
    if !s.At(x.Peer()).status.PeerClosed? && !w.cut {
      var k :| 0 <= k < |w.frames| && w.frames[k] == Close;
      CloseBehindLog(w.frames, s.From(x).Got(), LedgerOf(tx), k);
    }
  }

  const KEPT := IDLE.(writer := Some(1), taken := [NEXT], log := [FRAME], lastSent := 1)
  const ENDED := KEPT.(taken := [NEXT, CloseMarker], closeWritten := Some(true), done := true)

  /** The client keeps a frame and writes it. */
  lemma ClientKeeps(s2: System)
    requires s2 == State(KEPT, IDLE.(writer := Some(1)), EMPTY,
                         map[1 := Wire([Data(RECORD)], false, [1])], map[1 := Wire([], false, [])])
    ensures Reachable(s2)
  {
    var none := map[1 := Wire([], false, [])];
    var on1, q := IDLE.(writer := Some(1)), Step(Client, Move(SendNext(true)));
    var s0 := State(on1, on1, EMPTY, none, none);
    FirstAttach(s0);
    NextReachable(s0, Step(Client, Enqueue(NEXT)));
    var s1 := State(on1.(queue := [NEXT]), on1, EMPTY, none, none);
    assert s0.Next(Step(Client, Enqueue(NEXT))) == s1;
    Keeping(on1.(queue := [NEXT]), EMPTY.acks);
    NextReachable(s1, q);
    var wire := Wire([Data(RECORD)], false, [1]);
    assert none[1].Append(Data(RECORD)) == wire && none[1 := wire] == map[1 := wire];
    assert s1.Next(q) == s2;
  }

  /** And then it closes. */
  lemma ClientCloses(s4: System)
    requires s4 == State(ENDED, IDLE.(writer := Some(1)), EMPTY,
                         map[1 := Wire([Data(RECORD), Close], false, [1])], map[1 := Wire([], false, [])])
    ensures Reachable(s4)
  {
    var none, wire := map[1 := Wire([], false, [])], Wire([Data(RECORD)], false, [1]);
    var on1, q := IDLE.(writer := Some(1)), Step(Client, Move(SendNext(true)));
    var s2 := State(KEPT, on1, EMPTY, map[1 := wire], none);
    ClientKeeps(s2);
    NextReachable(s2, Step(Client, Enqueue(CloseMarker)));
    var s3 := State(KEPT.(queue := [CloseMarker]), on1, EMPTY, map[1 := wire], none);
    assert s2.Next(Step(Client, Enqueue(CloseMarker))) == s3;
    Ending(KEPT.(queue := [CloseMarker]), EMPTY.acks);
    NextReachable(s3, q);
    var ended := Wire([Data(RECORD), Close], false, [1]);
    assert wire.Append(Close) == ended && map[1 := wire][1 := ended] == map[1 := ended];
    assert s3.Next(q) == s4;
  }

  lemma Ending(s: Sender, acks: Receiver.Acks)
    requires s == KEPT.(queue := [CloseMarker])
    ensures s.Do(acks, SendNext(true)) == Outcome(ENDED, acks, [Sent(1, Close)])
  {
    assert s.queue[1..] == [] && [NEXT] + [CloseMarker] == [NEXT, CloseMarker];
  }

  /** The server reads both: it has the frame, and knows that the client has closed. */
  lemma PeerCanReadClose()
    ensures exists s :: Reachable(s) && s.server.status.PeerClosed? && s.server.inbox.delivered == s.client.tx.log == [FRAME]
  {
    var none := map[1 := Wire([], false, [])];
    var on1 := IDLE.(writer := Some(1));
    var s1 := State(ENDED, on1, EMPTY, map[1 := Wire([Data(RECORD), Close], false, [1])], none);
    ClientCloses(s1);
    var p := Step(Server, Read(1, 0));
    NextReachable(s1, p);
    var got := Receiver.Inbox(Receiver.Acks(1, 0, 1, true, 0, 1, 0), [FRAME]);
    assert EMPTY.acks.Note(1, 0) == (got.acks, true) && EMPTY.delivered + [FRAME] == [FRAME];
    assert EMPTY.Handle(1, FRAME, 0) == Ok((got, true));
    assert [Data(RECORD), Close][1..] == [Close];
    var s2 := State(ENDED, on1, got, map[1 := Wire([Close], false, [1])], none);
    assert Popped(s1.up, 1) == s2.up;
    assert s1.Next(p) == s2;
    NextReachable(s2, p);
    assert s2.Next(p).server.status.PeerClosed? && s2.Next(p).client == s2.client;
  }
}

/**
 * One direction of a session: a sender, the wires it writes on every transport so far, the
 * receiver at the other end, and the wires the receiver's endpoint writes back.
 */
module Direction {
  import opened Base
  import opened Replay
  import opened Sending
  import opened Wires
  import Receiver

  datatype Dir = Dir(tx: Sender, out: map<nat, Wire>, inbox: Receiver.Inbox, back: map<nat, Wire>)
  {
    function Got(): nat {
      |inbox.delivered|
    }

    /** The last number the writer has dealt with on its transport: written or skipped. */
    function Reached(): int {
      |tx.log| - |tx.resume|
    }

    /** The wire being written to has carried everything up to `Reached`, unless the peer has it. */
    ghost predicate AtWriter(w: Wire) {
      && tx.lastSent <= Reached()
      && Covers(w.wrote, Reached(), tx.lastAcked)
      && (!w.cut ==> Reached() <= Top(w.frames, Got()))
    }

    /** The invariant of a direction. */
    ghost predicate Ok() {
      && tx.Ok()
      && inbox.InStep()
      && inbox.delivered <= tx.log
      && tx.lastAcked <= Got()
      && (forall t :: t in out ==> InFlight(out[t].frames, Got(), LedgerOf(tx)) && Ordered(out[t].wrote, tx.lastAcked))
      && (forall t :: t in back ==> AcksBelow(back[t].frames, Got()))
      && (tx.writer.Some? ==> tx.writer.value in out && AtWriter(out[tx.writer.value]))
    }
  }

  function Emit(wires: map<nat, Wire>, out: seq<Sent>): map<nat, Wire> {
    if out == [] || out[0].transport !in wires then wires
    else wires[out[0].transport := wires[out[0].transport].Append(out[0].frame)]
  }

  /** The wires after a move: a new transport starts empty. */
  function WiresAfter(wires: map<nat, Wire>, m: Move, out: seq<Sent>): map<nat, Wire> {
    if m.Attach? then wires[m.transport := Wire([], false, [])] else Emit(wires, out)
  }

  /** A move by the sender's writer task. */
  function Moved(d: Dir, acks: Receiver.Acks, m: Move): Dir
    requires d.tx.lastAcked <= |d.tx.log| && d.tx.Enabled(m)
  {
    var o := d.tx.Do(acks, m);
    d.(tx := o.tx, out := WiresAfter(d.out, m, o.out))
  }

  /** A move by the writer task of the receiver's endpoint, which may take an ACK. */
  function MovedBack(d: Dir, peer: Sender, m: Move): Dir
    requires peer.lastAcked <= |peer.log| && peer.Enabled(m)
  {
    var o := peer.Do(d.inbox.acks, m);
    d.(inbox := d.inbox.(acks := o.acks), back := WiresAfter(d.back, m, o.out))
  }

  /** The receiver's endpoint reads the next frame of wire `t`; only data concerns this direction. */
  function Delivered(d: Dir, t: nat, now: nat): Receiver.Inbox
    requires t in d.out && d.out[t].frames != []
  {
    match d.out[t].frames[0]
    case Data(r) =>
      var h := d.inbox.Handle(r.seqNo, r.frame, now);
      if h.Ok? then h.value.0 else d.inbox
    case _ => d.inbox
  }

  function Popped(wires: map<nat, Wire>, t: nat): map<nat, Wire>
    requires t in wires && wires[t].frames != []
  {
    wires[t := wires[t].(frames := wires[t].frames[1..])]
  }

  function Acked(tx: Sender, f: WireFrame): Sender {
    if f.Ack? then tx.Acknowledged(f.value) else tx
  }

  /** An attach names a new transport and at most what the peer has: it may be stale. */
  ghost predicate HonestMove(d: Dir, m: Move) {
    m.Attach? ==> m.transport !in d.out && m.resumeSeq <= d.Got()
  }

  /** Any change of the sender alone that keeps its books and grows its log. */
  lemma SenderChanges(d: Dir, tx: Sender)
    requires d.Ok() && tx.Ok() && d.tx.log <= tx.log && d.tx.budget == tx.budget
    requires d.tx.lastAcked <= tx.lastAcked <= d.Got()
    requires d.tx.closeWritten == Some(true) ==> tx.closeWritten == Some(true) && tx.log == d.tx.log
    requires tx.writer.Some? ==> tx.writer.value in d.out && d.(tx := tx).AtWriter(d.out[tx.writer.value])
    ensures d.(tx := tx).Ok()
  {
    forall t | t in d.out ensures InFlight(d.out[t].frames, d.Got(), LedgerOf(tx)) {
      InFlightGrows(d.out[t].frames, d.Got(), d.Got(), LedgerOf(d.tx), LedgerOf(tx));
    }
  }

  lemma AckKeeps(d: Dir, v: nat)
    requires d.Ok() && v <= d.Got()
    ensures d.(tx := d.tx.Acknowledged(v)).Ok()
  {
    AcknowledgedKeeps(d.tx, v);
    SenderChanges(d, d.tx.Acknowledged(v));
  }

  /** Writing the next number on the current wire. */
  lemma EmitDataKeeps(d: Dir, r: FrameRecord)
    requires d.Ok() && d.tx.writer.Some? && d.tx.resume != [] && r == d.tx.resume[0]
    ensures d.(tx := d.tx.(resume := d.tx.resume[1..], lastSent := r.seqNo),
               out := Emit(d.out, [Sent(d.tx.writer.value, Data(r))])).Ok()
  {
    var t := d.tx.writer.value;
    var d' := d.(tx := d.tx.(resume := d.tx.resume[1..], lastSent := r.seqNo), out := d.out[t := d.out[t].Append(Data(r))]);
    SameBooks(d.tx, d'.tx);
    assert r == Record(d.tx.budget.headerLen, d.tx.log, d.Reached() + 1);
    DataOnWire(d.out[t], r, d.Got(), LedgerOf(d.tx), d.tx.lastAcked);
    assert LedgerOf(d'.tx) == LedgerOf(d.tx) && d'.Got() == d.Got() && d'.Reached() == r.seqNo;
    assert d'.AtWriter(d'.out[t]);
  }

  /** What writing the next number does to the wire. */
  lemma DataOnWire(w: Wire, r: FrameRecord, got: nat, k: Ledger, acked: nat)
    requires InFlight(w.frames, got, k) && Ordered(w.wrote, acked) && Covers(w.wrote, r.seqNo - 1, acked)
    requires !w.cut ==> r.seqNo - 1 <= Top(w.frames, got)
    requires 1 <= r.seqNo <= |k.log| && r == Record(k.headerLen, k.log, r.seqNo)
    ensures var w' := w.Append(Data(r));
      && InFlight(w'.frames, got, k) && Ordered(w'.wrote, acked) && Covers(w'.wrote, r.seqNo, acked)
      && w'.cut == w.cut && (!w'.cut ==> r.seqNo <= Top(w'.frames, got))
  {
    if !w.cut {
      InFlightAppend(w.frames, Data(r), got, k);
      TopAppend(w.frames, Data(r), got);
    }
    OrderedAppend(w.wrote, r.seqNo, acked);
  }

  /** Writing a frame without a number: an ACK or ping, or CLOSE behind everything else. */
  lemma EmitControlKeeps(d: Dir, f: WireFrame)
    requires d.Ok() && d.tx.writer.Some? && !f.Data?
    requires f.Close? ==> d.tx.resume == [] && d.tx.closeWritten == Some(true)
    ensures d.(out := Emit(d.out, [Sent(d.tx.writer.value, f)])).Ok()
  {
    var w := d.out[d.tx.writer.value];
    if !w.cut {
      InFlightAppend(w.frames, f, d.Got(), LedgerOf(d.tx));
      TopAppend(w.frames, f, d.Got());
    }
  }

  /** Taking a frame in hand and staging it, with or without a transport. */
  lemma StagedKeeps(d: Dir, o: Outbound)
    requires d.Ok() && d.tx.held.None? && !o.CloseMarker? && !d.tx.done
    requires d.tx.writer.Some? ==> d.tx.resume == []
    ensures var (t, r) := d.tx.Stage(o);
      d.(tx := t.(resume := if r.Some? then [r.value] else d.tx.resume)).Ok()
  {
    var (t, r) := d.tx.Stage(o);
    var tx := t.(resume := if r.Some? then [r.value] else d.tx.resume);
    StagedOk(d.tx, o);
    assert tx.writer.Some? ==> d.(tx := tx).Reached() == d.Reached();
    SenderChanges(d, tx);
  }

  /** Losing the transport, whatever caused it. */
  lemma LostKeeps(d: Dir, tx: Sender)
    requires d.Ok() && tx == d.tx.(writer := None, resume := tx.resume, lastSent := d.tx.lastSent, done := tx.done)
    requires d.tx.done ==> tx.done
    ensures d.(tx := tx).Ok()
  {
    SameBooks(d.tx, tx);
    SenderChanges(d, tx);
  }

  /** Writing a live frame: it is staged first, so it is the next number on the wire. */
  lemma LiveKeeps(d: Dir, o: Outbound, ok: bool)
    requires d.Ok() && d.tx.writer.Some? && d.tx.resume == [] && d.tx.held.None? && !d.tx.done
    ensures var (tx, out) := d.tx.WriteLive(o, ok); d.(tx := tx, out := Emit(d.out, out)).Ok()
  {
    if o.CloseMarker? {
      CloseKeeps(d, ok);
    } else {
      var (t, r) := d.tx.Stage(o);
      StagedKeeps(d, o);
      if r.Some? {
        LiveRecordKeeps(d, t, r.value, ok);
      } else {
        assert t.(resume := d.tx.resume) == t;
      }
    }
  }

  lemma LiveRecordKeeps(d: Dir, t: Sender, r: FrameRecord, ok: bool)
    requires t.writer.Some? && t.resume == [] && d.(tx := t.(resume := [r])).Ok()
    ensures var (tx, out) := t.WriteRecord(r, ok); d.(tx := tx, out := Emit(d.out, out)).Ok()
  {
    var e := d.(tx := t.(resume := [r]));
    if ok {
      EmitDataKeeps(e, r);
      assert [r][1..] == [];
      assert e.tx.(resume := [], lastSent := r.seqNo) == t.(lastSent := r.seqNo);
    } else {
      LostKeeps(e, t.(writer := None));
    }
  }

  /** The close marker, with or without a transport. */
  lemma CloseKeeps(d: Dir, ok: bool)
    requires d.Ok() && d.tx.held.None? && !d.tx.done
    requires d.tx.writer.Some? ==> d.tx.resume == []
    ensures var (tx, out) := d.tx.Finish(ok); d.(tx := tx, out := Emit(d.out, out)).Ok()
  {
    var (tx, out) := d.tx.Finish(ok);
    KeptAppend(d.tx.budget, d.tx.taken, CloseMarker);
    assert (d.tx.taken + [CloseMarker])[..|d.tx.taken|] == d.tx.taken;
    assert tx.Used() == d.tx.Used();
    SenderChanges(d, tx);
    if out != [] {
      EmitControlKeeps(d.(tx := tx), Close);
    }
  }

  lemma InHandKeeps(d: Dir, tx: Sender)
    requires d.Ok() && tx == d.tx.(held := None, queue := tx.queue)
    ensures d.(tx := tx).Ok()
  {
    InHand(d.tx, tx);
    SenderChanges(d, tx);
  }

  lemma AttachMoveKeeps(d: Dir, acks: Receiver.Acks, m: Move)
    requires d.Ok() && m.Attach? && d.tx.Enabled(m) && HonestMove(d, m)
    ensures Moved(d, acks, m).Ok()
  {
    var e := d.(out := d.out[m.transport := Wire([], false, [])]);
    assert e.Ok();
    AttachKeeps(d.tx, m.transport, m.resumeSeq);
    var tx := d.tx.Attached(m.transport, m.resumeSeq);
    TopGrows([], d.Got(), d.Got());
    SenderChanges(e, tx);
  }

  lemma ReplayMoveKeeps(d: Dir, acks: Receiver.Acks, ok: bool)
    requires d.Ok() && d.tx.Enabled(Replay(ok))
    ensures Moved(d, acks, Replay(ok)).Ok()
  {
    var r := d.tx.resume[0];
    var tx := d.tx.(resume := d.tx.resume[1..]);
    if r.seqNo <= d.tx.lastAcked {
      SameBooks(d.tx, tx);
      TopGrows(d.out[tx.writer.value].frames, d.Got(), d.Got());
      SenderChanges(d, tx);
    } else if ok {
      EmitDataKeeps(d, r);
    } else {
      LostKeeps(d, tx.(writer := None));
    }
  }

  lemma TakeMoveKeeps(d: Dir, acks: Receiver.Acks, m: Move)
    requires d.Ok() && d.tx.Enabled(m) && (m.SendHeld? || m.SendNext? || m.StageNext?)
    ensures Moved(d, acks, m).Ok()
  {
    var tx := if m.SendHeld? then d.tx.(held := None) else d.tx.(queue := d.tx.queue[1..]);
    var o := if m.SendHeld? then d.tx.held.value else d.tx.queue[0];
    InHandKeeps(d, tx);
    var e := d.(tx := tx);
    if !m.StageNext? {
      LiveKeeps(e, o, m.ok);
    } else if o.CloseMarker? {
      CloseKeeps(e, true);
    } else {
      StagedKeeps(e, o);
      var (t, r) := tx.Stage(o);
      LostKeeps(e.(tx := t.(resume := if r.Some? then [r.value] else tx.resume)), t);
    }
  }

  /** Every move of the sender's own writer task keeps the direction. */
  lemma MovedKeeps(d: Dir, acks: Receiver.Acks, m: Move)
    requires d.Ok() && d.tx.Enabled(m) && HonestMove(d, m)
    ensures Moved(d, acks, m).Ok()
  {
    match m
    case TakeAck(now, ok) =>
      var v := acks.Take(now).1;
      if v.Some? {
        if ok { EmitControlKeeps(d, Ack(v.value)); } else { LostKeeps(d, d.tx.(writer := None)); }
      }
    case Replay(ok) => ReplayMoveKeeps(d, acks, ok);
    case SendHeld(_) => TakeMoveKeeps(d, acks, m);
    case SendNext(_) => TakeMoveKeeps(d, acks, m);
    case StageNext => TakeMoveKeeps(d, acks, m);
    case WritePing(ok) =>
      if ok { EmitControlKeeps(d, Ping); } else { LostKeeps(d, d.tx.(writer := None)); }
    case FlushFailed => LostKeeps(d, d.tx.(writer := None));
    case Attach(_, _) => AttachMoveKeeps(d, acks, m);
    case Detach => LostKeeps(d, d.tx.(writer := None));
    case Stop =>
      SameBooks(d.tx, d.tx.(done := true));
      SenderChanges(d, d.tx.(done := true));
  }

  /** Every move of the writer task at the receiving end keeps the direction too. */
  lemma MovedBackKeeps(d: Dir, peer: Sender, m: Move)
    requires d.Ok() && peer.Ok() && peer.Enabled(m)
    ensures MovedBack(d, peer, m).Ok()
  {
    var o := peer.Do(d.inbox.acks, m);
    AckTaken(peer, d.inbox.acks, m);
    BackKeeps(d, m, o.out);
    InboxChanges(d, o.acks, WiresAfter(d.back, m, o.out));
  }

  lemma BackKeeps(d: Dir, m: Move, out: seq<Sent>)
    requires forall t :: t in d.back ==> AcksBelow(d.back[t].frames, d.Got())
    requires out != [] && out[0].frame.Ack? ==> out[0].frame.value <= d.Got()
    ensures var back := WiresAfter(d.back, m, out); forall t :: t in back ==> AcksBelow(back[t].frames, d.Got())
  {
  }

  lemma InboxChanges(d: Dir, acks: Receiver.Acks, back: map<nat, Wire>)
    requires d.Ok() && acks.Booked() && acks.lastRecv == d.Got()
    requires forall t :: t in back ==> AcksBelow(back[t].frames, d.Got())
    ensures d.(inbox := d.inbox.(acks := acks), back := back).Ok()
  {
  }

  /** The head of a wire is handled, and what is behind it fits what the receiver then has. */
  lemma HandleKeeps(i: Receiver.Inbox, frames: seq<WireFrame>, k: Ledger, now: nat)
    requires i.InStep() && i.delivered <= k.log && frames != [] && InFlight(frames, |i.delivered|, k)
    ensures var f := frames[0];
      && (f.Data? ==>
            var h := i.Handle(f.record.seqNo, f.record.frame, now);
            h.Ok? && h.value.0.InStep() && h.value.0.delivered <= k.log
            && |h.value.0.delivered| == Max(|i.delivered|, f.record.seqNo))
      && InFlight(frames[1..], if f.Data? then Max(|i.delivered|, f.record.seqNo) else |i.delivered|, k)
  {
  }

  /** Reading the next frame never fails, and CLOSE is read only with the whole log delivered. */
  lemma DeliverKeeps(d: Dir, t: nat, now: nat)
    requires d.Ok() && t in d.out && d.out[t].frames != []
    ensures var f := d.out[t].frames[0];
      && (f.Data? ==> d.inbox.Handle(f.record.seqNo, f.record.frame, now).Ok?)
      && (f.Close? ==> d.inbox.delivered == d.tx.log && d.tx.closeWritten == Some(true))
    ensures d.(inbox := Delivered(d, t, now), out := Popped(d.out, t)).Ok()
  {
    var e := d.(inbox := Delivered(d, t, now), out := Popped(d.out, t));
    var f := d.out[t].frames[0];
    var got := if f.Data? then Max(d.Got(), f.record.seqNo) else d.Got();
    HandleKeeps(d.inbox, d.out[t].frames, LedgerOf(d.tx), now);
    assert e.inbox == Delivered(d, t, now) && e.Got() == got;
    assert InFlight(e.out[t].frames, got, LedgerOf(d.tx));
    forall u | u in e.out && u != t ensures InFlight(e.out[u].frames, got, LedgerOf(d.tx)) {
      InFlightGrows(d.out[u].frames, d.Got(), got, LedgerOf(d.tx), LedgerOf(d.tx));
    }
    if d.tx.writer.Some? {
      TopGrows(d.out[d.tx.writer.value].frames, d.Got(), got);
    }
  }

  lemma DeliverBackKeeps(d: Dir, t: nat)
    requires d.Ok() && t in d.back && d.back[t].frames != []
    ensures d.(tx := Acked(d.tx, d.back[t].frames[0]), back := Popped(d.back, t)).Ok()
  {
    var f := d.back[t].frames[0];
    var e := d.(back := Popped(d.back, t));
    assert e.Ok();
    if f.Ack? {
      AckKeeps(e, f.value);
    }
  }

  lemma BreakKeeps(d: Dir, t: nat, kept: nat)
    requires d.Ok() && t in d.out && kept <= |d.out[t].frames|
    ensures d.(out := d.out[t := d.out[t].Break(kept)]).Ok()
  {
    InFlightPrefix(d.out[t].frames, kept, d.Got(), LedgerOf(d.tx));
  }
}

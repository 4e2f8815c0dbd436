/**
 * The receiving half of an endpoint: in-order delivery (src/recovery_runtime.rs) and the
 * delayed cumulative ACK (src/recovery.rs). Times are nanoseconds since the epoch.
 */
module Receiver {
  import opened Base

  /** `dueAt` is zero while no delayed ACK is scheduled. */
  datatype Acks = Acks(lastRecv: nat, lastAckSent: nat, pending: nat, due: bool, dueAt: nat, every: nat, delay: nat)
  {
    /** Whether an ACK is due at `now`. */
    predicate MayBeDue(now: nat) {
      due || (dueAt != 0 && now >= dueAt)
    }

    predicate Scheduled() {
      due || dueAt != 0
    }

    /** What the counters promise: nothing pending is forgotten, nothing else is scheduled. */
    predicate Booked() {
      && lastAckSent <= lastRecv
      && pending == lastRecv - lastAckSent
      && (Scheduled() <==> lastAckSent < lastRecv)
    }

    /** Notes a received number; the flag says whether to wake the writer. */
    function Note(seqNo: nat, now: nat): (Acks, bool) {
      if seqNo <= lastRecv then
        (if lastAckSent < lastRecv then this.(due := true) else this, true)
      else
        var noted := this.(lastRecv := seqNo, pending := pending + 1);
        if every <= 1 || noted.pending >= every || delay == 0 then
          (noted.(due := true, dueAt := 0), true)
        else if dueAt == 0 then
          (noted.(dueAt := now + delay), true)
        else
          (noted, false)
    }

    /** Takes the ACK to send, if one is due. */
    function Take(now: nat): (Acks, Option<nat>) {
      if !MayBeDue(now) then (this, None)
      else if lastAckSent >= lastRecv then (this.(due := false, dueAt := 0), None)
      else (this.(lastAckSent := lastRecv, pending := 0, due := false, dueAt := 0), Some(lastRecv))
    }
  }

  datatype Inbox = Inbox(acks: Acks, delivered: seq<Frame>)
  {
    /** The application has seen exactly the frames numbered up to `lastRecv`. */
    predicate InStep() {
      acks.lastRecv == |delivered| && acks.Booked()
    }

    /** Handles one data frame; an error closes the connection. */
    function Handle(seqNo: nat, frame: Frame, now: nat): Result<(Inbox, bool)> {
      if seqNo == 0 then Err(InvalidMessage("recovery data frame missing seq"))
      else if seqNo <= acks.lastRecv then
        var (noted, wake) := acks.Note(seqNo, now);
        Ok((this.(acks := noted), wake))
      else if seqNo != acks.lastRecv + 1 then Err(InvalidMessage("recovery frame sequence gap"))
      else
        var (noted, wake) := acks.Note(seqNo, now);
        Ok((Inbox(noted, delivered + [frame]), wake))
    }
  }

  /** Everything that touches the inbox: data from the wire, the writer taking an ACK, a new attach. */
  datatype Event = Data(seqNo: nat, frame: Frame, now: nat) | TakeAck(now: nat) | Renegotiate(every: nat, delay: nat)

  /** One event: the new inbox and the ACK values it sends. A failed frame changes nothing. */
  function React(i: Inbox, e: Event): (Inbox, seq<nat>) {
    match e
    case Data(seqNo, frame, now) =>
      var r := i.Handle(seqNo, frame, now);
      (if r.Ok? then r.value.0 else i, [])
    case TakeAck(now) =>
      var (a, v) := i.acks.Take(now);
      (i.(acks := a), if v.Some? then [v.value] else [])
    case Renegotiate(every, delay) =>
      (i.(acks := i.acks.(every := every, delay := delay)), [])
  }

  function ReactAll(i: Inbox, events: seq<Event>): (Inbox, seq<nat>)
    decreases |events|
  {
    if events == [] then (i, [])
    else
      var (i1, first) := React(i, events[0]);
      var (i2, rest) := ReactAll(i1, events[1..]);
      (i2, first + rest)
  }

  /**
   * ACK bookkeeping over whole runs, whatever arrives: the counters stay booked, delivery only
   * extends, and the emitted values strictly increase and never pass what was delivered.
   */
  lemma {:induction false} AckBookkeeping(i: Inbox, events: seq<Event>)
    requires i.InStep()
    ensures var (j, sent) := ReactAll(i, events);
      && j.InStep()
      && i.delivered <= j.delivered
      && (forall k, l :: 0 <= k < l < |sent| ==> sent[k] < sent[l])
      && (forall k :: 0 <= k < |sent| ==> i.acks.lastAckSent < sent[k] <= |j.delivered|)
      && j.acks.lastAckSent == (if sent == [] then i.acks.lastAckSent else sent[|sent| - 1])
    decreases |events|
  {
    if events != [] {
      var (i1, first) := React(i, events[0]);
      AckBookkeeping(i1, events[1..]);
    }
  }

  /** At `limit` an ACK is due, and it is due now if as many frames are pending as one ACK may cover. */
  predicate Timely(a: Acks, limit: nat) {
    a.MayBeDue(limit) && (a.pending >= Max(a.every, 1) ==> a.due)
  }

  /**
   * An ACK is asked for in time: from the first frame that is not acknowledged on, received at `t`,
   * whatever else arrives until an ACK is taken, one is due by `t + delay`, and at once when `every`
   * frames are pending.
   */
  lemma AckIsTimely(i: Inbox, frame: Frame, t: nat, events: seq<Event>)
    requires i.InStep() && i.acks.pending == 0
    requires forall k :: 0 <= k < |events| ==> !events[k].Renegotiate?
    ensures var (j, sent) := ReactAll(i, [Data(i.acks.lastRecv + 1, frame, t)] + events);
      sent != [] || (Timely(j.acks, t + i.acks.delay) && j.acks.every == i.acks.every)
  {
    var e := Data(i.acks.lastRecv + 1, frame, t);
    assert ([e] + events)[1..] == events;
    StaysTimely(React(i, e).0, t + i.acks.delay, events);
  }

  lemma {:induction false} StaysTimely(i: Inbox, limit: nat, events: seq<Event>)
    requires i.InStep() && i.acks.pending > 0 && Timely(i.acks, limit)
    requires forall k :: 0 <= k < |events| ==> !events[k].Renegotiate?
    ensures var (j, sent) := ReactAll(i, events); sent != [] || (Timely(j.acks, limit) && j.acks.every == i.acks.every)
    decreases |events|
  {
    if events != [] {
      var (i1, first) := React(i, events[0]);
      if first == [] {
        StaysTimely(i1, limit, events[1..]);
      }
    }
  }

  /** Whether a frame received before comes again. */
  predicate Repeats(i: Inbox, events: seq<Event>)
    decreases |events|
  {
    events != [] &&
      (|| (events[0].Data? && 0 < events[0].seqNo <= i.acks.lastRecv)
       || Repeats(React(i, events[0]).0, events[1..]))
  }

  /** What the flags of a pending ACK stand for, the first unacknowledged frame having come at `t`. */
  predicate Explained(a: Acks, t: nat, again: bool) {
    var full := a.pending >= Max(a.every, 1) || a.delay == 0;
    && (a.due <==> full || again)
    && a.dueAt == (if full then 0 else t + a.delay)
  }

  lemma {:induction false} StaysExplained(i: Inbox, t: nat, again: bool, events: seq<Event>)
    requires i.InStep() && i.acks.pending > 0 && Explained(i.acks, t, again)
    requires forall k :: 0 <= k < |events| ==> !events[k].Renegotiate?
    ensures var (j, sent) := ReactAll(i, events);
      sent != [] || (&& j.InStep() && j.acks.pending > 0 && Explained(j.acks, t, again || Repeats(i, events))
                     && j.acks.every == i.acks.every && j.acks.delay == i.acks.delay)
    decreases |events|
  {
    if events != [] {
      var (i1, first) := React(i, events[0]);
      if first == [] {
        StaysExplained(i1, t, again || (events[0].Data? && 0 < events[0].seqNo <= i.acks.lastRecv), events[1..]);
      }
    }
  }

  /**
   * An ACK is sent neither early nor late: as long as none has been sent since the first frame that is
   * not acknowledged, received at `t`, a look at `now` sends one if and only if as many frames are
   * pending as one ACK may cover, or the delay has run out since `t`, or an older frame came again.
   */
  lemma AckIsExact(i: Inbox, frame: Frame, t: nat, events: seq<Event>, now: nat)
    requires i.InStep() && i.acks.pending == 0
    requires forall k :: 0 <= k < |events| ==> !events[k].Renegotiate?
    requires ReactAll(i, [Data(i.acks.lastRecv + 1, frame, t)] + events).1 == []
    ensures var j := ReactAll(i, [Data(i.acks.lastRecv + 1, frame, t)] + events).0;
      React(j, TakeAck(now)).1 ==
        if || |j.delivered| - i.acks.lastAckSent >= Max(i.acks.every, 1)
           || now >= t + i.acks.delay
           || i.acks.delay == 0
           || Repeats(React(i, Data(i.acks.lastRecv + 1, frame, t)).0, events)
        then [|j.delivered|] else []
  {
    var e := Data(i.acks.lastRecv + 1, frame, t);
    assert ([e] + events)[0] == e && ([e] + events)[1..] == events;
    var i1 := React(i, e).0;
    StaysExplained(i1, t, false, events);
    SameAckSent(i, [e] + events);
  }

  lemma SameAckSent(i: Inbox, events: seq<Event>)
    requires i.InStep() && ReactAll(i, events).1 == []
    ensures ReactAll(i, events).0.acks.lastAckSent == i.acks.lastAckSent
  {
    AckBookkeeping(i, events);
  }

  /** The fields of `RecoveryState` that track what was received and acknowledged. */
  class RecoveryState {
    var lastRecvSeq: nat
    var lastAckSent: nat
    var ackPending: nat
    var ackDue: bool
    var ackDueAt: nat
    var ackEvery: nat
    var ackDelay: nat

    function View(): Acks
      reads this
    {
      Acks(lastRecvSeq, lastAckSent, ackPending, ackDue, ackDueAt, ackEvery, ackDelay)
    }

    constructor (ackEvery: nat, ackDelay: nat)
      ensures View() == Acks(0, 0, 0, false, 0, ackEvery, ackDelay) && View().Booked()
      ensures lastRecvSeq == lastAckSent == ackPending == ackDueAt == 0 && !ackDue
      ensures this.ackEvery == ackEvery && this.ackDelay == ackDelay
    {
      lastRecvSeq, lastAckSent, ackPending := 0, 0, 0;
      ackDue, ackDueAt := false, 0;
      this.ackEvery, this.ackDelay := ackEvery, ackDelay;
    }

    method SetNegotiated(every: nat, delay: nat)
      modifies this`ackEvery, this`ackDelay
      ensures View() == old(View()).(every := every, delay := delay)
      ensures ackEvery == every && ackDelay == delay
      ensures old(View()).Booked() ==> View().Booked()
    {
      ackEvery, ackDelay := every, delay;
    }

    /**
     * A number seen before asks for its ACK again if that is still owed. A new one is pending; an ACK is
     * due at once when as many are pending as one may cover, and else after the delay, from the first.
     */
    method NoteReceived(seqNo: nat, now: nat) returns (wake: bool)
      modifies this
      ensures lastAckSent == old(lastAckSent) && ackEvery == old(ackEvery) && ackDelay == old(ackDelay)
      ensures seqNo <= old(lastRecvSeq) ==>
                && wake && lastRecvSeq == old(lastRecvSeq) && ackPending == old(ackPending) && ackDueAt == old(ackDueAt)
                && ackDue == (old(ackDue) || lastAckSent < lastRecvSeq)
      ensures seqNo > old(lastRecvSeq) ==>
                var full := ackEvery <= 1 || old(ackPending) + 1 >= ackEvery || ackDelay == 0;
                && lastRecvSeq == seqNo && ackPending == old(ackPending) + 1
                && ackDue == (old(ackDue) || full)
                && ackDueAt == (if full then 0 else if old(ackDueAt) == 0 then now + ackDelay else old(ackDueAt))
                && wake == (full || old(ackDueAt) == 0)
      ensures (View(), wake) == old(View()).Note(seqNo, now)
      ensures old(View()).Booked() && seqNo <= old(lastRecvSeq) + 1 ==> View().Booked()
    {
      if seqNo <= lastRecvSeq {
        if lastAckSent < lastRecvSeq {
          ackDue := true;
        }
        return true;
      }
      lastRecvSeq := seqNo;
      ackPending := ackPending + 1;
      if ackEvery <= 1 || ackPending >= ackEvery || ackDelay == 0 {
        ackDue := true;
        ackDueAt := 0;
        return true;
      }
      if ackDueAt == 0 {
        ackDueAt := now + ackDelay;
        return true;
      }
      return false;
    }

    /** An ACK is taken exactly when one is owed and due; with nothing due nothing changes. */
    method TakePendingAck(now: nat) returns (ack: Option<nat>)
      modifies this
      ensures lastRecvSeq == old(lastRecvSeq) && ackEvery == old(ackEvery) && ackDelay == old(ackDelay)
      ensures var due := old(ackDue) || (old(ackDueAt) != 0 && now >= old(ackDueAt));
        && (ack.Some? <==> due && old(lastAckSent) < lastRecvSeq)
        && (ack.Some? ==> ack.value == lastRecvSeq)
        && lastAckSent == (if ack.Some? then lastRecvSeq else old(lastAckSent))
        && ackPending == (if ack.Some? then 0 else old(ackPending))
        && ackDue == (old(ackDue) && !due) && ackDueAt == (if due then 0 else old(ackDueAt))
      ensures (View(), ack) == old(View()).Take(now)
      ensures old(View()).Booked() ==> View().Booked()
    {
      if !(ackDue || (ackDueAt != 0 && now >= ackDueAt)) {
        return None;
      }
      if lastAckSent >= lastRecvSeq {
        ackDue, ackDueAt := false, 0;
        return None;
      }
      lastAckSent := lastRecvSeq;
      ackPending := 0;
      ackDue, ackDueAt := false, 0;
      return Some(lastRecvSeq);
    }
  }

  /** The reader task of one transport, with its own copy of the last received number. */
  class RecoveryReader {
    const recovery: RecoveryState
    var lastRecvSeq: nat
    var delivered: seq<Frame>

    ghost predicate Valid()
      reads this, recovery
    {
      lastRecvSeq == recovery.lastRecvSeq && View().InStep()
    }

    ghost function View(): Inbox
      reads this, recovery
    {
      Inbox(recovery.View(), delivered)
    }

    /** A reader started on a new transport continues where the state says. */
    constructor (recovery: RecoveryState, delivered: seq<Frame>)
      requires Inbox(recovery.View(), delivered).InStep()
      ensures Valid() && this.recovery == recovery && this.delivered == delivered
      ensures lastRecvSeq == recovery.lastRecvSeq
    {
      this.recovery := recovery;
      this.lastRecvSeq := recovery.lastRecvSeq;
      this.delivered := delivered;
    }

    /**
     * Only the number after the last one is delivered; an older one is noted, and any other is an error
     * that changes nothing. `accepted` is false when the connection closed under `accept_frame`.
     */
    method HandleDataFrame(seqNo: nat, frame: Frame, accepted: bool, now: nat) returns (r: Result<bool>)
      requires Valid()
      modifies this, recovery
      ensures Valid()
      ensures seqNo == 0 || seqNo > old(lastRecvSeq) + 1 <==> r.Err? && r.error.InvalidMessage?
      ensures seqNo == old(lastRecvSeq) + 1 && !accepted <==> r == Err(Closed)
      ensures r.Err? ==> delivered == old(delivered) && recovery.View() == old(recovery.View())
      ensures r.Ok? && seqNo <= old(lastRecvSeq) ==> r.value && delivered == old(delivered) && lastRecvSeq == old(lastRecvSeq)
      ensures r.Ok? && seqNo > old(lastRecvSeq) ==> delivered == old(delivered) + [frame] && lastRecvSeq == seqNo
      ensures var spec := old(View()).Handle(seqNo, frame, now);
        if spec.Err? then r == Err(spec.error) && View() == old(View())
        else if seqNo == old(lastRecvSeq) + 1 && !accepted then r == Err(Closed) && View() == old(View())
        else r == Ok(spec.value.1) && View() == spec.value.0
    {
      if seqNo == 0 {
        return Err(InvalidMessage("recovery data frame missing seq"));
      }
      if seqNo <= lastRecvSeq {
        var wake := recovery.NoteReceived(seqNo, now);
        return Ok(wake);
      }
      if seqNo != lastRecvSeq + 1 {
        return Err(InvalidMessage("recovery frame sequence gap"));
      }
      if !accepted {
        return Err(Closed);
      }
      delivered := delivered + [frame];
      var wake := recovery.NoteReceived(seqNo, now);
      lastRecvSeq := seqNo;
      return Ok(wake);
    }
  }
}

/**
 * Two endpoints over transports that break and get replaced. Both writer tasks, both readers and
 * the transports take their steps in any order; a step is one move of a writer task, one frame
 * read and handled, one frame enqueued, or a break.
 */
module Session {
  import opened Base
  import opened Sending
  import opened Wires
  import opened Direction
  import Receiver

  datatype Side = Client | Server
  {
    function Peer(): Side {
      if Client? then Server else Client
    }
  }

  datatype Status = Open | PeerClosed | Failed(error: Error)

  datatype Endpoint = Endpoint(tx: Sender, inbox: Receiver.Inbox, status: Status)

  datatype Action =
    | Enqueue(frame: Outbound)
    | Move(move: Move)
    | Read(transport: nat, now: nat)
    | Break(transport: nat, kept: nat)
    | Renegotiate(every: nat, delay: nat)

  datatype Step = Step(side: Side, action: Action)

  /** `out[x]` are the wires that side x writes, by transport. */
  datatype System = System(client: Endpoint, server: Endpoint, up: map<nat, Wire>, down: map<nat, Wire>)
  {
    function At(x: Side): Endpoint {
      if x.Client? then client else server
    }

    function Out(x: Side): map<nat, Wire> {
      if x.Client? then up else down
    }

    function With(x: Side, e: Endpoint, out: map<nat, Wire>, back: map<nat, Wire>): System {
      if x.Client? then System(e, server, out, back) else System(client, e, back, out)
    }

    /** The direction in which x sends. */
    function From(x: Side): Dir {
      Dir(At(x).tx, Out(x), At(x.Peer()).inbox, Out(x.Peer()))
    }

    ghost predicate Enabled(s: Step) {
      var e := At(s.side);
      match s.action
      case Enqueue(_) => true
      case Move(m) => e.tx.lastAcked <= |e.tx.log| && e.tx.Enabled(m) && HonestMove(From(s.side), m)
      case Read(t, _) => e.status.Open? && t in Out(s.side.Peer()) && Out(s.side.Peer())[t].frames != []
      case Break(t, kept) => t in Out(s.side) && kept <= |Out(s.side)[t].frames|
      case Renegotiate(_, _) => true
    }

    /** Reads one frame: data is delivered, an ACK frees the sender, CLOSE ends the connection. */
    function ReadFrame(x: Side, t: nat, now: nat): System
      requires t in Out(x.Peer()) && Out(x.Peer())[t].frames != []
    {
      var e, in_ := At(x), Out(x.Peer());
      var f := in_[t].frames[0];
      var e' := match f
        case Data(r) =>
          var h := e.inbox.Handle(r.seqNo, r.frame, now);
          if h.Ok? then e.(inbox := h.value.0) else e.(status := Failed(h.error))
        case Ack(v) => e.(tx := e.tx.Acknowledged(v))
        case Ping => e
        case Close => e.(status := PeerClosed);
      With(x, e', Out(x), Popped(in_, t))
    }

    ghost function Next(s: Step): System
      requires Enabled(s)
    {
      var x, e := s.side, At(s.side);
      match s.action
      case Enqueue(f) => With(x, e.(tx := e.tx.(queue := e.tx.queue + [f])), Out(x), Out(x.Peer()))
      case Move(m) =>
        var o := e.tx.Do(e.inbox.acks, m);
        With(x, e.(tx := o.tx, inbox := e.inbox.(acks := o.acks)), WiresAfter(Out(x), m, o.out), Out(x.Peer()))
      case Read(t, now) => ReadFrame(x, t, now)
      case Break(t, kept) => With(x, e, Out(x)[t := Out(x)[t].Break(kept)], Out(x.Peer()))
      case Renegotiate(every, delay) =>
        With(x, e.(inbox := e.inbox.(acks := e.inbox.acks.(every := every, delay := delay))), Out(x), Out(x.Peer()))
    }

    /** The invariant of the session: both directions, and what an endpoint that read CLOSE has. */
    ghost predicate Ok() {
      && (forall x: Side :: From(x).Ok())
      && (forall x: Side :: StatusOk(At(x), At(x.Peer()).tx))
    }
  }

  function NewEndpoint(b: Budget, every: nat, delay: nat): Endpoint {
    Endpoint(Sender(b, [], None, [], [], [], 0, None, 0, [], None, false),
             Receiver.Inbox(Receiver.Acks(0, 0, 0, false, 0, every, delay), []), Open)
  }

  ghost predicate IsNew(e: Endpoint) {
    exists b, every, delay :: e == NewEndpoint(b, every, delay)
  }

  ghost predicate Init(s: System) {
    && (forall x: Side :: IsNew(s.At(x)))
    && s.up == map[] && s.down == map[]
  }

  /** The states of a run, one step each. */
  ghost predicate IsRun(states: seq<System>, steps: seq<Step>) {
    && |states| == |steps| + 1
    && Init(states[0])
    && forall i :: 0 <= i < |steps| ==> states[i].Enabled(steps[i]) && states[i + 1] == states[i].Next(steps[i])
  }

  ghost predicate Reachable(s: System) {
    exists states, steps :: IsRun(states, steps) && states[|steps|] == s
  }

  lemma InitReachable(s: System)
    requires Init(s)
    ensures Reachable(s)
  {
    var steps: seq<Step> := [];
    assert IsRun([s], steps) && [s][|steps|] == s;
  }

  lemma NextReachable(s: System, p: Step)
    requires Reachable(s) && s.Enabled(p)
    ensures Reachable(s.Next(p))
  {
    var states, steps :| IsRun(states, steps) && states[|steps|] == s;
    var longer := states + [s.Next(p)];
    assert IsRun(longer, steps + [p]) && longer[|steps + [p]|] == s.Next(p);
  }

  lemma InitOk(s: System)
    requires Init(s)
    ensures s.Ok()
  {
    forall x: Side ensures s.From(x).Ok() {
      assert s.At(x).tx.Ok() && s.At(x.Peer()).inbox.InStep();
    }
  }

  lemma EnqueueKeeps(s: System, x: Side, f: Outbound)
    requires s.Ok()
    ensures s.Next(Step(x, Enqueue(f))).Ok()
  {
    var s' := s.Next(Step(x, Enqueue(f)));
    var tx := s'.At(x).tx;
    assert s.From(x).Ok() && s.From(x.Peer()).Ok();
    assert tx.Used() == s.At(x).tx.Used();
    SenderChanges(s.From(x), tx);
    assert s'.From(x) == s.From(x).(tx := tx) && s'.From(x.Peer()) == s.From(x.Peer());
    BothSides(s', x);
  }

  lemma BothSides(s: System, x: Side)
    requires s.From(x).Ok() && s.From(x.Peer()).Ok()
    requires StatusOk(s.At(x), s.At(x.Peer()).tx) && StatusOk(s.At(x.Peer()), s.At(x).tx)
    ensures s.Ok()
  {
    forall y: Side ensures s.From(y).Ok() && StatusOk(s.At(y), s.At(y.Peer()).tx) {
      assert y == x || y == x.Peer();
    }
  }

  /** What a step of side x is in each of the two directions. */
  lemma MoveViews(s: System, x: Side, m: Move)
    requires s.Enabled(Step(x, Move(m)))
    ensures var s' := s.Next(Step(x, Move(m)));
      && s'.From(x) == Moved(s.From(x), s.At(x).inbox.acks, m)
      && s'.From(x.Peer()) == MovedBack(s.From(x.Peer()), s.At(x).tx, m)
      && s'.At(x).status == s.At(x).status && s'.At(x.Peer()) == s.At(x.Peer())
      && s'.At(x).inbox.delivered == s.At(x).inbox.delivered
      && s'.At(x).tx == s.At(x).tx.Do(s.At(x).inbox.acks, m).tx
  {
  }

  lemma ReadViews(s: System, x: Side, t: nat, now: nat)
    requires s.Enabled(Step(x, Read(t, now)))
    ensures var s', d, b := s.Next(Step(x, Read(t, now))), s.From(x.Peer()), s.From(x);
      && s'.From(x.Peer()) == d.(inbox := Delivered(d, t, now), out := Popped(d.out, t))
      && s'.From(x) == b.(tx := Acked(b.tx, b.back[t].frames[0]), back := Popped(b.back, t))
      && s'.At(x.Peer()) == s.At(x.Peer())
      && (s'.At(x).status.PeerClosed? <==> d.out[t].frames[0].Close?)
      && (s'.At(x).status.Failed? ==>
            && d.out[t].frames[0].Data?
            && d.inbox.Handle(d.out[t].frames[0].record.seqNo, d.out[t].frames[0].record.frame, now).Err?)
  {
  }

  lemma BreakViews(s: System, x: Side, t: nat, kept: nat)
    requires s.Enabled(Step(x, Break(t, kept)))
    ensures var s', d, b := s.Next(Step(x, Break(t, kept))), s.From(x), s.From(x.Peer());
      && s'.From(x) == d.(out := d.out[t := d.out[t].Break(kept)])
      && s'.From(x.Peer()) == b.(back := b.back[t := b.back[t].Break(kept)])
      && s'.At(x) == s.At(x) && s'.At(x.Peer()) == s.At(x.Peer())
  {
  }

  /** The invariant of one side's status. */
  ghost predicate StatusOk(e: Endpoint, peer: Sender) {
    && !e.status.Failed?
    && (e.status.PeerClosed? ==> peer.closeWritten == Some(true) && e.inbox.delivered == peer.log)
  }

  lemma MoveStepKeeps(s: System, x: Side, m: Move)
    requires s.Ok() && s.Enabled(Step(x, Move(m)))
    ensures s.Next(Step(x, Move(m))).Ok()
  {
    MoveViews(s, x, m);
    assert s.From(x).Ok() && s.From(x.Peer()).Ok();
    MovedKeeps(s.From(x), s.At(x).inbox.acks, m);
    MovedBackKeeps(s.From(x.Peer()), s.At(x).tx, m);
    DoneStays(s.At(x).tx, s.At(x).inbox.acks, m);
    BothSides(s.Next(Step(x, Move(m))), x);
  }

  /** A task that has written CLOSE makes no further move. */
  lemma DoneStays(tx: Sender, acks: Receiver.Acks, m: Move)
    requires tx.Ok() && tx.Enabled(m)
    ensures tx.closeWritten.None?
  {
  }

  lemma ReadKeeps(s: System, x: Side, t: nat, now: nat)
    requires s.Ok() && s.Enabled(Step(x, Read(t, now)))
    ensures s.Next(Step(x, Read(t, now))).Ok()
  {
    ReadViews(s, x, t, now);
    assert s.From(x).Ok() && s.From(x.Peer()).Ok();
    DeliverKeeps(s.From(x.Peer()), t, now);
    DeliverBackKeeps(s.From(x), t);
    BothSides(s.Next(Step(x, Read(t, now))), x);
  }

  lemma BreakStepKeeps(s: System, x: Side, t: nat, kept: nat)
    requires s.Ok() && s.Enabled(Step(x, Break(t, kept)))
    ensures s.Next(Step(x, Break(t, kept))).Ok()
  {
    BreakViews(s, x, t, kept);
    assert s.From(x).Ok() && s.From(x.Peer()).Ok();
    BreakKeeps(s.From(x), t, kept);
    BothSides(s.Next(Step(x, Break(t, kept))), x);
  }

  lemma RenegotiateKeeps(s: System, x: Side, every: nat, delay: nat)
    requires s.Ok()
    ensures s.Next(Step(x, Renegotiate(every, delay))).Ok()
  {
    var s' := s.Next(Step(x, Renegotiate(every, delay)));
    assert s.From(x).Ok() && s.From(x.Peer()).Ok();
    assert s'.From(x) == s.From(x);
    assert s'.From(x.Peer()) == s.From(x.Peer()).(inbox := s'.At(x).inbox);
    BothSides(s', x);
  }

  lemma StepKeeps(s: System, p: Step)
    requires s.Ok() && s.Enabled(p)
    ensures s.Next(p).Ok()
  {
    match p.action
    case Enqueue(f) => EnqueueKeeps(s, p.side, f);
    case Move(m) => MoveStepKeeps(s, p.side, m);
    case Read(t, now) => ReadKeeps(s, p.side, t, now);
    case Break(t, kept) => BreakStepKeeps(s, p.side, t, kept);
    case Renegotiate(every, delay) => RenegotiateKeeps(s, p.side, every, delay);
  }

  lemma {:induction false} RunOk(states: seq<System>, steps: seq<Step>, i: nat)
    requires IsRun(states, steps) && i < |states|
    ensures states[i].Ok()
  {
    if i == 0 {
      InitOk(states[0]);
    } else {
      RunOk(states, steps, i - 1);
      StepKeeps(states[i - 1], steps[i - 1]);
    }
  }

  /**
   * Exactly once, in order: in every state of every run, what one side's application has seen is
   * a prefix of what the other side kept, which is what fitted of the frames it took, in order.
   */
  lemma ExactlyOnceInOrder(states: seq<System>, steps: seq<Step>, i: nat, x: Side)
    requires IsRun(states, steps) && i < |states|
    ensures var sender, receiver := states[i].At(x).tx, states[i].At(x.Peer()).inbox;
      && receiver.delivered <= sender.log
      && sender.log == sender.budget.Kept(sender.taken)
      && sender.taken <= sender.Enqueued()
  {
    RunOk(states, steps, i);
    assert states[i].From(x).Ok();
  }

  /** Nothing delivered is ever taken back: over a run each side's view only extends. */
  lemma {:induction false} DeliveryOnlyExtends(states: seq<System>, steps: seq<Step>, i: nat, j: nat, x: Side)
    requires IsRun(states, steps) && i <= j < |states|
    ensures Extends(states[i].At(x), states[j].At(x))
    decreases j
  {
    if i < j {
      DeliveryOnlyExtends(states, steps, i, j - 1, x);
      RunOk(states, steps, j - 1);
      assert states[j - 1].From(x).Ok();
      StepExtends(states[j - 1], steps[j - 1], x);
    }
  }

  ghost predicate Extends(e: Endpoint, e': Endpoint) {
    && e.inbox.delivered <= e'.inbox.delivered
    && e.tx.log <= e'.tx.log
    && e.tx.Enqueued() <= e'.tx.Enqueued()
  }

  lemma StepExtends(s: System, p: Step, x: Side)
    requires s.Ok() && s.Enabled(p)
    ensures Extends(s.At(x), s.Next(p).At(x))
  {
    match p.action
    case Move(m) => MoveExtends(s, p.side, m, x);
    case Read(t, now) => ReadExtends(s, p.side, t, now, x);
    case _ =>
  }

  lemma MoveExtends(s: System, y: Side, m: Move, x: Side)
    requires s.Ok() && s.Enabled(Step(y, Move(m)))
    ensures Extends(s.At(x), s.Next(Step(y, Move(m))).At(x))
  {
    MoveViews(s, y, m);
    assert s.From(y).Ok();
    MoveKeeps(s.At(y).tx, s.At(y).inbox.acks, m);
  }

  lemma ReadExtends(s: System, y: Side, t: nat, now: nat, x: Side)
    requires s.Ok() && s.Enabled(Step(y, Read(t, now)))
    ensures Extends(s.At(x), s.Next(Step(y, Read(t, now))).At(x))
  {
    ReadViews(s, y, t, now);
  }

  /**
   * Honest peers never fail: no endpoint of any run closes on a bad frame, and the next frame on
   * any wire, read at any time, is accepted.
   */
  lemma HonestPeersNeverFail(states: seq<System>, steps: seq<Step>, i: nat, x: Side, t: nat, now: nat)
    requires IsRun(states, steps) && i < |states|
    ensures !states[i].At(x).status.Failed?
    ensures var wires := states[i].Out(x.Peer());
      t in wires && wires[t].frames != [] && wires[t].frames[0].Data? ==>
        var r := wires[t].frames[0].record;
        states[i].At(x).inbox.Handle(r.seqNo, r.frame, now).Ok?
  {
    RunOk(states, steps, i);
    assert states[i].From(x.Peer()).Ok();
    if t in states[i].Out(x.Peer()) && states[i].Out(x.Peer())[t].frames != [] {
      DeliverKeeps(states[i].From(x.Peer()), t, now);
    }
  }

  /**
   * Graceful close is complete: once a side has read CLOSE, it has exactly the frames that fitted
   * of those the peer enqueued before closing, and the senders told Ok are those of these frames.
   */
  lemma GracefulCloseIsComplete(states: seq<System>, steps: seq<Step>, i: nat, x: Side)
    requires IsRun(states, steps) && i < |states| && states[i].At(x).status.PeerClosed?
    ensures var peer := states[i].At(x.Peer()).tx;
      exists before, later ::
        && peer.Enqueued() == before + [CloseMarker] + later
        && CloseMarker !in before
        && states[i].At(x).inbox.delivered == peer.budget.Kept(before)
        && peer.replies == peer.budget.Verdicts(before)
  {
    RunOk(states, steps, i);
    var peer := states[i].At(x.Peer()).tx;
    assert states[i].From(x.Peer()).Ok();
    var before := peer.taken[..|peer.taken| - 1];
    KeptAppend(peer.budget, before, CloseMarker);
    assert before + [CloseMarker] == peer.taken;
    assert peer.Enqueued() == before + [CloseMarker] + peer.queue;
  }

  /**
   * Wire order: on every transport of every run the numbers a side has written strictly increase,
   * and each number passed over was already acknowledged to it.
   */
  lemma WireOrder(states: seq<System>, steps: seq<Step>, i: nat, x: Side, t: nat)
    requires IsRun(states, steps) && i < |states| && t in states[i].Out(x)
    ensures var wrote := states[i].Out(x)[t].wrote;
      && (forall k, l :: 0 <= k < l < |wrote| ==> wrote[k] < wrote[l])
      && (forall k, n: nat :: 0 <= k < |wrote| && 1 <= n <= wrote[k] ==> n in wrote || n <= states[i].At(x).tx.lastAcked)
  {
    RunOk(states, steps, i);
    assert states[i].From(x).Ok();
  }

  /**
   * Conservation: every frame enqueued is exactly once in the log, refused, held or queued, in that
   * order; each waiting sender of a decided frame has its verdict; and the unacknowledged frames
   * stay inside the budget.
   */
  lemma Conservation(states: seq<System>, steps: seq<Step>, i: nat, x: Side)
    requires IsRun(states, steps) && i < |states|
    ensures var tx := states[i].At(x).tx;
      && tx.Enqueued() == EnqueuedBy(steps[..i], x)
      && tx.log == tx.budget.Kept(tx.taken)
      && tx.replies == tx.budget.Verdicts(tx.taken)
      && tx.lastAcked <= |states[i].At(x.Peer()).inbox.delivered| <= |tx.log|
      && (tx.budget.maxBytes > 0 ==> tx.Used() <= tx.budget.maxBytes)
      && (tx.held.Some? ==> !tx.held.value.CloseMarker? && tx.budget.Fits(tx.held.value.frame))
  {
    RunOk(states, steps, i);
    assert states[i].From(x).Ok();
    AllEnqueued(states, steps, i, x);
  }

  /** The frames that side x has enqueued, in order. */
  function EnqueuedBy(steps: seq<Step>, x: Side): seq<Outbound> {
    if steps == [] then []
    else
      var p := steps[|steps| - 1];
      EnqueuedBy(steps[..|steps| - 1], x) + if p.side == x && p.action.Enqueue? then [p.action.frame] else []
  }

  lemma {:induction false} AllEnqueued(states: seq<System>, steps: seq<Step>, i: nat, x: Side)
    requires IsRun(states, steps) && i < |states|
    ensures states[i].At(x).tx.Enqueued() == EnqueuedBy(steps[..i], x)
  {
    if i > 0 {
      AllEnqueued(states, steps, i - 1, x);
      RunOk(states, steps, i - 1);
      assert states[i - 1].From(x).Ok();
      assert steps[..i][..i - 1] == steps[..i - 1];
      StepEnqueues(states[i - 1], steps[i - 1], x);
    }
  }

  lemma StepEnqueues(s: System, p: Step, x: Side)
    requires s.From(x).Ok() && s.Enabled(p)
    ensures s.Next(p).At(x).tx.Enqueued()
         == s.At(x).tx.Enqueued() + if p.side == x && p.action.Enqueue? then [p.action.frame] else []
  {
    match p.action
    case Move(m) =>
      MoveViews(s, p.side, m);
      if p.side == x {
        MoveKeeps(s.At(x).tx, s.At(x).inbox.acks, m);
      }
    case Read(t, now) => ReadViews(s, p.side, t, now);
    case _ =>
  }
}

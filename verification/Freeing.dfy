/**
 * What decides whether a waiting sender can be freed on its transport: it can exactly if the attach
 * left its direction driven. Each step below brings the last acknowledgement nearer.
 */
module Freeing {
  import opened Base
  import opened Sending
  import opened Wires
  import opened Direction
  import opened Session
  import opened Progress
  import Receiver

  /** Linked on t, and neither side is closing. */
  ghost predicate Ready(s: System, t: nat) {
    && s.Ok() && Linked(s, t)
    && forall x: Side :: s.At(x).status.Open? && !s.At(x).tx.done
  }

  /** What is left to do before nothing is on its way. */
  function Work(d: Dir, t: nat): nat
    requires t in d.out && t in d.back
  {
    4 * |d.tx.resume| + 3 * |d.out[t].frames|
    + (if d.inbox.acks.lastAckSent < d.Got() then 2 else 0) + |d.back[t].frames|
  }

  /** The step that does it: replay, let the peer read, let it acknowledge, read what it wrote. */
  function Useful(s: System, t: nat, x: Side): Step
    requires t in s.Out(x) && t in s.Out(x.Peer())
  {
    var d := s.From(x);
    if d.tx.resume != [] then Step(x, Move(Replay(true)))
    else if d.out[t].frames != [] then Step(x.Peer(), Read(t, 0))
    else if d.inbox.acks.lastAckSent < d.Got() then Step(x.Peer(), Move(TakeAck(d.inbox.acks.dueAt, true)))
    else Step(x, Read(t, 0))
  }

  /** The step is possible, and what the sender waits with stays as it is. */
  ghost predicate Helps(s: System, t: nat, x: Side, p: Step) {
    && On(t, p) && s.Enabled(p) && Ready(s.Next(p), t)
    && t in s.Out(x) && t in s.Out(x.Peer()) && t in s.Next(p).Out(x) && t in s.Next(p).Out(x.Peer())
    && Work(s.Next(p).From(x), t) < Work(s.From(x), t)
    && SameFrames(s.At(x).tx, s.Next(p).At(x).tx)
  }

  ghost predicate SameFrames(tx: Sender, tx': Sender) {
    tx'.held == tx.held && tx'.log == tx.log && tx'.budget == tx.budget
  }

  /** No CLOSE is in flight from a side that is not closing. */
  lemma NoClose(s: System, t: nat, x: Side)
    requires Ready(s, t) && t in s.Out(x) && s.Out(x)[t].frames != []
    ensures !s.Out(x)[t].frames[0].Close?
  {
    assert s.From(x).Ok();
    assert InFlight(s.Out(x)[t].frames, s.From(x).Got(), LedgerOf(s.At(x).tx));
  }

  /** One side on t, with its wire up, and not closing. */
  predicate SideReady(s: System, t: nat, x: Side) {
    && s.At(x).tx.writer == Some(t) && t in s.Out(x) && !s.Out(x)[t].cut
    && s.At(x).status.Open? && !s.At(x).tx.done
  }

  lemma SidesReady(s: System, t: nat, x: Side)
    requires s.Ok() && SideReady(s, t, x) && SideReady(s, t, x.Peer())
    ensures Ready(s, t)
  {
    forall y: Side ensures SideReady(s, t, y) {
      assert y == x || y == x.Peer();
    }
  }

  lemma ReplayWorks(d: Dir, acks: Receiver.Acks, t: nat)
    requires d.Ok() && d.tx.writer == Some(t) && d.tx.resume != [] && !d.tx.done
    requires t in d.out && t in d.back && !d.out[t].cut
    ensures var d' := Moved(d, acks, Replay(true));
      && t in d'.out && t in d'.back && !d'.out[t].cut
      && Work(d', t) < Work(d, t)
      && SameFrames(d.tx, d'.tx) && d'.tx.writer == Some(t) && !d'.tx.done
  {
  }

  lemma ReplayHelps(s: System, t: nat, x: Side)
    requires Ready(s, t) && t in s.Out(x) && t in s.Out(x.Peer()) && s.At(x).tx.resume != []
    ensures Helps(s, t, x, Step(x, Move(Replay(true))))
  {
    var p := Step(x, Move(Replay(true)));
    assert s.From(x).Ok() && SideReady(s, t, x) && SideReady(s, t, x.Peer());
    MoveViews(s, x, p.action.move);
    ReplayWorks(s.From(x), s.At(x).inbox.acks, t);
    StepKeeps(s, p);
    SidesReady(s.Next(p), t, x);
  }

  /** Whoever reads a frame of t, there is less to do in both directions. */
  lemma ReadWorks(d: Dir, t: nat)
    requires t in d.out && t in d.back
    ensures d.out[t].frames != [] ==>
              Work(d.(inbox := Delivered(d, t, 0), out := Popped(d.out, t)), t) < Work(d, t)
    ensures d.back[t].frames != [] ==>
              Work(d.(tx := Acked(d.tx, d.back[t].frames[0]), back := Popped(d.back, t)), t) < Work(d, t)
  {
  }

  lemma ReadsReady(s: System, t: nat, reader: Side)
    requires Ready(s, t) && s.Enabled(Step(reader, Read(t, 0)))
    ensures Ready(s.Next(Step(reader, Read(t, 0))), t)
  {
    var p := Step(reader, Read(t, 0));
    assert SideReady(s, t, reader) && SideReady(s, t, reader.Peer());
    NoClose(s, t, reader.Peer());
    ReadViews(s, reader, t, 0);
    StepKeeps(s, p);
    assert StatusOk(s.Next(p).At(reader), s.Next(p).At(reader.Peer()).tx);
    SidesReady(s.Next(p), t, reader);
  }

  lemma ReadHelps(s: System, t: nat, x: Side, reader: Side)
    requires Ready(s, t) && t in s.Out(x) && t in s.Out(x.Peer()) && s.Out(reader.Peer())[t].frames != []
    ensures Helps(s, t, x, Step(reader, Read(t, 0)))
  {
    var p := Step(reader, Read(t, 0));
    ReadsReady(s, t, reader);
    ReadViews(s, reader, t, 0);
    ReadWorks(s.From(x), t);
  }

  lemma AckHelps(s: System, t: nat, x: Side)
    requires Ready(s, t) && t in s.Out(x) && t in s.Out(x.Peer())
    requires s.From(x).inbox.acks.lastAckSent < s.From(x).Got()
    ensures Helps(s, t, x, Step(x.Peer(), Move(TakeAck(s.From(x).inbox.acks.dueAt, true))))
  {
    var p := Step(x.Peer(), Move(TakeAck(s.From(x).inbox.acks.dueAt, true)));
    assert s.From(x).Ok() && s.From(x.Peer()).Ok();
    MoveViews(s, x.Peer(), p.action.move);
    StepKeeps(s, p);
    SidesReady(s.Next(p), t, x);
  }

  lemma UsefulHelps(s: System, t: nat, x: Side)
    requires Ready(s, t) && t in s.Out(x) && t in s.Out(x.Peer()) && Work(s.From(x), t) > 0
    ensures Helps(s, t, x, Useful(s, t, x))
  {
    var d := s.From(x);
    if d.tx.resume != [] {
      ReplayHelps(s, t, x);
    } else if d.out[t].frames != [] {
      ReadHelps(s, t, x, x.Peer());
    } else if d.inbox.acks.lastAckSent < d.Got() {
      AckHelps(s, t, x);
    } else {
      ReadHelps(s, t, x, x);
    }
  }

  /** In e nothing is on its way any more to the sender at x, which waits with what it had in s. */
  ghost predicate Drained(s: System, e: System, t: nat, x: Side) {
    && t in e.Out(x) && t in e.Out(x.Peer()) && Work(e.From(x), t) == 0
    && SameFrames(s.At(x).tx, e.At(x).tx)
  }

  /** From any state nothing more can be on its way some steps later. */
  lemma {:induction false} Drain(s: System, t: nat, x: Side) returns (states: seq<System>, steps: seq<Step>)
    requires Ready(s, t) && t in s.Out(x) && t in s.Out(x.Peer())
    ensures LinkedRun(states, steps, t) && states[0] == s && Drained(s, states[|steps|], t, x)
    decreases Work(s.From(x), t)
  {
    if Work(s.From(x), t) == 0 {
      states, steps := [s], [];
      assert Drained(s, s, t, x);
    } else {
      var p := Useful(s, t, x);
      UsefulHelps(s, t, x);
      var more, rest := Drain(s.Next(p), t, x);
      RunFrom(s, p, more, rest, t);
      assert Drained(s, more[|rest|], t, x);
      states, steps := [s] + more, [p] + rest;
    }
  }

  lemma RunFrom(s: System, p: Step, states: seq<System>, steps: seq<Step>, t: nat)
    requires s.Ok() && Linked(s, t) && On(t, p) && s.Enabled(p)
    requires LinkedRun(states, steps, t) && states[0] == s.Next(p)
    ensures LinkedRun([s] + states, [p] + steps, t)
  {
  }

  /** With nothing on its way, a driven direction is acknowledged entirely. */
  lemma DrainedIsAcknowledged(d: Dir, t: nat)
    requires d.Ok() && t in d.out && t in d.back && !d.out[t].cut && d.tx.writer == Some(t)
    requires Work(d, t) == 0 && Driven(d, t)
    ensures d.tx.lastAcked == |d.tx.log| && !Waiting(d.tx)
  {
    if d.tx.held.Some? && d.tx.lastAcked == |d.tx.log| {
      HeldFitsWhenAcknowledged(d.tx);
    }
  }

  /** Some run on transport t ends with room for what the sender at x holds. */
  ghost predicate CanBeFreed(s: System, t: nat, x: Side) {
    exists states: seq<System>, steps: seq<Step> ::
      && LinkedRun(states, steps, t) && states[0] == s
      && var tx := states[|steps|].At(x).tx;
         tx.lastAcked <= |tx.log| && !Waiting(tx)
  }

  lemma DrivenIsFreed(s: System, t: nat, x: Side)
    requires Ready(s, t) && t in s.Out(x) && t in s.Out(x.Peer()) && Driven(s.From(x), t)
    ensures CanBeFreed(s, t, x)
  {
    var states, steps := Drain(s, t, x);
    NoSenderStuck(states, steps, t, x, |steps|);
    assert Linked(states[|steps|], t) && states[|steps|].From(x).Ok() && Drained(s, states[|steps|], t, x);
    assert states[|steps|].At(x).tx.writer == Some(t) && !states[|steps|].Out(x)[t].cut;
    DrainedIsAcknowledged(states[|steps|].From(x), t);
  }

  lemma StrandedIsNotFreed(s: System, t: nat, x: Side)
    requires StuckSince(s.At(x).tx, s.From(x), t)
    ensures !CanBeFreed(s, t, x)
  {
    forall states: seq<System>, steps: seq<Step> | LinkedRun(states, steps, t) && states[0] == s
      ensures var tx := states[|steps|].At(x).tx; tx.lastAcked <= |tx.log| && Waiting(tx)
    {
      StrandedForever(states, steps, t, x, |steps|);
      SameRoom(s.At(x).tx, states[|steps|].At(x).tx);
    }
  }

  /**
   * The exact condition: in every reachable state, after an attach of both sides, a waiting sender can be freed on the new
   * transport if and only if it is not the case that the peer has, and has acknowledged, its whole
   * log while the number reported leaves part of that unacknowledged.
   */
  lemma FreedIffNotStranded(s: System, s': System, t: nat, toClient: nat, toServer: nat, x: Side)
    requires Reachable(s) && Exchange(s, s', t, toClient, toServer)
    requires Ready(s', t) && s'.At(x).tx.lastAcked <= |s'.At(x).tx.log| && Waiting(s'.At(x).tx)
    ensures var d, v := s.From(x), if x.Client? then toClient else toServer;
      CanBeFreed(s', t, x) <==> !(d.Got() == |d.tx.log| == d.inbox.acks.lastAckSent && Max(d.tx.lastAcked, v) < |d.tx.log|)
  {
    var states, steps :| IsRun(states, steps) && states[|steps|] == s;
    RunOk(states, steps, |steps|);
    ExchangeDecides(s, s', t, toClient, toServer, x);
    assert t in s'.Out(x) && t in s'.Out(x.Peer());
    if Driven(s'.From(x), t) {
      DrivenIsFreed(s', t, x);
    } else {
      StrandedIsNotFreed(s', t, x);
    }
  }
}

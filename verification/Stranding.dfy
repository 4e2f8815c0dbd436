/**
 * A run in which a sender is stranded. The server reports the number 0 it has read before its old
 * reader delivers frame 1, whose ACK is then lost with the old transport.
 */
module Stranding {
  import opened Base
  import opened Replay
  import opened Sending
  import opened Wires
  import opened Direction
  import opened Session
  import opened Progress
  import Receiver

  const BUDGET := Budget(18, 20)
  const FRAME := Frame(1, 0, [0, 0])
  const RECORD := FrameRecord(1, FRAME, 20)
  const NEXT := Plain(FRAME)
  const IDLE := Sender(BUDGET, [], None, [], [], [], 0, None, 0, [], None, false)
  const HOLDING := IDLE.(held := Some(NEXT), taken := [NEXT], log := [FRAME])

  /** The server's inbox before and after its reader and writer have dealt with frame 1. */
  const EMPTY := Receiver.Inbox(Receiver.Acks(0, 0, 0, false, 0, 1, 0), [])
  const ACKED := Receiver.Inbox(Receiver.Acks(1, 1, 0, false, 0, 1, 0), [FRAME])

  function State(client: Sender, server: Sender, inbox: Receiver.Inbox, up: map<nat, Wire>, down: map<nat, Wire>): System {
    System(Endpoint(client, EMPTY, Open), Endpoint(server, inbox, Open), up, down)
  }

  lemma Attaching(s: Sender, acks: Receiver.Acks)
    requires s == IDLE
    ensures s.Do(acks, Attach(1, 0)) == Outcome(s.(writer := Some(1)), acks, [])
  {
    assert Records(18, [], 0) == [];
  }

  lemma Keeping(s: Sender, acks: Receiver.Acks)
    requires s == IDLE.(writer := Some(1), queue := [NEXT])
    ensures s.Do(acks, SendNext(true))
         == Outcome(IDLE.(writer := Some(1), taken := [NEXT], log := [FRAME], lastSent := 1), acks, [Sent(1, Data(RECORD))])
  {
    assert Records(18, [], 0) == [];
    assert s.queue[1..] == [];
  }

  lemma Holding(s: Sender, acks: Receiver.Acks)
    requires s == IDLE.(writer := Some(1), queue := [NEXT], taken := [NEXT], log := [FRAME], lastSent := 1)
    ensures s.Do(acks, SendNext(true)) == Outcome(HOLDING.(writer := Some(1), lastSent := 1), acks, [])
    ensures s.(queue := [], held := Some(NEXT)).Do(acks, Attach(2, 0))
         == Outcome(HOLDING.(writer := Some(2), resume := [RECORD]), acks, [])
  {
    assert Records(18, [FRAME], 0) == [RECORD];
    assert TotalSize([RECORD]) == 20;
    assert s.queue[1..] == [];
  }

  /** Frame 1 is kept and written, frame 2 is held for want of room. */
  lemma ClientSends(s0: System, s4: System)
    requires s0 == State(IDLE.(writer := Some(1)), IDLE.(writer := Some(1)), EMPTY,
                         map[1 := Wire([], false, [])], map[1 := Wire([], false, [])])
    requires s4 == State(HOLDING.(writer := Some(1), lastSent := 1), IDLE.(writer := Some(1)), EMPTY,
                         map[1 := Wire([Data(RECORD)], false, [1])], map[1 := Wire([], false, [])])
    ensures var p, q := Step(Client, Enqueue(NEXT)), Step(Client, Move(SendNext(true)));
      && s0.Enabled(p) && s0.Next(p).Enabled(q) && s0.Next(p).Next(q).Enabled(p)
      && s0.Next(p).Next(q).Next(p).Enabled(q) && s0.Next(p).Next(q).Next(p).Next(q) == s4
  {
    var p, q := Step(Client, Enqueue(NEXT)), Step(Client, Move(SendNext(true)));
    var none := map[1 := Wire([], false, [])];
    var kept := IDLE.(writer := Some(1), taken := [NEXT], log := [FRAME], lastSent := 1);
    var on1 := IDLE.(writer := Some(1));
    var s1 := s0.Next(p);
    assert s1 == State(on1.(queue := [NEXT]), on1, EMPTY, none, none);
    Keeping(on1.(queue := [NEXT]), EMPTY.acks);
    assert none[1].Append(Data(RECORD)) == Wire([Data(RECORD)], false, [1]);
    assert none[1 := none[1].Append(Data(RECORD))] == map[1 := Wire([Data(RECORD)], false, [1])];
    var s2 := s1.Next(q);
    assert s2 == State(kept, on1, EMPTY, map[1 := Wire([Data(RECORD)], false, [1])], none);
    var s3 := s2.Next(p);
    assert s3 == State(kept.(queue := [NEXT]), on1, EMPTY, map[1 := Wire([Data(RECORD)], false, [1])], none);
    Holding(kept.(queue := [NEXT]), EMPTY.acks);
  }

  /** The server delivers frame 1, but its ACK is lost with the transport. */
  lemma ServerAcks(s0: System, s3: System)
    requires s0 == State(HOLDING.(writer := Some(1), lastSent := 1), IDLE.(writer := Some(1)), EMPTY,
                         map[1 := Wire([Data(RECORD)], false, [1])], map[1 := Wire([], false, [])])
    requires s3 == State(HOLDING.(writer := Some(1), lastSent := 1), IDLE.(writer := Some(1)), ACKED,
                         map[1 := Wire([], false, [1])], map[1 := Wire([], true, [])])
    ensures var p, q, r := Step(Server, Break(1, 0)), Step(Server, Read(1, 0)), Step(Server, Move(TakeAck(0, true)));
      && s0.Enabled(p) && s0.Next(p).Enabled(q) && s0.Next(p).Next(q).Enabled(r) && s0.Next(p).Next(q).Next(r) == s3
  {
    var p, q, r := Step(Server, Break(1, 0)), Step(Server, Read(1, 0)), Step(Server, Move(TakeAck(0, true)));
    assert s0.down[1].Break(0) == Wire([], true, []);
    assert s0.down[1 := Wire([], true, [])] == map[1 := Wire([], true, [])];
    var s1 := s0.Next(p);
    assert s1 == s0.(down := map[1 := Wire([], true, [])]);
    assert s1.up[1].(frames := s1.up[1].frames[1..]) == Wire([], false, [1]);
    assert Popped(s1.up, 1) == map[1 := Wire([], false, [1])];
    assert EMPTY.acks.Note(1, 0) == (Receiver.Acks(1, 0, 1, true, 0, 1, 0), true);
    assert EMPTY.delivered + [FRAME] == [FRAME];
    assert EMPTY.Handle(1, FRAME, 0) == Ok((Receiver.Inbox(Receiver.Acks(1, 0, 1, true, 0, 1, 0), [FRAME]), true));
    var s2 := s1.Next(q);
    assert s2 == s1.(up := map[1 := Wire([], false, [1])],
                     server := s1.server.(inbox := Receiver.Inbox(Receiver.Acks(1, 0, 1, true, 0, 1, 0), [FRAME])));
  }

  /** Both sides attach to transport 2; the client is given the number read before the delivery. */
  lemma StaleExchange(s0: System, s2: System)
    requires s0 == State(HOLDING.(writer := Some(1), lastSent := 1), IDLE.(writer := Some(1)), ACKED,
                         map[1 := Wire([], false, [1])], map[1 := Wire([], true, [])])
    requires s2 == State(HOLDING.(writer := Some(2), resume := [RECORD]), IDLE.(writer := Some(2)), ACKED,
                         map[1 := Wire([], false, [1]), 2 := Wire([], false, [])],
                         map[1 := Wire([], true, []), 2 := Wire([], false, [])])
    ensures Exchange(s0, s2, 2, 0, 0)
  {
    Holding(IDLE.(writer := Some(1), queue := [NEXT], taken := [NEXT], log := [FRAME], lastSent := 1), EMPTY.acks);
    var p, q := Step(Client, Move(Attach(2, 0))), Step(Server, Move(Attach(2, 0)));
    assert Records(18, [FRAME], 0) == [RECORD];
    assert Records(18, [], 0) == [];
    var s1 := s0.Next(p);
    assert s1 == State(HOLDING.(writer := Some(2), resume := [RECORD]), IDLE.(writer := Some(1)), ACKED,
                       map[1 := Wire([], false, [1]), 2 := Wire([], false, [])], map[1 := Wire([], true, [])]);
  }

  /** The sender is stranded in a state that the code can reach by the attach of a stale number. */
  lemma StaleNumberStrands()
    ensures exists s: System, s': System ::
              && Reachable(s) && Exchange(s, s', 2, 0, 0) && s.From(Client).Got() == 1
              && Linked(s', 2) && StuckSince(s'.At(Client).tx, s'.From(Client), 2)
  {
    var none := Wire([], false, []);
    var s9 := State(HOLDING.(writer := Some(1), lastSent := 1), IDLE.(writer := Some(1)), ACKED,
                    map[1 := Wire([], false, [1])], map[1 := Wire([], true, [])]);
    StrandingPrelude(s9);
    var s11 := State(HOLDING.(writer := Some(2), resume := [RECORD]), IDLE.(writer := Some(2)), ACKED,
                     map[1 := Wire([], false, [1]), 2 := none], map[1 := Wire([], true, []), 2 := none]);
    StaleExchange(s9, s11);
    Stuck(s11);
    assert Linked(s11, 2) by {
      forall x: Side ensures s11.At(x).tx.writer == Some(2) && 2 in s11.Out(x) && !s11.Out(x)[2].cut {
      }
    }
  }

  lemma StrandingPrelude(s9: System)
    requires s9 == State(HOLDING.(writer := Some(1), lastSent := 1), IDLE.(writer := Some(1)), ACKED,
                         map[1 := Wire([], false, [1])], map[1 := Wire([], true, [])])
    ensures Reachable(s9)
  {
    var none := Wire([], false, []);
    var s2 := State(IDLE.(writer := Some(1)), IDLE.(writer := Some(1)), EMPTY, map[1 := none], map[1 := none]);
    FirstAttach(s2);
    var s6 := State(HOLDING.(writer := Some(1), lastSent := 1), IDLE.(writer := Some(1)), EMPTY,
                    map[1 := Wire([Data(RECORD)], false, [1])], map[1 := none]);
    ClientSends(s2, s6);
    Reach4(s2, Step(Client, Enqueue(NEXT)), Step(Client, Move(SendNext(true))), s6);
    ServerAcks(s6, s9);
    Reach3(s6, Step(Server, Break(1, 0)), Step(Server, Read(1, 0)), Step(Server, Move(TakeAck(0, true))), s9);
  }

  lemma FirstAttach(s2: System)
    requires s2 == State(IDLE.(writer := Some(1)), IDLE.(writer := Some(1)), EMPTY,
                         map[1 := Wire([], false, [])], map[1 := Wire([], false, [])])
    ensures Reachable(s2)
  {
    var s0 := State(IDLE, IDLE, EMPTY, map[], map[]);
    var c, v := Step(Client, Move(Attach(1, 0))), Step(Server, Move(Attach(1, 0)));
    InitialState(s0);
    Attaching(IDLE, EMPTY.acks);
    NextReachable(s0, c);
    NextReachable(s0.Next(c), v);
  }

  lemma InitialState(s: System)
    requires s == State(IDLE, IDLE, EMPTY, map[], map[])
    ensures Reachable(s)
  {
    forall z: Side ensures IsNew(s.At(z)) {
      assert s.At(z) == NewEndpoint(BUDGET, 1, 0);
    }
    InitReachable(s);
  }

  lemma Reach4(s: System, p: Step, q: Step, s': System)
    requires Reachable(s) && s.Enabled(p) && s.Next(p).Enabled(q) && s.Next(p).Next(q).Enabled(p)
    requires s.Next(p).Next(q).Next(p).Enabled(q) && s' == s.Next(p).Next(q).Next(p).Next(q)
    ensures Reachable(s')
  {
    NextReachable(s, p);
    NextReachable(s.Next(p), q);
    NextReachable(s.Next(p).Next(q), p);
    NextReachable(s.Next(p).Next(q).Next(p), q);
  }

  lemma Reach3(s: System, p: Step, q: Step, r: Step, s': System)
    requires Reachable(s) && s.Enabled(p) && s.Next(p).Enabled(q) && s.Next(p).Next(q).Enabled(r)
    requires s' == s.Next(p).Next(q).Next(r)
    ensures Reachable(s')
  {
    NextReachable(s, p);
    NextReachable(s.Next(p), q);
    NextReachable(s.Next(p).Next(q), r);
  }

  lemma Stuck(s: System)
    requires s.client.tx == HOLDING.(writer := Some(2), resume := [RECORD]) && s.server.inbox == ACKED
    requires 2 in s.down && s.down[2] == Wire([], false, [])
    ensures StuckSince(s.At(Client).tx, s.From(Client), 2)
  {
    assert Records(18, [FRAME], 0) == [RECORD];
    assert TotalSize([RECORD]) == 20;
  }
}

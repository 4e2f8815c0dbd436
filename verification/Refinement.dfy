/**
 * A turn of the writer task, as the class proves it, is a run of session steps; so everything proved
 * of runs of a session holds with the task in the place of its moves. What the task reports as written
 * is what the run puts on the wires.
 */
module Refinement {
  import opened Base
  import opened Sending
  import opened Wires
  import opened Direction
  import opened Session
  import Fencing
  import Receiver
  import WriterTask

  /** Each attach names a transport not used before and at most what the peer has. */
  ghost predicate Honest(moves: seq<Move>, used: set<nat>, got: nat)
    decreases |moves|
  {
    moves != [] ==>
      && (moves[0].Attach? ==> moves[0].transport !in used && moves[0].resumeSeq <= got)
      && Honest(moves[1..], Used(used, moves[0]), got)
  }

  function Used(used: set<nat>, m: Move): set<nat> {
    if m.Attach? then used + {m.transport} else used
  }

  function UsedAfter(used: set<nat>, moves: seq<Move>): set<nat>
    decreases |moves|
  {
    if moves == [] then used else UsedAfter(Used(used, moves[0]), moves[1..])
  }

  /** The wires with an empty one for each transport attached. */
  function WithNew(wires: map<nat, Wire>, moves: seq<Move>): map<nat, Wire>
    decreases |moves|
  {
    if moves == [] then wires
    else WithNew(if moves[0].Attach? then wires[moves[0].transport := Wire([], false, [])] else wires, moves[1..])
  }

  /** The wires with the frames written to them, in order. */
  function EmitAll(wires: map<nat, Wire>, out: seq<Sent>): map<nat, Wire>
    decreases |out|
  {
    if out == [] then wires else EmitAll(Emit(wires, [out[0]]), out[1..])
  }

  ghost predicate AllOn(out: seq<Sent>, transports: set<nat>) {
    forall i :: 0 <= i < |out| ==> out[i].transport in transports
  }

  /** The steps lead from s to s'. */
  ghost predicate Path(s: System, steps: seq<Step>, s': System)
    decreases |steps|
  {
    if steps == [] then s' == s else s.Enabled(steps[0]) && Path(s.Next(steps[0]), steps[1..], s')
  }

  function Moves(x: Side, moves: seq<Move>): seq<Step> {
    if moves == [] then [] else [Step(x, Move(moves[0]))] + Moves(x, moves[1..])
  }

  function Enqueues(x: Side, frames: seq<Outbound>): seq<Step> {
    if frames == [] then [] else [Step(x, Enqueue(frames[0]))] + Enqueues(x, frames[1..])
  }

  lemma {:induction false} PathConcat(s: System, a: seq<Step>, t: System, b: seq<Step>, u: System)
    requires Path(s, a, t) && Path(t, b, u)
    ensures Path(s, a + b, u)
    decreases |a|
  {
    if a == [] {
      assert a + b == b;
    } else {
      PathConcat(s.Next(a[0]), a[1..], t, b, u);
      assert (a + b)[1..] == a[1..] + b;
    }
  }

  lemma {:induction false} PathReachable(s: System, steps: seq<Step>, s': System)
    requires Reachable(s) && Path(s, steps, s')
    ensures Reachable(s')
    decreases |steps|
  {
    if steps != [] {
      NextReachable(s, steps[0]);
      PathReachable(s.Next(steps[0]), steps[1..], s');
    }
  }

  lemma {:induction false} HonestSplit(a: seq<Move>, b: seq<Move>, used: set<nat>, got: nat)
    requires Honest(a + b, used, got)
    ensures Honest(a, used, got) && Honest(b, UsedAfter(used, a), got)
    decreases |a|
  {
    if a == [] {
      assert a + b == b;
    } else {
      assert (a + b)[1..] == a[1..] + b;
      HonestSplit(a[1..], b, Used(used, a[0]), got);
    }
  }

  lemma {:induction false} NewSplit(wires: map<nat, Wire>, a: seq<Move>, b: seq<Move>)
    ensures WithNew(wires, a + b) == WithNew(WithNew(wires, a), b)
    decreases |a|
  {
    if a == [] {
      assert a + b == b;
    } else {
      assert (a + b)[1..] == a[1..] + b;
      NewSplit(if a[0].Attach? then wires[a[0].transport := Wire([], false, [])] else wires, a[1..], b);
    }
  }

  lemma {:induction false} EmitSplit(wires: map<nat, Wire>, a: seq<Sent>, b: seq<Sent>)
    ensures EmitAll(wires, a + b) == EmitAll(EmitAll(wires, a), b)
    decreases |a|
  {
    if a == [] {
      assert a + b == b;
    } else {
      assert (a + b)[1..] == a[1..] + b;
      EmitSplit(Emit(wires, [a[0]]), a[1..], b);
    }
  }

  /** A later attach names no transport that was written to, so it can as well come first. */
  lemma {:induction false} NewThenEmit(wires: map<nat, Wire>, f: Sent, moves: seq<Move>, got: nat)
    requires f.transport in wires && Honest(moves, wires.Keys, got)
    ensures WithNew(Emit(wires, [f]), moves) == Emit(WithNew(wires, moves), [f])
    ensures f.transport in WithNew(wires, moves)
    decreases |moves|
  {
    if moves != [] {
      var m := moves[0];
      if m.Attach? {
        var more := wires[m.transport := Wire([], false, [])];
        assert more.Keys == Used(wires.Keys, m);
        assert Emit(wires, [f])[m.transport := Wire([], false, [])] == Emit(more, [f]);
        NewThenEmit(more, f, moves[1..], got);
      } else {
        NewThenEmit(wires, f, moves[1..], got);
      }
    }
  }

  lemma {:induction false} NewThenEmitAll(wires: map<nat, Wire>, out: seq<Sent>, moves: seq<Move>, got: nat)
    requires AllOn(out, wires.Keys) && Honest(moves, wires.Keys, got)
    ensures WithNew(EmitAll(wires, out), moves) == EmitAll(WithNew(wires, moves), out)
    ensures EmitAll(wires, out).Keys == wires.Keys
    decreases |out|
  {
    if out != [] {
      var w := Emit(wires, [out[0]]);
      assert out[0].transport in wires;
      assert w.Keys == wires.Keys;
      NewThenEmit(wires, out[0], moves, got);
      NewThenEmitAll(w, out[1..], moves, got);
    }
  }

  /** A move writes at most one frame, to the transport attached. */
  lemma OneFrame(tx: Sender, acks: Receiver.Acks, m: Move)
    requires tx.lastAcked <= |tx.log| && tx.Enabled(m)
    ensures var out := tx.Do(acks, m).out;
      |out| <= 1 && (out != [] ==> tx.writer == Some(out[0].transport) && !m.Attach?)
  {
  }

  /** What one move of side x does to the session. */
  lemma MoveTurns(s: System, x: Side, m: Move)
    requires s.Ok() && s.Enabled(Step(x, Move(m)))
    ensures var t, o := s.Next(Step(x, Move(m))), s.At(x).tx.Do(s.At(x).inbox.acks, m);
      && t.Ok() && t.At(x).tx == o.tx && t.At(x).inbox == s.At(x).inbox.(acks := o.acks)
      && t.At(x.Peer()) == s.At(x.Peer()) && t.Out(x.Peer()) == s.Out(x.Peer())
      && t.Out(x) == WiresAfter(s.Out(x), m, o.out)
      && |o.out| <= 1 && AllOn(o.out, s.Out(x).Keys) && (m.Attach? ==> o.out == [])
      && t.Out(x).Keys == Used(s.Out(x).Keys, m)
  {
    StepKeeps(s, Step(x, Move(m)));
    MoveViews(s, x, m);
    assert s.From(x).Ok();
    OneFrame(s.At(x).tx, s.At(x).inbox.acks, m);
    SameOut(s, x, m);
  }

  lemma SameOut(s: System, x: Side, m: Move)
    requires s.Enabled(Step(x, Move(m)))
    ensures var t, o := s.Next(Step(x, Move(m))), s.At(x).tx.Do(s.At(x).inbox.acks, m);
      && t.At(x).inbox == s.At(x).inbox.(acks := o.acks)
      && t.Out(x.Peer()) == s.Out(x.Peer()) && t.Out(x) == WiresAfter(s.Out(x), m, o.out)
  {
  }

  /** The state behind a run of moves by side x, which had written nothing before. */
  ghost predicate After(s: System, x: Side, moves: seq<Move>, o: Outcome, s': System) {
    && s'.Ok() && s'.At(x).tx == o.tx && s'.At(x).inbox == s.At(x).inbox.(acks := o.acks)
    && s'.At(x.Peer()) == s.At(x.Peer()) && s'.Out(x.Peer()) == s.Out(x.Peer())
    && s'.Out(x) == EmitAll(WithNew(s.Out(x), moves), o.out)
    && s'.Out(x).Keys == UsedAfter(s.Out(x).Keys, moves) && AllOn(o.out, s'.Out(x).Keys)
  }

  lemma {:induction false} OutIsOnlyWritten(o: Outcome, moves: seq<Move>, out: seq<Sent>)
    requires RunMoves(o, moves).Some?
    ensures RunMoves(o.(out := out), moves).Some?
    decreases |moves|
  {
    if moves != [] {
      OutIsOnlyWritten(After1(o, moves[0]), moves[1..], out + o.tx.Do(o.acks, moves[0]).out);
    }
  }

  lemma {:induction false} OutBehind(o: Outcome, moves: seq<Move>, before: seq<Sent>)
    requires RunMoves(o, moves).Some?
    ensures var end := RunMoves(o, moves).value;
      RunMoves(o.(out := before + o.out), moves) == Some(end.(out := before + end.out))
    decreases |moves|
  {
    if moves != [] {
      var n := After1(o, moves[0]);
      assert (before + o.out) + o.tx.Do(o.acks, moves[0]).out == before + n.out;
      OutBehind(n, moves[1..], before);
    }
  }

  /** What has been written stays in front of what more moves write. */
  lemma OutPrefix(o: Outcome, moves: seq<Move>) returns (rest: Outcome)
    requires RunMoves(o, moves).Some?
    ensures RunMoves(o.(out := []), moves) == Some(rest)
    ensures RunMoves(o, moves) == Some(rest.(out := o.out + rest.out))
  {
    OutIsOnlyWritten(o, moves, []);
    rest := RunMoves(o.(out := []), moves).value;
    OutBehind(o.(out := []), moves, o.out);
    assert o.out + [] == o.out;
  }

  lemma {:induction false} MovesAreARun(s: System, x: Side, moves: seq<Move>, o: Outcome) returns (s': System)
    requires s.Ok() && Honest(moves, s.Out(x).Keys, s.From(x).Got())
    requires RunMoves(Outcome(s.At(x).tx, s.At(x).inbox.acks, []), moves) == Some(o)
    ensures Path(s, Moves(x, moves), s') && After(s, x, moves, o, s')
    decreases |moves|
  {
    if moves == [] {
      s' := s;
    } else {
      var p := Step(x, Move(moves[0]));
      assert s.From(x).Ok() && s.Enabled(p);
      MoveTurns(s, x, moves[0]);
      var t := s.Next(p);
      var first := After1(Outcome(s.At(x).tx, s.At(x).inbox.acks, []), moves[0]);
      var rest := OutPrefix(first, moves[1..]);
      assert t.From(x).Got() == s.From(x).Got();
      s' := MovesAreARun(t, x, moves[1..], rest);
      FirstMove(s, x, moves, first, rest, t, s');
    }
  }

  lemma FirstMove(s: System, x: Side, moves: seq<Move>, first: Outcome, rest: Outcome,
                  t: System, s': System)
    requires moves != [] && Honest(moves, s.Out(x).Keys, s.From(x).Got())
    requires t.Out(x) == WiresAfter(s.Out(x), moves[0], first.out) && t.Out(x).Keys == Used(s.Out(x).Keys, moves[0])
    requires |first.out| <= 1 && AllOn(first.out, s.Out(x).Keys) && (moves[0].Attach? ==> first.out == [])
    requires t.At(x).inbox == s.At(x).inbox.(acks := first.acks)
    requires t.At(x.Peer()) == s.At(x.Peer()) && t.Out(x.Peer()) == s.Out(x.Peer())
    requires After(t, x, moves[1..], rest, s')
    ensures After(s, x, moves, rest.(out := first.out + rest.out), s')
  {
    var more := moves[1..];
    UsedGrows(t.Out(x).Keys, more);
    EmitSplit(WithNew(s.Out(x), moves), first.out, rest.out);
    if first.out == [] {
      assert t.Out(x) == if moves[0].Attach? then s.Out(x)[moves[0].transport := Wire([], false, [])] else s.Out(x);
    } else {
      assert first.out == [first.out[0]];
      NewThenEmit(s.Out(x), first.out[0], more, s.From(x).Got());
    }
  }

  lemma {:induction false} UsedGrows(used: set<nat>, moves: seq<Move>)
    ensures used <= UsedAfter(used, moves)
    decreases |moves|
  {
    if moves != [] {
      UsedGrows(Used(used, moves[0]), moves[1..]);
    }
  }

  /** Frames queued by other tasks are enqueue steps. */
  lemma {:induction false} ArrivalsAreARun(s: System, x: Side, frames: seq<Outbound>) returns (s': System)
    requires s.Ok()
    ensures Path(s, Enqueues(x, frames), s') && s'.Ok()
    ensures s'.At(x) == s.At(x).(tx := s.At(x).tx.(queue := s.At(x).tx.queue + frames))
    ensures s'.At(x.Peer()) == s.At(x.Peer()) && s'.Out(x) == s.Out(x) && s'.Out(x.Peer()) == s.Out(x.Peer())
    decreases |frames|
  {
    if frames == [] {
      assert s.At(x).tx.queue + frames == s.At(x).tx.queue;
      s' := s;
    } else {
      EnqueueKeeps(s, x, frames[0]);
      s' := ArrivalsAreARun(s.Next(Step(x, Enqueue(frames[0]))), x, frames[1..]);
      assert (s.At(x).tx.queue + [frames[0]]) + frames[1..] == s.At(x).tx.queue + frames;
    }
  }

  /**
   * A turn of the task in the form in which `WriterTask.RecoveryWriter.Step` gives it: its moves up to
   * the wait, the frames queued meanwhile, and the moves behind it are one run of session steps. It ends
   * in the task's own state, and the wires then carry, besides what they carried, what the turn reports
   * as written; the peer and its wires are as they were.
   */
  lemma TurnIsARun(s: System, x: Side, moves: seq<Move>, mid: Outcome, frames: seq<Outbound>,
                   more: seq<Move>, end: Outcome)
    returns (s': System)
    requires s.Ok() && Honest(moves + more, s.Out(x).Keys, s.From(x).Got())
    requires RunMoves(Outcome(s.At(x).tx, s.At(x).inbox.acks, []), moves) == Some(mid)
    requires RunMoves(WriterTask.Arrived(mid, frames), more) == Some(end)
    ensures Path(s, Moves(x, moves) + Enqueues(x, frames) + Moves(x, more), s')
    ensures After(s, x, moves + more, end, s')
    ensures Reachable(s) ==> Reachable(s')
  {
    HonestSplit(moves, more, s.Out(x).Keys, s.From(x).Got());
    var t := MovesAreARun(s, x, moves, mid);
    var u := ArrivalsAreARun(t, x, frames);
    var rest := OutPrefix(WriterTask.Arrived(mid, frames), more);
    assert u.From(x).Got() == s.From(x).Got();
    s' := MovesAreARun(u, x, more, rest);
    PathConcat(s, Moves(x, moves), t, Enqueues(x, frames), u);
    PathConcat(s, Moves(x, moves) + Enqueues(x, frames), u, Moves(x, more), s');
    if Reachable(s) {
      PathReachable(s, Moves(x, moves) + Enqueues(x, frames) + Moves(x, more), s');
    }
    Joined(s, x, moves, mid, t, u, more, rest, s');
  }

  lemma Joined(s: System, x: Side, moves: seq<Move>, mid: Outcome, t: System, u: System,
               more: seq<Move>, rest: Outcome, s': System)
    requires After(s, x, moves, mid, t) && Honest(moves + more, s.Out(x).Keys, s.From(x).Got())
    requires u.At(x).inbox == t.At(x).inbox && u.Out(x) == t.Out(x)
    requires u.At(x.Peer()) == t.At(x.Peer()) && u.Out(x.Peer()) == t.Out(x.Peer())
    requires After(u, x, more, rest, s')
    ensures After(s, x, moves + more, rest.(out := mid.out + rest.out), s')
  {
    var got := s.From(x).Got();
    var wires := WithNew(s.Out(x), moves);
    HonestSplit(moves, more, s.Out(x).Keys, got);
    UsedSplit(s.Out(x).Keys, moves, more);
    UsedGrows(u.Out(x).Keys, more);
    NewKeys(s.Out(x), moves);
    NewThenEmitAll(wires, mid.out, more, got);
    NewSplit(s.Out(x), moves, more);
    EmitSplit(WithNew(wires, more), mid.out, rest.out);
  }

  lemma {:induction false} UsedSplit(used: set<nat>, a: seq<Move>, b: seq<Move>)
    ensures UsedAfter(used, a + b) == UsedAfter(UsedAfter(used, a), b)
    decreases |a|
  {
    if a == [] {
      assert a + b == b;
    } else {
      assert (a + b)[1..] == a[1..] + b;
      UsedSplit(Used(used, a[0]), a[1..], b);
    }
  }

  lemma {:induction false} NewKeys(wires: map<nat, Wire>, moves: seq<Move>)
    ensures WithNew(wires, moves).Keys == UsedAfter(wires.Keys, moves)
    decreases |moves|
  {
    if moves != [] {
      var m := moves[0];
      var w := if m.Attach? then wires[m.transport := Wire([], false, [])] else wires;
      assert w.Keys == Used(wires.Keys, m);
      NewKeys(w, moves[1..]);
    }
  }

  /** A command as the generations see it. */
  function Generation(c: WriterTask.Command): Fencing.Command {
    match c
    case AttachTo(g, _, _) => Fencing.Attach(g)
    case DetachFrom(g) => Fencing.Detach(g)
  }

  function Generations(commands: seq<WriterTask.Command>): seq<Fencing.Command> {
    if commands == [] then [] else [Generation(commands[0])] + Generations(commands[1..])
  }

  /** The two readings of `apply` agree: the task's move, and the step of the generations. */
  lemma CommandAgrees(f: Fencing.State, o: Outcome, c: WriterTask.Command)
    requires Fencing.Enabled(f, Fencing.ApplyCommand) && f.commands[0] == Generation(c)
    requires o.tx.lastAcked <= |o.tx.log| && !o.tx.done && (f.writer.Some? <==> o.tx.writer.Some?)
    ensures var f', r := Fencing.Next(f, Fencing.ApplyCommand), RunMoves(o, WriterTask.CommandMove(f.writerGen, c));
      && f'.writerGen == WriterTask.NextGen(f.writerGen, c)
      && r.Some? && (f'.writer.Some? <==> r.value.tx.writer.Some?)
      && r.value.tx.lastAcked <= |r.value.tx.log| && !r.value.tx.done
  {
    var moves := WriterTask.CommandMove(f.writerGen, c);
    if moves != [] {
      assert RunMoves(o, moves) == RunMoves(After1(o, moves[0]), []);
    }
  }

  /** And so do they over all queued commands: the drained task has a transport if the generations say so. */
  lemma {:induction false} CommandsAgree(f: Fencing.State, o: Outcome, commands: seq<WriterTask.Command>)
    requires !f.failing && f.commands == Generations(commands)
    requires o.tx.lastAcked <= |o.tx.log| && !o.tx.done && (f.writer.Some? <==> o.tx.writer.Some?)
    ensures var r := RunMoves(o, WriterTask.CommandMoves(f.writerGen, commands));
      r.Some? && (Fencing.Settled(f).0.Some? <==> r.value.tx.writer.Some?)
    decreases |commands|
  {
    if commands != [] {
      var c := commands[0];
      CommandAgrees(f, o, c);
      var f' := Fencing.Next(f, Fencing.ApplyCommand);
      var move := WriterTask.CommandMove(f.writerGen, c);
      assert f.commands[1..] == Generations(commands[1..]);
      Fencing.ApplySettles(f);
      CommandsAgree(f', RunMoves(o, move).value, commands[1..]);
      RunMovesConcat(o, move, WriterTask.CommandMoves(f'.writerGen, commands[1..]));
    }
  }
}

/**
 * Transport generations (src/recovery_runtime.rs): attaches, detaches called by readers and by the
 * writer task, the writer's command queue and the server's expiry timers, interleaved arbitrarily.
 * An attach is one step; a detach takes the generation first and queues its command later; a timer
 * looks at the generation first and closes the connection later.
 */
module Fencing {
  import opened Base

  datatype Command = Attach(gen: nat) | Detach(gen: nat)

  /**
   * `last` is the last attached generation. `detaching` are the generations whose detach has been
   * decided but not queued yet; `failing` means the writer task is detaching its own transport.
   * `timers` are running, for the generation they were started with; those in `passed` have found the
   * connection still detached and are about to close it.
   */
  datatype State = State(
    gen: nat, last: nat, closed: bool,
    commands: seq<Command>, writer: Option<nat>, writerGen: nat, failing: bool,
    detaching: set<nat>, timers: set<nat>, passed: set<nat>)
  {
    /** The transport the connection is on. */
    function Current(): Option<nat> {
      if gen == last && last > 0 then Some(last) else None
    }
  }

  datatype Step =
    | AttachTransport
    | DetachTransport(gen: nat)
    | QueueDetach(gen: nat)
    | ApplyCommand
    | WriterFails
    | WriterDrops
    | TimerChecks(detachedGen: nat)
    | TimerCloses(detachedGen: nat)
    | Close

  /** `compare_exchange(gen, gen + 1)`: only the current transport can be detached. */
  function Cas(s: State, g: nat): State {
    if s.closed || s.gen != g then s
    else s.(gen := g + 1, detaching := s.detaching + {g})
  }

  predicate Enabled(s: State, p: Step) {
    match p
    case AttachTransport => true
    case DetachTransport(g) => 1 <= g <= s.last
    case QueueDetach(g) => g in s.detaching
    case ApplyCommand => !s.failing && s.commands != []
    case WriterFails => !s.failing && s.writer.Some?
    case WriterDrops => s.failing
    case TimerChecks(d) => d in s.timers
    case TimerCloses(d) => d in s.passed
    case Close => true
  }

  function Next(s: State, p: Step): State
    requires Enabled(s, p)
  {
    match p
    case AttachTransport =>
      if s.closed then s
      else s.(gen := s.gen + 1, last := s.gen + 1, commands := s.commands + [Attach(s.gen + 1)])
    case DetachTransport(g) => Cas(s, g)
    case QueueDetach(g) =>
      s.(detaching := s.detaching - {g}, commands := s.commands + [Detach(g)], timers := s.timers + {g + 1})
    case ApplyCommand =>
      var t := s.(commands := s.commands[1..]);
      var c := s.commands[0];
      if c.Attach? then t.(writer := Some(c.gen), writerGen := c.gen)
      else if c.gen == s.writerGen then t.(writer := None)
      else t
    case WriterFails => Cas(s, s.writerGen).(failing := true)
    case WriterDrops => s.(writer := None, failing := false)
    case TimerChecks(d) =>
      var t := s.(timers := s.timers - {d});
      if !s.closed && s.gen == d then t.(passed := s.passed + {d}) else t
    case TimerCloses(d) => s.(closed := true, passed := s.passed - {d})
    case Close => s.(closed := true)
  }

  /** The writer and its generation once the commands have been applied. */
  function Fold(commands: seq<Command>, writer: Option<nat>, gen: nat): (Option<nat>, nat)
    decreases |commands|
  {
    if commands == [] then (writer, gen)
    else match commands[0]
      case Attach(g) => Fold(commands[1..], Some(g), g)
      case Detach(g) => Fold(commands[1..], if g == gen then None else writer, gen)
  }

  /** Queued attaches are newer than the writer's transport, and each newer than the one before. */
  ghost predicate Ascending(commands: seq<Command>, from: nat, last: nat)
    decreases |commands|
  {
    && from <= last
    && (commands != [] ==> if commands[0].Attach? then from < commands[0].gen && Ascending(commands[1..], commands[0].gen, last)
                                                  else Ascending(commands[1..], from, last))
  }

  lemma {:induction false} AscendingAppend(commands: seq<Command>, c: Command, from: nat, last: nat, more: nat)
    requires Ascending(commands, from, last) && last <= more && (c.Attach? ==> last < c.gen <= more)
    ensures Ascending(commands + [c], from, more)
    decreases |commands|
  {
    if commands != [] {
      assert (commands + [c])[1..] == commands[1..] + [c];
      AscendingAppend(commands[1..], c, if commands[0].Attach? then commands[0].gen else from, last, more);
    }
  }

  function Settled(s: State): (Option<nat>, nat) {
    Fold(s.commands, if s.failing then None else s.writer, s.writerGen)
  }

  /** Queued commands name generations of the past, and attached ones. */
  ghost predicate Queued(commands: seq<Command>, gen: nat, last: nat) {
    && (forall g: nat :: Detach(g) in commands ==> g < gen)
    && (forall g: nat :: Attach(g) in commands ==> 1 <= g <= last)
  }

  ghost predicate Inv(s: State) {
    var (writer, gen) := Settled(s);
    && s.gen in {s.last, s.last + 1}
    && (s.writer.Some? ==> s.writer.value == s.writerGen && 1 <= s.writerGen <= s.last)
    && (s.failing && !s.closed ==> s.writerGen < s.gen)
    && (forall g :: g in s.detaching ==> 1 <= g < s.gen && g + 1 != s.last)
    && Queued(s.commands, s.gen, s.last)
    && (forall d :: d in s.timers ==> d <= s.gen && d != s.last)
    && Ascending(s.commands, s.writerGen, s.last)
    && gen == s.last
    && (writer.Some? ==> writer.value == s.last)
    && (s.Current().Some? && !s.closed ==> writer == s.Current())
    && (s.Current().None? && !s.closed ==> writer.None? || s.last in s.detaching)
  }

  predicate Init(s: State) {
    s == State(0, 0, false, [], None, 0, false, {}, {}, {})
  }

  ghost predicate IsRun(states: seq<State>, steps: seq<Step>) {
    && |states| == |steps| + 1 && Init(states[0])
    && forall i :: 0 <= i < |steps| ==> Enabled(states[i], steps[i]) && states[i + 1] == Next(states[i], steps[i])
  }

  lemma {:induction false} FoldAppend(commands: seq<Command>, c: Command, writer: Option<nat>, gen: nat)
    ensures var (w, g) := Fold(commands, writer, gen);
      Fold(commands + [c], writer, gen) ==
      match c case Attach(n) => (Some(n), n) case Detach(n) => (if n == g then None else w, g)
    decreases |commands|
  {
    if commands != [] {
      assert (commands + [c])[1..] == commands[1..] + [c];
      match commands[0]
      case Attach(n) => FoldAppend(commands[1..], c, Some(n), n);
      case Detach(n) => FoldAppend(commands[1..], c, if n == gen then None else writer, gen);
    }
  }

  /** Without its transport the writer ends up with none, or with a newer one. */
  lemma {:induction false} FoldWithout(commands: seq<Command>, writer: Option<nat>, gen: nat)
    ensures var (w, g) := Fold(commands, writer, gen);
      var (v, h) := Fold(commands, None, gen);
      g == h && (v == w || (v.None? && g == gen))
    decreases |commands|
  {
    if commands != [] && commands[0].Detach? {
      FoldWithout(commands[1..], if commands[0].gen == gen then None else writer, gen);
    }
  }

  lemma AttachKeeps(s: State)
    requires Inv(s)
    ensures Inv(Next(s, AttachTransport))
  {
    FoldAppend(s.commands, Attach(s.gen + 1), if s.failing then None else s.writer, s.writerGen);
    AscendingAppend(s.commands, Attach(s.gen + 1), s.writerGen, s.last, s.gen + 1);
  }

  lemma QueueDetachKeeps(s: State, g: nat)
    requires Inv(s) && g in s.detaching
    ensures Inv(Next(s, QueueDetach(g)))
  {
    FoldAppend(s.commands, Detach(g), if s.failing then None else s.writer, s.writerGen);
    AscendingAppend(s.commands, Detach(g), s.writerGen, s.last, s.last);
  }

  /** Applying the first command is a step towards where the commands lead. */
  lemma ApplySettles(s: State)
    requires Enabled(s, ApplyCommand)
    ensures Settled(Next(s, ApplyCommand)) == Settled(s)
  {
  }

  lemma QueuedRest(commands: seq<Command>, gen: nat, last: nat)
    requires commands != [] && Queued(commands, gen, last)
    ensures Queued(commands[1..], gen, last)
    ensures if commands[0].Attach? then 1 <= commands[0].gen <= last else commands[0].gen < gen
  {
    assert commands[0] in commands;
    forall c | c in commands[1..] ensures c in commands {
    }
  }

  lemma ApplyKeeps(s: State)
    requires Inv(s) && Enabled(s, ApplyCommand)
    ensures Inv(Next(s, ApplyCommand))
  {
    ApplySettles(s);
    QueuedRest(s.commands, s.gen, s.last);
  }

  lemma WriterFailsKeeps(s: State)
    requires Inv(s) && Enabled(s, WriterFails)
    ensures Inv(Next(s, WriterFails))
  {
    FoldWithout(s.commands, s.writer, s.writerGen);
  }

  lemma DetachKeeps(s: State, g: nat)
    requires Inv(s) && Enabled(s, DetachTransport(g))
    ensures Inv(Next(s, DetachTransport(g)))
  {
  }

  lemma WriterDropsKeeps(s: State)
    requires Inv(s) && Enabled(s, WriterDrops)
    ensures Inv(Next(s, WriterDrops))
  {
    assert Settled(Next(s, WriterDrops)) == Settled(s);
  }

  lemma TimerKeeps(s: State, p: Step)
    requires Inv(s) && Enabled(s, p) && (p.TimerChecks? || p.TimerCloses? || p.Close?)
    ensures Inv(Next(s, p))
  {
    assert Settled(Next(s, p)) == Settled(s);
  }

  lemma GenGrows(s: State, p: Step)
    requires Enabled(s, p)
    ensures s.gen <= Next(s, p).gen
  {
  }

  lemma StepKeeps(s: State, p: Step)
    requires Inv(s) && Enabled(s, p)
    ensures Inv(Next(s, p))
  {
    match p
    case AttachTransport => AttachKeeps(s);
    case DetachTransport(g) => DetachKeeps(s, g);
    case QueueDetach(g) => QueueDetachKeeps(s, g);
    case ApplyCommand => ApplyKeeps(s);
    case WriterFails => WriterFailsKeeps(s);
    case WriterDrops => WriterDropsKeeps(s);
    case _ => TimerKeeps(s, p);
  }

  lemma {:induction false} RunKeeps(states: seq<State>, steps: seq<Step>, i: nat)
    requires IsRun(states, steps) && i < |states|
    ensures Inv(states[i])
  {
    if i > 0 {
      RunKeeps(states, steps, i - 1);
      StepKeeps(states[i - 1], steps[i - 1]);
    }
  }

  lemma {:induction false} GenNeverFalls(states: seq<State>, steps: seq<Step>, i: nat, j: nat)
    requires IsRun(states, steps) && i <= j < |states|
    ensures states[i].gen <= states[j].gen
    decreases j
  {
    if i < j {
      GenNeverFalls(states, steps, i, j - 1);
      GenGrows(states[j - 1], steps[j - 1]);
    }
  }

  /**
   * A detach from an old reader or writer never takes down a newer transport: in any run the
   * current transport ends only by its own detach or by the attach of another one, and the writer
   * task gives up a transport only when that is no longer the current one.
   */
  lemma OldDetachIsFenced(states: seq<State>, steps: seq<Step>, i: nat)
    requires IsRun(states, steps) && i < |steps|
    ensures var s, t, p := states[i], states[i + 1], steps[i];
      && (s.Current().Some? && t.Current() != s.Current() ==>
            || p == AttachTransport
            || p == DetachTransport(s.Current().value)
            || (p == WriterFails && s.writer == s.Current()))
      && (s.writer.Some? && t.writer != s.writer && !s.closed ==> s.Current() != s.writer)
  {
    RunKeeps(states, steps, i);
    if steps[i].ApplyCommand? {
      assert states[i].commands[0] in states[i].commands;
    }
  }

  /** The step before state i started timer d, which is still running in state c. */
  ghost predicate StartedAt(states: seq<State>, steps: seq<Step>, d: nat, i: nat, c: nat)
    requires |states| == |steps| + 1
  {
    && 0 < i <= c <= |steps|
    && d > 0 && steps[i - 1] == QueueDetach(d - 1)
    && forall k :: i <= k <= c ==> d in states[k].timers
  }

  /** Timer d looked at the generation in state c, found it to be d, and has not closed by state j. */
  ghost predicate PassedAt(states: seq<State>, steps: seq<Step>, d: nat, c: nat, j: nat)
    requires |states| == |steps| + 1
  {
    && c < j <= |steps|
    && steps[c] == TimerChecks(d) && d in states[c].timers && states[c].gen == d && !states[c].closed
    && forall k :: c < k <= j ==> d in states[k].passed
  }

  lemma {:induction false} TimerWasStarted(states: seq<State>, steps: seq<Step>, d: nat, c: nat) returns (i: nat)
    requires IsRun(states, steps) && c < |states| && d in states[c].timers
    ensures StartedAt(states, steps, d, i, c)
  {
    if d in states[c - 1].timers {
      i := TimerWasStarted(states, steps, d, c - 1);
    } else {
      i := c;
    }
  }

  lemma {:induction false} TimerHadPassed(states: seq<State>, steps: seq<Step>, d: nat, j: nat) returns (c: nat)
    requires IsRun(states, steps) && j < |states| && d in states[j].passed
    ensures PassedAt(states, steps, d, c, j)
  {
    if d in states[j - 1].passed {
      c := TimerHadPassed(states, steps, d, j - 1);
    } else {
      c := j - 1;
    }
  }

  /** From its start to its check a timer that passes saw no transport attached. */
  lemma DetachedUntilCheck(states: seq<State>, steps: seq<Step>, d: nat, i: nat, c: nat, k: nat)
    requires IsRun(states, steps) && c < |steps| && StartedAt(states, steps, d, i, c)
    requires states[c].gen == d && i <= k <= c
    ensures states[k].gen == d && states[k].Current().None?
  {
    RunKeeps(states, steps, k);
    GenNeverFalls(states, steps, k, c);
    assert d in states[k].timers;
  }

  lemma DetachedStep(s: State, p: Step)
    requires Inv(s) && Enabled(s, p) && s.Current().None? && p != AttachTransport
    ensures Next(s, p).gen == s.gen && Next(s, p).Current().None?
  {
  }

  lemma RunDetachedStep(states: seq<State>, steps: seq<Step>, k: nat)
    requires IsRun(states, steps) && k < |steps| && states[k].Current().None? && steps[k] != AttachTransport
    ensures states[k + 1].gen == states[k].gen && states[k + 1].Current().None?
  {
    RunKeeps(states, steps, k);
    DetachedStep(states[k], steps[k]);
  }

  /** Only an attach changes that a connection is detached, and from which generation. */
  lemma {:induction false} StaysUnlessAttached(states: seq<State>, steps: seq<Step>, c: nat, k: nat)
    requires IsRun(states, steps) && c <= k < |states| && states[c].Current().None?
    requires forall m :: c <= m < k ==> steps[m] != AttachTransport
    ensures states[k].gen == states[c].gen && states[k].Current().None?
    decreases k
  {
    if c < k {
      StaysUnlessAttached(states, steps, c, k - 1);
      RunDetachedStep(states, steps, k - 1);
    }
  }

  /** An attach of an open connection puts it on a transport. */
  lemma AttachAttaches(states: seq<State>, steps: seq<Step>, m: nat, k: nat)
    requires IsRun(states, steps) && m < k < |states| && steps[m] == AttachTransport && !states[k].closed
    ensures states[m + 1].Current().Some? && states[m].gen < states[m + 1].gen
  {
    OpenBefore(states, steps, m, k);
  }

  lemma {:induction false} OpenBefore(states: seq<State>, steps: seq<Step>, m: nat, k: nat)
    requires IsRun(states, steps) && m <= k < |states| && !states[k].closed
    ensures !states[m].closed
    decreases k
  {
    if m < k {
      OpenBefore(states, steps, m, k - 1);
    }
  }

  /**
   * A timer closes the connection only if it stayed detached from the start of the timer, at i, to its
   * look at the generation, at c. At the close itself the connection is still detached from that detach
   * if and only if no transport was attached between the look and the close.
   */
  lemma TimerClosesOnlyIfStayedDetached(states: seq<State>, steps: seq<Step>, j: nat, d: nat) returns (i: nat, c: nat)
    requires IsRun(states, steps) && j < |steps| && steps[j] == TimerCloses(d) && !states[j].closed
    ensures StartedAt(states, steps, d, i, c) && PassedAt(states, steps, d, c, j)
    ensures forall k :: i <= k <= c ==> states[k].gen == d && states[k].Current().None?
    ensures states[j].gen == d <==> forall m :: c <= m < j ==> steps[m] != AttachTransport
    ensures (forall k :: i <= k <= j ==> states[k].Current().None?) <==> forall m :: c <= m < j ==> steps[m] != AttachTransport
  {
    c := TimerHadPassed(states, steps, d, j);
    i := TimerWasStarted(states, steps, d, c);
    forall k | i <= k <= c ensures states[k].gen == d && states[k].Current().None? {
      DetachedUntilCheck(states, steps, d, i, c, k);
    }
    if m :| c <= m < j && steps[m] == AttachTransport {
      AttachAttaches(states, steps, m, j);
      GenNeverFalls(states, steps, c, m);
      GenNeverFalls(states, steps, m + 1, j);
    } else {
      forall k | c <= k <= j ensures states[k].gen == d && states[k].Current().None? {
        StaysUnlessAttached(states, steps, c, k);
      }
    }
  }

  ghost predicate Reachable(s: State) {
    exists states: seq<State>, steps: seq<Step> :: IsRun(states, steps) && states[|steps|] == s
  }

  lemma NextReachable(s: State, p: Step)
    requires Reachable(s) && Enabled(s, p)
    ensures Reachable(Next(s, p))
  {
    var states: seq<State>, steps: seq<Step> :| IsRun(states, steps) && states[|steps|] == s;
    var longer := states + [Next(s, p)];
    assert IsRun(longer, steps + [p]) && longer[|steps + [p]|] == Next(s, p);
  }

  /** The first transport is lost, and its timer has found the connection detached. */
  lemma TimerPassed(s: State)
    requires s == State(2, 1, false, [Attach(1), Detach(1)], None, 0, false, {}, {}, {2})
    ensures Reachable(s)
  {
    var s0 := State(0, 0, false, [], None, 0, false, {}, {}, {});
    var none: seq<Step> := [];
    assert IsRun([s0], none) && [s0][|none|] == s0;
    NextReachable(s0, AttachTransport);
    var s1 := State(1, 1, false, [Attach(1)], None, 0, false, {}, {}, {});
    NextReachable(s1, DetachTransport(1));
    NextReachable(s1.(gen := 2, detaching := {1}), QueueDetach(1));
    assert {1} - {1} == {} && {2} - {2} == {};
    NextReachable(s.(timers := {2}, passed := {}), TimerChecks(2));
  }

  /** The gap is real: a transport attached after the look is closed by the timer of the one before it. */
  lemma TimerCanCloseNewTransport()
    ensures exists s ::
              && Reachable(s) && !s.closed && s.Current() == Some(3)
              && Enabled(s, TimerCloses(2)) && Next(s, TimerCloses(2)).closed
  {
    var s := State(2, 1, false, [Attach(1), Detach(1)], None, 0, false, {}, {}, {2});
    TimerPassed(s);
    NextReachable(s, AttachTransport);
    var t := Next(s, AttachTransport);
    assert Reachable(t) && t.Current() == Some(3) && 2 in t.passed;
  }

  /**
   * Once the commands are drained and no detach is under way, the writer task holds transport g
   * exactly when g is the current one.
   */
  lemma WriterFollowsCurrent(states: seq<State>, steps: seq<Step>, i: nat)
    requires IsRun(states, steps) && i < |states|
    requires states[i].commands == [] && states[i].detaching == {} && !states[i].failing && !states[i].closed
    ensures states[i].writer == states[i].Current()
  {
    RunKeeps(states, steps, i);
  }
}

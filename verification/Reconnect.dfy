/**
 * The client's reconnect hand-off (src/recovery_runtime.rs): detaching tasks and reconnect loops,
 * each between its atomic steps, counted by where they are. Tasks of one kind are alike, so the
 * counts are the whole state. An attach is two steps here: the writer task may use, and lose, the new
 * transport before `transport_attached` is set.
 */
module Reconnect {

  /**
   * `live` says that the current generation is an attached transport; `attached` and `active` are
   * the flags of the code. Detaching tasks are about to clear `attached`, or about to start a loop.
   * Loops are reconnecting, about to set `attached`, about to clear `active`, about to check, or about
   * to take `active` again.
   */
  datatype State = State(
    closed: bool, live: bool, attached: bool, active: bool,
    clearing: nat, starting: nat,
    reconnecting: nat, storing: nat, releasing: nat,
    checkingClosed: nat, checking: nat, retaking: nat)
  {
    /** The loops that own `active`. */
    function Loops(): nat {
      reconnecting + storing + releasing
    }

    /** The tasks that will look at `attached` or at `active` again. */
    function Working(): nat {
      Loops() + checkingClosed + checking + retaking
    }

    predicate DetachMidFlight() {
      clearing + starting > 0
    }
  }

  datatype Step =
    | Detach | ClearAttached | StartLoop
    | AttachBegins | StoreAttached | GaveUp(terminal: bool)
    | Release | CheckClosed | CheckAttached | Retake
    | Close

  predicate Enabled(s: State, p: Step) {
    match p
    case Detach => s.live && !s.closed
    case ClearAttached => s.clearing > 0
    case StartLoop => s.starting > 0
    case AttachBegins => s.reconnecting > 0
    case StoreAttached => s.storing > 0
    case GaveUp(terminal) => s.reconnecting > 0 && (s.closed || terminal)
    case Release => s.releasing > 0
    case CheckClosed => s.checkingClosed > 0
    case CheckAttached => s.checking > 0
    case Retake => s.retaking > 0
    case Close => true
  }

  function Closed(s: State): State {
    s.(closed := true, attached := if s.closed then s.attached else false)
  }

  function Next(s: State, p: Step): State
    requires Enabled(s, p)
  {
    match p
    // The compare-exchange on the generation lets one detach per transport through.
    case Detach => s.(live := false, clearing := s.clearing + 1)
    case ClearAttached => s.(attached := false, clearing := s.clearing - 1, starting := s.starting + 1)
    case StartLoop =>
      var t := s.(starting := s.starting - 1);
      if s.active then t else t.(active := true, reconnecting := s.reconnecting + 1)
    // A closed connection takes no transport.
    case AttachBegins =>
      var t := s.(reconnecting := s.reconnecting - 1);
      if s.closed then t.(releasing := s.releasing + 1) else t.(live := true, storing := s.storing + 1)
    case StoreAttached => s.(attached := true, storing := s.storing - 1, releasing := s.releasing + 1)
    case GaveUp(terminal) =>
      var t := s.(reconnecting := s.reconnecting - 1, releasing := s.releasing + 1);
      if terminal then Closed(t) else t
    case Release => s.(active := false, releasing := s.releasing - 1, checkingClosed := s.checkingClosed + 1)
    case CheckClosed =>
      var t := s.(checkingClosed := s.checkingClosed - 1);
      if s.closed then t else t.(checking := s.checking + 1)
    case CheckAttached =>
      var t := s.(checking := s.checking - 1);
      if s.attached then t else t.(retaking := s.retaking + 1)
    case Retake =>
      var t := s.(retaking := s.retaking - 1);
      if s.active then t else t.(active := true, reconnecting := s.reconnecting + 1)
    case Close => Closed(s)
  }

  predicate Inv(s: State) {
    && s.Loops() == (if s.active then 1 else 0)
    && (!s.closed && !s.attached ==> s.starting + s.Working() > 0)
  }

  predicate Init(s: State) {
    s == State(false, true, true, false, 0, 0, 0, 0, 0, 0, 0, 0)
  }

  /** Steps in a row, from any state. */
  ghost predicate Walk(states: seq<State>, steps: seq<Step>) {
    && |states| == |steps| + 1
    && forall i :: 0 <= i < |steps| ==> Enabled(states[i], steps[i]) && states[i + 1] == Next(states[i], steps[i])
  }

  ghost predicate IsRun(states: seq<State>, steps: seq<Step>) {
    Walk(states, steps) && Init(states[0])
  }

  lemma StepKeeps(s: State, p: Step)
    requires Inv(s) && Enabled(s, p)
    ensures Inv(Next(s, p))
  {
  }

  lemma {:induction false} RunKeeps(states: seq<State>, steps: seq<Step>, i: nat)
    requires IsRun(states, steps) && i < |states|
    ensures Inv(states[i])
  {
    if i > 0 {
      RunKeeps(states, steps, i - 1);
      StepKeeps(states[i - 1], steps[i - 1]);
    }
  }

  /** `attached` is set for a transport that is gone, and whose detach has already cleared the flag. */
  predicate LateStore(s: State, p: Step) {
    p.StoreAttached? && !s.live && s.clearing == 0
  }

  /** Some late store before state i was not cleared since. */
  ghost predicate Misled(states: seq<State>, steps: seq<Step>, i: nat)
    requires i <= |steps| && |states| == |steps| + 1
  {
    exists k :: 0 <= k < i && LateStore(states[k], steps[k]) && NoClear(steps, k + 1, i)
  }

  /** None of the steps from k up to i clears the flag. */
  ghost predicate NoClear(steps: seq<Step>, k: nat, i: nat)
    requires i <= |steps|
  {
    forall m :: k <= m < i ==> steps[m] != ClearAttached
  }

  /** Being misled, one step on. */
  lemma MisledNext(states: seq<State>, steps: seq<Step>, i: nat)
    requires |states| == |steps| + 1 && i < |steps|
    ensures Misled(states, steps, i + 1) <==>
              LateStore(states[i], steps[i]) || (Misled(states, steps, i) && steps[i] != ClearAttached)
  {
    if LateStore(states[i], steps[i]) {
      assert NoClear(steps, i + 1, i + 1);
    }
    if Misled(states, steps, i) && steps[i] != ClearAttached {
      var k :| 0 <= k < i && LateStore(states[k], steps[k]) && NoClear(steps, k + 1, i);
      assert NoClear(steps, k + 1, i + 1);
    }
    if Misled(states, steps, i + 1) && !LateStore(states[i], steps[i]) {
      var k :| 0 <= k < i + 1 && LateStore(states[k], steps[k]) && NoClear(steps, k + 1, i + 1);
      assert k < i && NoClear(steps, k + 1, i);
    }
  }

  /** Whether the flag is misleading, `m`, carries over from state to state. */
  lemma StaleStep(s: State, p: Step, m: bool)
    requires Enabled(s, p) && !Next(s, p).closed
    requires (s.attached && !s.live && s.clearing == 0 ==> m) && (m ==> s.attached)
    ensures var t, m' := Next(s, p), LateStore(s, p) || (m && p != ClearAttached);
      (t.attached && !t.live && t.clearing == 0 ==> m') && (m' ==> t.attached)
  {
  }

  lemma {:induction false} MisledIffStale(states: seq<State>, steps: seq<Step>, i: nat)
    requires IsRun(states, steps) && i < |states| && !states[i].closed
    ensures states[i].attached && !states[i].live && states[i].clearing == 0 ==> Misled(states, steps, i)
    ensures Misled(states, steps, i) ==> states[i].attached
  {
    if i > 0 {
      MisledIffStale(states, steps, i - 1);
      MisledNext(states, steps, i - 1);
      var s, p, m := states[i - 1], steps[i - 1], Misled(states, steps, i - 1);
      assert Enabled(s, p) && states[i] == Next(s, p);
      StaleStep(s, p, m);
    }
  }

  /**
   * No lost reconnect, and exactly when: in every run at most one loop owns `active`, and an open,
   * detached client with no detach under way has the flag cleared, and then a loop running or about to
   * check again, if and only if no late store has set the flag since it was last cleared.
   */
  lemma NoLostReconnect(states: seq<State>, steps: seq<Step>, i: nat)
    requires IsRun(states, steps) && i < |states|
    ensures var s := states[i];
      && s.Loops() <= 1
      && (s.active <==> s.Loops() == 1)
      && (!s.closed && !s.live && !s.DetachMidFlight() ==>
            && (!s.attached <==> !Misled(states, steps, i))
            && (!Misled(states, steps, i) ==> s.Working() > 0))
  {
    RunKeeps(states, steps, i);
    if !states[i].closed {
      MisledIffStale(states, steps, i);
    }
  }

  /** A loop about to check finds the detach, and if it is the only task left it reconnects. */
  lemma LastCheckReconnects(states: seq<State>, steps: seq<Step>, i: nat)
    requires IsRun(states, steps) && i < |states| && !Misled(states, steps, i)
    requires !states[i].closed && !states[i].live && !states[i].DetachMidFlight()
    requires states[i].Loops() == states[i].checkingClosed == states[i].checking == 0
    ensures states[i].retaking > 0 && Next(states[i], Retake).reconnecting == 1
  {
    NoLostReconnect(states, steps, i);
    RunKeeps(states, steps, i);
  }

  ghost predicate Reachable(s: State) {
    exists states: seq<State>, steps: seq<Step> :: IsRun(states, steps) && states[|steps|] == s
  }

  lemma NextReachable(s: State, p: Step)
    requires Reachable(s) && Enabled(s, p)
    ensures Reachable(Next(s, p))
  {
    var states: seq<State>, steps: seq<Step> :| IsRun(states, steps) && states[|steps|] == s;
    var longer := states + [Next(s, p)];
    assert IsRun(longer, steps + [p]) && longer[|steps + [p]|] == Next(s, p);
  }

  lemma ReachableKeeps(s: State)
    requires Reachable(s)
    ensures Inv(s)
  {
    var states: seq<State>, steps: seq<Step> :| IsRun(states, steps) && states[|steps|] == s;
    RunKeeps(states, steps, |steps|);
  }

  lemma WalkFrom(s: State, p: Step, states: seq<State>, steps: seq<Step>)
    requires Enabled(s, p) && Walk(states, steps) && states[0] == Next(s, p)
    ensures Walk([s] + states, [p] + steps)
  {
  }

  /** An open, detached client in which no task is left: it never reconnects. */
  predicate Lost(s: State) {
    !s.closed && !s.live && !s.DetachMidFlight() && s.Working() == 0
  }

  /** Nothing but an explicit close can happen to it any more. */
  lemma LostForGood(s: State, p: Step)
    requires Lost(s)
    ensures Enabled(s, p) <==> p == Close
  {
  }

  /** The reconnecting loop neither comes back with a transport nor gives up, and nobody closes. */
  predicate Idle(p: Step) {
    !p.AttachBegins? && !p.GaveUp? && !p.Close?
  }

  /** A flag that is or will be set for a lost transport, and no task that will take `active`. */
  predicate MayLose(s: State) {
    && s.reconnecting == 0
    && (s.storing > 0 || (s.attached && s.clearing == 0 && (s.active || s.starting + s.retaking == 0)))
  }

  ghost predicate CanBeLost(s: State) {
    exists states: seq<State>, steps: seq<Step> ::
      Walk(states, steps) && states[0] == s && (forall p :: p in steps ==> Idle(p)) && Lost(states[|steps|])
  }

  /** How far the tasks are from their end. */
  function Left(s: State): nat {
    3 * s.clearing + 2 * s.starting + s.reconnecting
    + 6 * s.storing + 5 * s.releasing + 4 * s.checkingClosed + 3 * s.checking + 2 * s.retaking
  }

  /** The order in which the tasks miss each other: those that would take `active` go while it is set. */
  function Losing(s: State): Step {
    if s.clearing > 0 then ClearAttached
    else if s.starting > 0 then StartLoop
    else if s.retaking > 0 then Retake
    else if s.storing > 0 then StoreAttached
    else if s.releasing > 0 then Release
    else if s.checkingClosed > 0 then CheckClosed
    else CheckAttached
  }

  lemma LosingStep(s: State)
    requires Inv(s) && !s.closed && !s.live && MayLose(s) && !Lost(s)
    ensures Enabled(s, Losing(s))
    ensures var t := Next(s, Losing(s)); Inv(t) && !t.closed && !t.live && MayLose(t) && Left(t) < Left(s)
  {
  }

  lemma {:induction false} Lose(s: State) returns (states: seq<State>, steps: seq<Step>)
    requires Inv(s) && !s.closed && !s.live && MayLose(s)
    ensures Walk(states, steps) && states[0] == s && (forall p :: p in steps ==> Idle(p)) && Lost(states[|steps|])
    decreases Left(s)
  {
    if Lost(s) {
      states, steps := [s], [];
    } else {
      LosingStep(s);
      var p := Losing(s);
      var more, rest := Lose(Next(s, p));
      WalkFrom(s, p, more, rest);
      states, steps := [s] + more, [p] + rest;
    }
  }

  lemma SafeStep(s: State, p: Step)
    requires Inv(s) && !s.closed && !s.live && !MayLose(s) && Enabled(s, p) && Idle(p)
    ensures var t := Next(s, p); Inv(t) && !t.closed && !t.live && !MayLose(t)
  {
  }

  lemma {:induction false} StaysSafe(states: seq<State>, steps: seq<Step>, i: nat)
    requires Walk(states, steps) && i < |states| && (forall p :: p in steps ==> Idle(p))
    requires Inv(states[0]) && !states[0].closed && !states[0].live && !MayLose(states[0])
    ensures Inv(states[i]) && !states[i].closed && !states[i].live && !MayLose(states[i])
  {
    if i > 0 {
      StaysSafe(states, steps, i - 1);
      SafeStep(states[i - 1], steps[i - 1]);
    }
  }

  /**
   * The exact condition of a lost reconnect: from a reachable open, detached state the tasks can run out
   * with the client detached for good if and only if no loop is reconnecting, and `attached` is about to
   * be set, or is set with no clearing to come and no task that will find `active` free.
   */
  lemma LostIffMayLose(s: State)
    requires Reachable(s) && !s.closed && !s.live
    ensures CanBeLost(s) <==> MayLose(s)
  {
    ReachableKeeps(s);
    if MayLose(s) {
      var states, steps := Lose(s);
    } else {
      forall states: seq<State>, steps: seq<Step> |
        Walk(states, steps) && states[0] == s && (forall p :: p in steps ==> Idle(p))
        ensures !Lost(states[|steps|])
      {
        StaysSafe(states, steps, |steps|);
      }
    }
  }

  /** A step of the tasks that are already under way. */
  predicate Undisturbed(p: Step) {
    !p.Detach? && !p.Close?
  }

  /** Some task will take `active`, or will find `attached` cleared and then take it. */
  predicate MayReplace(s: State) {
    || s.reconnecting + s.clearing + s.starting + s.retaking > 0
    || (!s.attached && s.releasing + s.checkingClosed + s.checking > 0)
  }

  /** The tasks under way can reconnect a client that is attached. */
  ghost predicate CanReplace(s: State) {
    exists states: seq<State>, steps: seq<Step> ::
      && Walk(states, steps) && states[0] == s && (forall p :: p in steps ==> Undisturbed(p))
      && states[|steps|].live && states[|steps|].reconnecting > 0
  }

  function Replacing(s: State): Step {
    if s.starting > 0 && !s.active then StartLoop
    else if s.retaking > 0 && !s.active then Retake
    else if s.clearing > 0 then ClearAttached
    else if s.starting + s.retaking > 0 && s.storing > 0 then StoreAttached
    else if s.releasing > 0 then Release
    else if s.checkingClosed > 0 then CheckClosed
    else CheckAttached
  }

  lemma ReplacingStep(s: State)
    requires Inv(s) && !s.closed && s.live && MayReplace(s) && s.reconnecting == 0
    ensures Enabled(s, Replacing(s)) && Undisturbed(Replacing(s))
    ensures var t := Next(s, Replacing(s)); Inv(t) && !t.closed && t.live && MayReplace(t) && Left(t) < Left(s)
  {
  }

  lemma {:induction false} Replace(s: State) returns (states: seq<State>, steps: seq<Step>)
    requires Inv(s) && !s.closed && s.live && MayReplace(s)
    ensures Walk(states, steps) && states[0] == s && (forall p :: p in steps ==> Undisturbed(p))
    ensures states[|steps|].live && states[|steps|].reconnecting > 0
    decreases Left(s)
  {
    if s.reconnecting > 0 {
      states, steps := [s], [];
    } else {
      ReplacingStep(s);
      var p := Replacing(s);
      var more, rest := Replace(Next(s, p));
      WalkFrom(s, p, more, rest);
      states, steps := [s] + more, [p] + rest;
    }
  }

  lemma SettledStep(s: State, p: Step)
    requires s.live && !MayReplace(s) && Enabled(s, p) && Undisturbed(p)
    ensures Next(s, p).live && !MayReplace(Next(s, p))
  {
  }

  lemma {:induction false} StaysSettled(states: seq<State>, steps: seq<Step>, i: nat)
    requires Walk(states, steps) && i < |states| && (forall p :: p in steps ==> Undisturbed(p))
    requires states[0].live && !MayReplace(states[0])
    ensures states[i].live && !MayReplace(states[i])
  {
    if i > 0 {
      StaysSettled(states, steps, i - 1);
      SettledStep(states[i - 1], steps[i - 1]);
    }
  }

  /**
   * The hand-off is not exact in the other direction either. From a reachable open state with a live
   * transport, the tasks already under way can reconnect and replace it if and only if one of them is
   * to take `active`, or is still to look at an `attached` that is not set.
   */
  lemma ReplacedIffMayReplace(s: State)
    requires Reachable(s) && !s.closed && s.live
    ensures CanReplace(s) <==> MayReplace(s)
  {
    ReachableKeeps(s);
    if MayReplace(s) {
      var states, steps := Replace(s);
    } else {
      forall states: seq<State>, steps: seq<Step> |
        Walk(states, steps) && states[0] == s && (forall p :: p in steps ==> Undisturbed(p))
        ensures !(states[|steps|].live && states[|steps|].reconnecting > 0)
      {
        StaysSettled(states, steps, |steps|);
      }
    }
  }

  /** The first loop has a new transport and is about to set the flag. */
  lemma Attaching(s: State)
    requires s == State(false, true, false, true, 0, 0, 0, 1, 0, 0, 0, 0)
    ensures Reachable(s)
  {
    var s0 := State(false, true, true, false, 0, 0, 0, 0, 0, 0, 0, 0);
    var none: seq<Step> := [];
    assert IsRun([s0], none) && [s0][|none|] == s0;
    NextReachable(s0, Detach);
    NextReachable(s0.(live := false, clearing := 1), ClearAttached);
    NextReachable(s0.(live := false, attached := false, starting := 1), StartLoop);
    NextReachable(s0.(live := false, attached := false, active := true, reconnecting := 1), AttachBegins);
  }

  /** A late store: the writer task loses the new transport before the flag is set, and no loop is left. */
  lemma AttachCanLoseTheReconnect()
    ensures exists s :: Reachable(s) && Lost(s)
  {
    var s := State(false, true, false, true, 0, 0, 0, 1, 0, 0, 0, 0);
    Attaching(s);
    NextReachable(s, Detach);
    NextReachable(s.(live := false, clearing := 1), ClearAttached);
    NextReachable(s.(live := false, starting := 1), StartLoop);
    NextReachable(s.(live := false), StoreAttached);
    var late := s.(live := false, attached := true, storing := 0);
    NextReachable(late.(releasing := 1), Release);
    NextReachable(late.(active := false, checkingClosed := 1), CheckClosed);
    NextReachable(late.(active := false, checking := 1), CheckAttached);
    assert Lost(late.(active := false));
  }

  /**
   * The transport is lost again before the first loop has let go of `active`: that loop finds the flag
   * cleared and is about to take `active` again, and the detaching task is about to start a loop.
   */
  lemma TwoTakers(s: State)
    requires s == State(false, false, false, false, 0, 1, 0, 0, 0, 0, 0, 1)
    ensures Reachable(s)
  {
    var a := State(false, true, false, true, 0, 0, 0, 1, 0, 0, 0, 0);
    Attaching(a);
    NextReachable(a, StoreAttached);
    NextReachable(a.(attached := true, storing := 0, releasing := 1), Detach);
    NextReachable(a.(attached := true, live := false, storing := 0, releasing := 1, clearing := 1), ClearAttached);
    var down := a.(live := false, storing := 0, starting := 1);
    NextReachable(down.(releasing := 1), Release);
    NextReachable(down.(active := false, checkingClosed := 1), CheckClosed);
    NextReachable(down.(active := false, checking := 1), CheckAttached);
  }

  /** Whichever takes `active` first attaches a transport and goes. */
  lemma FirstTakerGoes(s: State)
    requires Reachable(s) && s == State(false, false, false, true, 0, s.starting, 1, 0, 0, 0, 0, s.retaking)
    ensures Reachable(s.(live := true, attached := true, active := false, reconnecting := 0))
  {
    NextReachable(s, AttachBegins);
    NextReachable(s.(live := true, reconnecting := 0, storing := 1), StoreAttached);
    var up := s.(live := true, attached := true, reconnecting := 0);
    NextReachable(up.(releasing := 1), Release);
    NextReachable(up.(active := false, checkingClosed := 1), CheckClosed);
    NextReachable(up.(active := false, checking := 1), CheckAttached);
  }

  /** A detaching task can be so late with its loop that another has reconnected and gone. */
  lemma LateStartReconnectsAgain()
    ensures exists s ::
              && Reachable(s) && s.live && s.attached && s.starting == 1 && s.retaking == 0
              && Next(s, StartLoop).reconnecting == 1
  {
    var s := State(false, false, false, false, 0, 1, 0, 0, 0, 0, 0, 1);
    TwoTakers(s);
    NextReachable(s, Retake);
    FirstTakerGoes(s.(active := true, retaking := 0, reconnecting := 1));
    var up := State(false, true, true, false, 0, 1, 0, 0, 0, 0, 0, 0);
    assert Reachable(up) && Next(up, StartLoop).reconnecting == 1;
  }

  /** And a loop that has looked can be so late in taking `active`, with no detach under way. */
  lemma LateRetakeReconnectsAgain()
    ensures exists s ::
              && Reachable(s) && s.live && s.attached && !s.DetachMidFlight() && s.retaking == 1
              && Next(s, Retake).reconnecting == 1
  {
    var s := State(false, false, false, false, 0, 1, 0, 0, 0, 0, 0, 1);
    TwoTakers(s);
    NextReachable(s, StartLoop);
    FirstTakerGoes(s.(active := true, starting := 0, reconnecting := 1));
    var up := State(false, true, true, false, 0, 0, 0, 0, 0, 0, 0, 1);
    assert Reachable(up) && Next(up, Retake).reconnecting == 1;
  }
}

/**
 * The lock-free ACK check of src/recovery.rs against the reader's notes, one load or store at a
 * time: can the writer go to sleep on an ACK that is due?
 */
module AckWake {
  import opened Base
  import opened Receiver

  datatype Store = SetDue | SetDueAt(at: nat)

  /** The reader holds the lock while it stores; afterwards it signals if the note says so. */
  datatype ReaderPc = Idle | Storing(stores: seq<Store>, wake: bool) | Signalling

  /**
   * The writer between two looks for an ACK. `timer` is the ACK deadline it sleeps until, and
   * `late` says that the deadline had passed when it computed its sleep.
   */
  datatype WriterPc = Running | SawNotDue | Locking | Missed | Asking | Waiting(timer: Option<nat>, late: bool)

  datatype State = State(acks: Acks, permit: bool, reader: ReaderPc, writer: WriterPc, now: nat)

  datatype Step =
    | Note(seqNo: nat) | StoreOne | Unlock | Signal
    | LoadDue | LoadDueAt | TakeLocked | WriteMore | LoadWaitDue | LoadWaitDueAt
    | Notified | TimerFired | OtherWake
    | OtherSignal | Tick

  /** A note, split into what is updated under the lock, the stores that follow, and the signal. */
  function Plan(a: Acks, seqNo: nat, now: nat): (Acks, seq<Store>, bool) {
    if seqNo <= a.lastRecv then
      (a, if a.lastAckSent < a.lastRecv then [SetDue] else [], true)
    else
      var noted := a.(lastRecv := seqNo, pending := a.pending + 1);
      if a.every <= 1 || noted.pending >= a.every || a.delay == 0 then (noted, [SetDue, SetDueAt(0)], true)
      else if a.dueAt == 0 then (noted, [SetDueAt(now + a.delay)], true)
      else (noted, [], false)
  }

  function Apply(a: Acks, s: Store): Acks {
    match s
    case SetDue => a.(due := true)
    case SetDueAt(at) => a.(dueAt := at)
  }

  function ApplyAll(a: Acks, stores: seq<Store>): Acks
    decreases |stores|
  {
    if stores == [] then a else ApplyAll(Apply(a, stores[0]), stores[1..])
  }

  /** Under the lock the flags are looked at again; a stale flag is cleared. */
  function TakeUnderLock(a: Acks, now: nat): (Acks, Option<nat>) {
    if a.lastAckSent >= a.lastRecv then (a.(due := false, dueAt := 0), None)
    else if !a.MayBeDue(now) then (a, None)
    else (a.(lastAckSent := a.lastRecv, pending := 0, due := false, dueAt := 0), Some(a.lastRecv))
  }

  predicate Enabled(s: State, p: Step) {
    match p
    case Note(_) => s.reader.Idle?
    case StoreOne => s.reader.Storing? && s.reader.stores != []
    case Unlock => s.reader.Storing? && s.reader.stores == []
    case Signal => s.reader.Signalling?
    case LoadDue => s.writer.Running?
    case LoadDueAt => s.writer.SawNotDue?
    case TakeLocked => s.writer.Locking? && !s.reader.Storing?
    case WriteMore => s.writer.Missed?
    case LoadWaitDue => s.writer.Missed?
    case LoadWaitDueAt => s.writer.Asking?
    case Notified => s.writer.Waiting? && s.permit
    case TimerFired => s.writer.Waiting? && s.writer.timer.Some? && s.now >= s.writer.timer.value
    case OtherWake => s.writer.Waiting?
    case OtherSignal => true
    case Tick => true
  }

  function Next(s: State, p: Step): State
    requires Enabled(s, p)
  {
    match p
    case Note(seqNo) =>
      var (a, stores, wake) := Plan(s.acks, seqNo, s.now);
      s.(acks := a, reader := Storing(stores, wake))
    case StoreOne => s.(acks := Apply(s.acks, s.reader.stores[0]), reader := Storing(s.reader.stores[1..], s.reader.wake))
    case Unlock => s.(reader := if s.reader.wake then Signalling else Idle)
    case Signal => s.(permit := true, reader := Idle)
    case LoadDue => s.(writer := if s.acks.due then Locking else SawNotDue)
    case LoadDueAt => s.(writer := if s.acks.dueAt != 0 && s.now >= s.acks.dueAt then Locking else Missed)
    case TakeLocked =>
      var (a, v) := TakeUnderLock(s.acks, s.now);
      s.(acks := a, writer := if v.Some? then Running else Missed)
    case WriteMore => s.(writer := Running)
    case LoadWaitDue => s.(writer := if s.acks.due then Waiting(None, false) else Asking)
    case LoadWaitDueAt =>
      var at := s.acks.dueAt;
      s.(writer :=
        if at == 0 then Waiting(None, false)
        else if at <= s.now then Waiting(None, true)
        else Waiting(Some(at), false))
    case Notified => s.(permit := false, writer := Running)
    case TimerFired => s.(writer := Running)
    case OtherWake => s.(writer := Running)
    case OtherSignal => s.(permit := true)
    case Tick => s.(now := s.now + 1)
  }

  /** The writer will look again: a wake-up is stored, or the reader is about to send one. */
  predicate WakeComing(s: State) {
    s.permit || s.reader.Signalling? || (s.reader.Storing? && s.reader.wake)
  }

  /** Past the load of `ack_due`, the writer relies on being woken. */
  predicate PastCheck(w: WriterPc) {
    w.SawNotDue? || w.Missed? || w.Asking? || w.Waiting?
  }

  ghost predicate Inv(s: State) {
    && (s.reader.Storing? && s.reader.stores != [] ==> s.reader.wake)
    && (PastCheck(s.writer) && s.acks.due ==> WakeComing(s))
    && (s.writer.Waiting? && s.acks.dueAt != 0 && !s.writer.late ==> s.writer.timer == Some(s.acks.dueAt) || WakeComing(s))
    && (s.writer.Waiting? && s.writer.late ==> s.acks.dueAt <= s.now || WakeComing(s))
  }

  predicate Init(s: State) {
    s.acks.lastRecv == 0 && !s.acks.due && s.acks.dueAt == 0 && !s.permit && s.reader.Idle? && s.writer.Running?
  }

  ghost predicate IsRun(states: seq<State>, steps: seq<Step>) {
    && |states| == |steps| + 1 && Init(states[0])
    && forall i :: 0 <= i < |steps| ==> Enabled(states[i], steps[i]) && states[i + 1] == Next(states[i], steps[i])
  }

  ghost predicate Reachable(s: State) {
    exists states: seq<State>, steps: seq<Step> :: IsRun(states, steps) && states[|steps|] == s
  }

  lemma NextReachable(s: State, p: Step)
    requires Reachable(s) && Enabled(s, p)
    ensures Reachable(Next(s, p))
  {
    var states: seq<State>, steps: seq<Step> :| IsRun(states, steps) && states[|steps|] == s;
    var longer := states + [Next(s, p)];
    assert IsRun(longer, steps + [p]) && longer[|steps + [p]|] == Next(s, p);
  }

  /** The split note does what the whole note does, and the locked take what the whole take does. */
  lemma PlanIsNote(a: Acks, seqNo: nat, now: nat)
    ensures var (b, stores, wake) := Plan(a, seqNo, now); (ApplyAll(b, stores), wake) == a.Note(seqNo, now)
    ensures a.MayBeDue(now) ==> TakeUnderLock(a, now) == a.Take(now)
  {
    var (b, stores, wake) := Plan(a, seqNo, now);
    if |stores| == 2 {
      assert ApplyAll(b, stores) == ApplyAll(Apply(b, SetDue), [SetDueAt(0)]);
    }
  }

  lemma StepKeeps(s: State, p: Step)
    requires Inv(s) && Enabled(s, p)
    ensures Inv(Next(s, p))
  {
  }

  lemma {:induction false} RunKeeps(states: seq<State>, steps: seq<Step>, i: nat)
    requires IsRun(states, steps) && i < |states|
    ensures Inv(states[i])
  {
    if i > 0 {
      RunKeeps(states, steps, i - 1);
      StepKeeps(states[i - 1], steps[i - 1]);
    }
  }

  /**
   * A due ACK is never slept on: in every run, while the writer waits, an ACK that is due is followed
   * by a wake-up, and so is a delayed one, or the writer's own timer is set for it, except when its
   * time had come before the wait was computed.
   */
  lemma DueAckIsFollowedByWakeUp(states: seq<State>, steps: seq<Step>, i: nat)
    requires IsRun(states, steps) && i < |states| && states[i].writer.Waiting?
    ensures states[i].acks.due ==> WakeComing(states[i])
    ensures states[i].acks.dueAt != 0 ==>
              || WakeComing(states[i])
              || states[i].writer.timer == Some(states[i].acks.dueAt)
              || (states[i].writer.late && states[i].acks.dueAt <= states[i].now)
  {
    RunKeeps(states, steps, i);
  }

  /** The wait of state i was computed by the step from state k. */
  ghost predicate WaitsSince(states: seq<State>, steps: seq<Step>, k: nat, i: nat)
    requires |states| == |steps| + 1
  {
    && k < i <= |steps|
    && (steps[k].LoadWaitDue? || steps[k].LoadWaitDueAt?)
    && forall m :: k < m <= i ==> states[m].writer.Waiting? && states[m].writer == states[i].writer
  }

  /** What a wait was computed from: `late` says that the ACK had expired, and then there is no timer. */
  lemma {:induction false} WaitBegan(states: seq<State>, steps: seq<Step>, i: nat) returns (k: nat)
    requires IsRun(states, steps) && i < |states| && states[i].writer.Waiting?
    ensures WaitsSince(states, steps, k, i)
    ensures states[i].writer.late <==> steps[k].LoadWaitDueAt? && 0 < states[k].acks.dueAt <= states[k].now
    ensures states[i].writer.late ==> states[i].writer.timer.None?
  {
    assert states[i] == Next(states[i - 1], steps[i - 1]);
    if states[i - 1].writer.Waiting? {
      k := WaitBegan(states, steps, i - 1);
    } else {
      k := i - 1;
    }
  }

  /**
   * The exact condition, over every run: a waiting writer looks again for a delayed ACK, by a wake-up
   * or by its own timer, if and only if a wake-up is coming for whatever reason, or the ACK had not
   * expired when the writer computed this wait, at k.
   */
  lemma TimerIffNotLate(states: seq<State>, steps: seq<Step>, i: nat) returns (k: nat)
    requires IsRun(states, steps) && i < |states| && states[i].writer.Waiting? && states[i].acks.dueAt != 0
    ensures WaitsSince(states, steps, k, i)
    ensures var s := states[i];
      && (WakeComing(s) || s.writer.timer == Some(s.acks.dueAt) <==> WakeComing(s) || !s.writer.late)
      && (s.writer.late <==> steps[k].LoadWaitDueAt? && 0 < states[k].acks.dueAt <= states[k].now)
  {
    RunKeeps(states, steps, i);
    k := WaitBegan(states, steps, i);
  }

  lemma OneFrameNoted(s: State)
    requires s == State(Acks(1, 0, 1, false, 1, 64, 1), true, Idle, Running, 0)
    ensures Reachable(s)
  {
    var s0 := State(Acks(0, 0, 0, false, 0, 64, 1), false, Idle, Running, 0);
    var steps: seq<Step> := [];
    assert IsRun([s0], steps) && [s0][|steps|] == s0;
    NextReachable(s0, Note(1));
    var s1 := Next(s0, Note(1));
    NextReachable(s1, StoreOne);
    assert s1.reader.stores == [SetDueAt(1)] && s1.reader.stores[1..] == [];
    var s2 := s.(reader := Storing([], true), permit := false);
    assert Next(s1, StoreOne) == s2;
    NextReachable(s2, Unlock);
    NextReachable(s2.(reader := Signalling), Signal);
  }

  /** The writer finds that no ACK is due yet and nothing else to write. */
  lemma CheckPassed(s: State)
    requires Reachable(s) && s.writer.Running? && !s.acks.due && s.now < s.acks.dueAt
    ensures Reachable(s.(writer := Asking))
  {
    NextReachable(s, LoadDue);
    NextReachable(s.(writer := SawNotDue), LoadDueAt);
    NextReachable(s.(writer := Missed), LoadWaitDue);
  }

  /** The permit of the reader's signal is used up by a first wait. */
  lemma PermitUsedUp(s: State)
    requires Reachable(s) && s.writer.Running? && s.permit && !s.acks.due && s.now < s.acks.dueAt
    ensures Reachable(s.(permit := false))
  {
    CheckPassed(s);
    NextReachable(s.(writer := Asking), LoadWaitDueAt);
    NextReachable(s.(writer := Waiting(Some(s.acks.dueAt), false)), Notified);
  }

  /**
   * The exception is real: the delay can run out between the check and the computation of the wait,
   * and the writer then sleeps on an expired ACK with no timer and no wake-up for it.
   */
  lemma ExpiredAckCanBeSleptOn()
    ensures exists s :: Reachable(s) && s.writer.Waiting? && s.acks.MayBeDue(s.now) && s.writer.timer.None? && !WakeComing(s)
  {
    var noted := State(Acks(1, 0, 1, false, 1, 64, 1), true, Idle, Running, 0);
    OneFrameNoted(noted);
    PermitUsedUp(noted);
    // The delay runs out before the second wait is computed.
    var again := noted.(permit := false);
    CheckPassed(again);
    NextReachable(again.(writer := Asking), Tick);
    NextReachable(again.(writer := Asking, now := 1), LoadWaitDueAt);
    assert Reachable(again.(writer := Waiting(None, true), now := 1));
  }
}

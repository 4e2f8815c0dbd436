/**
 * The last frame of a stream: `send`, `close` and `protocol_error` on a stream this side opened
 * (src/stream.rs), interleaved arbitrarily, and the decode task at the other end (src/connection.rs).
 */
module Fin {

  /** What is queued for the stream: a message, or the FIN frame with its empty payload. */
  datatype Item = Data(message: nat) | FinFrame

  /** Who holds `send_lock`, and how far it has come. */
  datatype Lock = Free | Sending | Checked | Sent | Finishing | FinSent

  datatype State = State(finStarted: bool, closed: bool, lock: Lock, finWaiting: nat, queue: seq<Item>)

  datatype Step =
    | LockToSend | CheckOpen | QueueData(message: nat) | Unlock
    | StartFin | LockToFin | QueueFin | FinFails
    | Close

  predicate Enabled(s: State, p: Step) {
    match p
    case LockToSend => s.lock.Free?
    case CheckOpen => s.lock.Sending?
    case QueueData(_) => s.lock.Checked?
    // Also a send that failed or was cancelled.
    case Unlock => !s.lock.Free? && !s.lock.Finishing?
    case StartFin => true
    case LockToFin => s.lock.Free? && s.finWaiting > 0
    case QueueFin => s.lock.Finishing?
    case FinFails => s.lock.Finishing?
    case Close => true
  }

  function Next(s: State, p: Step): State
    requires Enabled(s, p)
  {
    match p
    case LockToSend => s.(lock := Sending)
    case CheckOpen => s.(lock := if s.finStarted || s.closed then Free else Checked)
    case QueueData(m) => s.(lock := Sent, queue := s.queue + [Data(m)])
    case Unlock => s.(lock := Free)
    case StartFin => if s.finStarted then s else s.(finStarted := true, finWaiting := s.finWaiting + 1)
    case LockToFin => s.(lock := Finishing, finWaiting := s.finWaiting - 1)
    case QueueFin => s.(lock := FinSent, queue := s.queue + [FinFrame])
    case FinFails => s.(lock := FinSent)
    case Close => s.(closed := true)
  }

  predicate Init(s: State) {
    s == State(false, false, Free, 0, [])
  }

  ghost predicate IsRun(states: seq<State>, steps: seq<Step>) {
    && |states| == |steps| + 1 && Init(states[0])
    && forall i :: 0 <= i < |steps| ==> Enabled(states[i], steps[i]) && states[i + 1] == Next(states[i], steps[i])
  }

  /** No item before the last is the FIN. */
  ghost predicate FinOnlyLast(queue: seq<Item>) {
    forall i :: 0 <= i < |queue| - 1 ==> queue[i].Data?
  }

  ghost predicate Finned(queue: seq<Item>) {
    queue != [] && queue[|queue| - 1].FinFrame?
  }

  ghost predicate Inv(s: State) {
    && FinOnlyLast(s.queue)
    && s.finWaiting + (if s.lock.Finishing? then 1 else 0) + (if Finned(s.queue) then 1 else 0)
       <= (if s.finStarted then 1 else 0)
    && (s.lock.Checked? ==> !Finned(s.queue))
  }

  lemma {:induction false} RunKeeps(states: seq<State>, steps: seq<Step>, i: nat)
    requires IsRun(states, steps) && i < |states|
    ensures Inv(states[i])
  {
    if i > 0 {
      RunKeeps(states, steps, i - 1);
      assert Enabled(states[i - 1], steps[i - 1]) && states[i] == Next(states[i - 1], steps[i - 1]);
    }
  }

  /** FIN is last: whatever runs against what, no item is ever queued behind the FIN, and there is one FIN. */
  lemma FinIsLast(states: seq<State>, steps: seq<Step>, i: nat, j: nat)
    requires IsRun(states, steps) && i < |states| && j < |states[i].queue| && states[i].queue[j].FinFrame?
    ensures j == |states[i].queue| - 1 && states[i].finStarted
  {
    RunKeeps(states, steps, i);
  }

  /** The messages of a queue. */
  function Messages(items: seq<Item>): seq<nat>
    decreases |items|
  {
    if items == [] then []
    else (if items[0].Data? then [items[0].message] else []) + Messages(items[1..])
  }

  /** The messages ahead of the first item that ends the stream: the FIN, or one that does not decode. */
  function Dispatched(items: seq<Item>, decodes: nat -> bool): seq<nat>
    decreases |items|
  {
    if items == [] || items[0].FinFrame? || !decodes(items[0].message) then []
    else [items[0].message] + Dispatched(items[1..], decodes)
  }

  function Ends(items: seq<Item>, decodes: nat -> bool): bool
    decreases |items|
  {
    items != [] && (items[0].FinFrame? || !decodes(items[0].message) || Ends(items[1..], decodes))
  }

  /** Whether an item ends the stream: the FIN, or a message that does not decode. */
  predicate EndsStream(item: Item, decodes: nat -> bool) {
    item.FinFrame? || !decodes(item.message)
  }

  /**
   * The messages dispatched are exactly those ahead of the first item that ends the stream, in order, and
   * the stream is released if and only if there is one.
   */
  lemma {:induction false} DispatchedAhead(items: seq<Item>, decodes: nat -> bool)
    ensures var d := Dispatched(items, decodes);
      && |d| <= |items|
      && (forall i :: 0 <= i < |d| ==> items[i] == Data(d[i]) && decodes(d[i]))
      && (|d| < |items| ==> EndsStream(items[|d|], decodes))
      && (Ends(items, decodes) <==> |d| < |items|)
    ensures Ends(items, decodes) <==> exists i :: 0 <= i < |items| && EndsStream(items[i], decodes)
    decreases |items|
  {
    if items != [] && !EndsStream(items[0], decodes) {
      DispatchedAhead(items[1..], decodes);
      var d := Dispatched(items[1..], decodes);
      assert Dispatched(items, decodes) == [items[0].message] + d;
      forall i | 0 <= i < |items| && EndsStream(items[i], decodes) ensures Ends(items[1..], decodes) {
        assert items[1..][i - 1] == items[i];
      }
      if |d| < |items[1..]| {
        assert items[|d| + 1] == items[1..][|d|];
      }
      forall i | 0 <= i < |d| + 1
        ensures items[i] == Data(Dispatched(items, decodes)[i]) && decodes(Dispatched(items, decodes)[i])
      {
        assert i > 0 ==> items[i] == items[1..][i - 1];
      }
    }
  }

  /** The decode task of a stream that this side does not close: it takes what was received, in order. */
  method DecodeTask(incoming: seq<Item>, decodes: nat -> bool) returns (dispatched: seq<nat>, released: bool)
    ensures dispatched == Dispatched(incoming, decodes)
    ensures released == Ends(incoming, decodes)
    ensures |dispatched| <= |incoming| && forall i :: 0 <= i < |dispatched| ==> incoming[i] == Data(dispatched[i])
    ensures released <==> |dispatched| < |incoming|
    ensures released ==> EndsStream(incoming[|dispatched|], decodes)
    ensures forall i :: 0 <= i < |dispatched| ==> decodes(dispatched[i])
  {
    DispatchedAhead(incoming, decodes);
    dispatched, released := [], false;
    var rest := incoming;
    while rest != []
      invariant Dispatched(incoming, decodes) == dispatched + Dispatched(rest, decodes)
      invariant Ends(incoming, decodes) == Ends(rest, decodes) && !released
      decreases |rest|
    {
      var item := rest[0];
      if item.FinFrame? || !decodes(item.message) {
        released := true;
        return;
      }
      dispatched := dispatched + [item.message];
      rest := rest[1..];
    }
  }

  lemma {:induction false} DispatchesAll(items: seq<Item>, decodes: nat -> bool)
    requires FinOnlyLast(items) && forall m :: decodes(m)
    ensures Dispatched(items, decodes) == Messages(items)
    ensures Ends(items, decodes) <==> Finned(items)
    decreases |items|
  {
    if items != [] {
      if |items| > 1 {
        assert items[1..][|items| - 2] == items[|items| - 1];
      }
      DispatchesAll(items[1..], decodes);
    }
  }

  /**
   * End to end: a receiver that has got any part of what a run has queued, and can decode it, has
   * dispatched every message of that part when it releases the stream, and releases it only on the
   * FIN, behind all messages the sender ever queued.
   */
  lemma AllDispatchedBeforeRelease(states: seq<State>, steps: seq<Step>, i: nat, got: nat, decodes: nat -> bool)
    requires IsRun(states, steps) && i < |states| && got <= |states[i].queue| && forall m :: decodes(m)
    ensures var q := states[i].queue;
      && Dispatched(q[..got], decodes) == Messages(q[..got])
      && (Ends(q[..got], decodes) ==> got == |q| && Dispatched(q[..got], decodes) == Messages(q))
  {
    RunKeeps(states, steps, i);
    var q := states[i].queue;
    DispatchesAll(q[..got], decodes);
    if Ends(q[..got], decodes) {
      assert q[got - 1].FinFrame?;
      assert q[..got] == q;
    }
  }
}

/**
 * Inbound streams (src/connection.rs): the reader's lookup, check and creation, interleaved with any
 * number of tasks that release streams by reserving the ID and then removing the stream. One side opens
 * the streams, this one or the peer, and the peer sends nothing on a stream after its FIN. Stream 0 is
 * not one of these.
 */
module Streams {

  /** What the reader is doing with the frame it has read. */
  datatype Reader =
    | Idle
    | Looking(id: nat, fin: bool)
    | Missed(id: nat, fin: bool)
    | Making(id: nat, fin: bool)
    | Delivering(id: nat, stream: nat, fin: bool)
    | FinLooking(id: nat)

  /**
   * Streams are numbered in the order they were created; `born[k]` is the ID of stream k.
   * `contexts` registers the live streams and `reserved` is `closed_peer_streams`; `own` is
   * `next_stream_id`. `opens` says that it is this side that opens streams.
   */
  datatype State = State(
    opens: bool, own: nat,
    contexts: map<nat, nat>, reserved: set<nat>, born: seq<nat>,
    reader: Reader, reserving: multiset<nat>, removing: multiset<nat>,
    finished: set<nat>, finQueued: set<nat>, delivered: seq<(nat, nat)>)

  datatype Step =
    | Open
    | Arrive(id: nat, fin: bool, empty: bool)
    | Look | Check | Make | Deliver | QueueFin
    | CloseBegin(id: nat) | Reserve(id: nat) | Remove(id: nat)
    | DecodeFin(stream: nat)

  predicate Enabled(s: State, p: Step) {
    match p
    case Open => s.opens
    // The peer answers on streams that were opened, and opens others only if it is the side that does.
    case Arrive(id, _, _) => s.reader.Idle? && id > 0 && id !in s.finished && (s.opens ==> id < s.own)
    case Look => s.reader.Looking?
    case Check => s.reader.Missed?
    case Make => s.reader.Making?
    case Deliver => s.reader.Delivering?
    case QueueFin => s.reader.FinLooking?
    case CloseBegin(id) => id in s.born
    case Reserve(id) => id in s.reserving
    case Remove(id) => id in s.removing
    case DecodeFin(k) => k in s.finQueued && k < |s.born|
  }

  function Next(s: State, p: Step): State
    requires Enabled(s, p)
  {
    match p
    case Open => s.(own := s.own + 1, contexts := s.contexts[s.own := |s.born|], born := s.born + [s.own])
    case Arrive(id, fin, empty) =>
      if fin && empty then s.(reserved := s.reserved - {id}, finished := s.finished + {id}, reader := FinLooking(id))
      else s.(reader := Looking(id, fin))
    case Look =>
      var r := s.reader;
      s.(reader := if r.id in s.contexts then Delivering(r.id, s.contexts[r.id], r.fin) else Missed(r.id, r.fin))
    case Check =>
      var r := s.reader;
      if r.id < s.own || r.id in s.reserved then
        (if r.fin then s.(reserved := s.reserved - {r.id}, finished := s.finished + {r.id}) else s).(reader := Idle)
      else s.(reader := Making(r.id, r.fin))
    case Make =>
      var r := s.reader;
      if r.id in s.contexts then s.(reader := Delivering(r.id, s.contexts[r.id], r.fin))
      else s.(contexts := s.contexts[r.id := |s.born|], born := s.born + [r.id], reader := Delivering(r.id, |s.born|, r.fin))
    case Deliver =>
      var r := s.reader;
      var t := s.(delivered := s.delivered + [(r.id, r.stream)], reader := Idle);
      if r.fin then t.(finished := t.finished + {r.id}, finQueued := t.finQueued + {r.stream}) else t
    case QueueFin =>
      var id := s.reader.id;
      (if id in s.contexts then s.(finQueued := s.finQueued + {s.contexts[id]}) else s).(reader := Idle)
    case CloseBegin(id) =>
      // A stream that this side opened needs no reservation.
      if id >= s.own && id in s.contexts then s.(reserving := s.reserving + multiset{id})
      else s.(removing := s.removing + multiset{id})
    case Reserve(id) =>
      s.(reserving := s.reserving - multiset{id}, reserved := s.reserved + {id}, removing := s.removing + multiset{id})
    case Remove(id) => s.(removing := s.removing - multiset{id}, contexts := s.contexts - {id})
    case DecodeFin(k) => s.(contexts := s.contexts - {s.born[k]}, finQueued := s.finQueued - {k})
  }

  ghost predicate ReaderOk(s: State) {
    match s.reader
    case Idle => true
    case Looking(id, _) => id !in s.finished && id > 0 && (s.opens ==> id < s.own)
    case Missed(id, _) => id !in s.finished && id > 0 && id !in s.contexts && (s.opens ==> id < s.own)
    case Making(id, _) => id !in s.finished && id > 0 && id !in s.born && !s.opens
    case Delivering(id, k, _) => id !in s.finished && k < |s.born| && s.born[k] == id
    case FinLooking(id) => id in s.finished
  }

  /** A side that opens streams has only those it opened, under the IDs from 1 on. */
  ghost predicate Numbered(opens: bool, own: nat, born: seq<nat>) {
    && (if opens then own == |born| + 1 else own == 1)
    && forall k :: 0 <= k < |born| ==> if opens then born[k] == k + 1 else born[k] > 0
  }

  ghost predicate Distinct(born: seq<nat>) {
    forall i, j :: 0 <= i < j < |born| ==> born[i] != born[j]
  }

  ghost predicate Registered(contexts: map<nat, nat>, born: seq<nat>) {
    forall id :: id in contexts ==> contexts[id] < |born| && born[contexts[id]] == id
  }

  /** An ID that the reader recognises once its stream is gone. */
  predicate Known(id: nat, own: nat, reserved: set<nat>, finished: set<nat>) {
    id < own || id in reserved || id in finished
  }

  /** A created stream is registered, or its ID is known. */
  ghost predicate AllAccounted(born: seq<nat>, contexts: map<nat, nat>, own: nat, reserved: set<nat>, finished: set<nat>) {
    forall id :: id in born ==> id in contexts || Known(id, own, reserved, finished)
  }

  ghost predicate ClosersOk(reserving: multiset<nat>, removing: multiset<nat>,
                            born: seq<nat>, own: nat, reserved: set<nat>, finished: set<nat>) {
    && (forall id :: id in reserving ==> id in born)
    && (forall id :: id in removing ==> id in born && Known(id, own, reserved, finished))
  }

  ghost predicate FinsOk(finQueued: set<nat>, born: seq<nat>, finished: set<nat>) {
    forall k :: k in finQueued ==> k < |born| && born[k] in finished
  }

  ghost predicate DeliveredOk(delivered: seq<(nat, nat)>, born: seq<nat>) {
    forall i :: 0 <= i < |delivered| ==> delivered[i].1 < |born| && born[delivered[i].1] == delivered[i].0
  }

  /** What holds of the streams, apart from the reader and what it has delivered. */
  ghost predicate StreamsOk(s: State) {
    && Distinct(s.born)
    && Registered(s.contexts, s.born)
    && Numbered(s.opens, s.own, s.born)
    && AllAccounted(s.born, s.contexts, s.own, s.reserved, s.finished)
    && ClosersOk(s.reserving, s.removing, s.born, s.own, s.reserved, s.finished)
    && FinsOk(s.finQueued, s.born, s.finished)
  }

  ghost predicate Inv(s: State) {
    StreamsOk(s) && DeliveredOk(s.delivered, s.born) && ReaderOk(s)
  }

  predicate Init(s: State) {
    s == State(s.opens, 1, map[], {}, [], Idle, multiset{}, multiset{}, {}, {}, [])
  }

  ghost predicate IsRun(states: seq<State>, steps: seq<Step>) {
    && |states| == |steps| + 1 && Init(states[0])
    && forall i :: 0 <= i < |steps| ==> Enabled(states[i], steps[i]) && states[i + 1] == Next(states[i], steps[i])
  }

  /** The peer is done with an ID, which need not stay reserved. */
  lemma FinishKeeps(s: State, t: State, id: nat)
    requires StreamsOk(s) && t == s.(reserved := t.reserved, finished := s.finished + {id})
    requires s.reserved - {id} <= t.reserved
    ensures StreamsOk(t)
  {
    forall x | Known(x, s.own, s.reserved, s.finished) ensures Known(x, t.own, t.reserved, t.finished) {
      assert x in s.reserved && x != id ==> x in s.reserved - {id};
    }
  }

  /** A FIN waits at a stream whose ID the peer is done with. */
  lemma FinWaits(s: State, k: nat)
    requires StreamsOk(s) && k < |s.born| && s.born[k] in s.finished
    ensures StreamsOk(s.(finQueued := s.finQueued + {k}))
  {
  }

  lemma OpenKeeps(s: State)
    requires Inv(s) && Enabled(s, Open)
    ensures Inv(Next(s, Open))
  {
    assert forall id :: id in s.born + [s.own] ==> id in s.born || id == s.own;
  }

  /** The peer is done with an ID when its FIN arrives, so the ID need not stay reserved. */
  lemma ArriveKeeps(s: State, id: nat, fin: bool, empty: bool)
    requires Inv(s) && Enabled(s, Arrive(id, fin, empty))
    ensures Inv(Next(s, Arrive(id, fin, empty)))
  {
    if fin && empty {
      FinishKeeps(s, s.(reserved := s.reserved - {id}, finished := s.finished + {id}), id);
    }
  }

  lemma LookKeeps(s: State)
    requires Inv(s) && Enabled(s, Look)
    ensures Inv(Next(s, Look))
  {
  }

  /** An ID that the check lets through was never created. */
  lemma CheckKeeps(s: State)
    requires Inv(s) && Enabled(s, Check)
    ensures Inv(Next(s, Check))
  {
    var id := s.reader.id;
    if Known(id, s.own, s.reserved, {}) {
      if s.reader.fin {
        FinishKeeps(s, s.(reserved := s.reserved - {id}, finished := s.finished + {id}), id);
      }
    } else {
      assert id in s.born ==> id in s.contexts || Known(id, s.own, s.reserved, s.finished);
    }
  }

  lemma QueueFinKeeps(s: State)
    requires Inv(s) && Enabled(s, QueueFin)
    ensures Inv(Next(s, QueueFin))
  {
    if s.reader.id in s.contexts {
      FinWaits(s, s.contexts[s.reader.id]);
    }
  }

  lemma MakeKeeps(s: State)
    requires Inv(s) && Enabled(s, Make)
    ensures Inv(Next(s, Make))
  {
    assert forall id :: id in s.born + [s.reader.id] ==> id in s.born || id == s.reader.id;
  }

  lemma DeliverKeeps(s: State)
    requires Inv(s) && Enabled(s, Deliver)
    ensures Inv(Next(s, Deliver))
  {
    var id, k := s.reader.id, s.reader.stream;
    if s.reader.fin {
      var t := s.(finished := s.finished + {id});
      FinishKeeps(s, t, id);
      FinWaits(t, k);
    }
  }

  lemma CloseBeginKeeps(s: State, id: nat)
    requires Inv(s) && Enabled(s, CloseBegin(id))
    ensures Inv(Next(s, CloseBegin(id)))
  {
  }

  /** Reserving before removing keeps a missed ID recognisable. */
  lemma ReserveKeeps(s: State, id: nat)
    requires Inv(s) && Enabled(s, Reserve(id))
    ensures Inv(Next(s, Reserve(id)))
  {
  }

  lemma RemoveKeeps(s: State, id: nat)
    requires Inv(s) && Enabled(s, Remove(id))
    ensures Inv(Next(s, Remove(id)))
  {
  }

  lemma DecodeFinKeeps(s: State, k: nat)
    requires Inv(s) && Enabled(s, DecodeFin(k))
    ensures Inv(Next(s, DecodeFin(k)))
  {
  }

  lemma StepKeeps(s: State, p: Step)
    requires Inv(s) && Enabled(s, p)
    ensures Inv(Next(s, p))
  {
    match p
    case Open => OpenKeeps(s);
    case Arrive(id, fin, empty) => ArriveKeeps(s, id, fin, empty);
    case Look => LookKeeps(s);
    case Check => CheckKeeps(s);
    case Make => MakeKeeps(s);
    case Deliver => DeliverKeeps(s);
    case QueueFin => QueueFinKeeps(s);
    case CloseBegin(id) => CloseBeginKeeps(s, id);
    case Reserve(id) => ReserveKeeps(s, id);
    case Remove(id) => RemoveKeeps(s, id);
    case DecodeFin(k) => DecodeFinKeeps(s, k);
  }

  lemma {:induction false} RunKeeps(states: seq<State>, steps: seq<Step>, i: nat)
    requires IsRun(states, steps) && i < |states|
    ensures Inv(states[i])
  {
    if i > 0 {
      RunKeeps(states, steps, i - 1);
      StepKeeps(states[i - 1], steps[i - 1]);
    }
  }

  /**
   * A released stream never reopens: in every run each ID is created at most once, and all frames
   * delivered under an ID reach the one stream created for it.
   */
  lemma ReleasedStreamNeverReopens(states: seq<State>, steps: seq<Step>, i: nat)
    requires IsRun(states, steps) && i < |states|
    ensures var s := states[i];
      && (forall j, k :: 0 <= j < k < |s.born| ==> s.born[j] != s.born[k])
      && (forall j, k :: 0 <= j < |s.delivered| && 0 <= k < |s.delivered| && s.delivered[j].0 == s.delivered[k].0 ==>
            s.delivered[j].1 == s.delivered[k].1)
      && (forall j :: 0 <= j < |s.delivered| ==> s.delivered[j].1 < |s.born| && s.born[s.delivered[j].1] == s.delivered[j].0)
  {
    RunKeeps(states, steps, i);
  }

  /**
   * While `new_stream` advances the next ID, no frame creates a stream under an ID of this side: a side
   * that opens streams has exactly those it opened, numbered from 1, in order; the other side opened none.
   */
  lemma OwnIdsAreNotCreated(states: seq<State>, steps: seq<Step>, i: nat)
    requires IsRun(states, steps) && i < |states|
    ensures var s := states[i];
      && s.opens == states[0].opens
      && (s.opens ==> s.own == |s.born| + 1 && forall k :: 0 <= k < |s.born| ==> s.born[k] == k + 1)
      && (!s.opens ==> s.own == 1 && forall k :: 0 <= k < |s.born| ==> s.born[k] >= s.own)
      && (s.reader.Making? ==> !s.opens && s.reader.id >= s.own)
  {
    RunKeeps(states, steps, i);
    SameSide(states, steps, i);
  }

  lemma {:induction false} SameSide(states: seq<State>, steps: seq<Step>, i: nat)
    requires IsRun(states, steps) && i < |states|
    ensures states[i].opens == states[0].opens
  {
    if i > 0 {
      SameSide(states, steps, i - 1);
      assert Enabled(states[i - 1], steps[i - 1]) && states[i] == Next(states[i - 1], steps[i - 1]);
    }
  }
}

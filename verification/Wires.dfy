/**
 * One direction of a transport: frames in flight, in order. A break (`cut`) loses any suffix of
 * them, and every later write. `wrote` remembers the data numbers written, lost or not.
 */
module Wires {
  import opened Base
  import opened Replay
  import opened Sending

  datatype Wire = Wire(frames: seq<WireFrame>, cut: bool, wrote: seq<nat>)
  {
    function Append(f: WireFrame): Wire {
      Wire(if cut then frames else frames + [f], cut, if f.Data? then wrote + [f.record.seqNo] else wrote)
    }

    function Break(kept: nat): Wire
      requires kept <= |frames|
    {
      this.(frames := frames[..kept], cut := true)
    }
  }

  /** What of a sender bears on the frames in flight: its log, and whether CLOSE went out behind it. */
  datatype Ledger = Ledger(headerLen: nat, log: seq<Frame>, closed: bool)

  function LedgerOf(tx: Sender): Ledger {
    Ledger(tx.budget.headerLen, tx.log, tx.closeWritten == Some(true))
  }

  /** The last number a receiver at `got` has after the frames. */
  function Top(frames: seq<WireFrame>, got: nat): nat
    decreases |frames|
  {
    if frames == [] then got
    else Top(frames[1..], if frames[0].Data? then Max(got, frames[0].record.seqNo) else got)
  }

  /**
   * What may be in flight to a receiver that has `got` frames of the log: kept frames under
   * their own numbers, each at most one above all before it, and CLOSE only behind the whole log.
   */
  ghost predicate InFlight(frames: seq<WireFrame>, got: nat, k: Ledger)
    decreases |frames|
  {
    frames != [] ==>
      match frames[0]
      case Data(r) =>
        && 1 <= r.seqNo <= |k.log|
        && r.seqNo <= got + 1
        && r == Record(k.headerLen, k.log, r.seqNo)
        && InFlight(frames[1..], Max(got, r.seqNo), k)
      case Close => got >= |k.log| && k.closed && InFlight(frames[1..], got, k)
      case _ => InFlight(frames[1..], got, k)
  }

  ghost predicate AcksBelow(frames: seq<WireFrame>, got: nat) {
    forall i :: 0 <= i < |frames| && frames[i].Ack? ==> frames[i].value <= got
  }

  /** Numbers on one wire strictly increase, and every number passed over is acknowledged. */
  ghost predicate Ordered(wrote: seq<nat>, acked: nat) {
    && (forall i, j :: 0 <= i < j < |wrote| ==> wrote[i] < wrote[j])
    && (forall i, k: nat :: 0 <= i < |wrote| && 1 <= k <= wrote[i] ==> k in wrote || k <= acked)
  }

  /** Every number up to `reached`, and none above it, was written or is acknowledged. */
  ghost predicate Covers(wrote: seq<nat>, reached: int, acked: nat) {
    && (forall k :: k in wrote ==> k <= reached)
    && (forall k: nat :: 1 <= k <= reached ==> k in wrote || k <= acked)
  }

  lemma OrderedAppend(wrote: seq<nat>, n: nat, acked: nat)
    requires n > 0 && Ordered(wrote, acked) && Covers(wrote, n - 1, acked)
    ensures Ordered(wrote + [n], acked) && Covers(wrote + [n], n, acked)
  {
    forall i | 0 <= i < |wrote| ensures wrote[i] < n {
      assert wrote[i] in wrote;
    }
    forall k: nat | 1 <= k <= n ensures k in wrote + [n] || k <= acked {
      assert k < n ==> k in wrote || k <= acked;
    }
  }

  lemma {:induction false} TopAppend(frames: seq<WireFrame>, f: WireFrame, got: nat)
    ensures Top(frames + [f], got) == if f.Data? then Max(Top(frames, got), f.record.seqNo) else Top(frames, got)
    decreases |frames|
  {
    if frames != [] {
      assert (frames + [f])[1..] == frames[1..] + [f];
      TopAppend(frames[1..], f, if frames[0].Data? then Max(got, frames[0].record.seqNo) else got);
    }
  }

  lemma {:induction false} TopGrows(frames: seq<WireFrame>, got: nat, more: nat)
    requires got <= more
    ensures got <= Top(frames, got) <= Top(frames, more)
    decreases |frames|
  {
    if frames != [] {
      var f := frames[0];
      TopGrows(frames[1..], if f.Data? then Max(got, f.record.seqNo) else got,
               if f.Data? then Max(more, f.record.seqNo) else more);
    }
  }

  /** What the receiver has not had yet is still in flight. */
  lemma {:induction false} TopInFlight(frames: seq<WireFrame>, got: nat)
    ensures Top(frames, got) > got ==>
              exists i :: 0 <= i < |frames| && frames[i].Data? && frames[i].record.seqNo == Top(frames, got)
    decreases |frames|
  {
    if frames != [] {
      var more := if frames[0].Data? then Max(got, frames[0].record.seqNo) else got;
      TopInFlight(frames[1..], more);
      if Top(frames, got) > got {
        if Top(frames[1..], more) > more {
          var i :| 0 <= i < |frames[1..]| && frames[1..][i].Data? && frames[1..][i].record.seqNo == Top(frames[1..], more);
          assert frames[i + 1].Data? && frames[i + 1].record.seqNo == Top(frames, got);
        } else {
          TopGrows(frames[1..], more, more);
          assert frames[0].Data? && frames[0].record.seqNo == Top(frames, got);
        }
      }
    }
  }

  lemma {:induction false} InFlightAppend(frames: seq<WireFrame>, f: WireFrame, got: nat, k: Ledger)
    requires InFlight(frames, got, k)
    requires f.Data? ==>
               1 <= f.record.seqNo <= Min(|k.log|, Top(frames, got) + 1) &&
               f.record == Record(k.headerLen, k.log, f.record.seqNo)
    requires f.Close? ==> Top(frames, got) >= |k.log| && k.closed
    ensures InFlight(frames + [f], got, k)
    decreases |frames|
  {
    if frames != [] {
      assert (frames + [f])[1..] == frames[1..] + [f];
      InFlightAppend(frames[1..], f, if frames[0].Data? then Max(got, frames[0].record.seqNo) else got, k);
    }
  }

  lemma {:induction false} InFlightPrefix(frames: seq<WireFrame>, kept: nat, got: nat, k: Ledger)
    requires kept <= |frames| && InFlight(frames, got, k)
    ensures InFlight(frames[..kept], got, k)
    decreases |frames|
  {
    if kept > 0 {
      assert frames[..kept][1..] == frames[1..][..kept - 1];
      InFlightPrefix(frames[1..], kept - 1, if frames[0].Data? then Max(got, frames[0].record.seqNo) else got, k);
    }
  }

  /** A receiver that has more, of a log that has grown, is still in step. */
  lemma {:induction false} InFlightGrows(frames: seq<WireFrame>, got: nat, more: nat, k: Ledger, k': Ledger)
    requires InFlight(frames, got, k) && got <= more && k.log <= k'.log && k.headerLen == k'.headerLen
    requires k.closed ==> k' == k
    ensures InFlight(frames, more, k')
    decreases |frames|
  {
    if frames != [] {
      var f := frames[0];
      InFlightGrows(frames[1..], if f.Data? then Max(got, f.record.seqNo) else got,
                    if f.Data? then Max(more, f.record.seqNo) else more, k, k');
    }
  }
}

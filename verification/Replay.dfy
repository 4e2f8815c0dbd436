/** The replay buffer of src/replay.rs: kept frames that the peer has not acknowledged. */
module Replay {
  import opened Base

  datatype FrameRecord = FrameRecord(seqNo: nat, frame: Frame, size: nat)

  datatype Staged = Kept(record: FrameRecord) | Full(payload: seq<byte>)

  /** The records numbered above `last`, in order: what `snapshot_from` and `ack` leave. */
  function After(queue: seq<FrameRecord>, last: nat): seq<FrameRecord> {
    if queue == [] then []
    else if queue[0].seqNo > last then [queue[0]] + After(queue[1..], last)
    else After(queue[1..], last)
  }

  function TotalSize(queue: seq<FrameRecord>): nat {
    if queue == [] then 0 else queue[0].size + TotalSize(queue[1..])
  }

  ghost predicate Increasing(queue: seq<FrameRecord>) {
    forall i, j :: 0 <= i < j < |queue| ==> queue[i].seqNo < queue[j].seqNo
  }

  /** Where the numbers pass `last` in an increasing queue, filtering is slicing. */
  lemma {:induction false} AfterIsSuffix(queue: seq<FrameRecord>, last: nat, k: nat)
    requires k <= |queue|
    requires forall i :: 0 <= i < k ==> queue[i].seqNo <= last
    requires forall i :: k <= i < |queue| ==> queue[i].seqNo > last
    ensures After(queue, last) == queue[k..]
  {
    if queue != [] {
      if k == 0 {
        AfterIsSuffix(queue[1..], last, 0);
      } else {
        AfterIsSuffix(queue[1..], last, k - 1);
        assert queue[1..][k - 1..] == queue[k..];
      }
    }
  }

  lemma {:induction false} TotalSizeConcat(a: seq<FrameRecord>, b: seq<FrameRecord>)
    ensures TotalSize(a + b) == TotalSize(a) + TotalSize(b)
  {
    if a == [] {
      assert a + b == b;
    } else {
      assert (a + b)[1..] == a[1..] + b;
      TotalSizeConcat(a[1..], b);
    }
  }

  class ReplayBuffer {
    const headerLen: nat
    const maxBytes: int
    var lastAcked: nat
    var usedBytes: int
    var queue: seq<FrameRecord>

    ghost predicate Valid()
      reads this
    {
      && Increasing(queue)
      && (forall i :: 0 <= i < |queue| ==> queue[i].seqNo > lastAcked)
      && usedBytes == TotalSize(queue)
      && (maxBytes > 0 ==> usedBytes <= maxBytes)
    }

    constructor (headerLen: nat, maxBytes: int)
      ensures Valid() && queue == [] && lastAcked == 0
      ensures this.headerLen == headerLen && this.maxBytes == maxBytes
    {
      this.headerLen, this.maxBytes := headerLen, maxBytes;
      lastAcked, usedBytes, queue := 0, 0, [];
    }

    /** Each outcome with the exact case it answers; only `Kept` changes the buffer. */
    method Stage(seqNo: nat, frame: Frame) returns (r: Result<Staged>)
      requires Valid()
      modifies this`usedBytes, this`queue
      ensures Valid()
      ensures var size := headerLen + |frame.payload|;
        var isNext := seqNo > lastAcked && forall i :: 0 <= i < |old(queue)| ==> old(queue)[i].seqNo < seqNo;
        if 0 < maxBytes < size then r == Err(FrameTooLarge(|frame.payload|))
        else if maxBytes > 0 && TotalSize(old(queue)) + size > maxBytes then r == Ok(Full(frame.payload))
        else if isNext then r == Ok(Kept(FrameRecord(seqNo, frame, size)))
        else r.Err? && r.error.InvalidMessage?
      ensures queue == if r.Ok? && r.value.Kept? then old(queue) + [r.value.record] else old(queue)
    {
      var size := headerLen + |frame.payload|;
      if maxBytes > 0 && usedBytes + size > maxBytes {
        if size <= maxBytes {
          return Ok(Full(frame.payload));
        }
        return Err(FrameTooLarge(|frame.payload|));
      }
      if seqNo <= lastAcked {
        return Err(InvalidMessage("replay frame seq already acknowledged"));
      }
      if queue != [] && seqNo <= queue[|queue| - 1].seqNo {
        return Err(InvalidMessage("replay frame seq must increase monotonically"));
      }
      var record := FrameRecord(seqNo, frame, size);
      TotalSizeConcat(queue, [record]);
      queue := queue + [record];
      usedBytes := usedBytes + size;
      return Ok(Kept(record));
    }

    /** Drops exactly the records numbered up to `lastSeq`, and reports their size. */
    method Ack(lastSeq: nat) returns (dropped: int)
      requires Valid()
      modifies this`lastAcked, this`usedBytes, this`queue
      ensures Valid()
      ensures lastAcked == Max(old(lastAcked), lastSeq)
      ensures queue == After(old(queue), lastSeq)
      ensures dropped == TotalSize(old(queue)) - TotalSize(queue)
    {
      if lastSeq == 0 || lastSeq <= lastAcked {
        AfterIsSuffix(queue, lastSeq, 0);
        return 0;
      }
      lastAcked := lastSeq;
      dropped := 0;
      ghost var popped := 0;
      while queue != [] && queue[0].seqNo <= lastSeq
        invariant popped <= |old(queue)| && queue == old(queue)[popped..]
        invariant forall i :: 0 <= i < popped ==> old(queue)[i].seqNo <= lastSeq
        invariant lastAcked == lastSeq && usedBytes == old(usedBytes)
        invariant dropped + TotalSize(queue) == TotalSize(old(queue)) && dropped >= 0
        decreases |queue|
      {
        dropped := dropped + queue[0].size;
        queue := queue[1..];
        popped := popped + 1;
      }
      AfterIsSuffix(old(queue), lastSeq, popped);
      usedBytes := usedBytes - dropped;
    }

    /** The binary search (`partition_point`) finds what filtering by number finds. */
    method SnapshotFrom(lastSeq: nat) returns (frames: seq<FrameRecord>)
      requires Valid()
      ensures frames == After(queue, lastSeq)
    {
      var lo, hi := 0, |queue|;
      while lo < hi
        invariant lo <= hi <= |queue|
        invariant forall i :: 0 <= i < lo ==> queue[i].seqNo <= lastSeq
        invariant forall i :: hi <= i < |queue| ==> queue[i].seqNo > lastSeq
      {
        var mid := (lo + hi) / 2;
        if queue[mid].seqNo <= lastSeq {
          lo := mid + 1;
        } else {
          hi := mid;
        }
      }
      AfterIsSuffix(queue, lastSeq, lo);
      return queue[lo..];
    }
  }
}

/**
 * The read deadline of the recovery reader (src/recovery_runtime.rs): one timer that is re-armed
 * only when it fires, against a timer that every read would set anew. A read is polled at some
 * instants; a poll finds the frame there or not.
 */
module Deadline {

  /** One poll of a read: when, and whether the frame is complete. */
  datatype Poll = Poll(now: nat, ready: bool)

  datatype Outcome = Frame(at: nat) | RecvTimeout(at: nat) | Pending

  /** The eager deadline: the first poll that finds the frame, or that comes at `expires` or later. */
  function Eager(polls: seq<Poll>, expires: nat, timeout: nat): Outcome
    decreases |polls|
  {
    if polls == [] then Pending
    else if polls[0].ready then Frame(polls[0].now)
    else if timeout != 0 && polls[0].now >= expires then RecvTimeout(polls[0].now)
    else Eager(polls[1..], expires, timeout)
  }

  /** A read, with the instants at which it is polled. */
  datatype Read = Read(start: nat, polls: seq<Poll>)

  /** The start of the read before read i. */
  function Before(from: nat, calls: seq<Read>, i: nat): nat
    requires i <= |calls|
  {
    if i == 0 then from else calls[i - 1].start
  }

  /** No read begins before the one ahead of it. */
  ghost predicate Successive(from: nat, calls: seq<Read>) {
    forall i :: 0 <= i < |calls| ==> Before(from, calls, i) <= calls[i].start
  }

  /** Each outcome is what a timer set anew for its read would give. */
  ghost predicate AllEager(outcomes: seq<Outcome>, calls: seq<Read>, timeout: nat) {
    && |outcomes| <= |calls|
    && forall i :: 0 <= i < |outcomes| ==> outcomes[i] == Eager(calls[i].polls, calls[i].start + timeout, timeout)
  }

  lemma OneMore(outcomes: seq<Outcome>, calls: seq<Read>, timeout: nat, r: Outcome)
    requires AllEager(outcomes, calls, timeout) && |outcomes| < |calls|
    requires r == Eager(calls[|outcomes|].polls, calls[|outcomes|].start + timeout, timeout)
    ensures AllEager(outcomes + [r], calls, timeout)
  {
  }

  /** The reader task's timer; `latest` is the start of the last read. */
  class FrameReader {
    const timeout: nat
    var armed: nat
    ghost var latest: nat

    ghost predicate Valid()
      reads this
    {
      armed <= latest + timeout
    }

    constructor (now: nat, timeout: nat)
      ensures Valid() && latest == now && this.timeout == timeout
    {
      this.timeout := timeout;
      armed, latest := now + timeout, now;
    }

    /**
     * `read_frame_within`. When the timer fires early it is re-armed and the read goes on; the
     * outcome is that of a timer set anew for this read.
     */
    method ReadWithin(start: nat, polls: seq<Poll>) returns (r: Outcome)
      requires Valid() && latest <= start
      modifies this`armed, this`latest
      ensures Valid() && latest == start
      ensures r == Eager(polls, start + timeout, timeout)
      ensures r.RecvTimeout? ==> r.at >= start + timeout && timeout != 0
    {
      latest := start;
      var i := 0;
      while i < |polls|
        invariant i <= |polls| && latest == start && Valid()
        invariant Eager(polls, start + timeout, timeout) == Eager(polls[i..], start + timeout, timeout)
      {
        var now := polls[i].now;
        if polls[i].ready {
          return Frame(now);
        }
        if timeout != 0 && now >= armed {
          var expires := start + timeout;
          if now >= expires {
            return RecvTimeout(now);
          }
          armed := expires;
        }
        i := i + 1;
      }
      return Pending;
    }

    /** Read i of the calls, behind the ones ahead of it. */
    method ReadNth(from: nat, calls: seq<Read>, i: nat) returns (r: Outcome)
      requires Valid() && i < |calls| && Successive(from, calls) && latest <= Before(from, calls, i)
      modifies this`armed, this`latest
      ensures Valid() && latest <= Before(from, calls, i + 1)
      ensures r == Eager(calls[i].polls, calls[i].start + timeout, timeout)
    {
      r := ReadWithin(calls[i].start, calls[i].polls);
    }

    /** Carried across any calls, the lazy timer gives each of them what an eager one would. */
    method ReadAll(from: nat, calls: seq<Read>) returns (outcomes: seq<Outcome>)
      requires Valid() && latest <= from && Successive(from, calls)
      modifies this`armed, this`latest
      ensures Valid() && |outcomes| == |calls| && AllEager(outcomes, calls, timeout)
    {
      outcomes := [];
      while |outcomes| < |calls|
        invariant AllEager(outcomes, calls, timeout) && Valid() && latest <= Before(from, calls, |outcomes|)
      {
        var r := ReadNth(from, calls, |outcomes|);
        OneMore(outcomes, calls, timeout, r);
        outcomes := outcomes + [r];
      }
    }
  }

  /** Before poll i a read has neither its frame nor run out of time. */
  ghost predicate Waits(polls: seq<Poll>, i: nat, expires: nat)
    requires i <= |polls|
  {
    forall j :: 0 <= j < i ==> !polls[j].ready && polls[j].now < expires
  }

  /** The eager deadline never cuts a read short, and never lets one go on past its time. */
  lemma {:induction false} EagerIsExact(polls: seq<Poll>, expires: nat, timeout: nat)
    requires timeout > 0
    ensures match Eager(polls, expires, timeout)
      case Frame(at) => exists i :: 0 <= i < |polls| && polls[i] == Poll(at, true) && Waits(polls, i, expires)
      case RecvTimeout(at) =>
        at >= expires && exists i :: 0 <= i < |polls| && polls[i] == Poll(at, false) && Waits(polls, i, expires)
      case Pending => Waits(polls, |polls|, expires)
    decreases |polls|
  {
    if polls != [] {
      if polls[0].ready || polls[0].now >= expires {
        assert Waits(polls, 0, expires);
      } else {
        EagerIsExact(polls[1..], expires, timeout);
        var r := Eager(polls[1..], expires, timeout);
        if !r.Pending? {
          var i :| 0 <= i < |polls[1..]| && polls[1..][i] == Poll(r.at, r.Frame?) && Waits(polls[1..], i, expires);
          WaitsLonger(polls, i, expires);
          assert polls[i + 1] == Poll(r.at, r.Frame?);
        } else {
          WaitsLonger(polls, |polls| - 1, expires);
        }
      }
    }
  }

  lemma WaitsLonger(polls: seq<Poll>, i: nat, expires: nat)
    requires i < |polls| && !polls[0].ready && polls[0].now < expires && Waits(polls[1..], i, expires)
    ensures Waits(polls, i + 1, expires)
  {
    forall j | 0 <= j < i + 1 ensures !polls[j].ready && polls[j].now < expires {
      assert j > 0 ==> polls[j] == polls[1..][j - 1];
    }
  }
}

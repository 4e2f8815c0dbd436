/**
 * Request and reply on one stream (src/stream.rs). The stream is used through `send_recv` only, one
 * call at a time and never cancelled, and the peer answers every request once, in order. Requests
 * are numbered as sent, and a reply carries the number of its request.
 */
module Replies {

  datatype Outcome = Reply(request: nat) | RecvTimeout | Closed | NotSent

  /** What happens while a call waits on an empty inbox. */
  datatype Event = Arrival | Timeout | Close

  /** How many replies arrive before anything else happens. */
  function Arriving(events: seq<Event>): (n: nat)
    ensures n <= |events|
    ensures forall i :: 0 <= i < n ==> events[i].Arrival?
    ensures n < |events| ==> !events[n].Arrival?
  {
    if events != [] && events[0].Arrival? then Arriving(events[1..]) + 1 else 0
  }

  class ReplyStream {
    var inbox: seq<nat>
    var staleReplies: nat
    var closed: bool
    /** How many requests were sent and how many replies the peer has delivered. */
    var sent: nat
    var arrived: nat
    /** The requests that timed out and whose replies were not discarded yet. */
    ghost var owed: set<nat>

    /** How many replies have left the inbox. */
    ghost function Consumed(): int
      reads this
    {
      arrived - |inbox|
    }

    /** Replies wait in order; the stale ones are those the first `upTo` requests are still owed. */
    ghost predicate Counts(upTo: nat)
      reads this
    {
      && 0 <= Consumed() && arrived <= sent && upTo <= sent
      && (forall i :: 0 <= i < |inbox| ==> inbox[i] == Consumed() + i)
      && (forall r :: r in owed <==> Consumed() <= r < upTo)
      && staleReplies == |owed|
      && Consumed() <= upTo
    }

    /** Between calls every reply still to come is owed to a request that timed out. */
    ghost predicate Valid()
      reads this
    {
      !closed ==> Counts(sent) && staleReplies == sent - Consumed()
    }

    constructor ()
      ensures Valid() && !closed && sent == 0
    {
      inbox, staleReplies, closed := [], 0, false;
      sent, arrived, owed := 0, 0, {};
    }

    /** A late reply, delivered between calls. */
    method Arrive()
      requires Valid() && !closed && arrived < sent
      modifies this`inbox, this`arrived
      ensures Valid() && sent == old(sent) && inbox == old(inbox) + [old(arrived)]
    {
      inbox := inbox + [arrived];
      arrived := arrived + 1;
    }

    /**
     * Takes the next message of the inbox, or waits for one: `read_raw` with its discard loop. It returns
     * the reply as soon as the reply is there; what ends the wait before decides otherwise.
     */
    method ReadRaw(events: seq<Event>) returns (r: Outcome)
      requires !closed && sent > 0 && Counts(sent - 1) && staleReplies == sent - 1 - Consumed()
      modifies this`inbox, this`arrived, this`staleReplies, this`owed, this`closed
      ensures sent == old(sent) && (closed <==> r.Closed?) && !r.NotSent?
      ensures var n := Arriving(events);
        && (r.Reply? <==> old(arrived) + n >= sent)
        && (r.Closed? <==> old(arrived) + n < sent && n < |events| && events[n].Close?)
        && (r.RecvTimeout? <==> old(arrived) + n < sent && (n < |events| ==> events[n].Timeout?))
        && (r.RecvTimeout? ==> arrived == old(arrived) + n)
      ensures r.Reply? ==> r.request == sent - 1 && Consumed() == sent && owed == {} && staleReplies == 0
      ensures r.Reply? ==> inbox == [] && arrived == sent
      ensures r.RecvTimeout? ==> Counts(sent - 1) && staleReplies == sent - 1 - Consumed()
    {
      var k := 0;
      while true
        invariant k <= Arriving(events) && !closed && sent == old(sent)
        invariant arrived == old(arrived) + k
        invariant Counts(sent - 1) && staleReplies == sent - 1 - Consumed()
        decreases |events| - k, |inbox|
      {
        if inbox != [] {
          var message := inbox[0];
          inbox := inbox[1..];
          if staleReplies > 0 {
            staleReplies := staleReplies - 1;
            owed := owed - {message};
            continue;
          }
          return Reply(message);
        }
        if k == |events| || events[k].Timeout? {
          return RecvTimeout;
        }
        if events[k].Close? {
          closed := true;
          return Closed;
        }
        if arrived < sent {
          inbox := inbox + [arrived];
          arrived := arrived + 1;
        }
        k := k + 1;
      }
    }

    /**
     * A call that returns a reply returns its own, and afterwards the count is again the number of
     * requests that timed out and whose replies were not discarded yet.
     */
    method SendRecv(accepted: bool, events: seq<Event>) returns (r: Outcome)
      requires Valid()
      modifies this
      ensures Valid()
      ensures r.Reply? ==> r.request == old(sent)
      ensures r.Reply? ==> sent == old(sent) + 1 && owed == {}
      ensures r.RecvTimeout? ==> sent == old(sent) + 1 && old(sent) in owed && staleReplies == |owed|
      ensures r.NotSent? <==> old(closed) || !accepted
      ensures !r.NotSent? ==>
                var n := Arriving(events);
                && (r.Reply? <==> old(arrived) + n > old(sent))
                && (r.Closed? <==> old(arrived) + n <= old(sent) && n < |events| && events[n].Close?)
      ensures r.NotSent? ==> sent == old(sent) && staleReplies == old(staleReplies) && inbox == old(inbox)
    {
      if closed || !accepted {
        return NotSent;
      }
      sent := sent + 1;
      r := ReadRaw(events);
      if r.RecvTimeout? {
        staleReplies := staleReplies + 1;
        owed := owed + {sent - 1};
      }
    }
  }
}

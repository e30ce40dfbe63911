/** The reconnect backoff in its two forms: the firmware's doubling counter and the simulator's
    table, which the Protocol v1 delays are written in. */
module Reconnect {
  const TABLE: seq<nat> := [1, 2, 4, 8, 16, 30]
  const STABLE_SECONDS: nat := 30

  function Doubled(delay: nat): nat {
    if delay >= 16 then 30 else delay * 2
  }

  function TableDelay(attempt: nat): nat {
    TABLE[if attempt < |TABLE| then attempt else |TABLE| - 1]
  }

  /** The firmware's form. */
  class ReconnectBackoff {
    var nextDelay: nat

    constructor ()
      ensures nextDelay == 1
    {
      nextDelay := 1;
    }

    method NextDelaySeconds() returns (delay: nat)
      modifies this
      ensures delay == old(nextDelay) && nextDelay == Doubled(old(nextDelay))
    {
      delay := nextDelay;
      nextDelay := if nextDelay >= 16 then 30 else nextDelay * 2;
    }

    method ObserveStableConnection(durationSeconds: nat)
      modifies this
      ensures nextDelay == if durationSeconds >= STABLE_SECONDS then 1 else old(nextDelay)
    {
      if durationSeconds >= 30 {
        nextDelay := 1;
      }
    }
  }

  /** The simulator's form; both durations are in seconds. */
  class TableBackoff {
    const stableSeconds: real
    var attempt: nat

    constructor (stableSeconds: real)
      requires stableSeconds > 0.0
      ensures this.stableSeconds == stableSeconds && attempt == 0
    {
      this.stableSeconds := stableSeconds;
      attempt := 0;
    }

    method NextDelaySeconds() returns (delay: nat)
      modifies this
      ensures delay == TableDelay(old(attempt)) && attempt == old(attempt) + 1
    {
      delay := TABLE[if attempt < |TABLE| - 1 then attempt else |TABLE| - 1];
      attempt := attempt + 1;
    }

    method RecordConnection(connectedSeconds: real) returns (ok: bool)
      modifies this
      ensures ok <==> connectedSeconds >= 0.0
      ensures attempt == if ok && connectedSeconds >= stableSeconds then 0 else old(attempt)
    {
      if connectedSeconds < 0.0 {
        return false;
      }
      if connectedSeconds >= stableSeconds {
        attempt := 0;
      }
      return true;
    }
  }

  datatype Event = Draw | Connected(seconds: nat)

  /** The delays the firmware's counter yields over a history, starting from a counter value. */
  function FirmwareDelays(next: nat, events: seq<Event>): seq<nat>
    decreases |events|
  {
    if events == [] then []
    else match events[0]
      case Draw => [next] + FirmwareDelays(Doubled(next), events[1..])
      case Connected(seconds) =>
        FirmwareDelays(if seconds >= STABLE_SECONDS then 1 else next, events[1..])
  }

  /** The delays the table yields over the same history, starting from an attempt count. */
  function TableDelays(attempt: nat, events: seq<Event>): seq<nat>
    decreases |events|
  {
    if events == [] then []
    else match events[0]
      case Draw => [TableDelay(attempt)] + TableDelays(attempt + 1, events[1..])
      case Connected(seconds) =>
        TableDelays(if seconds >= STABLE_SECONDS then 0 else attempt, events[1..])
  }

  lemma {:induction false} SameDelaysFrom(attempt: nat, events: seq<Event>)
    ensures FirmwareDelays(TableDelay(attempt), events) == TableDelays(attempt, events)
    decreases |events|
  {
    if events != [] {
      assert Doubled(TableDelay(attempt)) == TableDelay(attempt + 1);
      SameDelaysFrom(attempt + 1, events[1..]);
      SameDelaysFrom(attempt, events[1..]);
      SameDelaysFrom(0, events[1..]);
    }
  }

  /** Over every history of draws and connection durations both forms yield the same delays. */
  lemma FirmwareFollowsTable(events: seq<Event>)
    ensures FirmwareDelays(1, events) == TableDelays(0, events)
  {
    SameDelaysFrom(0, events);
  }

  /** The firmware's counter after a history. */
  function CounterAfter(next: nat, events: seq<Event>): nat
    decreases |events|
  {
    if events == [] then next
    else match events[0]
      case Draw => CounterAfter(Doubled(next), events[1..])
      case Connected(seconds) => CounterAfter(if seconds >= STABLE_SECONDS then 1 else next, events[1..])
  }

  /** One more event at the end of a history. */
  lemma {:induction false} OneMore(next: nat, events: seq<Event>, e: Event)
    ensures CounterAfter(next, events + [e]) == CounterAfter(CounterAfter(next, events), [e])
    ensures FirmwareDelays(next, events + [e])
         == FirmwareDelays(next, events) + (if e.Draw? then [CounterAfter(next, events)] else [])
    decreases |events|
  {
    if events == [] {
      assert [] + [e] == [e] && [e][1..] == [];
    } else {
      assert (events + [e])[1..] == events[1..] + [e];
      OneMore(Doubled(next), events[1..], e);
      OneMore(next, events[1..], e);
      OneMore(1, events[1..], e);
    }
  }
}

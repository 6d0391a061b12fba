/** Runs of the registry: any requests at any times, with sweeps (bare purges) anywhere between them. */
module RegistryRuns {
  import opened Prelude
  import opened ByteOrder
  import opened WireRecords
  import opened WireLists
  import opened Registry
  import opened RegistryInvariant
  import Ask = WireRequests
  import Answer = WireResponses

  datatype Event = Request(now: nat, q: Ask.OverlayRequest) | Sweep(now: nat)

  function After(lib: Library, c: Config, events: seq<Event>): State {
    if events == [] then EMPTY
    else
      var front, last := events[..|events| - 1], events[|events| - 1];
      match last
      case Request(now, q) => Handle(lib, c, After(lib, c, front), now, q).0
      case Sweep(now) => Purged(After(lib, c, front), now)
  }

  function Responses(lib: Library, c: Config, events: seq<Event>): seq<Answer.OverlayResponse> {
    if events == [] then []
    else
      var front, last := events[..|events| - 1], events[|events| - 1];
      match last
      case Request(now, q) => Responses(lib, c, front) + [Handle(lib, c, After(lib, c, front), now, q).1]
      case Sweep(_) => Responses(lib, c, front)
  }

  /** Requests as the decoder lets them through. */
  ghost predicate AllDecoded(lib: Library, events: seq<Event>) {
    forall e | e in events && e.Request? :: Ask.Valid(lib, e.q)
  }

  /** Non-decreasing time. */
  ghost predicate InOrder(events: seq<Event>) {
    forall i, j | 0 <= i < j < |events| :: events[i].now <= events[j].now
  }

  function LastTime(events: seq<Event>): nat {
    if events == [] then 0 else events[|events| - 1].now
  }

  /** The invariant in every reachable state, and every response of every run passes its validation. */
  lemma {:induction false} RunInv(lib: Library, c: Config, events: seq<Event>)
    requires AllDecoded(lib, events) && c.leaseMs <= U64_MAX
    ensures Inv(lib, c, After(lib, c, events))
    ensures forall p | p in Responses(lib, c, events) :: Answer.Valid(lib, p)
  {
    hide Inv, Handle, Purged, Answer.Valid, Ask.Valid;
    if events == [] {
      EmptyInv(lib, c);
    } else {
      var front, last := events[..|events| - 1], events[|events| - 1];
      assert last in events;
      RunInv(lib, c, front);
      match last {
        case Request(now, q) => HandleInv(lib, c, After(lib, c, front), now, q);
        case Sweep(now) => PurgedInv(lib, c, After(lib, c, front), now);
      }
    }
  }

  lemma {:induction false} EmptyInv(lib: Library, c: Config)
    ensures Inv(lib, c, EMPTY)
  {
  }
}

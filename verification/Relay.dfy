/** Relay pairing: routes wait for their second endpoint, pair once, and are remembered for a while. */
module Relay {
  import opened Prelude
  import opened ByteOrder

  datatype Role = Sender | Receiver

  /** A route with one endpoint so far; streams are numbered by the caller. */
  datatype Pending = Pending(sender: Option<nat>, receiver: Option<nat>, created: nat)

  datatype Limits = Limits(maxPendingRoutes: nat, pendingTimeout: nat)

  datatype State = State(pending: seq<Item<Pending>>, completed: seq<seq<Byte>>, expiredRoutes: nat)

  datatype RelayError = CompletedRoute | PendingLimit | DuplicateRole

  datatype Pair = Pair(route: seq<Byte>, sender: nat, receiver: nat)

  // ----- The operations on values -----

  function Pruned(m: seq<Item<Pending>>, now: nat, timeout: nat): seq<Item<Pending>> {
    if m == [] then []
    else if Max(now - m[0].value.created, 0) < timeout then [m[0]] + Pruned(m[1..], now, timeout)
    else Pruned(m[1..], now, timeout)
  }

  function Prune(l: Limits, s: State, now: nat): State {
    var kept := Pruned(s.pending, now, l.pendingTimeout);
    s.(pending := kept, expiredRoutes := s.expiredRoutes + Max(|s.pending| - |kept|, 0))
  }

  /** The oldest routes are forgotten first. */
  function Trimmed(completed: seq<seq<Byte>>, max: nat): seq<seq<Byte>> {
    completed[Max(|completed| - max, 0)..]
  }

  function Joined(entry: Pending, role: Role, stream: nat): Option<Pending> {
    match role
    case Sender => if entry.sender.None? then Some(entry.(sender := Some(stream))) else None
    case Receiver => if entry.receiver.None? then Some(entry.(receiver := Some(stream))) else None
  }

  /** The entry a registration finds, or starts with. */
  function Found(m: seq<Item<Pending>>, route: seq<Byte>, now: nat): Pending {
    var known := Get(m, route);
    if known.Some? then known.value else Pending(None, None, now)
  }

  function Register(l: Limits, s: State, now: nat, route: seq<Byte>, role: Role, stream: nat)
    : (State, Result<Option<Pair>, RelayError>)
  {
    var t := Prune(l, s, now);
    if route in t.completed then (t, Err(CompletedRoute))
    else
      var known := Get(t.pending, route);
      if known.None? && |t.pending| >= l.maxPendingRoutes then (t, Err(PendingLimit))
      else
        var joined := Joined(Found(t.pending, route, now), role, stream);
        if joined.None? then (t, Err(DuplicateRole))
        else if joined.value.sender.Some? && joined.value.receiver.Some? then
          (t.(pending := Remove(t.pending, route), completed := Trimmed(t.completed + [route], l.maxPendingRoutes)),
           Ok(Some(Pair(route, joined.value.sender.value, joined.value.receiver.value))))
        else (t.(pending := Put(t.pending, route, joined.value)), Ok(None))
  }

  // ----- The relay's own state, updated in place -----

  class RelayState {
    const limits: Limits
    var pending: seq<Item<Pending>>
    var completed: seq<seq<Byte>>
    var expiredRoutes: nat

    ghost function View(): State
      reads this
    {
      State(pending, completed, expiredRoutes)
    }

    constructor (limits: Limits)
      ensures this.limits == limits && View() == State([], [], 0)
    {
      this.limits := limits;
      pending, completed, expiredRoutes := [], [], 0;
    }

    method PruneNow(now: nat)
      modifies this
      ensures View() == Prune(limits, old(View()), now)
      ensures Sorted(old(pending)) ==> OnlyWaiting(old(pending), pending, now, limits.pendingTimeout)
      ensures expiredRoutes + |pending| == old(expiredRoutes + |pending|) && completed == old(completed)
    {
      PrunedMembers(pending, now, limits.pendingTimeout);
      if Sorted(pending) {
        PrunedIsWaiting(pending, now, limits.pendingTimeout);
      }
      var before := |pending|;
      pending := Pruned(pending, now, limits.pendingTimeout);
      expiredRoutes := expiredRoutes + Max(before - |pending|, 0);
    }

    method Forget()
      modifies `completed
      ensures completed == Trimmed(old(completed), limits.maxPendingRoutes)
    {
      while |completed| > limits.maxPendingRoutes
        invariant |completed| <= old(|completed|) && completed == old(completed)[old(|completed|) - |completed|..]
        invariant |completed| >= limits.maxPendingRoutes || completed == old(completed)
      {
        completed := completed[1..];
      }
    }

    method RegisterStream(
      now: nat, route: seq<Byte>, role: Role, stream: nat) returns (r: Result<Option<Pair>, RelayError>)
      modifies this
      ensures (View(), r) == Register(limits, old(View()), now, route, role, stream)
      ensures Sorted(old(pending)) ==>
                && Decided(limits, old(View()), now, route, role, stream, r)
                && Settled(limits, old(View()), View(), now, route, role, stream, r)
    {
      if Sorted(pending) {
        RegisterDecides(limits, View(), now, route, role, stream);
        RegisterSettles(limits, View(), now, route, role, stream);
      }
      hide Decided, Settled, OnlyWaiting;
      PruneNow(now);
      if route in completed {
        return Err(CompletedRoute);
      }
      var known := Get(pending, route);
      if known.None? && |pending| >= limits.maxPendingRoutes {
        return Err(PendingLimit);
      }
      var joined := Joined(if known.Some? then known.value else Pending(None, None, now), role, stream);
      if joined.None? {
        return Err(DuplicateRole);
      }
      if joined.value.sender.None? || joined.value.receiver.None? {
        pending := Put(pending, route, joined.value);
        return Ok(None);
      }
      pending := Remove(pending, route);
      completed := completed + [route];
      Forget();
      r := Ok(Some(Pair(route, joined.value.sender.value, joined.value.receiver.value)));
    }
  }

  // ----- Runs -----

  datatype Event = Event(now: nat, route: seq<Byte>, role: Role, stream: nat)

  function After(l: Limits, events: seq<Event>): State {
    if events == [] then State([], [], 0)
    else
      var e := events[|events| - 1];
      Register(l, After(l, events[..|events| - 1]), e.now, e.route, e.role, e.stream).0
  }

  function Answer(l: Limits, events: seq<Event>): Result<Option<Pair>, RelayError>
    requires events != []
  {
    var e := events[|events| - 1];
    Register(l, After(l, events[..|events| - 1]), e.now, e.route, e.role, e.stream).1
  }

  /** The registrations that were taken in. */
  function Accepted(l: Limits, events: seq<Event>): seq<Event> {
    if events == [] then []
    else Accepted(l, events[..|events| - 1]) + if Answer(l, events).Ok? then [events[|events| - 1]] else []
  }

  function Pairs(l: Limits, events: seq<Event>): seq<Pair> {
    if events == [] then []
    else
      var answer := Answer(l, events);
      Pairs(l, events[..|events| - 1]) + if answer.Ok? && answer.value.Some? then [answer.value.value] else []
  }

  /** The entries that timed out. */
  function TimedOut(m: seq<Item<Pending>>, now: nat, timeout: nat): seq<Item<Pending>> {
    if m == [] then []
    else if Max(now - m[0].value.created, 0) < timeout then TimedOut(m[1..], now, timeout)
    else [m[0]] + TimedOut(m[1..], now, timeout)
  }

  function Expired(l: Limits, events: seq<Event>): seq<Item<Pending>> {
    if events == [] then []
    else
      var front, e := events[..|events| - 1], events[|events| - 1];
      Expired(l, front) + TimedOut(After(l, front).pending, e.now, l.pendingTimeout)
  }

  // ----- The endpoints of accepted registrations, counted with multiplicity -----

  datatype Endpoint = Endpoint(route: seq<Byte>, role: Role, stream: nat)

  ghost function OfEntry(x: Item<Pending>): multiset<Endpoint> {
    (if x.value.sender.Some? then multiset{Endpoint(x.key, Sender, x.value.sender.value)} else multiset{})
    + (if x.value.receiver.Some? then multiset{Endpoint(x.key, Receiver, x.value.receiver.value)} else multiset{})
  }

  ghost function OfEntries(m: seq<Item<Pending>>): multiset<Endpoint> {
    if m == [] then multiset{} else OfEntry(m[0]) + OfEntries(m[1..])
  }

  ghost function OfPairs(pairs: seq<Pair>): multiset<Endpoint> {
    if pairs == [] then multiset{}
    else
      var p := pairs[|pairs| - 1];
      OfPairs(pairs[..|pairs| - 1])
      + multiset{Endpoint(p.route, Sender, p.sender), Endpoint(p.route, Receiver, p.receiver)}
  }

  ghost function OfEvents(events: seq<Event>): multiset<Endpoint> {
    if events == [] then multiset{}
    else
      var e := events[|events| - 1];
      OfEvents(events[..|events| - 1]) + multiset{Endpoint(e.route, e.role, e.stream)}
  }

  // ----- Lemmas about the pieces -----

  lemma {:induction false} PrunedMembers(m: seq<Item<Pending>>, now: nat, timeout: nat)
    ensures |Pruned(m, now, timeout)| + |TimedOut(m, now, timeout)| == |m|
    ensures forall x | x in Pruned(m, now, timeout) :: x in m
    ensures forall x | x in TimedOut(m, now, timeout) :: x in m
    ensures OfEntries(m) == OfEntries(Pruned(m, now, timeout)) + OfEntries(TimedOut(m, now, timeout))
  {
    hide OfEntry;
    if m != [] {
      PrunedMembers(m[1..], now, timeout);
      var kept, gone := Pruned(m, now, timeout), TimedOut(m, now, timeout);
      if Max(now - m[0].value.created, 0) < timeout {
        assert kept[1..] == Pruned(m[1..], now, timeout);
      } else {
        assert gone[1..] == TimedOut(m[1..], now, timeout);
      }
    }
  }

  /** The route has one endpoint and has waited less than the timeout. */
  predicate Waits(m: seq<Item<Pending>>, k: seq<Byte>, now: nat, timeout: nat) {
    Has(m, k) && now < Get(m, k).value.created + timeout && timeout > 0
  }

  /** Exactly the routes that have waited less than the timeout are left, as they were. */
  ghost predicate OnlyWaiting(before: seq<Item<Pending>>, after: seq<Item<Pending>>, now: nat, timeout: nat) {
    forall k :: Get(after, k) == if Waits(before, k, now, timeout) then Get(before, k) else None
  }

  ghost function WaitingRoutes(m: seq<Item<Pending>>, now: nat, timeout: nat): set<seq<Byte>> {
    set x | x in m && Waits(m, x.key, now, timeout) :: x.key
  }

  lemma {:induction false} GetPruned(m: seq<Item<Pending>>, now: nat, timeout: nat, k: seq<Byte>)
    requires Sorted(m)
    ensures Get(Pruned(m, now, timeout), k) == if Waits(m, k, now, timeout) then Get(m, k) else None
  {
    if m != [] {
      SortedTail(m);
      GetPruned(m[1..], now, timeout, k);
      if m[0].key == k {
        GetIsMember(m[1..], k);
        LessIrreflexive(k);
      }
    }
  }

  lemma {:induction false} PrunedIsWaiting(m: seq<Item<Pending>>, now: nat, timeout: nat)
    requires Sorted(m)
    ensures OnlyWaiting(m, Pruned(m, now, timeout), now, timeout)
  {
    hide Get, Pruned;
    forall k ensures Get(Pruned(m, now, timeout), k) == if Waits(m, k, now, timeout) then Get(m, k) else None {
      GetPruned(m, now, timeout, k);
    }
  }

  lemma {:induction false} PrunedSorted(m: seq<Item<Pending>>, now: nat, timeout: nat)
    requires Sorted(m)
    ensures Sorted(Pruned(m, now, timeout))
  {
    if m != [] {
      SortedTail(m);
      PrunedSorted(m[1..], now, timeout);
      PrunedMembers(m[1..], now, timeout);
      if Max(now - m[0].value.created, 0) < timeout {
        SortedCons(m[0], Pruned(m[1..], now, timeout));
      }
    }
  }

  lemma {:induction false} EntriesConcat(a: seq<Item<Pending>>, b: seq<Item<Pending>>)
    ensures OfEntries(a + b) == OfEntries(a) + OfEntries(b)
  {
    if a == [] {
      assert a + b == b;
    } else {
      assert (a + b)[1..] == a[1..] + b;
      EntriesConcat(a[1..], b);
    }
  }

  /** What the map holds for a route, as endpoints. */
  ghost function OfRoute(m: seq<Item<Pending>>, k: seq<Byte>): multiset<Endpoint> {
    var known := Get(m, k);
    if known.Some? then OfEntry(Item(k, known.value)) else multiset{}
  }

  lemma {:induction false} PutEntries(m: seq<Item<Pending>>, k: seq<Byte>, v: Pending)
    requires Sorted(m)
    ensures OfEntries(Put(m, k, v)) + OfRoute(m, k) == OfEntries(m) + OfEntry(Item(k, v))
  {
    hide OfEntry;
    if m == [] {
      assert [Item(k, v)][1..] == [];
    } else {
      SortedTail(m);
      var put := Put(m, k, v);
      if m[0].key == k {
        assert put[1..] == m[1..];
      } else if Less(k, m[0].key) {
        assert put[1..] == m;
        BeforeAll(m, k);
      } else {
        PutEntries(m[1..], k, v);
        assert put[1..] == Put(m[1..], k, v);
        assert OfEntries(put) == OfEntry(m[0]) + OfEntries(Put(m[1..], k, v));
        assert OfEntries(put) + OfRoute(m, k) == OfEntry(m[0]) + (OfEntries(Put(m[1..], k, v)) + OfRoute(m[1..], k));
      }
    }
  }

  lemma {:induction false} RemoveEntries(m: seq<Item<Pending>>, k: seq<Byte>)
    ensures OfEntries(Remove(m, k)) + OfRoute(m, k) == OfEntries(m)
    ensures |Remove(m, k)| == if Has(m, k) then |m| - 1 else |m|
  {
    if m != [] && m[0].key != k {
      RemoveEntries(m[1..], k);
      assert Remove(m, k)[1..] == Remove(m[1..], k);
    }
  }

  // ----- What one registration does -----

  lemma {:induction false} KeysCounted<V>(m: seq<Item<V>>)
    requires Sorted(m)
    ensures |set x | x in m :: x.key| == |m|
  {
    if m != [] {
      SortedTail(m);
      KeysCounted(m[1..]);
      LessIrreflexive(m[0].key);
      hide Less;
      assert forall x | x in m[1..] :: x.key != m[0].key;
      hide Sorted;
      var keys, rest := set x | x in m :: x.key, set x | x in m[1..] :: x.key;
      assert m == [m[0]] + m[1..];
      assert keys == {m[0].key} + rest;
    }
  }

  lemma {:induction false} WaitingCounted(m: seq<Item<Pending>>, now: nat, timeout: nat)
    requires Sorted(m)
    ensures |Pruned(m, now, timeout)| == |WaitingRoutes(m, now, timeout)|
  {
    var kept := Pruned(m, now, timeout);
    PrunedSorted(m, now, timeout);
    PrunedMembers(m, now, timeout);
    PrunedIsWaiting(m, now, timeout);
    KeysCounted(kept);
    hide Pruned, Get, Sorted, OfEntries;
    var keys := set x | x in kept :: x.key;
    forall x | x in kept ensures Waits(m, x.key, now, timeout) {
      GetIsMember(kept, x.key);
    }
    forall k | k in WaitingRoutes(m, now, timeout) ensures k in keys {
      GetIsMember(kept, k);
    }
    assert keys == WaitingRoutes(m, now, timeout);
  }

  ghost function EndOf(p: Pending, role: Role): Option<nat> {
    if role == Sender then p.sender else p.receiver
  }

  ghost function Opposite(role: Role): Role {
    if role == Sender then Receiver else Sender
  }

  /** The route still waits, and for the other role only. */
  ghost predicate Meets(m: seq<Item<Pending>>, route: seq<Byte>, role: Role, now: nat, timeout: nat) {
    && Waits(m, route, now, timeout)
    && EndOf(Get(m, route).value, role).None? && EndOf(Get(m, route).value, Opposite(role)).Some?
  }

  /** When a registration is refused, and why; when it pairs, with whom; when it waits. */
  ghost predicate Decided(
    l: Limits, s: State, now: nat, route: seq<Byte>, role: Role, stream: nat, r: Result<Option<Pair>, RelayError>)
  {
    var waits := Waits(s.pending, route, now, l.pendingTimeout);
    var full := |WaitingRoutes(s.pending, now, l.pendingTimeout)| >= l.maxPendingRoutes;
    && (r == Err(CompletedRoute) <==> route in s.completed)
    && (r == Err(PendingLimit) <==> route !in s.completed && !waits && full)
    && (r == Err(DuplicateRole) <==> route !in s.completed && waits && EndOf(Get(s.pending, route).value, role).Some?)
    && (r.Ok? && r.value.Some? <==> route !in s.completed && Meets(s.pending, route, role, now, l.pendingTimeout))
    && (r.Ok? && r.value.Some? ==>
          var other := EndOf(Get(s.pending, route).value, Opposite(role)).value;
          r.value.value == if role == Sender then Pair(route, stream, other) else Pair(route, other, stream))
  }

  /** A route that waits has the stream in its role, and keeps its other end and the time it started to wait. */
  ghost predicate WaitsWith(
    before: seq<Item<Pending>>, entry: Pending, now: nat, timeout: nat, route: seq<Byte>, role: Role, stream: nat)
  {
    && EndOf(entry, role) == Some(stream)
    && if Waits(before, route, now, timeout) then
         && entry.created == Get(before, route).value.created
         && EndOf(entry, Opposite(role)) == EndOf(Get(before, route).value, Opposite(role))
       else
         entry.created == now && EndOf(entry, Opposite(role)).None?
  }

  /** The latest of the remembered routes, this one last. */
  ghost predicate RemembersLast(before: seq<seq<Byte>>, after: seq<seq<Byte>>, route: seq<Byte>, max: nat) {
    |after| == Min(|before| + 1, max) && after == (before + [route])[|before| + 1 - |after|..]
  }

  /** A paired route is gone and remembered, a waiting one is there; every other route is left as a prune does. */
  ghost predicate Settled(
    l: Limits, s: State, t: State, now: nat, route: seq<Byte>, role: Role, stream: nat,
    r: Result<Option<Pair>, RelayError>)
  {
    var paired := r.Ok? && r.value.Some?;
    && (if paired then RemembersLast(s.completed, t.completed, route, l.maxPendingRoutes)
        else t.completed == s.completed)
    && (paired ==> !Has(t.pending, route))
    && (r == Ok(None) ==>
          && Has(t.pending, route)
          && WaitsWith(s.pending, Get(t.pending, route).value, now, l.pendingTimeout, route, role, stream))
    && (forall k | k != route || r.Err? ::
          Get(t.pending, k) == if Waits(s.pending, k, now, l.pendingTimeout) then Get(s.pending, k) else None)
    && t.expiredRoutes == s.expiredRoutes + |s.pending| - |WaitingRoutes(s.pending, now, l.pendingTimeout)|
    && Sorted(t.pending)
  }

  lemma {:induction false} PruneDoes(l: Limits, s: State, now: nat)
    requires Sorted(s.pending)
    ensures var t := Prune(l, s, now);
            && Sorted(t.pending) && OnlyWaiting(s.pending, t.pending, now, l.pendingTimeout)
            && |t.pending| == |WaitingRoutes(s.pending, now, l.pendingTimeout)|
            && t.completed == s.completed && t.expiredRoutes == s.expiredRoutes + |s.pending| - |t.pending|
  {
    WaitingCounted(s.pending, now, l.pendingTimeout);
    PrunedSorted(s.pending, now, l.pendingTimeout);
    PrunedMembers(s.pending, now, l.pendingTimeout);
    PrunedIsWaiting(s.pending, now, l.pendingTimeout);
    hide Pruned, OfEntries, WaitingRoutes, OnlyWaiting, Sorted;
  }

  lemma {:induction false} RegisterDecides(l: Limits, s: State, now: nat, route: seq<Byte>, role: Role, stream: nat)
    requires Sorted(s.pending)
    ensures Decided(l, s, now, route, role, stream, Register(l, s, now, route, role, stream).1)
  {
    PruneDoes(l, s, now);
    var m := Prune(l, s, now).pending;
    assert Get(m, route) == if Waits(s.pending, route, now, l.pendingTimeout) then Get(s.pending, route) else None;
    hide Prune, Get, Put, Remove, Sorted, WaitingRoutes, OnlyWaiting, Trimmed;
  }

  lemma {:induction false} RegisterSettles(l: Limits, s: State, now: nat, route: seq<Byte>, role: Role, stream: nat)
    requires Sorted(s.pending)
    ensures var (t, r) := Register(l, s, now, route, role, stream);
            Settled(l, s, t, now, route, role, stream, r)
  {
    PruneDoes(l, s, now);
    var m := Prune(l, s, now).pending;
    TrimRemembers(s.completed, route, l.maxPendingRoutes);
    hide Prune, Get, Put, Remove, Sorted, WaitingRoutes, Waits, Trimmed, RemembersLast;
    var joined := Joined(Found(m, route, now), role, stream);
    AfterRemove(m, route);
    if joined.Some? {
      AfterPut(m, route, joined.value);
    }
  }

  lemma {:induction false} TrimRemembers(completed: seq<seq<Byte>>, route: seq<Byte>, max: nat)
    ensures RemembersLast(completed, Trimmed(completed + [route], max), route, max)
  {
  }

  lemma {:induction false} AfterRemove(m: seq<Item<Pending>>, route: seq<Byte>)
    requires Sorted(m)
    ensures Sorted(Remove(m, route))
    ensures forall k :: Get(Remove(m, route), k) == if k == route then None else Get(m, k)
  {
    hide Get, Remove;
    RemoveSorted(m, route);
    forall k ensures Get(Remove(m, route), k) == if k == route then None else Get(m, k) {
      GetRemove(m, route, k);
    }
  }

  lemma {:induction false} AfterPut(m: seq<Item<Pending>>, route: seq<Byte>, p: Pending)
    requires Sorted(m)
    ensures Sorted(Put(m, route, p))
    ensures forall k :: Get(Put(m, route, p), k) == if k == route then Some(p) else Get(m, k)
  {
    hide Get, Put;
    PutSorted(m, route, p);
    forall k ensures Get(Put(m, route, p), k) == if k == route then Some(p) else Get(m, k) {
      GetPut(m, route, p, k);
    }
  }

  // ----- The invariant -----

  ghost predicate HalfJoined(p: Pending) {
    p.sender.Some? != p.receiver.Some?
  }

  ghost predicate PendingOk(l: Limits, m: seq<Item<Pending>>) {
    Sorted(m) && |m| <= l.maxPendingRoutes && forall x | x in m :: HalfJoined(x.value)
  }

  ghost predicate Apart(m: seq<Item<Pending>>, completed: seq<seq<Byte>>) {
    forall x | x in m :: x.key !in completed
  }

  ghost function RoutesOf(pairs: seq<Pair>): seq<seq<Byte>> {
    seq(|pairs|, i requires 0 <= i < |pairs| => pairs[i].route)
  }

  ghost predicate Inv(l: Limits, s: State, pairs: seq<Pair>) {
    && PendingOk(l, s.pending) && Apart(s.pending, s.completed)
    && s.completed == Trimmed(RoutesOf(pairs), l.maxPendingRoutes)
  }

  /**
   * A pair is never repeated while its route is remembered: one
   * route's pairs lie further apart than the memory is long.
   */
  ghost predicate Spaced(l: Limits, pairs: seq<Pair>) {
    forall i, j | 0 <= i < j < |pairs| && pairs[i].route == pairs[j].route :: j - i > l.maxPendingRoutes
  }

  lemma {:induction false} PruneInv(l: Limits, s: State, pairs: seq<Pair>, now: nat)
    requires Inv(l, s, pairs)
    ensures Inv(l, Prune(l, s, now), pairs)
  {
    PrunedSorted(s.pending, now, l.pendingTimeout);
    PrunedMembers(s.pending, now, l.pendingTimeout);
  }

  lemma {:induction false} TrimmedAppend(routes: seq<seq<Byte>>, route: seq<Byte>, max: nat)
    ensures Trimmed(Trimmed(routes, max) + [route], max) == Trimmed(routes + [route], max)
  {
  }

  lemma {:induction false} RoutesAppend(pairs: seq<Pair>, p: Pair)
    ensures RoutesOf(pairs + [p]) == RoutesOf(pairs) + [p.route]
  {
  }

  lemma {:induction false} Remembered(pairs: seq<Pair>, i: nat, max: nat)
    requires i < |pairs| && |pairs| - i <= max
    ensures pairs[i].route in Trimmed(RoutesOf(pairs), max)
  {
    assert Trimmed(RoutesOf(pairs), max)[i - Max(|pairs| - max, 0)] == pairs[i].route;
  }

  lemma {:induction false} SpacedAppend(l: Limits, pairs: seq<Pair>, p: Pair)
    requires Spaced(l, pairs) && p.route !in Trimmed(RoutesOf(pairs), l.maxPendingRoutes)
    ensures Spaced(l, pairs + [p])
  {
    forall i | 0 <= i < |pairs| && pairs[i].route == p.route ensures |pairs| - i > l.maxPendingRoutes {
      if |pairs| - i <= l.maxPendingRoutes {
        Remembered(pairs, i, l.maxPendingRoutes);
      }
    }
  }

  // ----- One registration -----

  lemma {:induction false} PutPendingInv(l: Limits, s: State, pairs: seq<Pair>, route: seq<Byte>, p: Pending)
    requires Inv(l, s, pairs) && route !in s.completed && HalfJoined(p)
    requires Has(s.pending, route) || |s.pending| < l.maxPendingRoutes
    ensures Inv(l, s.(pending := Put(s.pending, route, p)), pairs)
  {
    hide Put, Trimmed, RoutesOf;
    PutSorted(s.pending, route, p);
    PutKeys(s.pending, route, p);
  }

  lemma {:induction false} PairInv(l: Limits, s: State, pairs: seq<Pair>, p: Pair)
    requires Inv(l, s, pairs) && p.route !in s.completed
    ensures var completed := Trimmed(s.completed + [p.route], l.maxPendingRoutes);
            Inv(l, s.(pending := Remove(s.pending, p.route), completed := completed), pairs + [p])
  {
    RemoveSorted(s.pending, p.route);
    RoutesAppend(pairs, p);
    TrimmedAppend(RoutesOf(pairs), p.route, l.maxPendingRoutes);
    var completed := Trimmed(s.completed + [p.route], l.maxPendingRoutes);
    forall x | x in Remove(s.pending, p.route) ensures x.key !in completed {
      RemovedKey(s.pending, p.route, x);
      assert x in s.pending;
    }
    hide Remove, RoutesOf;
  }

  lemma {:induction false} RemovedKey(m: seq<Item<Pending>>, k: seq<Byte>, x: Item<Pending>)
    requires Sorted(m) && x in Remove(m, k)
    ensures x.key != k
  {
    RemoveSorted(m, k);
    var i :| 0 <= i < |Remove(m, k)| && Remove(m, k)[i] == x;
    MemberIsGet(Remove(m, k), i);
    GetRemove(m, k, k);
  }

  /** The endpoint joins its route, whatever was there before. */
  lemma {:induction false} JoinedEntry(entry: Pending, role: Role, stream: nat, route: seq<Byte>)
    requires Joined(entry, role, stream).Some?
    ensures OfEntry(Item(route, Joined(entry, role, stream).value))
         == OfEntry(Item(route, entry)) + multiset{Endpoint(route, role, stream)}
  {
  }

  lemma {:induction false} FoundEntry(
    l: Limits, m: seq<Item<Pending>>, route: seq<Byte>, now: nat, role: Role, stream: nat)
    requires PendingOk(l, m)
    ensures OfEntry(Item(route, Found(m, route, now))) == OfRoute(m, route)
    ensures Has(m, route) ==> HalfJoined(Found(m, route, now))
  {
    GetIsMember(m, route);
  }

  ghost predicate Ledger(
    s: State, accepted: multiset<Endpoint>, paired: multiset<Endpoint>, expired: multiset<Endpoint>)
  {
    accepted == paired + OfEntries(s.pending) + expired
  }

  lemma {:induction false} PruneLedger(
    l: Limits, s: State, now: nat, accepted: multiset<Endpoint>, paired: multiset<Endpoint>,
    expired: multiset<Endpoint>)
    requires Ledger(s, accepted, paired, expired)
    ensures Ledger(Prune(l, s, now), accepted, paired, expired + OfEntries(TimedOut(s.pending, now, l.pendingTimeout)))
  {
    PrunedMembers(s.pending, now, l.pendingTimeout);
    hide OfEntries, Pruned, TimedOut;
  }

  lemma {:induction false} RegisterKeeps(
    l: Limits, s: State, pairs: seq<Pair>, e: Event, accepted: multiset<Endpoint>, expired: multiset<Endpoint>)
    requires Inv(l, s, pairs) && Spaced(l, pairs) && Ledger(s, accepted, OfPairs(pairs), expired)
    ensures var (t, answer) := Register(l, s, e.now, e.route, e.role, e.stream);
            var pairs' := pairs + if answer.Ok? && answer.value.Some? then [answer.value.value] else [];
            var added := if answer.Ok? then multiset{Endpoint(e.route, e.role, e.stream)} else multiset{};
            var accepted' := accepted + added;
            && Inv(l, t, pairs') && Spaced(l, pairs')
            && Ledger(t, accepted', OfPairs(pairs'), expired + OfEntries(TimedOut(s.pending, e.now, l.pendingTimeout)))
  {
    hide Prune, OfEntries, OfPairs, Put, Remove, Joined, Inv, Spaced, Ledger, Trimmed, TimedOut;
    PruneInv(l, s, pairs, e.now);
    PruneLedger(l, s, e.now, accepted, OfPairs(pairs), expired);
    var t := Prune(l, s, e.now);
    var expired' := expired + OfEntries(TimedOut(s.pending, e.now, l.pendingTimeout));
    assert pairs + [] == pairs && accepted + multiset{} == accepted;
    if e.route !in t.completed && (Has(t.pending, e.route) || |t.pending| < l.maxPendingRoutes) {
      JoinKeeps(l, t, pairs, e, accepted, expired');
    }
  }

  lemma {:induction false} JoinKeeps(
    l: Limits, t: State, pairs: seq<Pair>, e: Event, accepted: multiset<Endpoint>, expired: multiset<Endpoint>)
    requires Inv(l, t, pairs) && Spaced(l, pairs) && Ledger(t, accepted, OfPairs(pairs), expired)
    requires e.route !in t.completed && (Has(t.pending, e.route) || |t.pending| < l.maxPendingRoutes)
    ensures var joined := Joined(Found(t.pending, e.route, e.now), e.role, e.stream);
            joined.Some? ==>
              var p, now := joined.value, accepted + multiset{Endpoint(e.route, e.role, e.stream)};
              if p.sender.Some? && p.receiver.Some? then
                var pair := Pair(e.route, p.sender.value, p.receiver.value);
                var completed := Trimmed(t.completed + [e.route], l.maxPendingRoutes);
                var u := t.(pending := Remove(t.pending, e.route), completed := completed);
                && Inv(l, u, pairs + [pair]) && Spaced(l, pairs + [pair])
                && Ledger(u, now, OfPairs(pairs + [pair]), expired)
              else
                var u := t.(pending := Put(t.pending, e.route, p));
                Inv(l, u, pairs) && Ledger(u, now, OfPairs(pairs), expired)
  {
    var entry := Found(t.pending, e.route, e.now);
    var joined := Joined(entry, e.role, e.stream);
    FoundEntry(l, t.pending, e.route, e.now, e.role, e.stream);
    if joined.Some? {
      JoinedEntry(entry, e.role, e.stream, e.route);
      var p, endpoint := joined.value, Endpoint(e.route, e.role, e.stream);
      assert OfEntry(Item(e.route, p)) == OfRoute(t.pending, e.route) + multiset{endpoint};
      if p.sender.Some? && p.receiver.Some? {
        var pair := Pair(e.route, p.sender.value, p.receiver.value);
        PairInv(l, t, pairs, pair);
        SpacedAppend(l, pairs, pair);
        PairLedger(t, pairs, pair, p, endpoint, accepted, expired);
      } else {
        PutPendingInv(l, t, pairs, e.route, p);
        WaitLedger(t, OfPairs(pairs), e.route, p, endpoint, accepted, expired);
      }
      hide *;
    }
  }

  lemma {:induction false} PairLedger(
    t: State, pairs: seq<Pair>, pair: Pair, p: Pending, endpoint: Endpoint, accepted: multiset<Endpoint>,
    expired: multiset<Endpoint>)
    requires Ledger(t, accepted, OfPairs(pairs), expired)
    requires p.sender == Some(pair.sender) && p.receiver == Some(pair.receiver)
    requires OfEntry(Item(pair.route, p)) == OfRoute(t.pending, pair.route) + multiset{endpoint}
    ensures var u := t.(pending := Remove(t.pending, pair.route));
            Ledger(u, accepted + multiset{endpoint}, OfPairs(pairs + [pair]), expired)
  {
    hide OfEntries, OfEntry, OfPairs, OfRoute, Remove;
    RemoveEntries(t.pending, pair.route);
    PairsAppend(pairs, pair, p);
    Regroup(
      accepted, OfPairs(pairs), OfEntries(Remove(t.pending, pair.route)), OfRoute(t.pending, pair.route),
      expired, multiset{endpoint});
  }

  lemma {:induction false} PairsAppend(pairs: seq<Pair>, pair: Pair, p: Pending)
    requires p.sender == Some(pair.sender) && p.receiver == Some(pair.receiver)
    ensures OfPairs(pairs + [pair]) == OfPairs(pairs) + OfEntry(Item(pair.route, p))
  {
    assert (pairs + [pair])[..|pairs|] == pairs;
  }

  lemma {:induction false} Regroup(
    a: multiset<Endpoint>, pairs: multiset<Endpoint>, rest: multiset<Endpoint>, r: multiset<Endpoint>,
    expired: multiset<Endpoint>, x: multiset<Endpoint>)
    requires a == pairs + (rest + r) + expired
    ensures a + x == pairs + (r + x) + rest + expired
  {
  }

  lemma {:induction false} WaitLedger(
    t: State, paired: multiset<Endpoint>, route: seq<Byte>, p: Pending, endpoint: Endpoint,
    accepted: multiset<Endpoint>, expired: multiset<Endpoint>)
    requires Ledger(t, accepted, paired, expired) && Sorted(t.pending)
    requires OfEntry(Item(route, p)) == OfRoute(t.pending, route) + multiset{endpoint}
    ensures Ledger(t.(pending := Put(t.pending, route, p)), accepted + multiset{endpoint}, paired, expired)
  {
    PutEntries(t.pending, route, p);
    hide OfEntries, OfEntry, OfRoute, Put;
    Cancel(OfEntries(Put(t.pending, route, p)), OfEntries(t.pending), OfRoute(t.pending, route), multiset{endpoint});
  }

  lemma {:induction false} Cancel(
    a: multiset<Endpoint>, b: multiset<Endpoint>, r: multiset<Endpoint>, x: multiset<Endpoint>)
    requires a + r == b + (r + x)
    ensures a == b + x
  {
    forall e: Endpoint ensures a[e] == (b + x)[e] {
      assert (a + r)[e] == (b + (r + x))[e];
    }
  }

  // ----- Whole runs -----

  lemma {:induction false} RunKeeps(l: Limits, events: seq<Event>)
    ensures Inv(l, After(l, events), Pairs(l, events)) && Spaced(l, Pairs(l, events))
    ensures Ledger(After(l, events), OfEvents(Accepted(l, events)), OfPairs(Pairs(l, events)),
            OfEntries(Expired(l, events)))
    ensures |Expired(l, events)| == After(l, events).expiredRoutes
    ensures forall x | x in Expired(l, events) :: HalfJoined(x.value)
  {
    if events != [] {
      var front, e := events[..|events| - 1], events[|events| - 1];
      RunKeeps(l, front);
      var s := After(l, front);
      var gone := TimedOut(s.pending, e.now, l.pendingTimeout);
      RegisterKeeps(l, s, Pairs(l, front), e, OfEvents(Accepted(l, front)), OfEntries(Expired(l, front)));
      EntriesConcat(Expired(l, front), gone);
      PrunedMembers(s.pending, e.now, l.pendingTimeout);
      ExpiredCount(l, s, e);
      AcceptedStep(l, events);
      hide Register, OfEntries, OfPairs, TimedOut, Pruned, OfEvents, Spaced, Apart, Trimmed;
    }
  }

  lemma {:induction false} ExpiredCount(l: Limits, s: State, e: Event)
    ensures Register(l, s, e.now, e.route, e.role, e.stream).0.expiredRoutes
         == s.expiredRoutes + |TimedOut(s.pending, e.now, l.pendingTimeout)|
  {
    PrunedMembers(s.pending, e.now, l.pendingTimeout);
  }

  lemma {:induction false} AcceptedStep(l: Limits, events: seq<Event>)
    requires events != []
    ensures var front, e := events[..|events| - 1], events[|events| - 1];
            OfEvents(Accepted(l, events))
            == OfEvents(Accepted(l, front))
               + if Answer(l, events).Ok? then multiset{Endpoint(e.route, e.role, e.stream)} else multiset{}
  {
    hide Register, After;
    var front, e := events[..|events| - 1], events[|events| - 1];
    if Answer(l, events).Ok? {
      assert (Accepted(l, front) + [e])[..|Accepted(l, front)|] == Accepted(l, front);
    } else {
      assert Accepted(l, front) + [] == Accepted(l, front);
    }
  }

  // ----- Counting -----

  lemma {:induction false} EntriesSize(m: seq<Item<Pending>>)
    requires forall x | x in m :: HalfJoined(x.value)
    ensures |OfEntries(m)| == |m|
  {
    if m != [] {
      assert m[0] in m;
      EntriesSize(m[1..]);
    }
  }

  lemma {:induction false} PairsSize(pairs: seq<Pair>)
    ensures |OfPairs(pairs)| == 2 * |pairs|
  {
    if pairs != [] {
      PairsSize(pairs[..|pairs| - 1]);
    }
  }

  lemma {:induction false} EventsSize(events: seq<Event>)
    ensures |OfEvents(events)| == |events|
  {
    if events != [] {
      EventsSize(events[..|events| - 1]);
    }
  }

  /** Every accepted stream is in exactly one place: half of a pair, waiting, or timed out. */
  lemma {:induction false} StreamsConserved(l: Limits, events: seq<Event>)
    ensures OfEvents(Accepted(l, events))
         == OfPairs(Pairs(l, events)) + OfEntries(After(l, events).pending) + OfEntries(Expired(l, events))
    ensures |Accepted(l, events)|
         == 2 * |Pairs(l, events)| + |After(l, events).pending| + After(l, events).expiredRoutes
  {
    RunKeeps(l, events);
    EntriesSize(After(l, events).pending);
    EntriesSize(Expired(l, events));
    PairsSize(Pairs(l, events));
    EventsSize(Accepted(l, events));
    hide After, Accepted, Pairs, Expired, OfEntries, OfPairs, OfEvents;
  }

  /** Both ends of every pair were accepted for its route, one in each role. */
  lemma {:induction false} PairsAreSound(l: Limits, events: seq<Event>, p: Pair)
    requires p in Pairs(l, events)
    ensures Endpoint(p.route, Sender, p.sender) in OfEvents(Accepted(l, events))
    ensures Endpoint(p.route, Receiver, p.receiver) in OfEvents(Accepted(l, events))
  {
    RunKeeps(l, events);
    hide After, Accepted, Pairs, Expired, OfEntries, OfEvents;
    PairMembers(Pairs(l, events), p);
  }

  lemma {:induction false} PairMembers(pairs: seq<Pair>, p: Pair)
    requires p in pairs
    ensures Endpoint(p.route, Sender, p.sender) in OfPairs(pairs)
            && Endpoint(p.route, Receiver, p.receiver) in OfPairs(pairs)
  {
    if p != pairs[|pairs| - 1] {
      PairMembers(pairs[..|pairs| - 1], p);
    }
  }
}

/**
  The allocator of query permits: `QueryGuardState`, `acquire_query_permit` and
  `Drop for QueryPermit` (src-tauri/src/security.rs).
*/
module QueryGuard {

  const MAX_GLOBAL: nat := 6
  const MAX_PER_CONNECTION: nat := 2

  datatype Refusal = TooManyQueries | TooManyOnConnection(connectionId: string)

  datatype Result<+T> = Ok(value: T) | Err(error: Refusal)

  /** The shared counters. A connection without queries in flight has no entry. */
  datatype Guard = Guard(total: nat, perConnection: map<string, nat>)

  const IDLE: Guard := Guard(0, map[])

  function CountOf(g: Guard, id: string): nat {
    if id in g.perConnection then g.perConnection[id] else 0
  }

  function Acquire(g: Guard, id: string): Result<Guard> {
    if g.total >= MAX_GLOBAL then Err(TooManyQueries)
    else if CountOf(g, id) >= MAX_PER_CONNECTION then Err(TooManyOnConnection(id))
    else Ok(Guard(g.total + 1, g.perConnection[id := CountOf(g, id) + 1]))
  }

  function SaturatingDecrement(n: nat): nat { if n == 0 then 0 else n - 1 }

  function Release(g: Guard, id: string): Guard {
    var total := SaturatingDecrement(g.total);
    if id !in g.perConnection then Guard(total, g.perConnection)
    else
      var count := SaturatingDecrement(g.perConnection[id]);
      Guard(total, if count == 0 then g.perConnection - {id} else g.perConnection[id := count])
  }

  // ----- the counters and the live permits -----

  /** The counters describe exactly the live permits, given by connection. */
  ghost predicate Describes(g: Guard, live: multiset<string>) {
    && g.total == |live|
    && (forall id :: id in live <==> id in g.perConnection)
    && (forall id :: id in live ==> g.perConnection[id] == live[id])
  }

  ghost predicate WithinLimits(live: multiset<string>) {
    |live| <= MAX_GLOBAL && forall id :: id in live ==> live[id] <= MAX_PER_CONNECTION
  }

  /** A permit is refused exactly at a limit, with the global limit reported
      first; otherwise it joins the live ones. */
  lemma AcquireDescribes(g: Guard, live: multiset<string>, id: string)
    requires Describes(g, live) && WithinLimits(live)
    ensures Acquire(g, id).Err? <==> |live| == 6 || live[id] == 2
    ensures Acquire(g, id) == Err(TooManyQueries) <==> |live| == 6
    ensures Acquire(g, id).Err? && |live| < 6 ==> Acquire(g, id) == Err(TooManyOnConnection(id))
    ensures Acquire(g, id).Ok? ==>
              Describes(Acquire(g, id).value, live + multiset{id}) && WithinLimits(live + multiset{id})
  {
    assert live[id] == CountOf(g, id);
  }

  /** Dropping a live permit removes just that one; neither subtraction is
      clamped at zero. */
  lemma ReleaseDescribes(g: Guard, live: multiset<string>, id: string)
    requires Describes(g, live) && WithinLimits(live) && id in live
    ensures Describes(Release(g, id), live - multiset{id}) && WithinLimits(live - multiset{id})
    ensures g.total > 0 && id in g.perConnection && g.perConnection[id] > 0
  {
    assert live == (live - multiset{id}) + multiset{id};
  }

  // ----- the sum of the counts -----

  ghost function Sum(m: map<string, nat>): nat
    decreases |m|
  {
    if m == map[] then 0
    else
      var k :| k in m;
      m[k] + Sum(m - {k})
  }

  lemma {:induction false} SumWithout(m: map<string, nat>, k: string)
    requires k in m
    ensures Sum(m) == m[k] + Sum(m - {k})
    decreases |m|
  {
    var first :| first in m && Sum(m) == m[first] + Sum(m - {first});
    if first != k {
      SumWithout(m - {first}, k);
      SumWithout(m - {k}, first);
      assert m - {first} - {k} == m - {k} - {first};
    }
  }

  lemma {:induction false} SumIsTotal(g: Guard, live: multiset<string>)
    requires Describes(g, live)
    ensures Sum(g.perConnection) == g.total
    decreases |g.perConnection|
  {
    if g.perConnection == map[] {
      assert forall id :: id !in live;
      assert live == multiset{};
    } else {
      var id :| id in g.perConnection;
      var others := live[id := 0];
      assert live == others[id := live[id]];
      SumIsTotal(Guard(|others|, g.perConnection - {id}), others);
      SumWithout(g.perConnection, id);
    }
  }

  // ----- runs of any length and in any order -----

  datatype Event = TryAcquire(id: string) | DropPermit(id: string)

  /** The live permits after an event. */
  function LiveAfter(g: Guard, live: multiset<string>, e: Event): multiset<string> {
    match e
    case TryAcquire(id) => if Acquire(g, id).Ok? then live + multiset{id} else live
    case DropPermit(id) => live - multiset{id}
  }

  function GuardAfter(g: Guard, e: Event): Guard {
    match e
    case TryAcquire(id) => if Acquire(g, id).Ok? then Acquire(g, id).value else g
    case DropPermit(id) => Release(g, id)
  }

  function Run(g: Guard, events: seq<Event>): Guard
    decreases |events|
  {
    if events == [] then g else Run(GuardAfter(g, events[0]), events[1..])
  }

  /** Only live permits are dropped: a permit has one owner. */
  ghost predicate OwnedDrops(g: Guard, live: multiset<string>, events: seq<Event>)
    decreases |events|
  {
    events != [] ==>
      && (events[0].DropPermit? ==> events[0].id in live)
      && OwnedDrops(GuardAfter(g, events[0]), LiveAfter(g, live, events[0]), events[1..])
  }

  ghost function LiveAfterRun(g: Guard, live: multiset<string>, events: seq<Event>): multiset<string>
    decreases |events|
  {
    if events == [] then live
    else LiveAfterRun(GuardAfter(g, events[0]), LiveAfter(g, live, events[0]), events[1..])
  }

  lemma {:induction false} RunDescribes(g: Guard, live: multiset<string>, events: seq<Event>)
    requires Describes(g, live) && WithinLimits(live) && OwnedDrops(g, live, events)
    ensures Describes(Run(g, events), LiveAfterRun(g, live, events)) && WithinLimits(LiveAfterRun(g, live, events))
    decreases |events|
  {
    if events != [] {
      match events[0] {
        case TryAcquire(id) => AcquireDescribes(g, live, id);
        case DropPermit(id) => ReleaseDescribes(g, live, id);
      }
      RunDescribes(GuardAfter(g, events[0]), LiveAfter(g, live, events[0]), events[1..]);
    }
  }

  /** After any interleaving of acquires and drops from the idle state: the total
      is the number of live permits and the sum of the counts, no stored count is
      zero, the limits hold, and with no permit left the state is idle again. */
  lemma EveryRun(events: seq<Event>)
    requires OwnedDrops(IDLE, multiset{}, events)
    ensures var g, live := Run(IDLE, events), LiveAfterRun(IDLE, multiset{}, events);
            && g.total == |live| == Sum(g.perConnection) <= 6
            && (forall id :: id in g.perConnection ==> 0 < g.perConnection[id] == live[id] <= 2)
            && (live == multiset{} ==> g == IDLE)
  {
    RunDescribes(IDLE, multiset{}, events);
    var g, live := Run(IDLE, events), LiveAfterRun(IDLE, multiset{}, events);
    SumIsTotal(g, live);
    if live == multiset{} {
      assert g.perConnection.Keys == {};
      assert g.perConnection == map[];
    }
  }

  // ----- the shared state, updated in place -----

  datatype Permit = Permit(connectionId: string)

  class SharedGuard {
    var totalInFlight: nat
    var perConnection: map<string, nat>
    ghost var live: multiset<string>

    ghost predicate Valid()
      reads this
    {
      Describes(Value(), live) && WithinLimits(live)
    }

    function Value(): Guard
      reads this
    {
      Guard(totalInFlight, perConnection)
    }

    constructor ()
      ensures Valid() && live == multiset{} && Value() == IDLE
    {
      totalInFlight := 0;
      perConnection := map[];
      live := multiset{};
    }

    method AcquireQueryPermit(connectionId: string) returns (r: Result<Permit>)
      requires Valid()
      modifies this
      ensures Valid()
      ensures r.Err? <==> |old(live)| == 6 || old(live)[connectionId] == 2
      ensures r == Err(TooManyQueries) <==> |old(live)| == 6
      ensures r.Err? && |old(live)| < 6 ==> r == Err(TooManyOnConnection(connectionId))
      ensures r.Ok? ==> r.value == Permit(connectionId) && live == old(live) + multiset{connectionId}
      ensures r.Err? ==> unchanged(this)
    {
      AcquireDescribes(Value(), live, connectionId);
      var count := if connectionId in perConnection then perConnection[connectionId] else 0;
      if totalInFlight >= MAX_GLOBAL {
        return Err(TooManyQueries);
      }
      if count >= MAX_PER_CONNECTION {
        return Err(TooManyOnConnection(connectionId));
      }
      totalInFlight := totalInFlight + 1;
      perConnection := perConnection[connectionId := count + 1];
      live := live + multiset{connectionId};
      return Ok(Permit(connectionId));
    }

    method Drop(permit: Permit)
      requires Valid() && permit.connectionId in live
      modifies this
      ensures Valid() && live == old(live) - multiset{permit.connectionId}
      ensures totalInFlight == old(totalInFlight) - 1
    {
      ReleaseDescribes(Value(), live, permit.connectionId);
      totalInFlight := SaturatingDecrement(totalInFlight);
      if permit.connectionId in perConnection {
        perConnection := perConnection[permit.connectionId := SaturatingDecrement(perConnection[permit.connectionId])];
        if perConnection[permit.connectionId] == 0 {
          perConnection := perConnection - {permit.connectionId};
        }
      }
      live := live - multiset{permit.connectionId};
    }
  }
}

/**
  When a cancel request stops a query (src-tauri/src/commands/query.rs,
  src-tauri/src/db/query_executor.rs): in every interleaving, exactly when its loop
  has yet to ask the cancel set. Otherwise the request stays in the set.
*/
module CancelGuarantees {
  import opened Text
  import opened Wrappers
  import opened Batches
  import opened Streamers
  import opened RunProtocol
  import Permits = QueryGuard

  /** Where the source breaks down, or its length. */
  function FirstFailure<Row>(source: seq<Event<Row>>): (n: nat)
    ensures n <= |source|
  {
    if source == [] || source[0].Breakdown? then 0 else 1 + FirstFailure(source[1..])
  }

  lemma {:induction false} FirstFailureFacts<Row>(source: seq<Event<Row>>, n: nat)
    requires Unbroken(source, n)
    ensures n <= FirstFailure(source)
    ensures n == |source| || source[n].Breakdown? ==> FirstFailure(source) == n
  {
    if n > 0 {
      FirstFailureFacts(source[1..], n - 1);
    }
  }

  /** The rows a run can read: those before the first failure. */
  function Readable<Row>(source: seq<Event<Row>>): seq<Row> {
    RowsRead(source[..FirstFailure(source)])
  }

  /** The readable rows behind the first `k` are enough for a batch. */
  predicate FillsFrom<Row>(source: seq<Event<Row>>, k: nat, size: Row -> nat) {
    var rows := Readable(source);
    k <= |rows| && ShouldFlush(|rows| - k, Bytes(rows[k..], size))
  }

  predicate PausesBetween<Row>(source: seq<Event<Row>>, from: nat, to: nat) {
    exists j :: from <= j < to && j < |source| && source[j].Pause?
  }

  /** Whether the query's loop has yet to ask the cancel set: the SQL loop when the
      rows it has not sent fill a batch, the ClickHouse loop when it is still to fetch,
      both before their source breaks down. */
  predicate Stoppable<Row>(q: Task<Row>, size: Row -> nat) {
    match q.kind
    case Sql => FillsFrom(q.source, |RowsOf(q.s.sent)|, size)
    case DuckDb(_) => false
    case ClickHouse => PausesBetween(q.source, q.taken, FirstFailure(q.source))
  }

  // ----- full batches -----

  lemma {:induction false} ReadablePrefix<Row>(source: seq<Event<Row>>, n: nat)
    requires n <= FirstFailure(source)
    ensures RowsRead(source[..n]) <= Readable(source)
    decreases FirstFailure(source) - n
  {
    if n < FirstFailure(source) {
      ReadablePrefix(source, n + 1);
      ReadNext(source, n);
    }
  }

  lemma PrefixFills<Row>(rows: seq<Row>, part: seq<Row>, k: nat, size: Row -> nat)
    requires part <= rows && k <= |part| && ShouldFlush(|part| - k, Bytes(part[k..], size))
    ensures ShouldFlush(|rows| - k, Bytes(rows[k..], size))
  {
    hide Bytes;
    assert rows[k..][..|part| - k] == part[k..];
    BytesPrefix(rows[k..], |part| - k, size);
  }

  lemma FullPrefixFills<Row>(source: seq<Event<Row>>, n: nat, k: nat, size: Row -> nat)
    requires n <= FirstFailure(source) && k <= |RowsRead(source[..n])|
    requires ShouldFlush(|RowsRead(source[..n])| - k, Bytes(RowsRead(source[..n])[k..], size))
    ensures FillsFrom(source, k, size)
  {
    hide RowsRead, FirstFailure, Bytes, ShouldFlush;
    ReadablePrefix(source, n);
    PrefixFills(Readable(source), RowsRead(source[..n]), k, size);
  }

  lemma HeldRows<Row>(s: State<Row>, rows: seq<Row>, size: Row -> nat)
    requires Inv(s, rows, size)
    ensures |RowsOf(s.sent)| <= |rows| && rows[|RowsOf(s.sent)|..] == s.batch && s.bytes == Bytes(s.batch, size)
    ensures !ShouldFlush(|s.batch|, s.bytes)
  {
  }

  lemma SuffixSnoc<T>(s: seq<T>, k: nat, x: T)
    requires k <= |s|
    ensures (s + [x])[k..] == s[k..] + [x]
  {
  }

  lemma PushedBatch<Row>(s: State<Row>, row: Row, size: Row -> nat)
    requires s.bytes == Bytes(s.batch, size)
    ensures var p := Push(s, row, size); p.batch == s.batch + [row] && p.bytes == Bytes(s.batch + [row], size)
  {
    assert (s.batch + [row])[..|s.batch|] == s.batch;
  }

  /** What a full SQL batch shows. */
  lemma FullPushFills<Row>(t: Task<Row>, size: Row -> nat, columnsOf: Row -> seq<string>)
    requires TaskInv(t, size, columnsOf) && t.kind.Sql? && Checks(t, size)
    ensures FillsFrom(t.source, |RowsOf(t.s.sent)|, size)
  {
    hide RowsRead, FirstFailure, Inv, HeaderSeq, FillsFrom, Bytes, RowsOf, ShouldFlush, Push;
    var rows, row, k := RowsRead(t.source[..t.taken]), t.source[t.taken].row, |RowsOf(t.s.sent)|;
    ReadNext(t.source, t.taken);
    FirstFailureFacts(t.source, t.taken + 1);
    HeldRows(t.s, rows, size);
    SuffixSnoc(rows, k, row);
    PushedBatch(t.s, row, size);
    FullPrefixFills(t.source, t.taken + 1, k, size);
  }

  lemma NothingMoreFills<Row>(t: Task<Row>, size: Row -> nat, columnsOf: Row -> seq<string>)
    requires TaskInv(t, size, columnsOf) && t.kind.Sql? && t.phase.Streaming?
    requires t.taken == |t.source| || t.source[t.taken].Breakdown?
    ensures !FillsFrom(t.source, |RowsOf(t.s.sent)|, size)
  {
    hide RowsRead, FirstFailure, Inv, HeaderSeq, Bytes, RowsOf, ShouldFlush;
    FirstFailureFacts(t.source, t.taken);
    HeldRows(t.s, RowsRead(t.source[..t.taken]), size);
  }

  // ----- following one query -----

  predicate Underway(phase: Phase) { phase.Looking? || phase.Streaming? }

  predicate HasReturned(phase: Phase) {
    phase.Recording? || phase.Closing? || phase.Finished?
  }

  /** `t` is `q` some steps later; it can only have been stopped where `q` could. */
  ghost predicate Follows<Row>(t: Task<Row>, q: Task<Row>, size: Row -> nat) {
    && t.queryId == q.queryId && t.source == q.source && t.kind == q.kind && t.taken >= q.taken
    && (t.stopped ==> Stoppable(q, size) && HasReturned(t.phase))
    && (q.kind.Sql? && Underway(t.phase) ==> t.s.sent == q.s.sent || Stoppable(q, size))
  }

  /** No chance to stop it was missed. */
  ghost predicate Waits<Row>(t: Task<Row>, q: Task<Row>, size: Row -> nat) {
    && !t.stopped
    && (Underway(t.phase) ==>
          && (q.kind.Sql? ==> t.s.sent == q.s.sent)
          && (q.kind.ClickHouse? ==> !PausesBetween(q.source, q.taken, t.taken)))
    && (HasReturned(t.phase) ==> !Stoppable(q, size))
  }

  /** As long as no query of this id was stopped, the request is there and no chance
      was missed. */
  ghost predicate Armed<Row>(sys: System<Row>, i: nat, q: Task<Row>, stops: nat, size: Row -> nat) {
    && i < |sys.tasks| && Follows(sys.tasks[i], q, size)
    && sys.stops[q.queryId] >= stops
    && (sys.stops[q.queryId] == stops ==> q.queryId in sys.cancelSet && Waits(sys.tasks[i], q, size))
  }

  lemma PausesOn<Row>(source: seq<Event<Row>>, from: nat, to: nat)
    requires from <= to < |source|
    ensures PausesBetween(source, from, to + 1) <==> PausesBetween(source, from, to) || source[to].Pause?
  {
  }

  lemma StoppedAtPause<Row>(q: Task<Row>, n: nat, size: Row -> nat)
    requires q.kind.ClickHouse? && q.taken <= n < |q.source| && q.source[n].Pause? && Unbroken(q.source, n)
    ensures Stoppable(q, size)
  {
    FirstFailureFacts(q.source, n + 1);
  }

  /** The query's own streaming step. */
  lemma AdvanceFollows<Row>(t: Task<Row>, q: Task<Row>, cancelled: bool, size: Row -> nat,
                            columnsOf: Row -> seq<string>)
    requires TaskInv(t, size, columnsOf) && t.phase.Streaming? && Follows(t, q, size)
    requires cancelled ==> Checks(t, size)
    ensures Follows(Advance(t, cancelled, size, columnsOf), q, size)
  {
    hide FillsFrom, Inv, RowsRead, FirstFailure, PausesBetween, Stoppable;
    if Checks(t, size) {
      CheckedIsStoppable(t, q, size, columnsOf);
    }
  }

  lemma CheckedIsStoppable<Row>(t: Task<Row>, q: Task<Row>, size: Row -> nat, columnsOf: Row -> seq<string>)
    requires TaskInv(t, size, columnsOf) && t.phase.Streaming? && Follows(t, q, size) && Checks(t, size)
    ensures Stoppable(q, size)
  {
    hide FillsFrom, Inv, RowsRead, FirstFailure, PausesBetween;
    if t.kind.Sql? {
      FullPushFills(t, size, columnsOf);
    } else {
      StoppedAtPause(q, t.taken, size);
    }
  }

  lemma AdvanceWaits<Row>(t: Task<Row>, q: Task<Row>, size: Row -> nat, columnsOf: Row -> seq<string>)
    requires TaskInv(t, size, columnsOf) && t.phase.Streaming? && Follows(t, q, size) && Waits(t, q, size)
    requires !Checks(t, size)
    ensures Waits(Advance(t, false, size, columnsOf), q, size)
  {
    hide FillsFrom, Inv, RowsRead, FirstFailure, PausesBetween;
    if t.taken < |t.source| && !t.source[t.taken].Breakdown? {
      PausesOn(q.source, q.taken, t.taken);
    } else {
      FirstFailureFacts(t.source, t.taken);
      if t.kind.Sql? {
        NothingMoreFills(t, size, columnsOf);
      }
    }
  }

  lemma NextArmed<Row>(sys: System<Row>, i: nat, q: Task<Row>, stops: nat, size: Row -> nat,
                       columnsOf: Row -> seq<string>)
    requires SystemInv(sys, size, columnsOf) && Armed(sys, i, q, stops, size) && sys.tasks[i].phase.Streaming?
    ensures Armed(Step(sys, Next(i), size, columnsOf), i, q, stops, size)
  {
    hide SystemInv, TaskInv, Follows, Waits, Advance, Checks;
    var t := sys.tasks[i];
    var cancelled := Checks(t, size) && t.queryId in sys.cancelSet;
    TaskAt(sys, i, size, columnsOf);
    AdvanceFollows(t, q, cancelled, size, columnsOf);
    SameId(t, q, size);
    if sys.stops[q.queryId] == stops && !cancelled {
      AdvanceWaits(t, q, size, columnsOf);
    }
  }

  lemma SameId<Row>(t: Task<Row>, q: Task<Row>, size: Row -> nat)
    requires Follows(t, q, size)
    ensures t.queryId == q.queryId
  {
  }

  /** A step of query `i` other than streaming. */
  lemma OwnStepArmed<Row>(sys: System<Row>, a: Action<Row>, i: nat, q: Task<Row>, stops: nat, size: Row -> nat,
                          columnsOf: Row -> seq<string>)
    requires Armed(sys, i, q, stops, size)
    requires a == Spawn(i) || a == Lose(i) || a == Record(i) || a == Close(i)
    ensures Armed(Step(sys, a, size, columnsOf), i, q, stops, size)
  {
    hide Stoppable, PausesBetween, Permits.Release;
  }

  /** A step of others leaves the query alone, and takes the request only to stop a
      query of the same id. */
  lemma StepElsewhere<Row>(sys: System<Row>, a: Action<Row>, i: nat, id: string, size: Row -> nat,
                           columnsOf: Row -> seq<string>)
    requires i < |sys.tasks| && a != Spawn(i) && a != Lose(i) && a != Record(i) && a != Close(i) && a != Next(i)
    ensures var sys' := Step(sys, a, size, columnsOf);
            && i < |sys'.tasks| && sys'.tasks[i] == sys.tasks[i] && sys'.stops[id] >= sys.stops[id]
            && (sys'.stops[id] == sys.stops[id] && id in sys.cancelSet ==> id in sys'.cancelSet)
  {
    hide Advance, Checks, Permits.Acquire, Permits.Release;
  }

  /** One step of any task or caller. */
  lemma StepArmed<Row>(sys: System<Row>, a: Action<Row>, i: nat, q: Task<Row>, stops: nat, size: Row -> nat,
                       columnsOf: Row -> seq<string>)
    requires SystemInv(sys, size, columnsOf) && Armed(sys, i, q, stops, size)
    ensures Armed(Step(sys, a, size, columnsOf), i, q, stops, size)
  {
    hide SystemInv, Follows, Waits, Step;
    if a == Next(i) {
      if sys.tasks[i].phase.Streaming? {
        NextArmed(sys, i, q, stops, size, columnsOf);
      } else {
        IdleNext(sys, i, size, columnsOf);
      }
    } else if a == Spawn(i) || a == Lose(i) || a == Record(i) || a == Close(i) {
      OwnStepArmed(sys, a, i, q, stops, size, columnsOf);
    } else {
      StepElsewhere(sys, a, i, q.queryId, size, columnsOf);
    }
  }

  lemma IdleNext<Row>(sys: System<Row>, i: nat, size: Row -> nat, columnsOf: Row -> seq<string>)
    requires i < |sys.tasks| && !sys.tasks[i].phase.Streaming?
    ensures Step(sys, Next(i), size, columnsOf) == sys
  {
  }

  lemma {:induction false} RunArmed<Row>(sys: System<Row>, actions: seq<Action<Row>>, i: nat, q: Task<Row>,
                                         stops: nat, size: Row -> nat, columnsOf: Row -> seq<string>)
    requires SystemInv(sys, size, columnsOf) && Armed(sys, i, q, stops, size)
    ensures SystemInv(Run(sys, actions, size, columnsOf), size, columnsOf)
    ensures Armed(Run(sys, actions, size, columnsOf), i, q, stops, size)
    decreases |actions|
  {
    hide SystemInv, Step, Armed;
    if actions != [] {
      var last := |actions| - 1;
      RunArmed(sys, actions[..last], i, q, stops, size, columnsOf);
      var before := Run(sys, actions[..last], size, columnsOf);
      StepArmed(before, actions[last], i, q, stops, size, columnsOf);
      StepKeeps(before, actions[last], size, columnsOf);
    }
  }

  // ----- ids that one query has for itself -----

  ghost predicate OwnId<Row>(sys: System<Row>, i: nat, id: string) {
    && i < |sys.tasks| && sys.tasks[i].queryId == id
    && forall j :: 0 <= j < |sys.tasks| && j != i ==> sys.tasks[j].queryId != id
  }

  predicate NotReused<Row>(actions: seq<Action<Row>>, id: string) {
    forall k :: 0 <= k < |actions| && actions[k].Accept? ==> actions[k].queryId != id
  }

  lemma AdvanceKeepsId<Row>(t: Task<Row>, cancelled: bool, size: Row -> nat, columnsOf: Row -> seq<string>)
    requires t.phase.Streaming?
    ensures Advance(t, cancelled, size, columnsOf).queryId == t.queryId
  {
  }

  lemma StepKeepsIds<Row>(sys: System<Row>, a: Action<Row>, size: Row -> nat, columnsOf: Row -> seq<string>)
    ensures var sys' := Step(sys, a, size, columnsOf);
            && |sys'.tasks| >= |sys.tasks|
            && (forall j :: 0 <= j < |sys.tasks| ==> sys'.tasks[j].queryId == sys.tasks[j].queryId)
            && (forall j :: |sys.tasks| <= j < |sys'.tasks| ==> a.Accept? && sys'.tasks[j].queryId == a.queryId)
  {
    hide Advance, Checks, Permits.Acquire, Permits.Release;
    if a.Next? && a.task < |sys.tasks| && sys.tasks[a.task].phase.Streaming? {
      var t := sys.tasks[a.task];
      AdvanceKeepsId(t, Checks(t, size) && t.queryId in sys.cancelSet, size, columnsOf);
    }
  }

  lemma {:induction false} RunKeepsOwnId<Row>(sys: System<Row>, actions: seq<Action<Row>>, i: nat, id: string,
                                              size: Row -> nat, columnsOf: Row -> seq<string>)
    requires OwnId(sys, i, id) && NotReused(actions, id)
    ensures OwnId(Run(sys, actions, size, columnsOf), i, id)
    decreases |actions|
  {
    hide Step;
    if actions != [] {
      var last := |actions| - 1;
      RunKeepsOwnId(sys, actions[..last], i, id, size, columnsOf);
      StepKeepsIds(Run(sys, actions[..last], size, columnsOf), actions[last], size, columnsOf);
    }
  }

  lemma {:induction false} OwnStops<Row>(tasks: seq<Task<Row>>, i: nat, id: string)
    requires forall j :: 0 <= j < |tasks| && j != i ==> tasks[j].queryId != id
    requires i < |tasks| ==> tasks[i].queryId == id
    ensures StopsOf(tasks)[id] == if i < |tasks| && tasks[i].stopped then 1 else 0
  {
    if tasks != [] {
      OwnStops(tasks[..|tasks| - 1], i, id);
    }
  }

  lemma OwnStopsOf<Row>(sys: System<Row>, i: nat, id: string, size: Row -> nat, columnsOf: Row -> seq<string>)
    requires SystemInv(sys, size, columnsOf) && OwnId(sys, i, id)
    ensures sys.stops[id] == if sys.tasks[i].stopped then 1 else 0
  {
    hide TasksInv, Permits.Describes, Permits.WithinLimits, PermitsHeld, StopsOf, Paid;
    OwnStops(sys.tasks, i, id);
  }

  // ----- the main result -----

  /** In every run from every reachable state, for a query that has not returned and
      whose id is in the set. Once it has returned: it was stopped only if its loop had
      yet to ask the set; and unless some query of this id was stopped, it had not, and
      the request is still in the set. So, when the query has its id for itself, it is
      stopped if and only if its loop had yet to ask the set, and otherwise the
      request is still there. */
  lemma CancelStopsIff<Row>(sys: System<Row>, actions: seq<Action<Row>>, i: nat, size: Row -> nat,
                            columnsOf: Row -> seq<string>)
    requires SystemInv(sys, size, columnsOf) && i < |sys.tasks|
    requires Underway(sys.tasks[i].phase) && sys.tasks[i].queryId in sys.cancelSet
    ensures var q, later := sys.tasks[i], Run(sys, actions, size, columnsOf);
            && i < |later.tasks| && later.tasks[i].queryId == q.queryId
            && (HasReturned(later.tasks[i].phase) ==>
                  && (later.tasks[i].stopped ==> Stoppable(q, size))
                  && (later.stops[q.queryId] == sys.stops[q.queryId] ==>
                        !Stoppable(q, size) && q.queryId in later.cancelSet)
                  && (OwnId(sys, i, q.queryId) && NotReused(actions, q.queryId) ==>
                        && (later.tasks[i].stopped <==> Stoppable(q, size))
                        && (!later.tasks[i].stopped ==> q.queryId in later.cancelSet)))
  {
    hide SystemInv, TaskInv, Stoppable, Run, PausesBetween, NotReused, OwnId;
    var q, later := sys.tasks[i], Run(sys, actions, size, columnsOf);
    TaskAt(sys, i, size, columnsOf);
    NotStoppedYet(q, size, columnsOf);
    RunArmed(sys, actions, i, q, sys.stops[q.queryId], size, columnsOf);
    if OwnId(sys, i, q.queryId) && NotReused(actions, q.queryId) {
      RunKeepsOwnId(sys, actions, i, q.queryId, size, columnsOf);
      OwnStopsOf(sys, i, q.queryId, size, columnsOf);
      OwnStopsOf(later, i, q.queryId, size, columnsOf);
    }
  }

  lemma NotStoppedYet<Row>(t: Task<Row>, size: Row -> nat, columnsOf: Row -> seq<string>)
    requires TaskInv(t, size, columnsOf) && Underway(t.phase)
    ensures !t.stopped && !PausesBetween(t.source, t.taken, t.taken)
  {
  }

  /** A result of one row below 256 KiB: its query cannot be stopped, except by
      ClickHouse, which stops before every fetch. */
  lemma OneRowIsNotStopped<Row>(row: Row, size: Row -> nat)
    requires size(row) < MAX_BATCH_BYTES
    ensures !Stoppable(NewTask("q", "c", Sql, [Arrival(row)]), size)
    ensures Stoppable(NewTask("q", "c", ClickHouse, [Pause, Arrival(row), Pause]), size)
  {
    var source := [Arrival(row)];
    FirstFailureFacts(source, 1);
    ReadNext(source, 0);
    assert Readable(source) == [] + [row] == [row];
    assert [row][0..] == [row] && [row][..0] == [];
    assert Bytes([row], size) == size(row);
    var fetched: seq<Event<Row>> := [Pause, Arrival(row), Pause];
    FirstFailureFacts(fetched, 3);
    assert fetched[0].Pause?;
  }
}

/**
  Any number of concurrent queries over the shared permit counters and the shared
  cancel set: the command `db_execute_streaming` with its spawned task, and
  `db_cancel_query` (src-tauri/src/commands/query.rs). A task runs one of three
  loops: that of the SQL drivers, of DuckDB or of ClickHouse. A step is one action
  of one task or of a caller; steps interleave arbitrarily.
*/
module RunProtocol {
  import opened Text
  import opened Wrappers
  import opened Batches
  import opened Streamers
  import Permits = QueryGuard

  /** The error text that the spawned task does not report. */
  const CANCELLED_TEXT: string := "Query cancelled"

  /** Where a query stands after its permit was granted: looking up the connection,
      streaming, recording the outcome, about to drop the permit, done. A query
      whose connection is gone ends as `Lost`. */
  datatype Phase =
    | Looking
    | Streaming
    | Recording(outcome: Outcome)
    | Closing(outcome: Outcome)
    | Finished(outcome: Outcome)
    | Lost

  /** The loop a task runs. The SQL loop asks the cancel set at a full batch, the
      ClickHouse loop before it fetches a chunk, the DuckDB loop never. */
  datatype Kind = Sql | DuckDb(columns: seq<string>) | ClickHouse

  /** What a loop meets next: a row, an error, or a pause without a row. The SQL loop
      has no pauses, the DuckDB loop one when its statement is prepared, the
      ClickHouse loop one before each fetch. */
  datatype Event<Row> = Arrival(row: Row) | Breakdown(message: string) | Pause

  datatype Task<Row> = Task(
    queryId: string, connection: string, kind: Kind, source: seq<Event<Row>>, taken: nat, s: State<Row>,
    header: seq<Batch<Row>>, tail: seq<Batch<Row>>, phase: Phase, stopped: bool)

  function RowsRead<Row>(source: seq<Event<Row>>): seq<Row> {
    if source == [] then []
    else
      var last := |source| - 1;
      RowsRead(source[..last]) + (if source[last].Arrival? then [source[last].row] else [])
  }

  lemma ReadNext<Row>(source: seq<Event<Row>>, n: nat)
    requires n < |source|
    ensures RowsRead(source[..n + 1]) ==
            RowsRead(source[..n]) + (if source[n].Arrival? then [source[n].row] else [])
  {
    assert source[..n + 1][..n] == source[..n];
  }

  /** DuckDB cuts batches by length alone. */
  function SizeBy<Row>(kind: Kind, size: Row -> nat): Row -> nat {
    if kind.DuckDb? then NoBytes() else size
  }

  /** Everything the task has emitted, in order: the header, the row batches, and
      the error batch if there is one. */
  function Emitted<Row>(t: Task<Row>): seq<Batch<Row>> {
    t.header + t.s.sent + t.tail
  }

  datatype System<Row> = System(
    guard: Permits.Guard, cancelSet: set<string>, tasks: seq<Task<Row>>,
    // Permits held by `db_execute` calls, by connection.
    holders: multiset<string>,
    // How often each id was put in the cancel set, and how often a query with
    // that id was stopped by it.
    requests: multiset<string>, stops: multiset<string>)

  function Initial<Row>(): System<Row> {
    System(Permits.IDLE, {}, [], multiset{}, multiset{}, multiset{})
  }

  datatype Action<Row> =
    | Accept(queryId: string, connection: string, kind: Kind, source: seq<Event<Row>>)
    | Spawn(task: nat)
    | Lose(task: nat)
    | Next(task: nat)
    | Record(task: nat)
    | Close(task: nat)
    | Cancel(queryId: string)
    | HolderAcquire(connection: string)
    | HolderDrop(connection: string)

  // ----- one task -----

  function ErrorBatch<Row>(message: string): Batch<Row> {
    Batch(0, [], None, true, 0, Some(message))
  }

  predicate FillsNext<Row>(t: Task<Row>, row: Row, size: Row -> nat) {
    var p := Push(t.s, row, SizeBy(t.kind, size));
    ShouldFlush(|p.batch|, p.bytes)
  }

  /** Whether the task looks at the cancel set in its next step. */
  predicate Checks<Row>(t: Task<Row>, size: Row -> nat) {
    && t.phase.Streaming? && t.taken < |t.source|
    && match t.kind
       case Sql => t.source[t.taken].Arrival? && FillsNext(t, t.source[t.taken].row, size)
       case DuckDb(_) => false
       case ClickHouse => t.source[t.taken].Pause?
  }

  /** The SQL and ClickHouse loops send the header with the first row, DuckDB when
      the statement is prepared. */
  function HeaderAfter<Row>(t: Task<Row>, event: Event<Row>, columnsOf: Row -> seq<string>): seq<Batch<Row>> {
    if t.kind.DuckDb? then [Header(t.kind.columns)]
    else if t.header == [] && event.Arrival? then [Header(columnsOf(event.row))]
    else t.header
  }

  /** The streaming loop's next iteration, or its end; `cancelled` is the answer
      of the cancel set if it is asked. */
  function Advance<Row>(t: Task<Row>, cancelled: bool, size: Row -> nat, columnsOf: Row -> seq<string>): Task<Row>
    requires t.phase.Streaming?
  {
    if t.taken >= |t.source| then
      t.(s := t.s.(sent := Final(t.s)), phase := Recording(Ok))
    else
      var event := t.source[t.taken];
      var next := t.(header := HeaderAfter(t, event, columnsOf), taken := t.taken + 1);
      match event
      case Breakdown(message) => t.(phase := Recording(Err(message)))
      case Pause =>
        if cancelled then t.(s := t.s.(sent := Final(t.s)), phase := Recording(Ok), stopped := true) else next
      case Arrival(row) =>
        var p := Push(t.s, row, SizeBy(t.kind, size));
        if !FillsNext(t, row, size) then next.(s := p)
        else if cancelled then next.(s := p.(sent := Final(p)), phase := Recording(Ok), stopped := true)
        else next.(s := Flush(p))
  }

  /** The end of the spawned task: the error batch, unless the text says that the
      query was cancelled. */
  function Report<Row>(t: Task<Row>): Task<Row>
    requires t.phase.Recording?
  {
    match t.phase.outcome
    case Ok => t.(phase := Closing(Ok))
    case Err(message) =>
      t.(tail := if message == CANCELLED_TEXT then [] else [ErrorBatch(message)], phase := Closing(t.phase.outcome))
  }

  function NewTask<Row>(queryId: string, connection: string, kind: Kind, source: seq<Event<Row>>): Task<Row> {
    Task(queryId, connection, kind, source, 0, Start(), [], [], Looking, false)
  }

  // ----- the system -----

  function Step<Row>(sys: System<Row>, a: Action<Row>, size: Row -> nat, columnsOf: Row -> seq<string>): System<Row> {
    match a
    case Accept(queryId, connection, kind, source) =>
      (match Permits.Acquire(sys.guard, connection)
       case Err(_) => sys
       case Ok(guard) =>
         sys.(guard := guard,
              tasks := sys.tasks + [NewTask(queryId, connection, kind, source)]))
    case Spawn(i) =>
      if i < |sys.tasks| && sys.tasks[i].phase.Looking?
      then sys.(tasks := sys.tasks[i := sys.tasks[i].(phase := Streaming)]) else sys
    case Lose(i) =>
      if i < |sys.tasks| && sys.tasks[i].phase.Looking?
      then sys.(tasks := sys.tasks[i := sys.tasks[i].(phase := Lost)],
                guard := Permits.Release(sys.guard, sys.tasks[i].connection))
      else sys
    case Next(i) =>
      if i < |sys.tasks| && sys.tasks[i].phase.Streaming?
      then
        var t := sys.tasks[i];
        var cancelled := Checks(t, size) && t.queryId in sys.cancelSet;
        sys.(tasks := sys.tasks[i := Advance(t, cancelled, size, columnsOf)],
             cancelSet := if cancelled then sys.cancelSet - {t.queryId} else sys.cancelSet,
             stops := if cancelled then sys.stops + multiset{t.queryId} else sys.stops)
      else sys
    case Record(i) =>
      if i < |sys.tasks| && sys.tasks[i].phase.Recording?
      then sys.(tasks := sys.tasks[i := Report(sys.tasks[i])]) else sys
    case Close(i) =>
      if i < |sys.tasks| && sys.tasks[i].phase.Closing?
      then sys.(tasks := sys.tasks[i := sys.tasks[i].(phase := Finished(sys.tasks[i].phase.outcome))],
                guard := Permits.Release(sys.guard, sys.tasks[i].connection)) else sys
    case Cancel(queryId) =>
      sys.(cancelSet := sys.cancelSet + {queryId}, requests := sys.requests + multiset{queryId})
    case HolderAcquire(connection) =>
      (match Permits.Acquire(sys.guard, connection)
       case Err(_) => sys
       case Ok(guard) => sys.(guard := guard, holders := sys.holders + multiset{connection}))
    case HolderDrop(connection) =>
      if connection in sys.holders
      then sys.(guard := Permits.Release(sys.guard, connection), holders := sys.holders - multiset{connection}) else sys
  }

  function Run<Row>(sys: System<Row>, actions: seq<Action<Row>>, size: Row -> nat, columnsOf: Row -> seq<string>)
    : System<Row>
    decreases |actions|
  {
    if actions == [] then sys
    else
      var last := |actions| - 1;
      Step(Run(sys, actions[..last], size, columnsOf), actions[last], size, columnsOf)
  }

  // ----- what a task keeps -----

  ghost predicate Unbroken<Row>(source: seq<Event<Row>>, n: nat) {
    n <= |source| && forall i :: 0 <= i < n ==> !source[i].Breakdown?
  }

  /** The header sent after `taken` events with these rows. */
  function HeaderSeq<Row>(kind: Kind, taken: nat, rows: seq<Row>, columnsOf: Row -> seq<string>): seq<Batch<Row>> {
    if kind.DuckDb? then (if taken == 0 then [] else [Header(kind.columns)])
    else if rows == [] then [] else [Header(columnsOf(rows[0]))]
  }

  /** What a returned loop has emitted, by its outcome. */
  ghost predicate Returned<Row>(t: Task<Row>, outcome: Outcome, size: Row -> nat)
    requires t.taken <= |t.source|
  {
    var rows := RowsRead(t.source[..t.taken]);
    match outcome
    case Ok =>
      && Delivered(t.s.sent, rows, SizeBy(t.kind, size))
      && (t.stopped || (t.taken == |t.source| && Complete(t.s.sent, rows, SizeBy(t.kind, size))))
    case Err(message) =>
      && t.taken < |t.source| && t.source[t.taken] == Breakdown(message) && !t.stopped
      && BrokenOff(t.s.sent, rows, SizeBy(t.kind, size))
  }

  function ReportOf<Row>(outcome: Outcome): seq<Batch<Row>> {
    if outcome.Ok? || outcome.message == CANCELLED_TEXT then [] else [ErrorBatch(outcome.message)]
  }

  ghost predicate TaskInv<Row>(t: Task<Row>, size: Row -> nat, columnsOf: Row -> seq<string>) {
    && Unbroken(t.source, t.taken)
    && var rows := RowsRead(t.source[..t.taken]);
       && t.header == HeaderSeq(t.kind, t.taken, rows, columnsOf)
       && match t.phase
          case Looking => t.taken == 0 && t.s == Start() && t.tail == [] && !t.stopped
          case Lost => t.taken == 0 && t.s == Start() && t.tail == [] && !t.stopped
          case Streaming => Inv(t.s, rows, SizeBy(t.kind, size)) && t.tail == [] && !t.stopped
          case Recording(outcome) => Returned(t, outcome, size) && t.tail == []
          case Closing(outcome) => Returned(t, outcome, size) && t.tail == ReportOf(outcome)
          case Finished(outcome) => Returned(t, outcome, size) && t.tail == ReportOf(outcome)
  }

  /** A row is taken. */
  lemma AdvanceRow<Row>(t: Task<Row>, cancelled: bool, size: Row -> nat, columnsOf: Row -> seq<string>)
    requires TaskInv(t, size, columnsOf) && t.phase.Streaming? && t.taken < |t.source| && t.source[t.taken].Arrival?
    ensures TaskInv(Advance(t, cancelled, size, columnsOf), size, columnsOf)
  {
    hide Inv, Delivered, RowsRead, Sent, SizeBy;
    var row, rows, measure := t.source[t.taken].row, RowsRead(t.source[..t.taken]), SizeBy(t.kind, size);
    ReadNext(t.source, t.taken);
    if !FillsNext(t, row, size) {
      PushKeepsInv(t.s, rows, row, measure);
    } else if cancelled {
      CancelDelivers(t.s, rows, row, measure);
    } else {
      FlushKeepsInv(t.s, rows, row, measure);
    }
  }

  lemma AdvanceKeeps<Row>(t: Task<Row>, cancelled: bool, size: Row -> nat, columnsOf: Row -> seq<string>)
    requires TaskInv(t, size, columnsOf) && t.phase.Streaming?
    ensures TaskInv(Advance(t, cancelled, size, columnsOf), size, columnsOf)
  {
    hide Inv, RowsRead, Sent, SizeBy, Full, InPlace, Bounded;
    var rows, measure := RowsRead(t.source[..t.taken]), SizeBy(t.kind, size);
    if t.taken < |t.source| && t.source[t.taken].Arrival? {
      AdvanceRow(t, cancelled, size, columnsOf);
    } else if t.taken < |t.source| && t.source[t.taken].Breakdown? {
      FailureBreaksOff(t.s, rows, measure);
    } else {
      FinishCompletes(t.s, rows, measure);
      if t.taken < |t.source| {
        ReadNext(t.source, t.taken);
        NothingAdded(rows);
      }
    }
  }

  lemma NothingAdded<T>(s: seq<T>)
    ensures s + [] == s
  {
  }

  // ----- permits -----

  /** A query holds its permit from acceptance until it is finished or lost. */
  predicate HoldsPermit<Row>(t: Task<Row>) {
    !t.phase.Finished? && !t.phase.Lost?
  }

  function PermitOf<Row>(t: Task<Row>): multiset<string> {
    if HoldsPermit(t) then multiset{t.connection} else multiset{}
  }

  function StopOf<Row>(t: Task<Row>): multiset<string> {
    if t.stopped then multiset{t.queryId} else multiset{}
  }

  function Gather<T>(ts: seq<T>, f: T -> multiset<string>): multiset<string> {
    if ts == [] then multiset{} else Gather(ts[..|ts| - 1], f) + f(ts[|ts| - 1])
  }

  /** The connections of the permits that queries hold. */
  function PermitsHeld<Row>(tasks: seq<Task<Row>>): multiset<string> {
    Gather(tasks, t => PermitOf(t))
  }

  /** The ids of the queries that were stopped by the cancel set. */
  function StopsOf<Row>(tasks: seq<Task<Row>>): multiset<string> {
    Gather(tasks, t => StopOf(t))
  }

  lemma {:induction false} GatherUpdate<T>(ts: seq<T>, i: nat, t: T, f: T -> multiset<string>)
    requires i < |ts|
    ensures Gather(ts[i := t], f) + f(ts[i]) == Gather(ts, f) + f(t)
  {
    var last := |ts| - 1;
    var ts' := ts[i := t];
    if i == last {
      assert ts'[..last] == ts[..last];
      Swap(Gather(ts[..last], f), f(t), f(ts[i]));
    } else {
      GatherUpdate(ts[..last], i, t, f);
      assert ts'[..last] == ts[..last][i := t];
      Swap(Gather(ts'[..last], f), f(ts[last]), f(ts[i]));
      Swap(Gather(ts[..last], f), f(ts[last]), f(t));
    }
  }

  lemma Swap(a: multiset<string>, b: multiset<string>, c: multiset<string>)
    ensures a + b + c == a + c + b
  {
  }

  lemma GatherSame<T>(ts: seq<T>, i: nat, t: T, f: T -> multiset<string>)
    requires i < |ts| && f(t) == f(ts[i])
    ensures Gather(ts[i := t], f) == Gather(ts, f)
  {
    GatherUpdate(ts, i, t, f);
    CancelRight(Gather(ts[i := t], f), Gather(ts, f), f(t));
  }

  lemma CancelRight(a: multiset<string>, b: multiset<string>, c: multiset<string>)
    requires a + c == b + c
    ensures a == b
  {
    assert a == (a + c) - c;
  }

  lemma {:induction false} GatherCounts<T>(ts: seq<T>, i: nat, f: T -> multiset<string>)
    requires i < |ts|
    ensures f(ts[i]) <= Gather(ts, f)
  {
    var last := |ts| - 1;
    if i < last {
      GatherCounts(ts[..last], i, f);
    }
  }

  /** Every entry of the cancel set and every stopped query is paid for by its own
      cancel request. */
  ghost predicate Paid(cancelSet: set<string>, stops: multiset<string>, requests: multiset<string>) {
    multiset(cancelSet) + stops <= requests
  }

  // ----- the whole system -----

  ghost predicate SystemInv<Row>(sys: System<Row>, size: Row -> nat, columnsOf: Row -> seq<string>) {
    && TasksInv(sys.tasks, size, columnsOf)
    && Permits.Describes(sys.guard, PermitsHeld(sys.tasks) + sys.holders)
    && Permits.WithinLimits(PermitsHeld(sys.tasks) + sys.holders)
    && sys.stops == StopsOf(sys.tasks)
    && Paid(sys.cancelSet, sys.stops, sys.requests)
  }

  ghost predicate TasksInv<Row>(tasks: seq<Task<Row>>, size: Row -> nat, columnsOf: Row -> seq<string>) {
    forall i :: 0 <= i < |tasks| ==> TaskInv(tasks[i], size, columnsOf)
  }

  lemma TasksUpdate<Row>(tasks: seq<Task<Row>>, i: nat, t: Task<Row>, size: Row -> nat, columnsOf: Row -> seq<string>)
    requires TasksInv(tasks, size, columnsOf) && i < |tasks| && TaskInv(t, size, columnsOf)
    ensures TasksInv(tasks[i := t], size, columnsOf)
  {
    hide TaskInv;
  }

  /** A step of task `i` that keeps its permit. */
  lemma TaskStepKeeps<Row>(sys: System<Row>, i: nat, t: Task<Row>, size: Row -> nat, columnsOf: Row -> seq<string>)
    requires SystemInv(sys, size, columnsOf) && i < |sys.tasks|
    requires TaskInv(t, size, columnsOf) && PermitOf(t) == PermitOf(sys.tasks[i]) && StopOf(t) == StopOf(sys.tasks[i])
    ensures SystemInv(sys.(tasks := sys.tasks[i := t]), size, columnsOf)
  {
    hide TasksInv, TaskInv, Permits.Describes, Permits.WithinLimits, PermitOf, StopOf, Paid;
    TasksUpdate(sys.tasks, i, t, size, columnsOf);
    GatherSame(sys.tasks, i, t, t => PermitOf(t));
    GatherSame(sys.tasks, i, t, t => StopOf(t));
  }

  /** The step in which a query is stopped consumes its cancel entry. */
  lemma StopKeeps<Row>(sys: System<Row>, i: nat, t: Task<Row>, size: Row -> nat, columnsOf: Row -> seq<string>)
    requires SystemInv(sys, size, columnsOf) && i < |sys.tasks|
    requires TaskInv(t, size, columnsOf) && PermitOf(t) == PermitOf(sys.tasks[i])
    requires StopOf(t) == multiset{t.queryId} && StopOf(sys.tasks[i]) == multiset{} && t.queryId in sys.cancelSet
    ensures SystemInv(sys.(tasks := sys.tasks[i := t], cancelSet := sys.cancelSet - {t.queryId},
                           stops := sys.stops + multiset{t.queryId}),
                      size, columnsOf)
  {
    hide TasksInv, TaskInv, Permits.Describes, Permits.WithinLimits, PermitOf, StopOf, Paid;
    TasksUpdate(sys.tasks, i, t, size, columnsOf);
    GatherSame(sys.tasks, i, t, t => PermitOf(t));
    GatherUpdate(sys.tasks, i, t, t => StopOf(t));
    PaidAfterStop(sys.cancelSet, sys.stops, sys.requests, t.queryId);
  }

  lemma PaidAfterStop(cancelSet: set<string>, stops: multiset<string>, requests: multiset<string>, id: string)
    requires Paid(cancelSet, stops, requests) && id in cancelSet
    ensures Paid(cancelSet - {id}, stops + multiset{id}, requests)
  {
    assert multiset(cancelSet) == multiset(cancelSet - {id}) + multiset{id};
  }

  /** The step in which a query gives its permit back. */
  lemma ReleaseKeeps<Row>(sys: System<Row>, i: nat, t: Task<Row>, size: Row -> nat, columnsOf: Row -> seq<string>)
    requires SystemInv(sys, size, columnsOf) && i < |sys.tasks|
    requires TaskInv(t, size, columnsOf) && StopOf(t) == StopOf(sys.tasks[i])
    requires PermitOf(sys.tasks[i]) == multiset{sys.tasks[i].connection} && PermitOf(t) == multiset{}
    ensures SystemInv(sys.(tasks := sys.tasks[i := t], guard := Permits.Release(sys.guard, sys.tasks[i].connection)),
        size, columnsOf)
  {
    hide TasksInv, TaskInv, Permits.Describes, Permits.WithinLimits, Permits.Release, PermitOf, StopOf, Paid;
    var connection := sys.tasks[i].connection;
    TasksUpdate(sys.tasks, i, t, size, columnsOf);
    GatherSame(sys.tasks, i, t, t => StopOf(t));
    GatherCounts(sys.tasks, i, t => PermitOf(t));
    GatherUpdate(sys.tasks, i, t, t => PermitOf(t));
    Permits.ReleaseDescribes(sys.guard, PermitsHeld(sys.tasks) + sys.holders, connection);
    TakeOne(PermitsHeld(sys.tasks[i := t]), PermitsHeld(sys.tasks), sys.holders, connection);
  }

  lemma TakeOne(after: multiset<string>, before: multiset<string>, others: multiset<string>, id: string)
    requires after + multiset{id} == before + multiset{}
    ensures after + others == before + others - multiset{id}
  {
    assert before == after + multiset{id};
  }

  lemma AcceptKeeps<Row>(sys: System<Row>, queryId: string, connection: string, kind: Kind, source: seq<Event<Row>>,
                         size: Row -> nat, columnsOf: Row -> seq<string>)
    requires SystemInv(sys, size, columnsOf)
    ensures SystemInv(Step(sys, Accept(queryId, connection, kind, source), size, columnsOf), size, columnsOf)
  {
    hide TasksInv, TaskInv, Permits.Describes, Permits.WithinLimits, Permits.Acquire, Paid, PermitOf, StopOf, Gather,
         Start;
    Permits.AcquireDescribes(sys.guard, PermitsHeld(sys.tasks) + sys.holders, connection);
    if Permits.Acquire(sys.guard, connection).Ok? {
      var t := NewTask(queryId, connection, kind, source);
      NewTaskInv(queryId, connection, kind, source, size, columnsOf);
      TasksSnoc(sys.tasks, t, size, columnsOf);
      GatherSnoc(sys.tasks, t, t => PermitOf(t));
      GatherSnoc(sys.tasks, t, t => StopOf(t));
      Swap(PermitsHeld(sys.tasks), multiset{connection}, sys.holders);
    }
  }

  lemma NewTaskInv<Row>(queryId: string, connection: string, kind: Kind, source: seq<Event<Row>>, size: Row -> nat,
                        columnsOf: Row -> seq<string>)
    ensures var t := NewTask(queryId, connection, kind, source);
            TaskInv(t, size, columnsOf) && PermitOf(t) == multiset{connection} && StopOf(t) == multiset{}
  {
    assert source[..0] == [];
  }

  lemma TasksSnoc<Row>(tasks: seq<Task<Row>>, t: Task<Row>, size: Row -> nat, columnsOf: Row -> seq<string>)
    requires TasksInv(tasks, size, columnsOf) && TaskInv(t, size, columnsOf)
    ensures TasksInv(tasks + [t], size, columnsOf)
  {
    hide TaskInv;
  }

  lemma GatherSnoc<T>(ts: seq<T>, t: T, f: T -> multiset<string>)
    ensures Gather(ts + [t], f) == Gather(ts, f) + f(t)
  {
    assert (ts + [t])[..|ts|] == ts;
  }

  lemma TaskAdvances<Row>(t: Task<Row>, cancelled: bool, size: Row -> nat, columnsOf: Row -> seq<string>)
    requires TaskInv(t, size, columnsOf) && t.phase.Streaming? && (cancelled ==> Checks(t, size))
    ensures var t' := Advance(t, cancelled, size, columnsOf);
            && TaskInv(t', size, columnsOf)
            && PermitOf(t') == PermitOf(t) && t'.queryId == t.queryId && !t.stopped && t'.stopped == cancelled
  {
    NotStopped(t, size, columnsOf);
    hide TaskInv, Advance, Checks, PermitOf;
    AdvanceKeeps(t, cancelled, size, columnsOf);
    AdvanceFacts(t, cancelled, size, columnsOf);
  }

  lemma NextKeeps<Row>(sys: System<Row>, i: nat, size: Row -> nat, columnsOf: Row -> seq<string>)
    requires SystemInv(sys, size, columnsOf) && i < |sys.tasks| && sys.tasks[i].phase.Streaming?
    ensures SystemInv(Step(sys, Next(i), size, columnsOf), size, columnsOf)
  {
    hide TaskInv, SystemInv, Advance, Checks, PermitOf;
    var t := sys.tasks[i];
    var cancelled := Checks(t, size) && t.queryId in sys.cancelSet;
    TaskAt(sys, i, size, columnsOf);
    TaskAdvances(t, cancelled, size, columnsOf);
    var t' := Advance(t, cancelled, size, columnsOf);
    if cancelled {
      StopKeeps(sys, i, t', size, columnsOf);
    } else {
      TaskStepKeeps(sys, i, t', size, columnsOf);
    }
  }

  lemma NotStopped<Row>(t: Task<Row>, size: Row -> nat, columnsOf: Row -> seq<string>)
    requires TaskInv(t, size, columnsOf) && t.phase.Streaming?
    ensures !t.stopped
  {
  }

  lemma AdvanceFacts<Row>(t: Task<Row>, cancelled: bool, size: Row -> nat, columnsOf: Row -> seq<string>)
    requires t.phase.Streaming? && !t.stopped && (cancelled ==> Checks(t, size))
    ensures var t' := Advance(t, cancelled, size, columnsOf);
            PermitOf(t') == PermitOf(t) && t'.queryId == t.queryId && t'.stopped == cancelled
  {
  }

  lemma TaskAt<Row>(sys: System<Row>, i: nat, size: Row -> nat, columnsOf: Row -> seq<string>)
    requires SystemInv(sys, size, columnsOf) && i < |sys.tasks|
    ensures TaskInv(sys.tasks[i], size, columnsOf)
  {
    hide TaskInv;
  }

  lemma SpawnKeeps<Row>(sys: System<Row>, i: nat, size: Row -> nat, columnsOf: Row -> seq<string>)
    requires SystemInv(sys, size, columnsOf) && i < |sys.tasks| && sys.tasks[i].phase.Looking?
    ensures SystemInv(Step(sys, Spawn(i), size, columnsOf), size, columnsOf)
  {
    hide SystemInv;
    var t := sys.tasks[i];
    TaskAt(sys, i, size, columnsOf);
    assert TaskInv(t.(phase := Streaming), size, columnsOf) by {
      StartInv(SizeBy(t.kind, size));
      assert t.source[..0] == [];
    }
    hide TaskInv;
    TaskStepKeeps(sys, i, t.(phase := Streaming), size, columnsOf);
  }

  lemma LoseKeeps<Row>(sys: System<Row>, i: nat, size: Row -> nat, columnsOf: Row -> seq<string>)
    requires SystemInv(sys, size, columnsOf) && i < |sys.tasks| && sys.tasks[i].phase.Looking?
    ensures SystemInv(Step(sys, Lose(i), size, columnsOf), size, columnsOf)
  {
    hide SystemInv, Start, RowsRead;
    TaskAt(sys, i, size, columnsOf);
    ReleaseKeeps(sys, i, sys.tasks[i].(phase := Lost), size, columnsOf);
  }

  lemma RecordKeeps<Row>(sys: System<Row>, i: nat, size: Row -> nat, columnsOf: Row -> seq<string>)
    requires SystemInv(sys, size, columnsOf) && i < |sys.tasks| && sys.tasks[i].phase.Recording?
    ensures SystemInv(Step(sys, Record(i), size, columnsOf), size, columnsOf)
  {
    hide SystemInv, Delivered, Sent, RowsRead, SizeBy;
    TaskAt(sys, i, size, columnsOf);
    TaskStepKeeps(sys, i, Report(sys.tasks[i]), size, columnsOf);
  }

  lemma CloseKeeps<Row>(sys: System<Row>, i: nat, size: Row -> nat, columnsOf: Row -> seq<string>)
    requires SystemInv(sys, size, columnsOf) && i < |sys.tasks| && sys.tasks[i].phase.Closing?
    ensures SystemInv(Step(sys, Close(i), size, columnsOf), size, columnsOf)
  {
    hide SystemInv, Delivered, Sent, RowsRead, SizeBy;
    TaskAt(sys, i, size, columnsOf);
    ReleaseKeeps(sys, i, sys.tasks[i].(phase := Finished(sys.tasks[i].phase.outcome)), size, columnsOf);
  }

  lemma StepKeeps<Row>(sys: System<Row>, a: Action<Row>, size: Row -> nat, columnsOf: Row -> seq<string>)
    requires SystemInv(sys, size, columnsOf)
    ensures SystemInv(Step(sys, a, size, columnsOf), size, columnsOf)
  {
    hide SystemInv, Permits.Acquire, Permits.Release, Advance, Report;
    match a {
      case Accept(queryId, connection, kind, source) =>
        AcceptKeeps(sys, queryId, connection, kind, source, size, columnsOf);
      case Spawn(i) =>
        if i < |sys.tasks| && sys.tasks[i].phase.Looking? { SpawnKeeps(sys, i, size, columnsOf); }
      case Lose(i) =>
        if i < |sys.tasks| && sys.tasks[i].phase.Looking? { LoseKeeps(sys, i, size, columnsOf); }
      case Next(i) =>
        if i < |sys.tasks| && sys.tasks[i].phase.Streaming? { NextKeeps(sys, i, size, columnsOf); }
      case Record(i) =>
        if i < |sys.tasks| && sys.tasks[i].phase.Recording? { RecordKeeps(sys, i, size, columnsOf); }
      case Close(i) =>
        if i < |sys.tasks| && sys.tasks[i].phase.Closing? { CloseKeeps(sys, i, size, columnsOf); }
      case Cancel(queryId) => CancelKeeps(sys, queryId, size, columnsOf);
      case HolderAcquire(connection) => HolderAcquireKeeps(sys, connection, size, columnsOf);
      case HolderDrop(connection) => HolderDropKeeps(sys, connection, size, columnsOf);
    }
  }

  lemma CancelKeeps<Row>(sys: System<Row>, queryId: string, size: Row -> nat, columnsOf: Row -> seq<string>)
    requires SystemInv(sys, size, columnsOf)
    ensures SystemInv(Step(sys, Cancel(queryId), size, columnsOf), size, columnsOf)
  {
    hide TasksInv, Permits.Describes, Permits.WithinLimits, PermitsHeld, StopsOf;
    assert multiset(sys.cancelSet + {queryId}) <= multiset(sys.cancelSet) + multiset{queryId};
  }

  lemma HolderAcquireKeeps<Row>(sys: System<Row>, connection: string, size: Row -> nat, columnsOf: Row -> seq<string>)
    requires SystemInv(sys, size, columnsOf)
    ensures SystemInv(Step(sys, HolderAcquire(connection), size, columnsOf), size, columnsOf)
  {
    hide TasksInv, Permits.Describes, Permits.WithinLimits, PermitsHeld, StopsOf, Permits.Acquire;
    var live := PermitsHeld(sys.tasks) + sys.holders;
    Permits.AcquireDescribes(sys.guard, live, connection);
    assert PermitsHeld(sys.tasks) + (sys.holders + multiset{connection}) == live + multiset{connection};
  }

  lemma HolderDropKeeps<Row>(sys: System<Row>, connection: string, size: Row -> nat, columnsOf: Row -> seq<string>)
    requires SystemInv(sys, size, columnsOf)
    ensures SystemInv(Step(sys, HolderDrop(connection), size, columnsOf), size, columnsOf)
  {
    hide TasksInv, Permits.Describes, Permits.WithinLimits, PermitsHeld, StopsOf, Permits.Release;
    if connection in sys.holders {
      var live := PermitsHeld(sys.tasks) + sys.holders;
      Permits.ReleaseDescribes(sys.guard, live, connection);
      assert PermitsHeld(sys.tasks) + (sys.holders - multiset{connection}) == live - multiset{connection};
    }
  }

  lemma InitialInv<Row>(size: Row -> nat, columnsOf: Row -> seq<string>)
    ensures SystemInv(Initial(), size, columnsOf)
  {
  }

  lemma {:induction false} RunKeeps<Row>(actions: seq<Action<Row>>, size: Row -> nat, columnsOf: Row -> seq<string>)
    ensures SystemInv(Run(Initial(), actions, size, columnsOf), size, columnsOf)
  {
    if actions == [] {
      InitialInv(size, columnsOf);
    } else {
      var last := |actions| - 1;
      RunKeeps(actions[..last], size, columnsOf);
      StepKeeps(Run(Initial(), actions[..last], size, columnsOf), actions[last], size, columnsOf);
    }
  }
}

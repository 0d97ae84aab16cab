/**
  What the run protocol guarantees, for every run of any number of queries
  (src-tauri/src/commands/query.rs).
*/
module RunGuarantees {
  import opened Text
  import opened Wrappers
  import opened Batches
  import opened Streamers
  import opened RunProtocol
  import Permits = QueryGuard

  /** Only the last emission may be final. */
  ghost predicate OnlyLastFinal<Row>(bs: seq<Batch<Row>>) {
    forall j :: 0 <= j < |bs| - 1 ==> !bs[j].isFinal
  }

  predicate EndsFinal<Row>(bs: seq<Batch<Row>>) {
    bs != [] && bs[|bs| - 1].isFinal
  }

  /** Whether a final batch is due by now. */
  predicate FinalDue(phase: Phase) {
    match phase
    case Recording(outcome) => outcome.Ok?
    case Closing(outcome) => outcome != Err(CANCELLED_TEXT)
    case Finished(outcome) => outcome != Err(CANCELLED_TEXT)
    case _ => false
  }

  predicate ReturnedOk(phase: Phase) {
    match phase
    case Recording(outcome) => outcome.Ok?
    case Closing(outcome) => outcome.Ok?
    case Finished(outcome) => outcome.Ok?
    case _ => false
  }

  lemma SentHasNoFinal<Row>(bs: seq<Batch<Row>>, size: Row -> nat)
    requires Sent(bs, size)
    ensures forall j :: 0 <= j < |bs| ==> !bs[j].isFinal
  {
    hide InPlace, Bounded, Full;
    forall j | 0 <= j < |bs| ensures !bs[j].isFinal {
      assert SentAt(bs, j, size);
    }
  }

  /** The row batches of a task: final at the end or nowhere. */
  lemma RowBatchesFinal<Row>(t: Task<Row>, size: Row -> nat, columnsOf: Row -> seq<string>)
    requires TaskInv(t, size, columnsOf)
    ensures OnlyLastFinal(t.s.sent)
    ensures EndsFinal(t.s.sent) <==> ReturnedOk(t.phase)
  {
    hide RowsRead, InPlace, Bounded, HeaderSeq, SizeBy;
    var bs, measure := t.s.sent, SizeBy(t.kind, size);
    if Sent(bs, measure) {
      SentHasNoFinal(bs, measure);
    } else {
      var init := bs[..|bs| - 1];
      SentHasNoFinal(init, measure);
      assert forall j :: 0 <= j < |init| ==> init[j] == bs[j];
    }
  }

  lemma FinalsOfParts<Row>(header: seq<Batch<Row>>, sent: seq<Batch<Row>>, tail: seq<Batch<Row>>)
    requires forall j :: 0 <= j < |header| ==> !header[j].isFinal
    requires OnlyLastFinal(sent)
    requires tail == [] || (|tail| == 1 && tail[0].isFinal && !EndsFinal(sent))
    ensures OnlyLastFinal(header + sent + tail)
    ensures EndsFinal(header + sent + tail) <==> EndsFinal(sent) || tail != []
  {
    var bs := header + sent + tail;
    forall j | 0 <= j < |bs| - 1 ensures !bs[j].isFinal {
      if |header| <= j < |header| + |sent| {
        assert bs[j] == sent[j - |header|];
      }
    }
    if sent != [] && tail == [] {
      assert bs[|bs| - 1] == sent[|sent| - 1];
    }
  }

  /** A query emits at most one final batch and nothing behind it; it emits one
      exactly when it returned normally or with an error whose text is not
      "Query cancelled". */
  lemma OneFinalBatch<Row>(t: Task<Row>, size: Row -> nat, columnsOf: Row -> seq<string>)
    requires TaskInv(t, size, columnsOf)
    ensures OnlyLastFinal(Emitted(t))
    ensures EndsFinal(Emitted(t)) <==> FinalDue(t.phase)
  {
    RowBatchesFinal(t, size, columnsOf);
    hide Inv, Returned, RowsRead;
    FinalsOfParts(t.header, t.s.sent, t.tail);
  }

  /** What has become of the rows of a query that returned. */
  ghost predicate Accounted<Row>(t: Task<Row>, outcome: Outcome, size: Row -> nat)
    requires t.taken <= |t.source|
  {
    var rows, measure := RowsRead(t.source[..t.taken]), SizeBy(t.kind, size);
    match outcome
    case Ok =>
      && Delivered(t.s.sent, rows, measure)
      && (t.stopped || (t.taken == |t.source| && Complete(t.s.sent, rows, measure)))
    case Err(message) =>
      t.taken < |t.source| && t.source[t.taken] == Breakdown(message) && BrokenOff(t.s.sent, rows, measure)
  }

  // ----- what the emissions tell -----

  /** The columns to announce: DuckDB's once its statement is prepared, otherwise those
      of the first row. */
  function ColumnsDue<Row>(t: Task<Row>, columnsOf: Row -> seq<string>): Option<seq<string>>
    requires t.taken <= |t.source|
  {
    var rows := RowsRead(t.source[..t.taken]);
    if t.kind.DuckDb? then (if t.taken > 0 then Some(t.kind.columns) else None)
    else if rows != [] then Some(columnsOf(rows[0]))
    else None
  }

  /** The error to report. */
  function ErrorDue(phase: Phase): Option<string> {
    if (phase.Closing? || phase.Finished?) && phase.outcome.Err? && phase.outcome.message != "Query cancelled"
    then Some(phase.outcome.message)
    else None
  }

  /** The first emission, and no other, announces the columns; the last one, and no
      other, reports the error. Both are without rows, and the error is final. */
  ghost predicate Told<Row>(t: Task<Row>, columnsOf: Row -> seq<string>)
    requires t.taken <= |t.source|
  {
    var bs, columns, error := Emitted(t), ColumnsDue(t, columnsOf), ErrorDue(t.phase);
    && (forall j :: 0 <= j < |bs| ==> bs[j].columns == if j == 0 then columns else None)
    && (forall j :: 0 <= j < |bs| ==> bs[j].error == if j == |bs| - 1 then error else None)
    && (columns.Some? ==> bs != [] && bs[0].index == 0 && bs[0].rows == [] && bs[0].rowsSoFar == 0 && !bs[0].isFinal)
    && (error.Some? ==>
          var last := |bs| - 1;
          bs != [] && bs[last].index == 0 && bs[last].rows == [] && bs[last].rowsSoFar == 0 && bs[last].isFinal)
  }

  lemma PlainParts<Row>(t: Task<Row>, size: Row -> nat, columnsOf: Row -> seq<string>)
    requires TaskInv(t, size, columnsOf)
    ensures forall j :: 0 <= j < |t.s.sent| ==> t.s.sent[j].columns == None && t.s.sent[j].error == None
  {
    hide RowsRead, HeaderSeq, SizeBy, Bounded, Full;
    var bs, measure := t.s.sent, SizeBy(t.kind, size);
    if bs != [] && !Sent(bs, measure) {
      var init := bs[..|bs| - 1];
      SentIsPlain(init, measure);
      assert forall j :: 0 <= j < |init| ==> init[j] == bs[j];
    } else {
      SentIsPlain(bs, measure);
    }
  }

  lemma SentIsPlain<Row>(bs: seq<Batch<Row>>, size: Row -> nat)
    requires Sent(bs, size)
    ensures forall j :: 0 <= j < |bs| ==> bs[j].columns == None && bs[j].error == None
  {
    hide Bounded, Full;
    forall j | 0 <= j < |bs|
      ensures bs[j].columns == None && bs[j].error == None
    {
      assert SentAt(bs, j, size);
    }
  }

  lemma TaskTells<Row>(t: Task<Row>, size: Row -> nat, columnsOf: Row -> seq<string>)
    requires TaskInv(t, size, columnsOf)
    ensures Told(t, columnsOf)
  {
    PlainParts(t, size, columnsOf);
    HeaderIsDue(t, size, columnsOf);
    hide TaskInv, ColumnsDue, ErrorDue;
    HeaderAndTail(t.header, t.s.sent, t.tail);
  }

  lemma HeaderIsDue<Row>(t: Task<Row>, size: Row -> nat, columnsOf: Row -> seq<string>)
    requires TaskInv(t, size, columnsOf)
    ensures t.taken <= |t.source|
    ensures t.header == match ColumnsDue(t, columnsOf) case None => [] case Some(columns) => [Header(columns)]
    ensures t.tail == match ErrorDue(t.phase) case None => [] case Some(message) => [ErrorBatch(message)]
  {
    hide Inv, Returned, RowsRead;
  }

  /** Three parts in a row, of which the first and the last hold at most one. */
  lemma HeaderAndTail<T>(header: seq<T>, sent: seq<T>, tail: seq<T>)
    requires |header| <= 1 && |tail| <= 1
    ensures var bs := header + sent + tail;
            && (header != [] ==> bs[0] == header[0])
            && (tail != [] ==> bs[|bs| - 1] == tail[0])
            && forall j :: |header| <= j < |bs| - |tail| ==> bs[j] == sent[j - |header|]
  {
  }

  /** In every reachable state and for every accepted query: the columns are
      announced first of all; an error is reported with its text, last of all; at
      most one batch is final, last of all; it is there exactly when due; until the
      query is finished, its permit is counted; an early stop was requested by its
      own id; a query that finished normally without one delivered all its rows; and
      one that failed sent the first rows before the failure, short of them by less
      than a batch. */
  lemma EveryQuery<Row>(actions: seq<Action<Row>>, i: nat, size: Row -> nat, columnsOf: Row -> seq<string>)
    requires i < |Run(Initial(), actions, size, columnsOf).tasks|
    ensures var sys := Run(Initial(), actions, size, columnsOf);
            var t := sys.tasks[i];
            && OnlyLastFinal(Emitted(t)) && (EndsFinal(Emitted(t)) <==> FinalDue(t.phase))
            && (HoldsPermit(t) ==> t.connection in PermitsHeld(sys.tasks))
            && (t.stopped ==> t.queryId in sys.requests)
            && t.taken <= |t.source| && Told(t, columnsOf)
            && (t.phase.Finished? ==> Accounted(t, t.phase.outcome, size))
  {
    var sys := Run(Initial(), actions, size, columnsOf);
    var t := sys.tasks[i];
    RunKeeps(actions, size, columnsOf);
    TaskAt(sys, i, size, columnsOf);
    OneFinalBatch(t, size, columnsOf);
    TaskTells(t, size, columnsOf);
    GatherCounts(sys.tasks, i, t => PermitOf(t));
    GatherCounts(sys.tasks, i, t => StopOf(t));
    hide Run, Emitted, OnlyLastFinal, EndsFinal, FinalDue, Delivered, Complete, BrokenOff, Inv, RowsRead, Gather, Told;
    if t.stopped {
      StopWasRequested(sys, t.queryId, size, columnsOf);
    }
  }

  lemma StopWasRequested<Row>(sys: System<Row>, id: string, size: Row -> nat, columnsOf: Row -> seq<string>)
    requires SystemInv(sys, size, columnsOf) && id in sys.stops
    ensures id in sys.requests
  {
    hide TasksInv, Permits.Describes, Permits.WithinLimits, StopsOf;
    assert sys.stops <= multiset(sys.cancelSet) + sys.stops;
  }

  /** In every reachable state: the counters hold exactly one permit for each
      unfinished query and each `db_execute` call, within the limits, and each
      cancel request stops at most one query. */
  lemma EveryState<Row>(actions: seq<Action<Row>>, size: Row -> nat, columnsOf: Row -> seq<string>)
    ensures var sys := Run(Initial(), actions, size, columnsOf);
            && sys.guard.total == |PermitsHeld(sys.tasks) + sys.holders| <= 6
            && (forall c :: Permits.CountOf(sys.guard, c) == PermitsHeld(sys.tasks)[c] + sys.holders[c] <= 2)
            && (forall id :: StopsOf(sys.tasks)[id] <= sys.requests[id])
  {
    var sys := Run(Initial(), actions, size, columnsOf);
    RunKeeps(actions, size, columnsOf);
    hide Run, PermitsHeld, StopsOf, TasksInv;
    var live := PermitsHeld(sys.tasks) + sys.holders;
    forall c ensures Permits.CountOf(sys.guard, c) == live[c] <= 2 {
      assert c in live <==> c in sys.guard.perConnection;
    }
    forall id ensures StopsOf(sys.tasks)[id] <= sys.requests[id] {
      assert (multiset(sys.cancelSet) + sys.stops)[id] <= sys.requests[id];
    }
  }

  /** Once a query has emitted its final batch, no step of any task changes what
      it has emitted. */
  lemma NothingAfterFinal<Row>(sys: System<Row>, a: Action<Row>, i: nat, size: Row -> nat,
                               columnsOf: Row -> seq<string>)
    requires SystemInv(sys, size, columnsOf) && i < |sys.tasks| && EndsFinal(Emitted(sys.tasks[i]))
    ensures var sys' := Step(sys, a, size, columnsOf);
            i < |sys'.tasks| && Emitted(sys'.tasks[i]) == Emitted(sys.tasks[i])
  {
    var t := sys.tasks[i];
    TaskAt(sys, i, size, columnsOf);
    OneFinalBatch(t, size, columnsOf);
    assert !t.phase.Streaming? && (t.phase.Recording? ==> t.phase.outcome.Ok?);
    EmissionsStand(sys, a, i, size, columnsOf);
  }

  /** Only a streaming task and the report of an error emit. */
  lemma EmissionsStand<Row>(sys: System<Row>, a: Action<Row>, i: nat, size: Row -> nat, columnsOf: Row -> seq<string>)
    requires i < |sys.tasks| && !sys.tasks[i].phase.Streaming?
    requires sys.tasks[i].phase.Recording? ==> sys.tasks[i].phase.outcome.Ok?
    ensures var sys' := Step(sys, a, size, columnsOf);
            i < |sys'.tasks| && Emitted(sys'.tasks[i]) == Emitted(sys.tasks[i])
  {
    hide Advance, Checks, Permits.Acquire, Permits.Release;
    match a
    case Record(j) =>
    case Next(j) =>
    case _ =>
  }

  lemma {:induction false} ReadPrefix<Row>(source: seq<Event<Row>>, n: nat)
    requires n <= |source|
    ensures RowsRead(source[..n]) <= RowsRead(source)
    ensures |RowsRead(source)| <= |source|
  {
    if n < |source| {
      var init := source[..|source| - 1];
      ReadPrefix(init, n);
      assert init[..n] == source[..n];
    } else {
      assert source[..n] == source;
      if n > 0 { ReadPrefix(source[..n - 1], n - 1); }
    }
  }

  // ----- errors of the SQL drivers -----

  /** How an error of the row stream is printed (`DbError::Sqlx`, src-tauri/src/error.rs). */
  const SQL_ERROR: string := "SQL error: "

  predicate SqlErrors<Row>(source: seq<Event<Row>>) {
    forall i :: 0 <= i < |source| && source[i].Breakdown? ==> StartsWith(source[i].message, SQL_ERROR)
  }

  /** With the errors a SQL row stream can report, every query that finished has
      emitted its final batch; no exception is left. */
  lemma FinishedSqlQueryEndsFinal<Row>(actions: seq<Action<Row>>, i: nat, size: Row -> nat,
                                       columnsOf: Row -> seq<string>)
    requires i < |Run(Initial(), actions, size, columnsOf).tasks|
    requires SqlErrors(Run(Initial(), actions, size, columnsOf).tasks[i].source)
    requires Run(Initial(), actions, size, columnsOf).tasks[i].phase.Finished?
    ensures var t := Run(Initial(), actions, size, columnsOf).tasks[i];
            && EndsFinal(Emitted(t)) && OnlyLastFinal(Emitted(t))
            && Emitted(t)[|Emitted(t)| - 1].error ==
               match t.phase.outcome case Ok => None case Err(message) => Some(message)
  {
    var t := Run(Initial(), actions, size, columnsOf).tasks[i];
    EveryQuery(actions, i, size, columnsOf);
    hide Run, Emitted, OnlyLastFinal, EndsFinal, Delivered, Complete, BrokenOff, RowsRead;
    if t.phase.outcome.Err? {
      assert t.source[t.taken] == Breakdown(t.phase.outcome.message);
      NotCancelledText(t.phase.outcome.message);
    }
  }

  lemma NotCancelledText(message: string)
    requires StartsWith(message, SQL_ERROR)
    ensures message != CANCELLED_TEXT
  {
    assert message[0] == SQL_ERROR[0] && CANCELLED_TEXT[0] == 'Q';
  }

  // ----- tasks and loops -----

  function EventOf<Row>(item: Item<Row>): Event<Row> {
    match item
    case Row(row) => Arrival(row)
    case Failure(message) => Breakdown(message)
  }

  /** What the SQL loop meets. */
  function SqlSource<Row>(items: seq<Item<Row>>): (source: seq<Event<Row>>)
    ensures |source| == |items| && forall i :: 0 <= i < |items| ==> source[i] == EventOf(items[i])
  {
    seq(|items|, i requires 0 <= i < |items| => EventOf(items[i]))
  }

  /** What the DuckDB loop meets, from the prepared statement on. */
  function DuckDbSource<Row>(items: seq<Item<Row>>): seq<Event<Row>> {
    [Pause] + SqlSource(items)
  }

  function Arrivals<Row>(rows: seq<Row>): seq<Event<Row>> {
    if rows == [] then [] else Arrivals(rows[..|rows| - 1]) + [Arrival(rows[|rows| - 1])]
  }

  /** Before each chunk a pause, then the rows whose lines it completes. */
  function ChunkEvents<Row>(chunks: seq<Chunk>, parse: string -> Option<Row>): seq<Event<Row>> {
    if chunks == [] then []
    else
      var before := chunks[..|chunks| - 1];
      ChunkEvents(before, parse) + [Pause]
      + match chunks[|chunks| - 1]
        case Data(text) => Arrivals(ParsedRows(Leftover(TextOf(before)) + text, parse))
        case Broken(message) => [Breakdown(message)]
  }

  /** What the ClickHouse loop meets; it pauses once more before it finds the end. */
  function ClickHouseSource<Row>(chunks: seq<Chunk>, parse: string -> Option<Row>): seq<Event<Row>> {
    ChunkEvents(chunks, parse) + [Pause]
  }

  lemma {:induction false} ReadAppend<Row>(a: seq<Event<Row>>, b: seq<Event<Row>>)
    ensures RowsRead(a + b) == RowsRead(a) + RowsRead(b)
  {
    if b == [] {
      assert a + b == a;
    } else {
      var init := b[..|b| - 1];
      ReadAppend(a, init);
      assert (a + b)[..|a + b| - 1] == a + init;
    }
  }

  lemma {:induction false} ReadArrivals<Row>(rows: seq<Row>)
    ensures RowsRead(Arrivals(rows)) == rows
  {
    if rows != [] {
      var init := Arrivals(rows[..|rows| - 1]);
      ReadArrivals(rows[..|rows| - 1]);
      assert Arrivals(rows)[..|init|] == init;
    }
  }

  lemma ReadPause<Row>()
    ensures RowsRead<Row>([Pause]) == []
  {
    assert [Event<Row>.Pause][..0] == [];
  }

  lemma {:induction false} ReadSqlSource<Row>(items: seq<Item<Row>>)
    ensures RowsRead(SqlSource(items)) == RowsIn(items)
  {
    if items != [] {
      var init := items[..|items| - 1];
      ReadSqlSource(init);
      assert SqlSource(items)[..|init|] == SqlSource(init);
    }
  }

  /** The rows the ClickHouse loop meets are those of the whole text. */
  lemma {:induction false} ReadChunkEvents<Row>(chunks: seq<Chunk>, parse: string -> Option<Row>)
    requires forall i :: 0 <= i < |chunks| ==> chunks[i].Data?
    ensures RowsRead(ChunkEvents(chunks, parse)) == ParsedRows(TextOf(chunks), parse)
  {
    hide ParsedRows, Leftover;
    if chunks == [] {
      UnfoldLine("", parse);
      assert FindNewline("") == 0;
    } else {
      var before, text := chunks[..|chunks| - 1], chunks[|chunks| - 1].text;
      var rows := ParsedRows(Leftover(TextOf(before)) + text, parse);
      ReadChunkEvents(before, parse);
      LinesAppend(TextOf(before), text, parse);
      ReadAppend(ChunkEvents(before, parse) + [Pause], Arrivals(rows));
      ReadAppend(ChunkEvents(before, parse), [Pause]);
      ReadPause<Row>();
      ReadArrivals(rows);
    }
  }

  /** The stepwise loop of a task and the loop of its kind are one: over the same
      rows, neither cancelled, they emit the same header and the same batches. */
  lemma TaskEmitsWhatStreamSqlDoes<Row>(t: Task<Row>, items: seq<Item<Row>>, size: Row -> nat,
                                        columnsOf: Row -> seq<string>, taken: nat, header: Option<Batch<Row>>,
                                        batches: seq<Batch<Row>>)
    requires TaskInv(t, size, columnsOf) && t.phase == Finished(Ok) && !t.stopped
    requires t.kind == Sql && t.source == SqlSource(items)
    requires SqlRun(items, size, columnsOf, taken, header, batches, Ok, false)
    ensures t.s.sent == batches
    ensures t.header == if header.None? then [] else [header.value]
  {
    hide RowsIn, RowsRead, Delivered, Complete;
    assert t.source[..|t.source|] == t.source && items[..|items|] == items;
    ReadSqlSource(items);
    BatchesDetermined(t.s.sent, batches, RowsIn(items), size);
  }

  lemma TaskEmitsWhatStreamDuckDbDoes<Row>(t: Task<Row>, items: seq<Item<Row>>, size: Row -> nat,
                                           columnsOf: Row -> seq<string>, columns: seq<string>, taken: nat,
                                           batches: seq<Batch<Row>>)
    requires TaskInv(t, size, columnsOf) && t.phase == Finished(Ok) && !t.stopped
    requires t.kind == DuckDb(columns) && t.source == DuckDbSource(items)
    requires RowsRun(items, NoBytes(), taken, batches, Ok, false)
    ensures t.s.sent == batches && t.header == [Header(columns)]
  {
    hide RowsIn, RowsRead, Delivered, Complete;
    assert t.source[..|t.source|] == t.source && items[..|items|] == items;
    ReadAppend([Pause], SqlSource(items));
    ReadPause<Row>();
    ReadSqlSource(items);
    assert [] + RowsIn(items) == RowsIn(items);
    BatchesDetermined(t.s.sent, batches, RowsIn(items), NoBytes());
  }

  lemma TaskEmitsWhatStreamClickHouseDoes<Row>(t: Task<Row>, chunks: seq<Chunk>, parse: string -> Option<Row>,
                                               size: Row -> nat, columnsOf: Row -> seq<string>, taken: nat,
                                               header: Option<Batch<Row>>, batches: seq<Batch<Row>>)
    requires TaskInv(t, size, columnsOf) && t.phase == Finished(Ok) && !t.stopped
    requires t.kind == ClickHouse && t.source == ClickHouseSource(chunks, parse)
    requires NdjsonRun(chunks, parse, size, columnsOf, taken, header, batches, Ok, false)
    ensures t.s.sent == batches
    ensures t.header == if header.None? then [] else [header.value]
  {
    hide ParsedRows, RowsRead, Delivered, Complete, ChunkEvents, TextOf;
    assert t.source[..|t.source|] == t.source && chunks[..|chunks|] == chunks;
    ReadAppend(ChunkEvents(chunks, parse), [Pause]);
    ReadPause<Row>();
    ReadChunkEvents(chunks, parse);
    NothingAdded(ParsedRows(TextOf(chunks), parse));
    BatchesDetermined(t.s.sent, batches, ParsedRows(TextOf(chunks), parse), size);
  }

  // ----- small results -----

  /** Outside ClickHouse, a query whose whole result is smaller than one batch never
      looks at the cancel set. */
  lemma SmallResultIgnoresCancel<Row>(t: Task<Row>, size: Row -> nat, columnsOf: Row -> seq<string>)
    requires TaskInv(t, size, columnsOf) && !t.kind.ClickHouse?
    requires |RowsRead(t.source)| < BATCH_SIZE && Bytes(RowsRead(t.source), size) < MAX_BATCH_BYTES
    ensures !Checks(t, size)
  {
    hide Inv, RowsRead, Push, ShouldFlush, Bytes;
    if t.kind.Sql? && t.phase.Streaming? && t.taken < |t.source| && t.source[t.taken].Arrival? {
      ReadNext(t.source, t.taken);
      ReadPrefix(t.source, t.taken + 1);
      SmallNeverFull(t.s, RowsRead(t.source[..t.taken]), t.source[t.taken].row, RowsRead(t.source), size);
    }
  }
}

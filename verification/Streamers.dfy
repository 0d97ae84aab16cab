/**
  The streaming loops: `stream_postgres`, `stream_mysql` and `stream_sqlite`,
  which differ only in how a row is read, `stream_clickhouse`
  (src-tauri/src/db/query_executor.rs) and `query_streaming`
  (src-tauri/src/db/duckdb_engine.rs).
*/
module Streamers {
  import opened Text
  import opened Batches
  import opened Wrappers

  /** The shared set of cancelled query ids. `requested` remembers every id that
      was ever put in. */
  class CancelSet {
    var ids: set<string>
    ghost var requested: set<string>

    ghost predicate Valid()
      reads this
    {
      ids <= requested
    }

    constructor ()
      ensures Valid() && ids == {}
    {
      ids := {};
      requested := {};
    }

    /** `db_cancel_query`. */
    method Insert(id: string)
      requires Valid()
      modifies this
      ensures Valid() && ids == old(ids) + {id} && requested == old(requested) + {id}
    {
      ids := ids + {id};
      requested := requested + {id};
    }

    /** `is_cancelled`: the id is consumed. */
    method IsCancelled(id: string) returns (cancelled: bool)
      requires Valid()
      modifies this
      ensures Valid() && requested == old(requested)
      ensures cancelled <==> id in old(ids)
      ensures ids == old(ids) - {id}
    {
      cancelled := id in ids;
      if cancelled {
        ids := ids - {id};
      }
    }

    /** An await point: other tasks insert and consume ids. */
    method OtherTasks()
      requires Valid()
      modifies this
      ensures Valid() && old(requested) <= requested
    {
      ids := *;
      requested := requested + ids;
    }
  }

  /** What the driver's row stream yields next. */
  datatype Item<Row> = Row(row: Row) | Failure(message: string)

  datatype Outcome = Ok | Err(message: string)

  function RowsIn<Row>(items: seq<Item<Row>>): seq<Row> {
    if items == [] then []
    else RowsIn(items[..|items| - 1]) + (if items[|items| - 1].Row? then [items[|items| - 1].row] else [])
  }

  lemma RowsInNext<Row>(items: seq<Item<Row>>, i: nat)
    requires i < |items|
    ensures RowsIn(items[..i + 1]) == RowsIn(items[..i]) + (if items[i].Row? then [items[i].row] else [])
  {
    assert items[..i + 1][..i] == items[..i];
  }

  /** Of a stream without a failure every row is read, in its place. */
  lemma {:induction false} EveryRowIsRead<Row>(items: seq<Item<Row>>)
    requires forall i :: 0 <= i < |items| ==> items[i].Row?
    ensures |RowsIn(items)| == |items| && forall i :: 0 <= i < |items| ==> RowsIn(items)[i] == items[i].row
  {
    if items != [] {
      EveryRowIsRead(items[..|items| - 1]);
    }
  }

  /** The header of a run that read `rows`: the columns of the first row. */
  function HeaderOf<Row>(rows: seq<Row>, columnsOf: Row -> seq<string>): Option<Batch<Row>> {
    if rows == [] then None else Some(Header(columnsOf(rows[0])))
  }

  /** A header is sent exactly when there is a row: it has its columns and nothing else. */
  lemma HeaderTells<Row>(rows: seq<Row>, columnsOf: Row -> seq<string>)
    ensures HeaderOf(rows, columnsOf).None? <==> rows == []
    ensures rows != [] ==> HeaderOf(rows, columnsOf) == Some(Batch(0, [], Some(columnsOf(rows[0])), false, 0, None))
  {
  }

  // ----- SQL drivers -----

  /** What a run over a row stream may have done when it returns. `batches` are
      the row batches behind the header, `taken` the items consumed; `wasCancelled`
      tells whether the query's id was ever put in the cancel set. */
  ghost predicate RowsRun<Row>(items: seq<Item<Row>>, size: Row -> nat, taken: nat, batches: seq<Batch<Row>>,
                               outcome: Outcome, wasCancelled: bool)
  {
    && taken <= |items| && (forall i :: 0 <= i < taken ==> items[i].Row?)
    && match outcome
       case Err(message) =>
         taken < |items| && items[taken] == Failure(message) && BrokenOff(batches, RowsIn(items[..taken]), size)
       case Ok =>
         && Delivered(batches, RowsIn(items[..taken]), size)
         && (taken == |items| || wasCancelled)
         && (wasCancelled || Complete(batches, RowsIn(items), size))
  }

  ghost predicate SqlRun<Row>(items: seq<Item<Row>>, size: Row -> nat, columnsOf: Row -> seq<string>, taken: nat,
                              header: Option<Batch<Row>>, batches: seq<Batch<Row>>, outcome: Outcome,
                              wasCancelled: bool)
  {
    && RowsRun(items, size, taken, batches, outcome, wasCancelled)
    && header == HeaderOf(RowsIn(items[..taken]), columnsOf)
  }

  /** The loop's invariant. */
  ghost predicate SqlLoop<Row>(items: seq<Item<Row>>, size: Row -> nat, taken: nat, rows: seq<Row>, s: State<Row>) {
    && taken <= |items| && (forall i :: 0 <= i < taken ==> items[i].Row?)
    && rows == RowsIn(items[..taken]) && Inv(s, rows, size)
  }

  lemma SqlStarts<Row>(items: seq<Item<Row>>, size: Row -> nat)
    ensures SqlLoop(items, size, 0, [], Start())
  {
    StartInv(size);
  }

  lemma RowsFail<Row>(items: seq<Item<Row>>, size: Row -> nat, taken: nat, rows: seq<Row>, s: State<Row>, w: bool)
    requires SqlLoop(items, size, taken, rows, s) && taken < |items| && items[taken].Failure?
    ensures RowsRun(items, size, taken, s.sent, Err(items[taken].message), w)
  {
    FailureBreaksOff(s, rows, size);
  }

  lemma RowsEnd<Row>(items: seq<Item<Row>>, size: Row -> nat, rows: seq<Row>, s: State<Row>, w: bool)
    requires SqlLoop(items, size, |items|, rows, s)
    ensures RowsRun(items, size, |items|, Final(s), Ok, w)
  {
    assert items[..|items|] == items;
    FinishCompletes(s, rows, size);
  }

  lemma SqlFails<Row>(items: seq<Item<Row>>, size: Row -> nat, columnsOf: Row -> seq<string>, taken: nat,
                      rows: seq<Row>, s: State<Row>, w: bool)
    requires SqlLoop(items, size, taken, rows, s) && taken < |items| && items[taken].Failure?
    ensures SqlRun(items, size, columnsOf, taken, HeaderOf(rows, columnsOf), s.sent, Err(items[taken].message), w)
  {
    RowsFail(items, size, taken, rows, s, w);
  }

  lemma SqlStops<Row>(items: seq<Item<Row>>, size: Row -> nat, columnsOf: Row -> seq<string>, taken: nat,
                      rows: seq<Row>, s: State<Row>)
    requires SqlLoop(items, size, taken, rows, s) && taken < |items| && items[taken].Row?
    ensures var row := items[taken].row;
            SqlRun(items, size, columnsOf, taken + 1, HeaderOf(rows + [row], columnsOf),
                   Final(Push(s, row, size)), Ok, true)
  {
    RowsInNext(items, taken);
    CancelDelivers(s, rows, items[taken].row, size);
  }

  lemma SqlEnds<Row>(items: seq<Item<Row>>, size: Row -> nat, columnsOf: Row -> seq<string>, rows: seq<Row>,
                     s: State<Row>, w: bool)
    requires SqlLoop(items, size, |items|, rows, s)
    ensures SqlRun(items, size, columnsOf, |items|, HeaderOf(rows, columnsOf), Final(s), Ok, w)
  {
    RowsEnd(items, size, rows, s, w);
  }

  lemma SqlGoesOn<Row>(items: seq<Item<Row>>, size: Row -> nat, taken: nat, rows: seq<Row>, s: State<Row>)
    requires SqlLoop(items, size, taken, rows, s) && taken < |items| && items[taken].Row?
    ensures var p := Push(s, items[taken].row, size);
            SqlLoop(items, size, taken + 1, rows + [items[taken].row],
                    if ShouldFlush(|p.batch|, p.bytes) then Flush(p) else p)
  {
    RowsInNext(items, taken);
    var p := Push(s, items[taken].row, size);
    if ShouldFlush(|p.batch|, p.bytes) {
      FlushKeepsInv(s, rows, items[taken].row, size);
    } else {
      PushKeepsInv(s, rows, items[taken].row, size);
    }
  }

  lemma HeaderStays<Row>(rows: seq<Row>, row: Row, columnsOf: Row -> seq<string>)
    ensures HeaderOf(rows + [row], columnsOf) ==
            if rows == [] then Some(Header(columnsOf(row))) else HeaderOf(rows, columnsOf)
  {
  }

  lemma FirstBatchHasRows<Row>(bs: seq<Batch<Row>>, size: Row -> nat)
    requires Sent(bs, size)
    ensures bs != [] ==> RowsOf(bs) != []
  {
    if bs != [] {
      var last := bs[|bs| - 1];
      assert SentAt(bs, |bs| - 1, size) && Full(last, size);
    }
  }

  /** Before the first row there is no row batch. */
  lemma NoRowsNoBatches<Row>(items: seq<Item<Row>>, size: Row -> nat, taken: nat, s: State<Row>)
    requires SqlLoop(items, size, taken, [], s)
    ensures s.sent == []
  {
    FirstBatchHasRows(s.sent, size);
  }

  /** One row after another; the cancel set is looked at only when a batch is
      full. All rows are delivered, or a driver error ends the run, or a prefix is
      delivered because this query's own id was put in the cancel set. The header
      goes out before every row batch. */
  method StreamSql<Row>(items: seq<Item<Row>>, queryId: string, size: Row -> nat, columnsOf: Row -> seq<string>,
                        cancelled: CancelSet)
    returns (header: Option<Batch<Row>>, batches: seq<Batch<Row>>, outcome: Outcome, taken: nat)
    requires cancelled.Valid()
    modifies cancelled
    ensures cancelled.Valid() && old(cancelled.requested) <= cancelled.requested
    ensures SqlRun(items, size, columnsOf, taken, header, batches, outcome, queryId in cancelled.requested)
  {
    hide SqlLoop, SqlRun;
    header, batches, outcome, taken := None, [], Ok, 0;
    var batch: seq<Row>, batchBytes: nat, batchIndex: nat, totalRows: nat, columnsSent := [], 0, 0, 0, false;
    var stopped := false;
    ghost var rows: seq<Row> := [];
    SqlStarts(items, size);
    while taken < |items|
      invariant cancelled.Valid() && old(cancelled.requested) <= cancelled.requested
      invariant taken <= |items|
      invariant SqlLoop(items, size, taken, rows, State(batches, batch, batchBytes, batchIndex, totalRows))
      invariant columnsSent == (rows != []) && outcome.Ok? && !stopped
      invariant header == HeaderOf(rows, columnsOf)
    {
      cancelled.OtherTasks();
      ghost var s := State(batches, batch, batchBytes, batchIndex, totalRows);
      if items[taken].Failure? {
        SqlFails(items, size, columnsOf, taken, rows, s, queryId in cancelled.requested);
        outcome := Err(items[taken].message);
        break;
      }
      var row := items[taken].row;
      if !columnsSent {
        NoRowsNoBatches(items, size, taken, s);
        assert batches == [];
        header := Some(Header(columnsOf(row)));
        columnsSent := true;
      }
      HeaderStays(rows, row, columnsOf);
      SqlGoesOn(items, size, taken, rows, s);
      SqlStops(items, size, columnsOf, taken, rows, s);
      batchBytes := batchBytes + size(row);
      batch := batch + [row];
      totalRows := totalRows + 1;
      taken := taken + 1;
      rows := rows + [row];
      if ShouldFlush(|batch|, batchBytes) {
        stopped := cancelled.IsCancelled(queryId);
        batchIndex := batchIndex + 1;
        batches := batches + [Batch(batchIndex, batch, None, stopped, totalRows, None)];
        if stopped {
          break;
        }
        batch := [];
        batchBytes := 0;
      }
    }
    if outcome.Ok? && !stopped {
      SqlEnds(items, size, columnsOf, rows, State(batches, batch, batchBytes, batchIndex, totalRows),
          queryId in cancelled.requested);
      batches := batches + [Batch(batchIndex + 1, batch, None, true, totalRows, None)];
    }
  }

  // ----- DuckDB -----

  /** DuckDB batches are cut by length alone. */
  function NoBytes<Row>(): Row -> nat { (_: Row) => 0 }

  /** The header goes out before the first row is read; the cancel set is never
      looked at. */
  method StreamDuckDb<Row>(items: seq<Item<Row>>, columns: seq<string>)
    returns (header: Batch<Row>, batches: seq<Batch<Row>>, outcome: Outcome, taken: nat)
    ensures header == Batch(0, [], Some(columns), false, 0, None)
    ensures RowsRun(items, NoBytes(), taken, batches, outcome, false)
  {
    hide SqlLoop, RowsRun;
    header := Header(columns);
    batches, outcome, taken := [], Ok, 0;
    var batch: seq<Row>, batchIndex: nat, totalRows: nat := [], 0, 0;
    ghost var rows: seq<Row> := [];
    SqlStarts(items, NoBytes());
    while taken < |items|
      invariant taken <= |items| && outcome.Ok?
      invariant SqlLoop(items, NoBytes(), taken, rows, State(batches, batch, 0, batchIndex, totalRows))
    {
      ghost var s := State(batches, batch, 0, batchIndex, totalRows);
      if items[taken].Failure? {
        RowsFail(items, NoBytes(), taken, rows, s, false);
        outcome := Err(items[taken].message);
        break;
      }
      SqlGoesOn(items, NoBytes(), taken, rows, s);
      batch := batch + [items[taken].row];
      totalRows := totalRows + 1;
      rows := rows + [items[taken].row];
      taken := taken + 1;
      if |batch| >= BATCH_SIZE {
        batchIndex := batchIndex + 1;
        batches := batches + [Batch(batchIndex, batch, None, false, totalRows, None)];
        batch := [];
      }
    }
    if outcome.Ok? {
      RowsEnd(items, NoBytes(), rows, State(batches, batch, 0, batchIndex, totalRows), false);
      batchIndex := batchIndex + 1;
      batches := batches + [Batch(batchIndex, batch, None, true, totalRows, None)];
    }
  }

  /** Every DuckDB batch but the last holds exactly 500 rows. */
  lemma DuckDbBatches<Row>(bs: seq<Batch<Row>>, rows: seq<Row>)
    requires Complete(bs, rows, NoBytes())
    ensures forall i :: 0 <= i < |bs| ==> if i < |bs| - 1 then |bs[i].rows| == 500 else |bs[i].rows| < 500
  {
    forall i | 0 <= i < |bs| ensures if i < |bs| - 1 then |bs[i].rows| == 500 else |bs[i].rows| < 500 {
      BatchAt(bs, rows, NoBytes(), i);
      ZeroBytes(bs[i].rows);
      if bs[i].rows != [] { ZeroBytes(bs[i].rows[..|bs[i].rows| - 1]); }
    }
  }

  lemma {:induction false} ZeroBytes<Row>(rows: seq<Row>)
    ensures Bytes(rows, NoBytes()) == 0
  {
    if rows != [] {
      ZeroBytes(rows[..|rows| - 1]);
    }
  }

  // ----- ClickHouse -----

  /** The next chunk of the response body, as text. */
  datatype Chunk = Data(text: string) | Broken(message: string)

  function TextOf(chunks: seq<Chunk>): string {
    if chunks == [] then ""
    else TextOf(chunks[..|chunks| - 1]) + (if chunks[|chunks| - 1].Data? then chunks[|chunks| - 1].text else "")
  }

  /** The index of the first newline, or the length of the text. */
  function FindNewline(s: string): (n: nat)
    ensures n <= |s|
  {
    if s == "" || s[0] == '\n' then 0 else 1 + FindNewline(s[1..])
  }

  lemma {:induction false} NewlineIsFirst(s: string)
    ensures var n := FindNewline(s); (n < |s| ==> s[n] == '\n') && '\n' !in s[..n]
  {
    if s != "" && s[0] != '\n' {
      NewlineIsFirst(s[1..]);
      assert s[..FindNewline(s)] == [s[0]] + s[1..][..FindNewline(s[1..])];
    }
  }

  function RowOfLine<Row>(line: string, parse: string -> Option<Row>): Option<Row> {
    var trimmed := Trim(line);
    if trimmed == "" then None else parse(trimmed)
  }

  /** The objects on the complete lines of a text; blank lines and lines that do
      not parse are skipped. */
  function ParsedRows<Row>(s: string, parse: string -> Option<Row>): seq<Row>
    decreases |s|
  {
    var n := FindNewline(s);
    if n == |s| then []
    else
      match RowOfLine(s[..n], parse)
      case None => ParsedRows(s[n + 1..], parse)
      case Some(row) => [row] + ParsedRows(s[n + 1..], parse)
  }

  /** What follows the last newline. */
  function Leftover(s: string): string
    decreases |s|
  {
    var n := FindNewline(s);
    if n == |s| then s else Leftover(s[n + 1..])
  }

  lemma UnfoldLine<Row>(s: string, parse: string -> Option<Row>)
    ensures var n := FindNewline(s);
            if n == |s| then ParsedRows(s, parse) == [] && Leftover(s) == s
            else
              && Leftover(s) == Leftover(s[n + 1..])
              && (match RowOfLine(s[..n], parse)
                  case None => ParsedRows(s, parse) == ParsedRows(s[n + 1..], parse)
                  case Some(row) => ParsedRows(s, parse) == [row] + ParsedRows(s[n + 1..], parse))
  {
    hide RowOfLine, FindNewline;
  }

  lemma {:induction false} NewlineAppend(a: string, b: string)
    requires FindNewline(a) < |a|
    ensures var n := FindNewline(a);
            FindNewline(a + b) == n && (a + b)[..n] == a[..n] && (a + b)[n + 1..] == a[n + 1..] + b
  {
    if a[0] != '\n' {
      NewlineAppend(a[1..], b);
      assert (a + b)[1..] == a[1..] + b;
    }
  }

  lemma {:induction false} NewlineBehind(line: string, rest: string)
    requires '\n' !in line
    ensures FindNewline(line) == |line|
    ensures var text := line + "\n" + rest;
            FindNewline(text) == |line| && text[..|line|] == line && text[|line| + 1..] == rest
  {
    if line != "" {
      NewlineBehind(line[1..], rest);
      assert (line + "\n" + rest)[1..] == line[1..] + "\n" + rest;
    }
  }

  /** A line gives the row its trimmed text parses to, if it is not blank and parses, and
      the text behind its newline gives the others. */
  lemma LineRead<Row>(line: string, rest: string, parse: string -> Option<Row>)
    requires '\n' !in line
    ensures var text := line + "\n" + rest;
            && Leftover(text) == Leftover(rest)
            && ParsedRows(text, parse) ==
               (if AllWhiteSpace(line) || parse(Trim(line)).None? then [] else [parse(Trim(line)).value])
               + ParsedRows(rest, parse)
  {
    hide ParsedRows, Leftover, FindNewline, AllWhiteSpace, Trim;
    NewlineBehind(line, rest);
    UnfoldLine(line + "\n" + rest, parse);
    BlankIff(line);
    NothingInFront(ParsedRows(rest, parse));
  }

  /** Text without a newline gives no row and is kept. */
  lemma UnfinishedLine<Row>(text: string, parse: string -> Option<Row>)
    requires '\n' !in text
    ensures ParsedRows(text, parse) == [] && Leftover(text) == text
  {
    hide ParsedRows, Leftover, FindNewline;
    NewlineBehind(text, "");
    UnfoldLine(text, parse);
  }

  lemma NothingInFront<T>(s: seq<T>)
    ensures [] + s == s
  {
  }

  /** Reading on from the leftover is reading the whole text. */
  lemma {:induction false} LinesAppend<Row>(a: string, b: string, parse: string -> Option<Row>)
    ensures ParsedRows(a + b, parse) == ParsedRows(a, parse) + ParsedRows(Leftover(a) + b, parse)
    ensures Leftover(a + b) == Leftover(Leftover(a) + b)
    decreases |a|
  {
    hide RowOfLine, ParsedRows, Leftover, FindNewline;
    var n := FindNewline(a);
    UnfoldLine(a, parse);
    if n < |a| {
      NewlineAppend(a, b);
      UnfoldLine(a + b, parse);
      LinesAppend(a[n + 1..], b, parse);
      if RowOfLine(a[..n], parse).Some? {
        Assoc([RowOfLine(a[..n], parse).value], ParsedRows(a[n + 1..], parse), ParsedRows(Leftover(a) + b, parse));
      }
    }
  }

  /** What a ClickHouse run may have done when it returns. */
  ghost predicate NdjsonRun<Row>(chunks: seq<Chunk>, parse: string -> Option<Row>, size: Row -> nat,
                                 columnsOf: Row -> seq<string>, taken: nat, header: Option<Batch<Row>>,
                                 batches: seq<Batch<Row>>, outcome: Outcome, wasCancelled: bool)
  {
    && taken <= |chunks| && (forall i :: 0 <= i < taken ==> chunks[i].Data?)
    && var rows := ParsedRows(TextOf(chunks[..taken]), parse);
       && header == HeaderOf(rows, columnsOf)
       && match outcome
          case Err(message) => taken < |chunks| && chunks[taken] == Broken(message) && BrokenOff(batches, rows, size)
          case Ok => Complete(batches, rows, size) && (taken == |chunks| || wasCancelled)
  }

  /** The outer loop's invariant: the rows of the text read so far are taken, and
      the leftover is its unfinished line. */
  ghost predicate NdjsonLoop<Row>(chunks: seq<Chunk>, parse: string -> Option<Row>, size: Row -> nat, taken: nat,
                                  leftover: string, rows: seq<Row>, s: State<Row>)
  {
    && taken <= |chunks| && (forall i :: 0 <= i < taken ==> chunks[i].Data?)
    && rows == ParsedRows(TextOf(chunks[..taken]), parse) && leftover == Leftover(TextOf(chunks[..taken]))
    && Inv(s, rows, size)
  }

  /** The inner loop's invariant: the lines of `leftover` are still to be taken. */
  ghost predicate LinesLoop<Row>(text: string, parse: string -> Option<Row>, size: Row -> nat, leftover: string,
                                 rows: seq<Row>, s: State<Row>)
  {
    && rows + ParsedRows(leftover, parse) == ParsedRows(text, parse)
    && Leftover(leftover) == Leftover(text)
    && Inv(s, rows, size)
  }

  lemma NdjsonStarts<Row>(chunks: seq<Chunk>, parse: string -> Option<Row>, size: Row -> nat)
    ensures NdjsonLoop(chunks, parse, size, 0, "", [], Start())
  {
    StartInv(size);
    assert chunks[..0] == [];
  }

  lemma NdjsonReads<Row>(chunks: seq<Chunk>, parse: string -> Option<Row>, size: Row -> nat, taken: nat,
                         leftover: string, rows: seq<Row>, s: State<Row>)
    requires NdjsonLoop(chunks, parse, size, taken, leftover, rows, s) && taken < |chunks| && chunks[taken].Data?
    ensures LinesLoop(TextOf(chunks[..taken + 1]), parse, size, leftover + chunks[taken].text, rows, s)
  {
    assert chunks[..taken + 1][..taken] == chunks[..taken];
    LinesAppend(TextOf(chunks[..taken]), chunks[taken].text, parse);
  }

  /** The state after one more row: a full batch is sent. */
  function Add<Row>(s: State<Row>, row: Row, size: Row -> nat): State<Row> {
    var p := Push(s, row, size);
    if ShouldFlush(|p.batch|, p.bytes) then Flush(p) else p
  }

  lemma AddKeepsInv<Row>(s: State<Row>, rows: seq<Row>, row: Row, size: Row -> nat)
    requires Inv(s, rows, size)
    ensures Inv(Add(s, row, size), rows + [row], size)
  {
    var p := Push(s, row, size);
    if ShouldFlush(|p.batch|, p.bytes) {
      FlushKeepsInv(s, rows, row, size);
    } else {
      PushKeepsInv(s, rows, row, size);
    }
  }

  lemma RowAdded<Row>(text: string, parse: string -> Option<Row>, size: Row -> nat, leftover: string, rest: string,
                      row: Row, rows: seq<Row>, s: State<Row>)
    requires LinesLoop(text, parse, size, leftover, rows, s)
    requires ParsedRows(leftover, parse) == [row] + ParsedRows(rest, parse) && Leftover(leftover) == Leftover(rest)
    ensures LinesLoop(text, parse, size, rest, rows + [row], Add(s, row, size))
  {
    hide Inv, ParsedRows, Leftover, Add;
    Assoc(rows, [row], ParsedRows(rest, parse));
    AddKeepsInv(s, rows, row, size);
  }

  lemma LineTaken<Row>(text: string, parse: string -> Option<Row>, size: Row -> nat, leftover: string, rows: seq<Row>,
                       s: State<Row>)
    requires LinesLoop(text, parse, size, leftover, rows, s) && FindNewline(leftover) < |leftover|
    ensures var n := FindNewline(leftover);
            match RowOfLine(leftover[..n], parse)
            case None => LinesLoop(text, parse, size, leftover[n + 1..], rows, s)
            case Some(row) => LinesLoop(text, parse, size, leftover[n + 1..], rows + [row], Add(s, row, size))
  {
    hide RowOfLine, Inv, ParsedRows, Leftover, FindNewline, Add;
    var n := FindNewline(leftover);
    UnfoldLine(leftover, parse);
    if RowOfLine(leftover[..n], parse).Some? {
      RowAdded(text, parse, size, leftover, leftover[n + 1..], RowOfLine(leftover[..n], parse).value, rows, s);
    }
  }

  lemma LinesTaken<Row>(chunks: seq<Chunk>, parse: string -> Option<Row>, size: Row -> nat, taken: nat,
                        leftover: string, rows: seq<Row>, s: State<Row>)
    requires 0 < taken <= |chunks| && (forall i :: 0 <= i < taken ==> chunks[i].Data?)
    requires LinesLoop(TextOf(chunks[..taken]), parse, size, leftover, rows, s) && FindNewline(leftover) == |leftover|
    ensures NdjsonLoop(chunks, parse, size, taken, leftover, rows, s)
  {
    assert rows + [] == rows;
  }

  lemma NdjsonEnds<Row>(chunks: seq<Chunk>, parse: string -> Option<Row>, size: Row -> nat,
                        columnsOf: Row -> seq<string>, taken: nat, leftover: string, rows: seq<Row>, s: State<Row>,
                        w: bool)
    requires NdjsonLoop(chunks, parse, size, taken, leftover, rows, s) && (taken == |chunks| || w)
    ensures NdjsonRun(chunks, parse, size, columnsOf, taken, HeaderOf(rows, columnsOf), Final(s), Ok, w)
  {
    FinishCompletes(s, rows, size);
  }

  lemma NdjsonBreaks<Row>(chunks: seq<Chunk>, parse: string -> Option<Row>, size: Row -> nat,
                          columnsOf: Row -> seq<string>, taken: nat, leftover: string, rows: seq<Row>, s: State<Row>,
                          w: bool)
    requires NdjsonLoop(chunks, parse, size, taken, leftover, rows, s) && taken < |chunks| && chunks[taken].Broken?
    ensures NdjsonRun(chunks, parse, size, columnsOf, taken, HeaderOf(rows, columnsOf), s.sent,
        Err(chunks[taken].message), w)
  {
    FailureBreaksOff(s, rows, size);
  }

  lemma NoRowsNoLines<Row>(text: string, parse: string -> Option<Row>, size: Row -> nat, leftover: string,
                           s: State<Row>)
    requires LinesLoop(text, parse, size, leftover, [], s)
    ensures s.sent == []
  {
    FirstBatchHasRows(s.sent, size);
  }

  lemma NoHeaderYet<Row>(columnsOf: Row -> seq<string>)
    ensures HeaderOf([], columnsOf) == None
  {
  }

  /** NDJSON lines re-assembled over arbitrary chunks; the cancel set is looked at
      before each chunk. Whatever the chunks, an uncancelled run delivers exactly
      the objects on the complete lines of the whole text. */
  method StreamClickHouse<Row>(chunks: seq<Chunk>, queryId: string, parse: string -> Option<Row>, size: Row -> nat,
                               columnsOf: Row -> seq<string>, cancelled: CancelSet)
    returns (header: Option<Batch<Row>>, batches: seq<Batch<Row>>, outcome: Outcome, taken: nat)
    requires cancelled.Valid()
    modifies cancelled
    ensures cancelled.Valid() && old(cancelled.requested) <= cancelled.requested
    ensures NdjsonRun(chunks, parse, size, columnsOf, taken, header, batches, outcome, queryId in cancelled.requested)
  {
    hide NdjsonLoop, LinesLoop, NdjsonRun, Inv, TextOf, ParsedRows, Leftover, FindNewline, HeaderOf, Trim;
    header, batches, outcome, taken := None, [], Ok, 0;
    var batch: seq<Row>, batchBytes: nat, batchIndex: nat, totalRows: nat, columnsSent := [], 0, 0, 0, false;
    var leftover := "";
    var stopped := false;
    ghost var rows: seq<Row> := [];
    NdjsonStarts(chunks, parse, size);
    NoHeaderYet(columnsOf);
    while true
      invariant cancelled.Valid() && old(cancelled.requested) <= cancelled.requested
      invariant taken <= |chunks| && (forall i :: 0 <= i < taken ==> chunks[i].Data?)
      invariant NdjsonLoop(chunks, parse, size, taken, leftover, rows,
          State(batches, batch, batchBytes, batchIndex, totalRows))
      invariant columnsSent == (rows != []) && outcome.Ok? && !stopped
      invariant header == HeaderOf(rows, columnsOf)
      decreases |chunks| - taken
    {
      cancelled.OtherTasks();
      ghost var s := State(batches, batch, batchBytes, batchIndex, totalRows);
      stopped := cancelled.IsCancelled(queryId);
      if stopped || taken == |chunks| {
        break;
      }
      if chunks[taken].Broken? {
        NdjsonBreaks(chunks, parse, size, columnsOf, taken, leftover, rows, s, queryId in cancelled.requested);
        outcome := Err(chunks[taken].message);
        break;
      }
      NdjsonReads(chunks, parse, size, taken, leftover, rows, s);
      leftover := leftover + chunks[taken].text;
      taken := taken + 1;
      ghost var text := TextOf(chunks[..taken]);
      while FindNewline(leftover) < |leftover|
        invariant LinesLoop(text, parse, size, leftover, rows, State(batches, batch, batchBytes, batchIndex, totalRows))
        invariant columnsSent == (rows != [])
        invariant header == HeaderOf(rows, columnsOf)
        modifies {}
        decreases |leftover|
      {
        ghost var t := State(batches, batch, batchBytes, batchIndex, totalRows);
        ghost var unread := leftover;
        LineTaken(text, parse, size, leftover, rows, t);
        var nl := FindNewline(leftover);
        var line := Trim(leftover[..nl]);
        leftover := leftover[nl + 1..];
        var parsed := if line == "" then None else parse(line);
        if parsed.Some? {
          var row := parsed.value;
          if !columnsSent {
            NoRowsNoLines(text, parse, size, unread, t);
            assert batches == [];
            columnsSent := true;
            header := Some(Header(columnsOf(row)));
          }
          HeaderStays(rows, row, columnsOf);
          batchBytes := batchBytes + size(row);
          batch := batch + [row];
          totalRows := totalRows + 1;
          rows := rows + [row];
          if ShouldFlush(|batch|, batchBytes) {
            batchIndex := batchIndex + 1;
            batches := batches + [Batch(batchIndex, batch, None, false, totalRows, None)];
            batch := [];
            batchBytes := 0;
          }
        }
      }
      LinesTaken(chunks, parse, size, taken, leftover, rows, State(batches, batch, batchBytes, batchIndex, totalRows));
    }
    if outcome.Ok? {
      NdjsonEnds(chunks, parse, size, columnsOf, taken, leftover, rows,
          State(batches, batch, batchBytes, batchIndex, totalRows),
                 queryId in cancelled.requested);
      batches := batches + [Batch(batchIndex + 1, batch, None, true, totalRows, None)];
    }
  }

  /** Chunk invariance: two uncancelled runs over the same text, cut into chunks
      in different ways, emit the same batches. */
  lemma ChunkInvariance<Row>(a: seq<Chunk>, b: seq<Chunk>, parse: string -> Option<Row>, size: Row -> nat,
                             columnsOf: Row -> seq<string>, takenA: nat, takenB: nat, headerA: Option<Batch<Row>>,
                             headerB: Option<Batch<Row>>, batchesA: seq<Batch<Row>>, batchesB: seq<Batch<Row>>)
    requires TextOf(a) == TextOf(b)
    requires NdjsonRun(a, parse, size, columnsOf, takenA, headerA, batchesA, Ok, false)
    requires NdjsonRun(b, parse, size, columnsOf, takenB, headerB, batchesB, Ok, false)
    ensures headerA == headerB && batchesA == batchesB
    ensures RowsOf(batchesA) == ParsedRows(TextOf(a), parse)
  {
    assert a[..takenA] == a && b[..takenB] == b;
    BatchesDetermined(batchesA, batchesB, ParsedRows(TextOf(a), parse), size);
  }
}

/**
  Cutting a result into batches: the part the streaming loops of
  src-tauri/src/db/query_executor.rs and src-tauri/src/db/duckdb_engine.rs share.
*/
module Batches {
  import opened Text
  import opened Wrappers

  const BATCH_SIZE: nat := 500
  const MAX_BATCH_BYTES: nat := 262144

  datatype Batch<Row> = Batch(
    index: nat, rows: seq<Row>, columns: Option<seq<string>>, isFinal: bool, rowsSoFar: nat, error: Option<string>)

  predicate ShouldFlush(batchLen: nat, batchBytes: nat) {
    batchLen >= BATCH_SIZE || batchBytes >= MAX_BATCH_BYTES
  }

  function Bytes<Row>(rows: seq<Row>, size: Row -> nat): nat {
    if rows == [] then 0 else Bytes(rows[..|rows| - 1], size) + size(rows[|rows| - 1])
  }

  function RowsOf<Row>(bs: seq<Batch<Row>>): seq<Row> {
    if bs == [] then [] else RowsOf(bs[..|bs| - 1]) + bs[|bs| - 1].rows
  }

  /** The batch that only announces the columns. */
  function Header<Row>(columns: seq<string>): Batch<Row> {
    Batch(0, [], Some(columns), false, 0, None)
  }

  // ----- what every run keeps -----

  /** Without its last row, the batch would not have been sent yet. */
  ghost predicate Bounded<Row>(b: Batch<Row>, size: Row -> nat) {
    b.rows != [] ==> !ShouldFlush(|b.rows| - 1, Bytes(b.rows[..|b.rows| - 1], size))
  }

  ghost predicate Full<Row>(b: Batch<Row>, size: Row -> nat) {
    ShouldFlush(|b.rows|, Bytes(b.rows, size))
  }

  /** A plain row batch at its place in the sequence. */
  ghost predicate InPlace<Row>(bs: seq<Batch<Row>>, i: nat)
    requires i < |bs|
  {
    bs[i].index == i + 1 && bs[i].rowsSoFar == |RowsOf(bs[..i + 1])| && bs[i].columns.None? && bs[i].error.None?
  }

  /** The batches of an unfinished run: numbered from 1, cumulative, none final,
      each one sent as soon as it was full. */
  ghost predicate Sent<Row>(bs: seq<Batch<Row>>, size: Row -> nat) {
    forall i {:trigger SentAt(bs, i, size)} :: 0 <= i < |bs| ==> SentAt(bs, i, size)
  }

  ghost predicate SentAt<Row>(bs: seq<Batch<Row>>, i: nat, size: Row -> nat)
    requires i < |bs|
  {
    InPlace(bs, i) && !bs[i].isFinal && Bounded(bs[i], size) && Full(bs[i], size)
  }

  /** The batches of a finished run over `rows`: one final batch, at the end. */
  ghost predicate Delivered<Row>(bs: seq<Batch<Row>>, rows: seq<Row>, size: Row -> nat) {
    && bs != []
    && Sent(bs[..|bs| - 1], size)
    && InPlace(bs, |bs| - 1) && bs[|bs| - 1].isFinal && Bounded(bs[|bs| - 1], size)
    && RowsOf(bs) == rows
  }

  /** A finished run that was not cut short by a cancellation at a full batch. */
  ghost predicate Complete<Row>(bs: seq<Batch<Row>>, rows: seq<Row>, size: Row -> nat) {
    Delivered(bs, rows, size) && !Full(bs[|bs| - 1], size)
  }

  // ----- the state of a streaming loop -----

  /** `sent` are the row batches emitted so far; the other fields are the loop's
      local variables. */
  datatype State<Row> = State(sent: seq<Batch<Row>>, batch: seq<Row>, bytes: nat, index: nat, total: nat)

  function Start<Row>(): State<Row> { State([], [], 0, 0, 0) }

  function Push<Row>(s: State<Row>, row: Row, size: Row -> nat): State<Row> {
    s.(batch := s.batch + [row], bytes := s.bytes + size(row), total := s.total + 1)
  }

  function Flush<Row>(s: State<Row>): State<Row> {
    State(s.sent + [Batch(s.index + 1, s.batch, None, false, s.total, None)], [], 0, s.index + 1, s.total)
  }

  function Final<Row>(s: State<Row>): seq<Batch<Row>> {
    s.sent + [Batch(s.index + 1, s.batch, None, true, s.total, None)]
  }

  /** The loop has taken `rows` and holds less than a full batch. */
  ghost predicate Inv<Row>(s: State<Row>, rows: seq<Row>, size: Row -> nat) {
    && Sent(s.sent, size)
    && RowsOf(s.sent) + s.batch == rows
    && s.index == |s.sent| && s.total == |rows| && s.bytes == Bytes(s.batch, size)
    && !ShouldFlush(|s.batch|, s.bytes)
  }

  /** The batches of a run that broke off after reading `rows`: the rows sent are
      the first ones, and what is missing would not have filled a batch. */
  ghost predicate BrokenOff<Row>(bs: seq<Batch<Row>>, rows: seq<Row>, size: Row -> nat) {
    && Sent(bs, size)
    && RowsOf(bs) <= rows
    && !ShouldFlush(|rows| - |RowsOf(bs)|, Bytes(rows[|RowsOf(bs)|..], size))
  }

  lemma FailureBreaksOff<Row>(s: State<Row>, rows: seq<Row>, size: Row -> nat)
    requires Inv(s, rows, size)
    ensures BrokenOff(s.sent, rows, size)
  {
    assert rows[|RowsOf(s.sent)|..] == s.batch;
  }

  lemma RowsOfSnoc<Row>(bs: seq<Batch<Row>>, b: Batch<Row>)
    ensures RowsOf(bs + [b]) == RowsOf(bs) + b.rows
  {
    assert (bs + [b])[..|bs|] == bs;
  }

  lemma InPlaceSnoc<Row>(bs: seq<Batch<Row>>, b: Batch<Row>)
    requires b.index == |bs| + 1 && b.rowsSoFar == |RowsOf(bs) + b.rows| && b.columns.None? && b.error.None?
    ensures InPlace(bs + [b], |bs|)
    ensures forall i :: 0 <= i < |bs| && InPlace(bs, i) ==> InPlace(bs + [b], i)
  {
    RowsOfSnoc(bs, b);
    assert (bs + [b])[..|bs| + 1] == bs + [b];
    forall i | 0 <= i < |bs| && InPlace(bs, i) ensures InPlace(bs + [b], i) {
      assert (bs + [b])[..i + 1] == bs[..i + 1];
    }
  }

  lemma SentSnoc<Row>(bs: seq<Batch<Row>>, b: Batch<Row>, size: Row -> nat)
    requires Sent(bs, size)
    requires b.index == |bs| + 1 && b.rowsSoFar == |RowsOf(bs) + b.rows| && b.columns.None? && b.error.None?
    requires !b.isFinal && Bounded(b, size) && Full(b, size)
    ensures Sent(bs + [b], size)
  {
    InPlaceSnoc(bs, b);
    forall i | 0 <= i < |bs + [b]| ensures SentAt(bs + [b], i, size) {
      if i < |bs| {
        assert SentAt(bs, i, size);
      }
    }
  }

  lemma DeliveredSnoc<Row>(bs: seq<Batch<Row>>, b: Batch<Row>, size: Row -> nat)
    requires Sent(bs, size)
    requires b.index == |bs| + 1 && b.rowsSoFar == |RowsOf(bs) + b.rows| && b.columns.None? && b.error.None?
    requires b.isFinal && Bounded(b, size)
    ensures Delivered(bs + [b], RowsOf(bs) + b.rows, size)
  {
    InPlaceSnoc(bs, b);
    RowsOfSnoc(bs, b);
    assert (bs + [b])[..|bs|] == bs;
  }

  lemma StartInv<Row>(size: Row -> nat)
    ensures Inv(Start(), [], size)
  {
  }

  lemma PushFacts<Row>(s: State<Row>, rows: seq<Row>, row: Row, size: Row -> nat)
    requires Inv(s, rows, size)
    ensures var p := Push(s, row, size);
            && RowsOf(p.sent) + p.batch == rows + [row] && p.total == |rows + [row]|
            && p.bytes == Bytes(p.batch, size)
            && p.batch != [] && p.batch[..|p.batch| - 1] == s.batch
  {
    var p := Push(s, row, size);
    assert p.batch[..|s.batch|] == s.batch;
    Assoc(RowsOf(s.sent), s.batch, [row]);
  }

  /** A full batch is sent, and the loop goes on. */
  lemma FlushKeepsInv<Row>(s: State<Row>, rows: seq<Row>, row: Row, size: Row -> nat)
    requires Inv(s, rows, size)
    requires ShouldFlush(|Push(s, row, size).batch|, Push(s, row, size).bytes)
    ensures Inv(Flush(Push(s, row, size)), rows + [row], size)
  {
    var p := Push(s, row, size);
    var b := Batch(p.index + 1, p.batch, None, false, p.total, None);
    PushFacts(s, rows, row, size);
    SentSnoc(p.sent, b, size);
    RowsOfSnoc(p.sent, b);
  }

  /** A run that is cancelled at a full batch ends with that batch. */
  lemma CancelDelivers<Row>(s: State<Row>, rows: seq<Row>, row: Row, size: Row -> nat)
    requires Inv(s, rows, size)
    ensures Delivered(Final(Push(s, row, size)), rows + [row], size)
  {
    var p := Push(s, row, size);
    PushFacts(s, rows, row, size);
    DeliveredSnoc(p.sent, Batch(p.index + 1, p.batch, None, true, p.total, None), size);
  }

  lemma PushKeepsInv<Row>(s: State<Row>, rows: seq<Row>, row: Row, size: Row -> nat)
    requires Inv(s, rows, size)
    requires !ShouldFlush(|Push(s, row, size).batch|, Push(s, row, size).bytes)
    ensures Inv(Push(s, row, size), rows + [row], size)
  {
    PushFacts(s, rows, row, size);
  }

  /** The end of the rows: the rest becomes the final batch. */
  lemma FinishCompletes<Row>(s: State<Row>, rows: seq<Row>, size: Row -> nat)
    requires Inv(s, rows, size)
    ensures Complete(Final(s), rows, size)
  {
    if s.batch != [] {
      BytesMonotone(s.batch, size);
    }
    DeliveredSnoc(s.sent, Batch(s.index + 1, s.batch, None, true, s.total, None), size);
  }

  lemma BytesMonotone<Row>(rows: seq<Row>, size: Row -> nat)
    requires rows != []
    ensures Bytes(rows[..|rows| - 1], size) <= Bytes(rows, size)
  {
  }

  // ----- what a finished run means -----

  /** A finished run, spelled out: all rows in order, numbers 1, 2, 3, ...,
      cumulative counts, one final batch at the end, at most 500 rows each and less
      than 256 KiB without the last row, the others with 500 rows or 256 KiB. */
  lemma DeliveredMeans<Row>(bs: seq<Batch<Row>>, rows: seq<Row>, size: Row -> nat)
    requires Delivered(bs, rows, size)
    ensures RowsOf(bs) == rows && bs[|bs| - 1].rowsSoFar == |rows|
    ensures forall i :: 0 <= i < |bs| ==>
              && bs[i].index == i + 1 && bs[i].rowsSoFar == |RowsOf(bs[..i + 1])|
              && bs[i].columns.None? && bs[i].error.None?
              && (bs[i].isFinal <==> i == |bs| - 1)
              && |bs[i].rows| <= 500
              && (bs[i].rows != [] ==> Bytes(bs[i].rows[..|bs[i].rows| - 1], size) < 262144)
              && (i < |bs| - 1 ==> |bs[i].rows| == 500 || Bytes(bs[i].rows, size) >= 262144)
  {
    var n := |bs| - 1;
    assert bs[..n + 1] == bs;
    forall i | 0 <= i < n ensures InPlace(bs, i) && !bs[i].isFinal && Bounded(bs[i], size) && Full(bs[i], size) {
      assert SentAt(bs[..n], i, size) && bs[..n][i] == bs[i] && bs[..n][..i + 1] == bs[..i + 1];
    }
    forall i | 0 <= i < |bs|
      ensures bs[i].index == i + 1 && bs[i].rowsSoFar == |RowsOf(bs[..i + 1])|
      ensures bs[i].columns.None? && bs[i].error.None? && |bs[i].rows| <= 500
      ensures bs[i].rows != [] ==> Bytes(bs[i].rows[..|bs[i].rows| - 1], size) < 262144
    {
      assert InPlace(bs, i) && Bounded(bs[i], size);
    }
  }

  // ----- the batches are a function of the rows -----

  lemma {:induction false} BytesPrefix<Row>(rows: seq<Row>, k: nat, size: Row -> nat)
    requires k <= |rows|
    ensures Bytes(rows[..k], size) <= Bytes(rows, size)
  {
    if k < |rows| {
      var init := rows[..|rows| - 1];
      BytesPrefix(init, k, size);
      assert init[..k] == rows[..k];
    } else {
      assert rows[..k] == rows;
    }
  }

  lemma {:induction false} BytesAppend<Row>(a: seq<Row>, b: seq<Row>, size: Row -> nat)
    ensures Bytes(a + b, size) == Bytes(a, size) + Bytes(b, size)
  {
    if b == [] {
      assert a + b == a;
    } else {
      var init := b[..|b| - 1];
      assert (a + b)[..|a + b| - 1] == a + init;
      BytesAppend(a, init, size);
    }
  }

  lemma BytesOfOne<Row>(row: Row, size: Row -> nat)
    ensures Bytes([row], size) == size(row) && Bytes([], size) == 0
  {
    assert [row][..0] == [];
  }

  /** Each row of a run is a row of one of its batches, and stands behind the rows of the
      batches before. */
  lemma {:induction false} RowsOfPlace<Row>(bs: seq<Batch<Row>>, i: nat, k: nat)
    requires i < |bs| && k < |bs[i].rows|
    ensures |RowsOf(bs[..i])| + k < |RowsOf(bs)| && RowsOf(bs)[|RowsOf(bs[..i])| + k] == bs[i].rows[k]
  {
    var init := bs[..|bs| - 1];
    if i < |bs| - 1 {
      RowsOfPlace(init, i, k);
      assert init[..i] == bs[..i];
    }
  }

  /** A full batch that would not be full without its last row is the shortest
      full prefix of what remains. */
  lemma ShortestFullPrefix<Row>(a: Batch<Row>, b: Batch<Row>, rest: seq<Row>, size: Row -> nat)
    requires a.rows <= rest && b.rows <= rest
    requires Bounded(a, size) && Full(a, size) && Bounded(b, size)
    ensures |b.rows| <= |a.rows|
  {
    if |a.rows| < |b.rows| {
      var init := b.rows[..|b.rows| - 1];
      assert init[..|a.rows|] == a.rows;
      BytesPrefix(init, |a.rows|, size);
      assert false;
    }
  }

  lemma {:induction false} RowsOfPrefix<Row>(bs: seq<Batch<Row>>, i: nat)
    requires i <= |bs|
    ensures RowsOf(bs[..i]) <= RowsOf(bs)
  {
    if i < |bs| {
      var init := bs[..|bs| - 1];
      RowsOfPrefix(init, i);
      assert init[..i] == bs[..i];
    } else {
      assert bs[..i] == bs;
    }
  }

  /** The `i`th batch of a complete run, by what is left of the rows. */
  lemma BatchAt<Row>(bs: seq<Batch<Row>>, rows: seq<Row>, size: Row -> nat, i: nat)
    requires Complete(bs, rows, size) && i < |bs|
    ensures InPlace(bs, i) && Bounded(bs[i], size)
    ensures RowsOf(bs[..i + 1]) == RowsOf(bs[..i]) + bs[i].rows
    ensures RowsOf(bs[..i]) + bs[i].rows <= rows
    ensures bs[i].isFinal <==> i == |bs| - 1
    ensures Full(bs[i], size) <==> !bs[i].isFinal
    ensures bs[i].isFinal ==> RowsOf(bs[..i]) + bs[i].rows == rows
  {
    assert bs[..i + 1] == bs[..i] + [bs[i]];
    RowsOfSnoc(bs[..i], bs[i]);
    RowsOfPrefix(bs, i + 1);
    if i < |bs| - 1 {
      var init := bs[..|bs| - 1];
      assert SentAt(init, i, size) && init[i] == bs[i] && init[..i + 1] == bs[..i + 1];
    } else {
      assert bs[..i + 1] == bs;
    }
  }

  lemma FullBeforeFinal<Row>(a: Batch<Row>, b: Batch<Row>, size: Row -> nat)
    requires a.rows <= b.rows && Full(a, size)
    ensures Full(b, size)
  {
    assert b.rows[..|a.rows|] == a.rows;
    BytesPrefix(b.rows, |a.rows|, size);
  }

  lemma PrefixOfRest<T>(r: seq<T>, x: seq<T>, rows: seq<T>)
    requires r + x <= rows
    ensures r <= rows && x <= rows[|r|..]
    ensures r + x == rows ==> x == rows[|r|..]
  {
    assert (r + x)[|r|..] == x;
    assert rows[|r|..][..|x|] == rows[..|r| + |x|][|r|..] == x;
  }

  lemma SameBatch<Row>(a: seq<Batch<Row>>, b: seq<Batch<Row>>, rows: seq<Row>, size: Row -> nat, i: nat)
    requires Complete(a, rows, size) && Complete(b, rows, size) && i < |a| && i < |b| && a[..i] == b[..i]
    ensures a[i] == b[i]
  {
    var r := RowsOf(a[..i]);
    BatchAt(a, rows, size, i);
    BatchAt(b, rows, size, i);
    PrefixOfRest(r, a[i].rows, rows);
    PrefixOfRest(r, b[i].rows, rows);
    var rest := rows[|r|..];
    if !a[i].isFinal && !b[i].isFinal {
      ShortestFullPrefix(a[i], b[i], rest, size);
      ShortestFullPrefix(b[i], a[i], rest, size);
      assert a[i].rows == rest[..|a[i].rows|] == b[i].rows;
    } else if a[i].isFinal && !b[i].isFinal {
      FullBeforeFinal(b[i], a[i], size);
    } else if b[i].isFinal && !a[i].isFinal {
      FullBeforeFinal(a[i], b[i], size);
    }
  }

  lemma {:induction false} SamePrefix<Row>(a: seq<Batch<Row>>, b: seq<Batch<Row>>, rows: seq<Row>, size: Row -> nat,
                                           i: nat)
    requires Complete(a, rows, size) && Complete(b, rows, size) && i <= |a| && i <= |b|
    ensures a[..i] == b[..i]
  {
    if i > 0 {
      SamePrefix(a, b, rows, size, i - 1);
      SameBatch(a, b, rows, size, i - 1);
      assert a[..i] == a[..i - 1] + [a[i - 1]] && b[..i] == b[..i - 1] + [b[i - 1]];
    }
  }

  /** Two complete runs over the same rows emit the same batches: boundaries,
      numbers, counts and all. */
  lemma BatchesDetermined<Row>(a: seq<Batch<Row>>, b: seq<Batch<Row>>, rows: seq<Row>, size: Row -> nat)
    requires Complete(a, rows, size) && Complete(b, rows, size)
    ensures a == b
  {
    var n := if |a| <= |b| then |a| else |b|;
    SamePrefix(a, b, rows, size, n);
    assert a[..n][n - 1] == a[n - 1] && b[..n][n - 1] == b[n - 1];
    BatchAt(a, rows, size, n - 1);
    BatchAt(b, rows, size, n - 1);
  }

  /** While less than a batch has come, no batch is full. */
  lemma SmallNeverFull<Row>(s: State<Row>, rows: seq<Row>, row: Row, all: seq<Row>, size: Row -> nat)
    requires Inv(s, rows, size) && rows + [row] <= all
    requires |all| < BATCH_SIZE && Bytes(all, size) < MAX_BATCH_BYTES
    ensures !ShouldFlush(|Push(s, row, size).batch|, Push(s, row, size).bytes)
  {
    PushFacts(s, rows, row, size);
    hide Inv, Bytes, RowsOf;
    PartBytes(RowsOf(s.sent), s.batch + [row], all, size);
  }

  lemma PartBytes<Row>(a: seq<Row>, b: seq<Row>, all: seq<Row>, size: Row -> nat)
    requires a + b <= all
    ensures |b| <= |all| && Bytes(b, size) <= Bytes(all, size)
  {
    hide Bytes;
    BytesAppend(a, b, size);
    assert a + b == all[..|a + b|];
    BytesPrefix(all, |a + b|, size);
  }
}

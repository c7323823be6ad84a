/** Chunked writes to the keyed store (packages/etl/src/lib/batch.ts).
    The store is an oracle: the reply it gives to the k-th chunk write. */
module Batch {
  import opened Wrappers

  /** Rows per chunk when the caller gives no size. */
  const DefaultBatchSize: nat := 100

  /** A table write as the store receives it: an upsert with its conflict column
      and duplicate policy, or a plain append. */
  datatype Write<R> =
    | Upsert(table: string, rows: seq<R>, onConflict: string, ignoreDuplicates: bool)
    | Insert(table: string, rows: seq<R>)

  /** The store's answer to one chunk: success, an error object, or an exception. */
  datatype Reply = Accepted | Rejected(message: string) | Threw(message: string)

  /** `UpsertOptions`: absent members take their defaults when read. */
  datatype UpsertOptions = UpsertOptions(onConflict: string, ignoreDuplicates: Option<bool>, batchSize: Option<int>)
  {
    /** `ignoreDuplicates = false` default. */
    function IgnoreDuplicates(): bool
    {
      ignoreDuplicates.GetOr(false)
    }

    /** `batchSize = DEFAULT_BATCH_SIZE` default. */
    function BatchSize(): int
    {
      batchSize.GetOr(DefaultBatchSize)
    }
  }

  /** Concatenation of a list of chunks. */
  function Flatten<R>(cs: seq<seq<R>>): seq<R>
  {
    if |cs| == 0 then [] else cs[0] + Flatten(cs[1..])
  }

  function Min(a: int, b: int): int
  {
    if a <= b then a else b
  }

  /** Number of chunks of `size` rows needed for `n` rows. */
  function NumChunks(n: nat, size: nat): nat
    requires size > 0
    decreases n
  {
    if n == 0 then 0 else if n <= size then 1 else 1 + NumChunks(n - size, size)
  }

  /** `NumChunks` is the ceiling of `n / size`: the smallest count whose chunks
      hold all `n` rows. */
  lemma {:induction false} NumChunksIsCeiling(n: nat, size: nat)
    requires size > 0
    ensures NumChunks(n, size) * size >= n
    ensures n > 0 ==> (NumChunks(n, size) - 1) * size < n
    decreases n
  {
    if n > size {
      NumChunksIsCeiling(n - size, size);
      var c := NumChunks(n - size, size);
      assert (1 + c) * size == size + c * size;
      assert (1 + c - 1) * size == c * size;
    }
  }

  /** The consecutive slices `data.slice(i, i + size)` for i = 0, size, 2*size, …:
      every chunk but the last has exactly `size` rows, the last has between 1
      and `size`, and together they are the data in order. */
  function Chunks<R>(data: seq<R>, size: nat): (cs: seq<seq<R>>)
    requires size > 0
    ensures |cs| == NumChunks(|data|, size)
    ensures forall i :: 0 <= i < |cs| - 1 ==> |cs[i]| == size
    ensures |cs| > 0 ==> 0 < |cs[|cs| - 1]| <= size
    decreases |data|
  {
    if |data| == 0 then []
    else if |data| <= size then
      [data]
    else
      [data[..size]] + Chunks(data[size..], size)
  }

  /** Together the chunks are the data, in order: no row is lost, repeated or moved. */
  lemma {:induction false} ChunksFlatten<R>(data: seq<R>, size: nat)
    requires size > 0
    ensures Flatten(Chunks(data, size)) == data
    decreases |data|
  {
    if |data| > size {
      ChunksFlatten(data[size..], size);
      assert Chunks(data, size)[1..] == Chunks(data[size..], size);
      assert data == data[..size] + data[size..];
    }
  }

  /** A non-empty list of rows splits into its first slice and the chunks of the rest. */
  lemma ChunksCons<R>(data: seq<R>, size: nat)
    requires size > 0 && |data| > 0
    ensures Chunks(data, size) == [data[..Min(size, |data|)]] + Chunks(data[Min(size, |data|)..], size)
  {
    if |data| <= size {
      assert data[Min(size, |data|)..] == [];
      assert data[..Min(size, |data|)] == data;
    }
  }

  /** Dropping `size` rows drops exactly the first chunk. */
  lemma ChunksDrop<R>(data: seq<R>, size: nat)
    requires size > 0 && |data| > size
    ensures Chunks(data, size)[1..] == Chunks(data[size..], size)
  {
  }

  /** A slice of `data[size..]` is the slice of `data` shifted by `size`. */
  lemma SliceShift<R>(data: seq<R>, size: nat, lo: nat, hi: nat)
    requires size <= |data| && lo <= hi <= |data| - size
    ensures data[size..][lo..hi] == data[lo + size..hi + size]
  {
  }

  lemma MulPred(k: nat, size: nat)
    requires k > 0
    ensures (k - 1) * size >= 0
    ensures k * size == (k - 1) * size + size
  {
  }

  /** The induction step of `ChunkAt`, stated for any list whose tail is the
      chunks of the shifted data. */
  lemma ChunkAtShift<R>(data: seq<R>, size: nat, cs: seq<seq<R>>, ct: seq<seq<R>>, k: nat, start: nat)
    requires 0 < k < |cs| && cs[1..] == ct
    requires start < |data| - size
    requires ct[k - 1] == data[size..][start..Min(start + size, |data| - size)]
    ensures cs[k] == data[start + size..Min(start + size + size, |data|)]
  {
    assert cs[k] == ct[k - 1];
    var hi := Min(start + size, |data| - size);
    SliceShift(data, size, start, hi);
    assert hi + size == Min(start + size + size, |data|);
  }

  /** The k-th chunk starts `k * size` rows in and runs for `size` rows or to the end. */
  lemma {:induction false} ChunkAt<R>(data: seq<R>, size: nat, k: nat)
    requires size > 0 && k < |Chunks(data, size)|
    ensures k * size < |data|
    ensures Chunks(data, size)[k] == data[k * size..Min(k * size + size, |data|)]
    decreases k
  {
    if k > 0 {
      assert |data| > size;
      ChunksDrop(data, size);
      ChunkAt(data[size..], size, k - 1);
      var start := (k - 1) * size;
      MulPred(k, size);
      ChunkAtShift(data, size, Chunks(data, size), Chunks(data[size..], size), k, start);
    }
  }

  /** One turn of the chunking loop: if the chunks still to write are those of
      `data[i..]`, the next one is `data.slice(i, i + size)`. */
  lemma ChunkStep<R>(data: seq<R>, size: nat, chunks: seq<seq<R>>, i: nat, k: nat)
    requires size > 0 && i < |data| && k <= |chunks|
    requires chunks[k..] == Chunks(data[i..], size)
    ensures k < |chunks|
    ensures chunks[k] == data[i..Min(i + size, |data|)]
    ensures chunks[k + 1..] == Chunks(data[Min(i + size, |data|)..], size)
  {
    var next := Min(i + size, |data|);
    ChunksCons(data[i..], size);
    assert data[i..][..next - i] == data[i..next];
    assert data[i..][next - i..] == data[next..];
    assert chunks[k + 1..] == chunks[k..][1..];
  }

  /** Rows of the chunks whose write was accepted. */
  function AcceptedRows<R>(chunks: seq<seq<R>>, replies: seq<Reply>): nat
    requires |replies| >= |chunks|
  {
    if |chunks| == 0 then 0
    else
      AcceptedRows(chunks[..|chunks| - 1], replies)
      + (if replies[|chunks| - 1].Accepted? then |chunks[|chunks| - 1]| else 0)
  }

  lemma AcceptedRowsSnoc<R>(chunks: seq<seq<R>>, replies: seq<Reply>, k: nat)
    requires k < |chunks| <= |replies|
    ensures AcceptedRows(chunks[..k + 1], replies)
         == AcceptedRows(chunks[..k], replies) + (if replies[k].Accepted? then |chunks[k]| else 0)
  {
    assert chunks[..k + 1][..k] == chunks[..k];
  }

  lemma {:induction false} FlattenLength<R>(cs: seq<seq<R>>)
    ensures |Flatten(cs)| == if |cs| == 0 then 0 else |Flatten(cs[..|cs| - 1])| + |cs[|cs| - 1]|
  {
    if |cs| > 0 {
      FlattenLength(cs[1..]);
      if |cs| > 1 {
        assert cs[1..][..|cs[1..]| - 1] == cs[..|cs| - 1][1..];
      }
    }
  }

  /** Accepted rows never exceed the rows written; all accepted means all
      rows, none accepted means zero. */
  lemma {:induction false} AcceptedRowsBounds<R>(chunks: seq<seq<R>>, replies: seq<Reply>)
    requires |replies| >= |chunks|
    ensures AcceptedRows(chunks, replies) <= |Flatten(chunks)|
    ensures (forall i :: 0 <= i < |chunks| ==> replies[i].Accepted?) ==> AcceptedRows(chunks, replies) == |Flatten(chunks)|
    ensures (forall i :: 0 <= i < |chunks| ==> !replies[i].Accepted?) ==> AcceptedRows(chunks, replies) == 0
  {
    FlattenLength(chunks);
    if |chunks| > 0 {
      AcceptedRowsBounds(chunks[..|chunks| - 1], replies);
    }
  }

  /** The writes issued for a list of chunks, in order. */
  function WritesOf<R>(chunks: seq<seq<R>>, write: seq<R> -> Write<R>): (ws: seq<Write<R>>)
    ensures |ws| == |chunks|
    ensures forall k :: 0 <= k < |ws| ==> ws[k] == write(chunks[k])
  {
    if |chunks| == 0 then [] else WritesOf(chunks[..|chunks| - 1], write) + [write(chunks[|chunks| - 1])]
  }

  /** A rejected chunk is skipped, not retried, and the rest still go out: 250
      rows in chunks of 100 whose second write is rejected count 150. */
  lemma PartialFailureCount<R>(data: seq<R>, message: string)
    requires |data| == 250
    ensures |Chunks(data, 100)| == 3
    ensures AcceptedRows(Chunks(data, 100), [Accepted, Rejected(message), Accepted]) == 150
  {
    var cs := Chunks(data, 100);
    var replies := [Accepted, Rejected(message), Accepted];
    assert |cs| == 3 by {
      assert NumChunks(250, 100) == 1 + NumChunks(150, 100) == 2 + NumChunks(50, 100);
    }
    AcceptedRowsSnoc(cs, replies, 2);
    AcceptedRowsSnoc(cs, replies, 1);
    AcceptedRowsSnoc(cs, replies, 0);
    assert cs[..3] == cs;
    assert cs[..0] == [];
    FlattenLength(cs);
    FlattenLength(cs[..2]);
    ChunksFlatten(data, 100);
  }

  /** The loop shared by `batchUpsert` and `batchInsert`: every chunk is written
      in order whatever the earlier replies were, and the count is the rows of
      the accepted chunks. */
  method WriteChunks<R>(data: seq<R>, size: nat, replies: seq<Reply>, write: seq<R> -> Write<R>)
    returns (total: nat, writes: seq<Write<R>>)
    requires size > 0
    requires |replies| >= |Chunks(data, size)|
    ensures |writes| == |Chunks(data, size)|
    ensures forall k :: 0 <= k < |writes| ==> writes[k] == write(Chunks(data, size)[k])
    ensures total == AcceptedRows(Chunks(data, size), replies)
  {
    var chunks := Chunks(data, size);
    total := 0;
    writes := [];
    var i := 0;
    var k := 0;
    while i < |data|
      invariant 0 <= i <= |data|
      invariant 0 <= k <= |chunks|
      invariant chunks[k..] == Chunks(data[i..], size)
      invariant writes == WritesOf(chunks[..k], write)
      invariant total == AcceptedRows(chunks[..k], replies)
      decreases |data| - i
    {
      ChunkStep(data, size, chunks, i, k);
      var batch := data[i..Min(i + size, |data|)];
      writes := writes + [write(batch)];
      AcceptedRowsSnoc(chunks, replies, k);
      assert chunks[..k + 1][..k] == chunks[..k];
      if replies[k].Accepted? {
        total := total + |batch|;
      }
      i := Min(i + size, |data|);
      k := k + 1;
    }
    assert chunks[..k] == chunks;
  }

  /** The rows each write carries. */
  function RowsOf<R>(ws: seq<Write<R>>): seq<seq<R>>
  {
    seq(|ws|, k requires 0 <= k < |ws| => ws[k].rows)
  }

  /** The writes `batchUpsert(client, table, data, options)` sends, whatever
      the store replies: one upsert per chunk, each with the table, conflict
      column and duplicate policy of the call, and together carrying every
      row once, in order. */
  function UpsertWrites<R>(table: string, data: seq<R>, options: UpsertOptions): (ws: seq<Write<R>>)
    requires options.BatchSize() > 0
    ensures |ws| == NumChunks(|data|, options.BatchSize())
    ensures forall k :: 0 <= k < |ws| ==>
      && ws[k].Upsert? && ws[k].table == table
      && ws[k].onConflict == options.onConflict && ws[k].ignoreDuplicates == options.IgnoreDuplicates()
      && 0 < |ws[k].rows| <= options.BatchSize()
    ensures Flatten(RowsOf(ws)) == data
  {
    var cs := Chunks(data, options.BatchSize());
    var ws := WritesOf(cs, rows => Upsert(table, rows, options.onConflict, options.IgnoreDuplicates()));
    assert RowsOf(ws) == cs;
    ChunksFlatten(data, options.BatchSize());
    ws
  }

  /** The writes `batchInsert(client, table, data, batchSize)` sends: one
      append per chunk, together carrying every row once, in order. */
  function InsertWrites<R>(table: string, data: seq<R>, batchSize: Option<int>): (ws: seq<Write<R>>)
    requires batchSize.GetOr(DefaultBatchSize) > 0
    ensures |ws| == NumChunks(|data|, batchSize.GetOr(DefaultBatchSize))
    ensures forall k :: 0 <= k < |ws| ==>
      ws[k].Insert? && ws[k].table == table && 0 < |ws[k].rows| <= batchSize.GetOr(DefaultBatchSize)
    ensures Flatten(RowsOf(ws)) == data
  {
    var cs := Chunks(data, batchSize.GetOr(DefaultBatchSize));
    var ws := WritesOf(cs, rows => Insert(table, rows));
    assert RowsOf(ws) == cs;
    ChunksFlatten(data, batchSize.GetOr(DefaultBatchSize));
    ws
  }
  /** The table both vote-detail extractors insert ballots into. */
  const DetailTable: string := "fact_votaciones_detalle"

  /** The ballot insert of one vote, as both vote-detail extractors make it
      (`if (votosDb.length > 0) batchInsert(supabase, 'fact_votaciones_detalle',
      votosDb)`): nothing for no rows, otherwise chunks of at most 100 that
      give back the rows once each and in order. */
  function DetailInserts<R>(rows: seq<R>): (ws: seq<Write<R>>)
    ensures ws == [] <==> rows == []
    ensures forall k :: 0 <= k < |ws| ==>
      ws[k].Insert? && ws[k].table == DetailTable && 0 < |ws[k].rows| <= DefaultBatchSize
    ensures Flatten(RowsOf(ws)) == rows
  {
    InsertWrites(DetailTable, rows, None)
  }


  /** `batchUpsert(client, table, data, options)`. */
  method BatchUpsert<R>(table: string, data: seq<R>, options: UpsertOptions, replies: seq<Reply>)
    returns (total: nat, writes: seq<Write<R>>)
    requires options.BatchSize() > 0
    requires |replies| >= |Chunks(data, options.BatchSize())|
    ensures writes == UpsertWrites(table, data, options)
    ensures |writes| == NumChunks(|data|, options.BatchSize())
    ensures forall k :: 0 <= k < |writes| ==>
      writes[k] == Upsert(table, Chunks(data, options.BatchSize())[k], options.onConflict, options.IgnoreDuplicates())
    ensures total == AcceptedRows(Chunks(data, options.BatchSize()), replies)
    ensures total <= |data|
    ensures |data| == 0 ==> total == 0 && writes == []
  {
    var size := options.BatchSize();
    total, writes := WriteChunks(data, size, replies,
      rows => Upsert(table, rows, options.onConflict, options.IgnoreDuplicates()));
    AcceptedRowsBounds(Chunks(data, size), replies);
    ChunksFlatten(data, size);
  }

  /** `batchInsert(client, table, data, batchSize)`: the same loop with
      append-only writes and no conflict column. */
  method BatchInsert<R>(table: string, data: seq<R>, batchSize: Option<int>, replies: seq<Reply>)
    returns (total: nat, writes: seq<Write<R>>)
    requires batchSize.GetOr(DefaultBatchSize) > 0
    requires |replies| >= |Chunks(data, batchSize.GetOr(DefaultBatchSize))|
    ensures writes == InsertWrites(table, data, batchSize)
    ensures |writes| == NumChunks(|data|, batchSize.GetOr(DefaultBatchSize))
    ensures forall k :: 0 <= k < |writes| ==>
      writes[k] == Insert(table, Chunks(data, batchSize.GetOr(DefaultBatchSize))[k])
    ensures total == AcceptedRows(Chunks(data, batchSize.GetOr(DefaultBatchSize)), replies)
    ensures total <= |data|
    ensures |data| == 0 ==> total == 0 && writes == []
  {
    var size := batchSize.GetOr(DefaultBatchSize);
    total, writes := WriteChunks(data, size, replies, rows => Insert(table, rows));
    AcceptedRowsBounds(Chunks(data, size), replies);
    ChunksFlatten(data, size);
  }
}

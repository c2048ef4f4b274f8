/** Chunk cleaning and streaming (`CSVService`): a raw chunk loses every row
    with a missing field, then every row whose expenses are exactly zero; the
    stream yields the non-empty cleaned chunks in source order. */
module Cleaning {
  import opened Wrappers
  import opened Columns
  import Seqs

  /** One typed CSV row; `None` is a missing value (NaN). Expenses are in cents. */
  datatype Row = Row(
    reference: Option<string>,
    url: Option<string>,
    department: Option<string>,
    postalCode: Option<string>,
    city: Option<string>,
    expenses: Option<int>)

  /** A chunk of rows as read in one go. */
  type Chunk = seq<Row>

  /** The cell of `row` in column `c` holds a value. */
  predicate Present(row: Row, c: Column) {
    match c
    case ReferenceNumber => row.reference.Some?
    case AdUrls => row.url.Some?
    case DeptCode => row.department.Some?
    case ZipCode => row.postalCode.Some?
    case City => row.city.Some?
    case CondominiumExpenses => row.expenses.Some?
  }

  /** No cell of the row is missing (what `dropna()` keeps). */
  predicate Complete(row: Row) {
    forall c: Column :: Present(row, c)
  }

  /** The expenses cell is not exactly zero (what the `!= 0` mask keeps). */
  predicate NonZeroExpenses(row: Row) {
    row.expenses != Some(0)
  }

  /** The single-row criterion for surviving cleaning. */
  predicate Keep(row: Row) {
    Complete(row) && NonZeroExpenses(row)
  }

  /** A row cleaning removes. */
  predicate Dropped(row: Row) {
    !Keep(row)
  }

  /** `_clean_chunk`: `dropna()`, then the non-zero expenses mask. */
  function CleanChunk(chunk: Chunk): (r: Chunk)
    ensures Seqs.IsSubsequence(r, chunk)
    ensures forall row :: row in r <==> row in chunk && Keep(row)
    ensures |r| <= |chunk|
  {
    var r := Seqs.Filter(NonZeroExpenses, Seqs.Filter(Complete, chunk));
    CleanIsFilterKeep(chunk);
    Seqs.FilterIsSubsequence(Keep, chunk);
    forall row ensures row in r <==> row in chunk && Keep(row) {
      Seqs.FilterMembership(Keep, chunk, row);
    }
    r
  }

  /** The two masks applied in turn select exactly the rows `Keep` selects. */
  lemma {:induction false} CleanIsFilterKeep(chunk: Chunk)
    ensures Seqs.Filter(NonZeroExpenses, Seqs.Filter(Complete, chunk)) == Seqs.Filter(Keep, chunk)
  {
    if chunk != [] {
      CleanIsFilterKeep(chunk[1..]);
      var tail := Seqs.Filter(Complete, chunk[1..]);
      if Complete(chunk[0]) {
        assert Seqs.Filter(Complete, chunk) == [chunk[0]] + tail;
        assert ([chunk[0]] + tail)[1..] == tail;
      }
    }
  }

  /** The per-chunk diagnostic: rows before, rows after and rows deleted. */
  datatype CleaningReport = CleaningReport(chunkId: nat, before: nat, after: nat, deleted: nat)

  /** The counts logged for chunk `id`; the deleted rows are exactly the rows `Keep` rejects. */
  function Report(chunk: Chunk, id: nat): (rep: CleaningReport)
    ensures rep.before == |chunk| && rep.after == |CleanChunk(chunk)|
    ensures rep.deleted == rep.before - rep.after
    ensures rep.deleted == |Seqs.Filter(Dropped, chunk)|
  {
    var after := |CleanChunk(chunk)|;
    CleanIsFilterKeep(chunk);
    Seqs.FilterPartition(Keep, Dropped, chunk);
    CleaningReport(id, |chunk|, after, |chunk| - after)
  }

  /** Cleaning a cleaned chunk changes nothing. */
  lemma CleanIdempotent(chunk: Chunk)
    ensures CleanChunk(CleanChunk(chunk)) == CleanChunk(chunk)
  {
    CleanIsFilterKeep(chunk);
    CleanIsFilterKeep(CleanChunk(chunk));
    Seqs.FilterIdempotent(Keep, chunk);
  }

  /** Cleaning is row-local: cleaning a concatenation cleans each part. */
  lemma CleanConcat(a: Chunk, b: Chunk)
    ensures CleanChunk(a + b) == CleanChunk(a) + CleanChunk(b)
  {
    CleanIsFilterKeep(a);
    CleanIsFilterKeep(b);
    CleanIsFilterKeep(a + b);
    Seqs.FilterConcat(Keep, a, b);
  }

  /** A surviving row occurs as often as in the raw chunk; a dropped row not at all. */
  lemma CleanMultiplicity(chunk: Chunk, row: Row)
    ensures multiset(CleanChunk(chunk))[row] == if Keep(row) then multiset(chunk)[row] else 0
  {
    CleanIsFilterKeep(chunk);
    Seqs.FilterMultiplicity(Keep, chunk, row);
  }

  predicate NonEmpty(chunk: Chunk) {
    chunk != []
  }

  /** `get_cleaned_chunks`: clean every raw chunk in order, yield only the non-empty ones. */
  function CleanedChunks(raw: seq<Chunk>): (r: seq<Chunk>)
    ensures |r| <= |raw|
    ensures forall i :: 0 <= i < |r| ==> r[i] != []
    ensures forall i, row :: 0 <= i < |r| && row in r[i] ==> Keep(row)
  {
    if raw == [] then []
    else
      var c := CleanChunk(raw[0]);
      (if c == [] then [] else [c]) + CleanedChunks(raw[1..])
  }

  /** The stream is the per-chunk cleaning of the raw stream with empty chunks removed. */
  lemma {:induction false} CleanedChunksInOrder(raw: seq<Chunk>)
    ensures CleanedChunks(raw) == Seqs.Filter(NonEmpty, Seqs.Map(CleanChunk, raw))
  {
    if raw != [] {
      CleanedChunksInOrder(raw[1..]);
      assert Seqs.Map(CleanChunk, raw)[1..] == Seqs.Map(CleanChunk, raw[1..]);
    }
  }

  /** The yielded rows, concatenated, are the cleaning of all raw rows concatenated. */
  lemma {:induction false} CleanedChunksFlatten(raw: seq<Chunk>)
    ensures Seqs.Flatten(CleanedChunks(raw)) == CleanChunk(Seqs.Flatten(raw))
  {
    if raw != [] {
      CleanedChunksFlatten(raw[1..]);
      var c := CleanChunk(raw[0]);
      Seqs.FlattenConcat(if c == [] then [] else [c], CleanedChunks(raw[1..]));
      CleanConcat(raw[0], Seqs.Flatten(raw[1..]));
      if c != [] {
        assert Seqs.Flatten([c]) == c;
      }
    }
  }

  /** Chunk boundaries do not matter: two chunkings of the same rows yield the same cleaned rows. */
  lemma ChunkingIndependent(a: seq<Chunk>, b: seq<Chunk>)
    requires Seqs.Flatten(a) == Seqs.Flatten(b)
    ensures Seqs.Flatten(CleanedChunks(a)) == Seqs.Flatten(CleanedChunks(b))
  {
    CleanedChunksFlatten(a);
    CleanedChunksFlatten(b);
  }

  /** Only a zero amount is masked out: a complete row with negative expenses survives. */
  lemma NegativeExpensesKept(row: Row)
    requires Complete(row) && row.expenses.Some? && row.expenses.value < 0
    ensures CleanChunk([row]) == [row]
  {
    assert row in CleanChunk([row]);
  }
}

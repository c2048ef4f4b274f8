/** The dedup-aware import (`import_csv` command): per cleaned chunk, look up
    which references are already stored, build announcements for the others,
    insert them in one atomic bulk insert that ignores conflicts, and sum the
    per-chunk counts over the whole stream. */
module Loader {
  import opened Wrappers
  import opened Columns
  import opened Cleaning
  import opened Announcement
  import Seqs

  /** The announcement built from a complete row (the field mapping of `_convert_to_object`). */
  function ToRecord(row: Row): (rec: Record)
    requires Complete(row)
    ensures row.reference == Some(rec.reference)
    ensures row.department == Some(rec.department)
    ensures row.city == Some(rec.city)
    ensures row.postalCode == Some(rec.postalCode)
    ensures row.url == Some(rec.url)
    ensures row.expenses == Some(rec.expenses)
  {
    assert Present(row, ReferenceNumber) && Present(row, AdUrls) && Present(row, DeptCode);
    assert Present(row, ZipCode) && Present(row, City) && Present(row, CondominiumExpenses);
    Record(
      url := row.url.value,
      reference := row.reference.value,
      department := row.department.value,
      city := row.city.value,
      postalCode := row.postalCode.value,
      expenses := row.expenses.value)
  }

  /** The row an announcement is built from: the inverse of the field mapping. */
  function ToRow(rec: Record): Row {
    Row(Some(rec.reference), Some(rec.url), Some(rec.department), Some(rec.postalCode),
        Some(rec.city), Some(rec.expenses))
  }

  /** The field mapping loses nothing: complete rows and announcements correspond one to one. */
  lemma ToRecordRoundTrip(row: Row, rec: Record)
    requires Complete(row)
    ensures ToRow(ToRecord(row)) == row
    ensures Complete(ToRow(rec)) && ToRecord(ToRow(rec)) == rec
  {
    forall c: Column ensures Present(ToRow(rec), c) {
      match c
      case ReferenceNumber =>
      case AdUrls =>
      case DeptCode =>
      case ZipCode =>
      case City =>
      case CondominiumExpenses =>
    }
  }

  lemma KeptRowsComplete(chunk: Chunk)
    requires forall row :: row in chunk ==> Keep(row)
    ensures forall row :: row in chunk ==> Complete(row)
  {
  }

  /** Every row of every chunk passed the cleaning criterion. */
  predicate AllKept(chunks: seq<Chunk>) {
    forall row :: row in Seqs.Flatten(chunks) ==> Keep(row)
  }

  /** Cleaned chunks split into a cleaned head and cleaned tail. */
  lemma AllKeptSplit(chunks: seq<Chunk>)
    requires AllKept(chunks) && chunks != []
    ensures forall row :: row in chunks[0] ==> Keep(row)
    ensures AllKept(chunks[1..])
    ensures |Seqs.Flatten(chunks)| == |chunks[0]| + |Seqs.Flatten(chunks[1..])|
  {
    assert Seqs.Flatten(chunks) == chunks[0] + Seqs.Flatten(chunks[1..]);
  }

  /** The announcements of all rows of a cleaned chunk, in order. */
  function Records(chunk: Chunk): (r: seq<Record>)
    requires forall row :: row in chunk ==> Complete(row)
    ensures |r| == |chunk|
    ensures forall i :: 0 <= i < |chunk| ==> r[i] == ToRecord(chunk[i])
  {
    if chunk == [] then [] else [ToRecord(chunk[0])] + Records(chunk[1..])
  }

  lemma {:induction false} RecordsConcat(a: Chunk, b: Chunk)
    requires forall row :: row in a + b ==> Complete(row)
    ensures Records(a + b) == Records(a) + Records(b)
  {
  }

  /** The references a chunk mentions. */
  function ChunkReferences(chunk: Chunk): set<string> {
    set row | row in chunk && row.reference.Some? :: row.reference.value
  }

  /** `_get_exiting_refs`: the stored references that also occur in the chunk. */
  function ExistingRefs(store: Store, chunk: Chunk): (refs: set<string>)
    ensures forall ref :: ref in refs <==>
      (exists i :: 0 <= i < |store| && store[i].reference == ref) &&
      (exists j :: 0 <= j < |chunk| && chunk[j].reference == Some(ref))
  {
    var refs := References(store) * ChunkReferences(chunk);
    assert forall ref :: ref in References(store) <==> exists i :: 0 <= i < |store| && store[i].reference == ref by {
      forall ref ensures ref in References(store) ==> exists i :: 0 <= i < |store| && store[i].reference == ref {
        if ref in References(store) {
          var r :| r in store && r.reference == ref;
          var i :| 0 <= i < |store| && store[i] == r;
        }
      }
    }
    assert forall ref :: ref in ChunkReferences(chunk) <==> exists j :: 0 <= j < |chunk| && chunk[j].reference == Some(ref) by {
      forall ref ensures ref in ChunkReferences(chunk) ==> exists j :: 0 <= j < |chunk| && chunk[j].reference == Some(ref) {
        if ref in ChunkReferences(chunk) {
          var row :| row in chunk && row.reference == Some(ref);
          var j :| 0 <= j < |chunk| && chunk[j] == row;
        }
      }
    }
    refs
  }

  /** `_convert_to_object`: no announcement when the reference is already stored. */
  function ConvertToObject(row: Row, existing: set<string>): (r: Option<Record>)
    requires Complete(row)
    ensures r.None? <==> ToRecord(row).reference in existing
    ensures r.Some? ==> r.value == ToRecord(row)
  {
    var rec := ToRecord(row);
    if rec.reference in existing then None else Some(rec)
  }

  /** The announcements whose reference is not in `existing`. */
  function NotIn(existing: set<string>): Record -> bool {
    (rec: Record) => rec.reference !in existing
  }

  /** `_get_announcements_to_create`: one announcement per row whose reference is not
      already stored, duplicates within the chunk included, in row order. */
  function Candidates(chunk: Chunk, existing: set<string>): (r: seq<Record>)
    requires forall row :: row in chunk ==> Complete(row)
    ensures |r| <= |chunk|
    ensures forall i :: 0 <= i < |r| ==> r[i].reference !in existing
    ensures Seqs.IsSubsequence(r, Records(chunk))
    ensures forall rec :: rec in r <==> rec in Records(chunk) && rec.reference !in existing
    ensures r == Seqs.Filter(NotIn(existing), Records(chunk))
  {
    if chunk == [] then []
    else
      var rest := Candidates(chunk[1..], existing);
      assert Records(chunk) == [ToRecord(chunk[0])] + Records(chunk[1..]);
      assert Records(chunk)[1..] == Records(chunk[1..]);
      match ConvertToObject(chunk[0], existing)
      case Some(rec) =>
        assert ([rec] + rest)[1..] == rest;
        [rec] + rest
      case None =>
        assert Seqs.IsSubsequence(rest, Records(chunk)) by {
          if rest != [] {
            assert Records(chunk)[1..] == Records(chunk[1..]);
          }
        }
        rest
  }

  /** A candidate occurs as often as its row does, and an announcement whose reference
      is stored not at all. */
  lemma CandidatesMultiplicity(chunk: Chunk, existing: set<string>, rec: Record)
    requires forall row :: row in chunk ==> Complete(row)
    ensures multiset(Candidates(chunk, existing))[rec] ==
      if rec.reference in existing then 0 else multiset(Records(chunk))[rec]
  {
    Seqs.FilterMultiplicity(NotIn(existing), Records(chunk), rec);
  }

  /** The candidates are exactly the chunk's announcements whose reference the store
      does not hold: the lookup restricted to the chunk loses nothing. */
  lemma CandidatesAreUnstored(store: Store, chunk: Chunk)
    requires forall row :: row in chunk ==> Complete(row)
    ensures Candidates(chunk, ExistingRefs(store, chunk)) == Seqs.Filter(NotIn(References(store)), Records(chunk))
  {
    var existing := ExistingRefs(store, chunk);
    var recs := Records(chunk);
    forall i | 0 <= i < |recs|
      ensures NotIn(existing)(recs[i]) == NotIn(References(store))(recs[i])
    {
      assert chunk[i].reference == Some(recs[i].reference);
      if recs[i].reference in References(store) {
        var r :| r in store && r.reference == recs[i].reference;
        var k :| 0 <= k < |store| && store[k] == r;
      }
    }
    Seqs.FilterCongruent(NotIn(existing), NotIn(References(store)), recs);
  }

  /** A record clashes with the store when its reference or its url is already taken. */
  predicate Conflicts(store: Store, rec: Record) {
    rec.reference in References(store) || rec.url in Urls(store)
  }

  /** Inserting one record with ON CONFLICT DO NOTHING: the record is appended exactly
      when neither its reference nor its url is taken, and afterwards it clashes. */
  function InsertOne(store: Store, rec: Record): (r: Store)
    ensures |r| == |store| + 1 <==> !Conflicts(store, rec)
    ensures |r| == |store| ==> r == store
    ensures |r| == |store| + 1 ==> r == store + [rec]
    ensures Conflicts(r, rec)
  {
    if Conflicts(store, rec) then store
    else
      assert (store + [rec])[|store|] == rec;
      store + [rec]
  }

  /** `store` is an unchanged prefix of `store'`: nothing removed, nothing altered. */
  predicate Extends(store': Store, store: Store) {
    |store| <= |store'| && store'[..|store|] == store
  }

  lemma ExtendsKeepsKeys(store': Store, store: Store)
    requires Extends(store', store)
    ensures References(store) <= References(store')
    ensures Urls(store) <= Urls(store')
  {
    forall r | r in store ensures r in store' {
      var i :| 0 <= i < |store| && store[i] == r;
      assert store'[i] == r;
    }
  }

  /** One insertion keeps the store's contents, takes the record's keys, and keeps both keys unique. */
  lemma InsertOneFacts(store: Store, rec: Record)
    ensures Extends(InsertOne(store, rec), store)
    ensures |InsertOne(store, rec)| <= |store| + 1
    ensures |InsertOne(store, rec)| == |store| + 1 ==> InsertOne(store, rec)[|store|] == rec
    ensures Conflicts(InsertOne(store, rec), rec)
    ensures UniqueReferences(store) && UniqueUrls(store) ==>
      UniqueReferences(InsertOne(store, rec)) && UniqueUrls(InsertOne(store, rec))
  {
    var s1 := InsertOne(store, rec);
    if !Conflicts(store, rec) {
      assert s1[|store|] == rec;
      assert s1[|store|] in s1;
      assert forall i :: 0 <= i < |store| ==> store[i] in store;
    }
  }

  /** `bulk_create(..., ignore_conflicts=True)` on valid data: each candidate in turn is
      added unless its reference or url is already present, earlier candidates included. */
  function InsertAll(store: Store, cands: seq<Record>): (r: Store)
    ensures Extends(r, store)
    ensures |r| - |store| <= |cands|
    ensures forall i :: |store| <= i < |r| ==> r[i] in cands
    ensures forall c :: c in cands ==> Conflicts(r, c)
    ensures UniqueReferences(store) && UniqueUrls(store) ==> UniqueReferences(r) && UniqueUrls(r)
    decreases |cands|
  {
    if cands == [] then store
    else
      var s1 := InsertOne(store, cands[0]);
      var r := InsertAll(s1, cands[1..]);
      InsertAllStep(store, cands, s1, r);
      r
  }

  /** The step of `InsertAll`: what holds after the rest of the candidates carries over
      to the whole sequence once the first one is inserted. */
  lemma InsertAllStep(store: Store, cands: seq<Record>, s1: Store, r: Store)
    requires cands != [] && s1 == InsertOne(store, cands[0])
    requires Extends(r, s1)
    requires |r| - |s1| <= |cands| - 1
    requires forall i :: |s1| <= i < |r| ==> r[i] in cands[1..]
    requires forall c :: c in cands[1..] ==> Conflicts(r, c)
    requires UniqueReferences(s1) && UniqueUrls(s1) ==> UniqueReferences(r) && UniqueUrls(r)
    ensures Extends(r, store)
    ensures |r| - |store| <= |cands|
    ensures forall i :: |store| <= i < |r| ==> r[i] in cands
    ensures forall c :: c in cands ==> Conflicts(r, c)
    ensures UniqueReferences(store) && UniqueUrls(store) ==> UniqueReferences(r) && UniqueUrls(r)
  {
    InsertOneFacts(store, cands[0]);
    ExtendsKeepsKeys(r, s1);
    ExtendsTransitive(r, s1, store);
    assert forall c :: c in cands ==> c == cands[0] || c in cands[1..];
  }

  lemma ExtendsTransitive(c: Store, b: Store, a: Store)
    requires Extends(c, b) && Extends(b, a)
    ensures Extends(c, a)
    ensures forall i :: |a| <= i < |c| ==> i < |b| ==> c[i] == b[i]
  {
    assert c[..|a|] == c[..|b|][..|a|];
  }

  lemma InsertAllCons(store: Store, rec: Record, rest: seq<Record>)
    ensures InsertAll(store, [rec] + rest) == InsertAll(InsertOne(store, rec), rest)
  {
    assert ([rec] + rest)[0] == rec && ([rec] + rest)[1..] == rest;
  }

  lemma {:induction false} InsertAllConcat(store: Store, a: seq<Record>, b: seq<Record>)
    ensures InsertAll(store, a + b) == InsertAll(InsertAll(store, a), b)
    decreases |a|
  {
    if a == [] {
      assert a + b == b;
    } else {
      var s1 := InsertOne(store, a[0]);
      assert a + b == [a[0]] + (a[1..] + b);
      InsertAllCons(store, a[0], a[1..] + b);
      assert a == [a[0]] + a[1..];
      InsertAllCons(store, a[0], a[1..]);
      InsertAllConcat(s1, a[1..], b);
    }
  }

  /** Candidates that all clash with the store insert nothing. */
  lemma {:induction false} InsertAllConflicting(store: Store, cands: seq<Record>)
    requires forall c :: c in cands ==> Conflicts(store, c)
    ensures InsertAll(store, cands) == store
    decreases |cands|
  {
    if cands != [] {
      InsertAllConflicting(store, cands[1..]);
    }
  }

  /** Why the atomic bulk insert raised; either way the transaction rolls back. */
  datatype InsertError =
    | DataError        // a value does not fit its column
    | StoreUnavailable // any other failure of the database

  /** Every announcement fits its columns. */
  predicate AllFit(cands: seq<Record>) {
    forall i :: 0 <= i < |cands| ==> FitsColumns(cands[i])
  }

  /** The atomic bulk insert. `raises` stands for a failure of the database itself. */
  function BulkCreate(store: Store, cands: seq<Record>, raises: bool): (r: Result<Store, InsertError>)
    ensures r.Failure? <==> raises || !AllFit(cands)
    ensures r.Success? ==> r.value == InsertAll(store, cands)
  {
    if raises then Failure(StoreUnavailable)
    else if !AllFit(cands) then Failure(DataError)
    else Success(InsertAll(store, cands))
  }

  /** The store after a chunk, and `_process_chunk`'s return value (`None` when it raised). */
  datatype ChunkOutcome = ChunkOutcome(store: Store, count: Option<nat>)

  /** After loading, a complete row is accounted for: its reference is stored, or its
      url is stored and its announcement fits the columns. */
  predicate Settled(store: Store, row: Row) {
    && Complete(row)
    && var rec := ToRecord(row);
       rec.reference in References(store) || (rec.url in Urls(store) && FitsColumns(rec))
  }

  /** Inserted announcements come from the chunk's rows, so none has zero expenses. */
  lemma InsertedHaveExpenses(store: Store, chunk: Chunk, existing: set<string>)
    requires forall row :: row in chunk ==> Keep(row)
    ensures forall row :: row in chunk ==> Complete(row)
    ensures var s := InsertAll(store, Candidates(chunk, existing));
      forall i :: |store| <= i < |s| ==> s[i].expenses != 0
  {
    KeptRowsComplete(chunk);
    var cands := Candidates(chunk, existing);
    var s := InsertAll(store, cands);
    forall i | |store| <= i < |s| ensures s[i].expenses != 0 {
      assert s[i] in cands;
      var j :| 0 <= j < |chunk| && Records(chunk)[j] == s[i];
      assert Keep(chunk[j]);
    }
  }

  /** Inserting candidates that all fit their columns keeps the store valid. */
  lemma InsertKeepsValid(store: Store, cands: seq<Record>)
    requires forall i :: 0 <= i < |cands| ==> FitsColumns(cands[i])
    ensures ValidStore(store) ==> ValidStore(InsertAll(store, cands))
  {
    var s := InsertAll(store, cands);
    if !ValidStore(store) { return; }
    forall i | 0 <= i < |s| ensures FitsColumns(s[i]) {
      if i < |store| {
        assert s[i] == store[i];
      } else {
        var k :| 0 <= k < |cands| && cands[k] == s[i];
      }
    }
  }

  /** After a successful bulk insert every row of the chunk is settled. */
  lemma InsertSettlesChunk(store: Store, chunk: Chunk)
    requires forall row :: row in chunk ==> Complete(row)
    requires var cands := Candidates(chunk, ExistingRefs(store, chunk));
      forall i :: 0 <= i < |cands| ==> FitsColumns(cands[i])
    ensures var s := InsertAll(store, Candidates(chunk, ExistingRefs(store, chunk)));
      forall row :: row in chunk ==> Settled(s, row)
  {
    var existing := ExistingRefs(store, chunk);
    forall row | row in chunk
      ensures Settled(InsertAll(store, Candidates(chunk, existing)), row)
    {
      InsertSettlesRow(store, chunk, existing, row);
    }
  }

  lemma InsertSettlesRow(store: Store, chunk: Chunk, existing: set<string>, row: Row)
    requires forall row :: row in chunk ==> Complete(row)
    requires existing <= References(store)
    requires row in chunk
    requires var cands := Candidates(chunk, existing);
      forall i :: 0 <= i < |cands| ==> FitsColumns(cands[i])
    ensures Settled(InsertAll(store, Candidates(chunk, existing)), row)
  {
    var cands := Candidates(chunk, existing);
    var s := InsertAll(store, cands);
    var rec := ToRecord(row);
    ExtendsKeepsKeys(s, store);
    var j :| 0 <= j < |chunk| && chunk[j] == row;
    assert Records(chunk)[j] == rec;
    if rec.reference !in existing {
      assert rec in cands;
      assert Conflicts(s, rec);
    }
  }

  /** `_process_chunk`. */
  function ProcessChunk(store: Store, chunk: Chunk, raises: bool): (o: ChunkOutcome)
    requires forall row :: row in chunk ==> Keep(row)
    ensures o.count.None? ==> o.store == store
    ensures Extends(o.store, store)
    ensures ValidStore(store) ==> ValidStore(o.store)
    ensures o.count.Some? ==> |o.store| - |store| <= o.count.value <= |chunk|
    ensures forall row :: row in chunk ==> Complete(row)
    ensures o.count.Some? ==> o.count.value == |Candidates(chunk, ExistingRefs(store, chunk))|
    ensures o.count.Some? ==> o.count.value == |Seqs.Filter(NotIn(References(store)), Records(chunk))|
    ensures o.count.None? <==>
      raises || !AllFit(Candidates(chunk, ExistingRefs(store, chunk)))
    ensures forall i :: |store| <= i < |o.store| ==> o.store[i].expenses != 0
    ensures o.count.Some? ==> forall row :: row in chunk ==> Settled(o.store, row)
  {
    KeptRowsComplete(chunk);
    var existing := ExistingRefs(store, chunk);
    var cands := Candidates(chunk, existing);
    CandidatesAreUnstored(store, chunk);
    match BulkCreate(store, cands, raises)
    case Failure(_) => ChunkOutcome(store, None)
    case Success(s) =>
      ChunkInsertFacts(store, chunk, cands, s);
      ChunkOutcome(s, Some(|cands|))
  }

  /** What a successful bulk insert of a chunk's candidates guarantees. */
  lemma ChunkInsertFacts(store: Store, chunk: Chunk, cands: seq<Record>, s: Store)
    requires forall row :: row in chunk ==> Keep(row)
    requires forall row :: row in chunk ==> Complete(row)
    requires cands == Candidates(chunk, ExistingRefs(store, chunk))
    requires AllFit(cands)
    requires s == InsertAll(store, cands)
    ensures Extends(s, store)
    ensures ValidStore(store) ==> ValidStore(s)
    ensures |s| - |store| <= |cands| <= |chunk|
    ensures forall i :: |store| <= i < |s| ==> s[i].expenses != 0
    ensures forall row :: row in chunk ==> Settled(s, row)
  {
    var existing := ExistingRefs(store, chunk);
    InsertedHaveExpenses(store, chunk, existing);
    InsertKeepsValid(store, cands);
    InsertSettlesChunk(store, chunk);
  }

  /** A successful chunk ends where inserting every one of its rows in turn would:
      the existence check only skips rows the bulk insert would ignore anyway. */
  lemma ProcessChunkIsRowFold(store: Store, chunk: Chunk, raises: bool)
    requires forall row :: row in chunk ==> Keep(row)
    requires ProcessChunk(store, chunk, raises).count.Some?
    ensures ProcessChunk(store, chunk, raises).store == InsertAll(store, Records(chunk))
  {
    var existing := ExistingRefs(store, chunk);
    assert existing <= References(store) by {
      forall ref | ref in existing ensures ref in References(store) {
        var i :| 0 <= i < |store| && store[i].reference == ref;
        assert store[i] in store;
      }
    }
    SkipExistingIsHarmless(store, chunk, existing);
  }

  lemma {:induction false} SkipExistingIsHarmless(store: Store, chunk: Chunk, existing: set<string>)
    requires forall row :: row in chunk ==> Complete(row)
    requires existing <= References(store)
    ensures InsertAll(store, Candidates(chunk, existing)) == InsertAll(store, Records(chunk))
    decreases |chunk|
  {
    if chunk != [] {
      var rec := ToRecord(chunk[0]);
      assert Records(chunk) == [rec] + Records(chunk[1..]);
      InsertAllCons(store, rec, Records(chunk[1..]));
      if rec.reference in existing {
        assert InsertOne(store, rec) == store;
        SkipExistingIsHarmless(store, chunk[1..], existing);
      } else {
        assert Candidates(chunk, existing) == [rec] + Candidates(chunk[1..], existing);
        InsertAllCons(store, rec, Candidates(chunk[1..], existing));
        var s1 := InsertOne(store, rec);
        assert Extends(s1, store);
        ExtendsKeepsKeys(s1, store);
        SkipExistingIsHarmless(s1, chunk[1..], existing);
      }
    }
  }

  /** The command's failure. */
  datatype ImportError = CommandError(message: string)

  /** What `handle` wraps the TypeError of `sum` in when a chunk returned `None`. */
  const SumOfNoneError: ImportError :=
    CommandError("Error reading CSV file: unsupported operand type(s) for +: 'int' and 'NoneType'")

  /** The store after the run, and the run's total or its error. */
  datatype RunOutcome = RunOutcome(store: Store, total: Result<nat, ImportError>)

  /** The summation in `handle` over cleaned chunks, chunk `index` onwards; a chunk whose
      index is in `failing` has its bulk insert raise. The first `None` aborts the run;
      chunks already loaded stay loaded. */
  function LoadChunks(store: Store, chunks: seq<Chunk>, failing: set<nat>, index: nat): (o: RunOutcome)
    requires AllKept(chunks)
    ensures Extends(o.store, store)
    ensures ValidStore(store) ==> ValidStore(o.store)
    ensures forall i :: |store| <= i < |o.store| ==> o.store[i].expenses != 0
    ensures o.total.Failure? ==> o.total.error == SumOfNoneError
    ensures o.total.Success? ==> |o.store| - |store| <= o.total.value <= |Seqs.Flatten(chunks)|
    decreases |chunks|
  {
    if chunks == [] then RunOutcome(store, Success(0))
    else
      assert Seqs.Flatten(chunks) == chunks[0] + Seqs.Flatten(chunks[1..]);
      var c := ProcessChunk(store, chunks[0], index in failing);
      match c.count
      case None => RunOutcome(c.store, Failure(SumOfNoneError))
      case Some(n) =>
        var rest := LoadChunks(c.store, chunks[1..], failing, index + 1);
        ExtendsTransitive(rest.store, c.store, store);
        assert Seqs.Flatten(chunks) == chunks[0] + Seqs.Flatten(chunks[1..]);
        match rest.total
        case Success(t) => RunOutcome(rest.store, Success(n + t))
        case Failure(e) => rest
  }

  /** `cs` has one value per chunk of `n` chunks, or stops right after its first `None`. */
  predicate StopsAtNone(cs: seq<Option<nat>>, n: nat) {
    && |cs| <= n
    && (forall i :: 0 <= i < |cs| - 1 ==> cs[i].Some?)
    && (|cs| == n || (cs != [] && cs[|cs| - 1].None?))
  }

  lemma StopsAtNoneCons(x: Option<nat>, rest: seq<Option<nat>>, n: nat)
    requires x.Some? && StopsAtNone(rest, n)
    ensures StopsAtNone([x] + rest, n + 1)
  {
    var cs := [x] + rest;
    forall i | 1 <= i < |cs| - 1 ensures cs[i].Some? {
      assert cs[i] == rest[i - 1];
    }
    if |rest| != n {
      assert cs[|cs| - 1] == rest[|rest| - 1];
    }
  }

  /** The values the generator in `handle` hands to `sum`: each chunk's count in turn,
      up to the first `None`, after which `sum` has raised and never resumes it. */
  function ChunkCounts(store: Store, chunks: seq<Chunk>, failing: set<nat>, index: nat): (cs: seq<Option<nat>>)
    requires AllKept(chunks)
    ensures StopsAtNone(cs, |chunks|)
    decreases |chunks|
  {
    if chunks == [] then []
    else
      AllKeptSplit(chunks);
      var c := ProcessChunk(store, chunks[0], index in failing);
      match c.count
      case None => [None]
      case Some(n) =>
        var rest := ChunkCounts(c.store, chunks[1..], failing, index + 1);
        StopsAtNoneCons(Some(n), rest, |chunks| - 1);
        [Some(n)] + rest
  }

  /** Python's `sum` from `start`, left to right: adding `None` raises the `TypeError`
      that `handle` reports. */
  function SumCounts(start: nat, xs: seq<Option<nat>>): (r: Result<nat, ImportError>)
    ensures r.Failure? <==> exists i :: 0 <= i < |xs| && xs[i].None?
    ensures r.Failure? ==> r.error == SumOfNoneError
    ensures r.Success? ==> start <= r.value
    decreases |xs|
  {
    if xs == [] then Success(start)
    else if xs[0].None? then Failure(SumOfNoneError)
    else
      var r := SumCounts(start + xs[0].value, xs[1..]);
      assert forall i :: 1 <= i < |xs| ==> xs[i] == xs[1..][i - 1];
      r
  }

  /** Starting the sum at `start` shifts its value by `start`. */
  lemma {:induction false} SumCountsShift(start: nat, xs: seq<Option<nat>>)
    ensures SumCounts(start, xs).Success? == SumCounts(0, xs).Success?
    ensures SumCounts(start, xs).Success? ==> SumCounts(start, xs).value == start + SumCounts(0, xs).value
    decreases |xs|
  {
    if xs != [] && xs[0].Some? {
      SumCountsShift(start + xs[0].value, xs[1..]);
      SumCountsShift(xs[0].value, xs[1..]);
    }
  }

  /** The run's total is Python's `sum` of the per-chunk counts: it fails exactly when
      some chunk returned `None`, and otherwise adds up every chunk's count. */
  lemma {:induction false} LoadChunksTotalIsSum(store: Store, chunks: seq<Chunk>, failing: set<nat>, index: nat)
    requires AllKept(chunks)
    ensures var o := LoadChunks(store, chunks, failing, index);
      var t := SumCounts(0, ChunkCounts(store, chunks, failing, index));
      && (o.total.Success? <==> t.Success?)
      && (o.total.Success? ==> o.total.value == t.value)
    decreases |chunks|
  {
    if chunks != [] {
      assert Seqs.Flatten(chunks) == chunks[0] + Seqs.Flatten(chunks[1..]);
      var c := ProcessChunk(store, chunks[0], index in failing);
      if c.count.Some? {
        var rest := ChunkCounts(c.store, chunks[1..], failing, index + 1);
        LoadChunksTotalIsSum(c.store, chunks[1..], failing, index + 1);
        var cs := [c.count] + rest;
        assert cs[1..] == rest;
        SumCountsShift(c.count.value, rest);
      }
    }
  }

  /** The `handle` command on a stream of raw chunks: clean, then load and sum. */
  function Import(store: Store, raw: seq<Chunk>, failing: set<nat>): (o: RunOutcome)
    ensures Extends(o.store, store)
    ensures ValidStore(store) ==> ValidStore(o.store)
    ensures forall i :: |store| <= i < |o.store| ==> o.store[i].expenses != 0
    ensures o.total.Failure? ==> o.total.error == SumOfNoneError
  {
    var chunks := CleanedChunks(raw);
    Cleaning.CleanedChunksFlatten(raw);
    LoadChunks(store, chunks, failing, 0)
  }

  /** One step of the run: the head chunk, then the rest from the store it leaves. */
  lemma LoadChunksStep(store: Store, chunks: seq<Chunk>, failing: set<nat>, index: nat)
    requires AllKept(chunks) && chunks != []
    ensures AllKept(chunks[1..]) && forall row :: row in chunks[0] ==> Keep(row)
    ensures ProcessChunk(store, chunks[0], index in failing).count.None? ==>
      LoadChunks(store, chunks, failing, index).total.Failure? &&
      LoadChunks(store, chunks, failing, index).store == ProcessChunk(store, chunks[0], index in failing).store
    ensures ProcessChunk(store, chunks[0], index in failing).count.Some? ==>
      (LoadChunks(store, chunks, failing, index).total.Success? <==>
        LoadChunks(ProcessChunk(store, chunks[0], index in failing).store, chunks[1..], failing, index + 1).total.Success?) &&
      LoadChunks(store, chunks, failing, index).store ==
        LoadChunks(ProcessChunk(store, chunks[0], index in failing).store, chunks[1..], failing, index + 1).store
  {
    AllKeptSplit(chunks);
  }

  lemma AllKeptConcat(a: seq<Chunk>, b: seq<Chunk>)
    requires AllKept(a + b)
    ensures AllKept(a) && AllKept(b)
  {
    Seqs.FlattenConcat(a, b);
  }

  /** Every chunk of cleaned chunks is cleaned. */
  lemma AllKeptAt(chunks: seq<Chunk>, i: nat)
    requires AllKept(chunks) && i < |chunks|
    ensures forall row :: row in chunks[i] ==> Keep(row)
  {
    assert chunks == chunks[..i] + chunks[i..];
    AllKeptConcat(chunks[..i], chunks[i..]);
    AllKeptSplit(chunks[i..]);
    assert chunks[i..][0] == chunks[i];
  }

  /** A prefix of cleaned chunks is cleaned. */
  lemma AllKeptPrefix(chunks: seq<Chunk>, i: nat)
    requires AllKept(chunks) && i <= |chunks|
    ensures AllKept(chunks[..i])
  {
    assert chunks == chunks[..i] + chunks[i..];
    AllKeptConcat(chunks[..i], chunks[i..]);
  }

  /** Loading `a + b` is loading `a`, then — unless `a` failed — loading `b` from the
      store `a` left, its chunks numbered on from `a`'s (`next` is the number of the
      first chunk of `b`). */
  lemma {:induction false} LoadChunksConcat(store: Store, a: seq<Chunk>, b: seq<Chunk>, failing: set<nat>, index: nat, next: nat)
    requires AllKept(a + b) && next == index + |a|
    ensures AllKept(a) && AllKept(b)
    ensures LoadChunks(store, a, failing, index).total.Failure? ==>
      LoadChunks(store, a + b, failing, index).total.Failure? &&
      LoadChunks(store, a + b, failing, index).store == LoadChunks(store, a, failing, index).store
    ensures LoadChunks(store, a, failing, index).total.Success? ==>
      (LoadChunks(store, a + b, failing, index).total.Success? <==>
        LoadChunks(LoadChunks(store, a, failing, index).store, b, failing, next).total.Success?) &&
      LoadChunks(store, a + b, failing, index).store ==
        LoadChunks(LoadChunks(store, a, failing, index).store, b, failing, next).store
    decreases |a|
  {
    AllKeptConcat(a, b);
    if a == [] {
      assert a + b == b;
      LoadChunksAt(store, b, failing, index, next);
    } else {
      assert (a + b)[0] == a[0];
      assert (a + b)[1..] == a[1..] + b;
      LoadChunksStep(store, a + b, failing, index);
      LoadChunksStep(store, a, failing, index);
      var c := ProcessChunk(store, a[0], index in failing);
      if c.count.Some? {
        LoadChunksConcat(c.store, a[1..], b, failing, index + 1, next);
      }
    }
  }

  /** The chunk numbering enters only through its value. */
  lemma LoadChunksAt(store: Store, chunks: seq<Chunk>, failing: set<nat>, i: nat, j: nat)
    requires AllKept(chunks) && i == j
    ensures LoadChunks(store, chunks, failing, i) == LoadChunks(store, chunks, failing, j)
  {
  }

  /** As written, a chunk whose insert fails ends the run there: the chunks before it
      stay stored, since each committed its own transaction, no later chunk is loaded,
      and the command reports the `sum` error. Chunks are numbered as the command
      numbers them, from 0. */
  lemma FailingChunkAbortsRun(store: Store, chunks: seq<Chunk>, failing: set<nat>, k: nat)
    requires AllKept(chunks) && k < |chunks| && AllKept(chunks[..k])
    requires LoadChunks(store, chunks[..k], failing, 0).total.Success?
    requires forall row :: row in chunks[k] ==> Keep(row)
    requires ProcessChunk(LoadChunks(store, chunks[..k], failing, 0).store, chunks[k], k in failing).count.None?
    ensures LoadChunks(store, chunks, failing, 0).total.Failure?
    ensures LoadChunks(store, chunks, failing, 0).store == LoadChunks(store, chunks[..k], failing, 0).store
  {
    Seqs.SplitAt(chunks, k, k + 1);
    LoadChunksConcat(store, chunks[..k], chunks[k..], failing, 0, k);
    LoadChunksStep(LoadChunks(store, chunks[..k], failing, 0).store, chunks[k..], failing, k);
  }

  /** Conversely, a failed run stopped at some chunk `k`: the chunks before it loaded
      successfully and their announcements stay stored, exactly as if the run had been
      given only those chunks, and chunk `k` returned `None`. */
  lemma FailedRunKeepsPrefix(store: Store, chunks: seq<Chunk>, failing: set<nat>)
    returns (k: nat)
    requires AllKept(chunks)
    requires LoadChunks(store, chunks, failing, 0).total.Failure?
    ensures k < |chunks| && AllKept(chunks[..k])
    ensures LoadChunks(store, chunks[..k], failing, 0).total.Success?
    ensures LoadChunks(store, chunks, failing, 0).store == LoadChunks(store, chunks[..k], failing, 0).store
    ensures forall row :: row in chunks[k] ==> Keep(row)
    ensures ProcessChunk(LoadChunks(store, chunks[..k], failing, 0).store, chunks[k], k in failing).count.None?
    ensures forall row :: row in Seqs.Flatten(chunks[..k]) ==> Complete(row)
    ensures LoadChunks(store, chunks, failing, 0).store == InsertAll(store, Records(Seqs.Flatten(chunks[..k])))
  {
    assert chunks[..0] == [];
    k := FailedRunScan(store, chunks, failing, 0);
    LoadChunksIsRowFold(store, chunks[..k], failing, 0);
  }

  /** The search behind `FailedRunKeepsPrefix`: the first `from` chunks loaded, so the
      chunk that stopped the run comes at `from` or later. */
  lemma {:induction false} FailedRunScan(store: Store, chunks: seq<Chunk>, failing: set<nat>, from: nat)
    returns (k: nat)
    requires AllKept(chunks) && from < |chunks| && AllKept(chunks[..from])
    requires LoadChunks(store, chunks[..from], failing, 0).total.Success?
    requires LoadChunks(store, chunks, failing, 0).total.Failure?
    ensures from <= k < |chunks| && AllKept(chunks[..k])
    ensures LoadChunks(store, chunks[..k], failing, 0).total.Success?
    ensures LoadChunks(store, chunks, failing, 0).store == LoadChunks(store, chunks[..k], failing, 0).store
    ensures forall row :: row in chunks[k] ==> Keep(row)
    ensures ProcessChunk(LoadChunks(store, chunks[..k], failing, 0).store, chunks[k], k in failing).count.None?
    decreases |chunks| - from
  {
    AllKeptAt(chunks, from);
    var mid := LoadChunks(store, chunks[..from], failing, 0).store;
    if ProcessChunk(mid, chunks[from], from in failing).count.None? {
      k := from;
      FailingChunkAbortsRun(store, chunks, failing, k);
    } else {
      var next := from + 1;
      ScanPasses(store, chunks, failing, from, next);
      k := FailedRunScan(store, chunks, failing, next);
    }
  }

  /** A chunk that loads inside a failed run is not the last one, and the prefix
      through it loaded too. */
  lemma ScanPasses(store: Store, chunks: seq<Chunk>, failing: set<nat>, from: nat, next: nat)
    requires AllKept(chunks) && from < |chunks| && AllKept(chunks[..from]) && next == from + 1
    requires LoadChunks(store, chunks[..from], failing, 0).total.Success?
    requires LoadChunks(store, chunks, failing, 0).total.Failure?
    requires forall row :: row in chunks[from] ==> Keep(row)
    requires ProcessChunk(LoadChunks(store, chunks[..from], failing, 0).store, chunks[from], from in failing).count.Some?
    ensures next < |chunks| && AllKept(chunks[..next])
    ensures LoadChunks(store, chunks[..next], failing, 0).total.Success?
  {
    var pre := chunks[..from];
    var post := chunks[from..];
    var mid := LoadChunks(store, pre, failing, 0).store;
    Seqs.SplitAt(chunks, from, next);
    AllKeptPrefix(chunks, next);
    LoadChunksConcat(store, pre, post, failing, 0, from);
    LoadChunksStep(mid, post, failing, from);
    assert post[1..] != [];
    LoadChunksConcat(store, pre, [chunks[from]], failing, 0, from);
    LoadChunksStep(mid, [chunks[from]], failing, from);
    assert [chunks[from]][1..] == [];
  }

  /** A successful load ends where inserting all rows one by one would: chunk
      boundaries and the per-chunk existence checks do not change the final store. */
  lemma {:induction false} LoadChunksIsRowFold(store: Store, chunks: seq<Chunk>, failing: set<nat>, index: nat)
    requires AllKept(chunks)
    requires LoadChunks(store, chunks, failing, index).total.Success?
    ensures forall row :: row in Seqs.Flatten(chunks) ==> Complete(row)
    ensures LoadChunks(store, chunks, failing, index).store == InsertAll(store, Records(Seqs.Flatten(chunks)))
    decreases |chunks|
  {
    KeptRowsComplete(Seqs.Flatten(chunks));
    if chunks != [] {
      var flat := Seqs.Flatten(chunks);
      assert flat == chunks[0] + Seqs.Flatten(chunks[1..]);
      var c := ProcessChunk(store, chunks[0], index in failing);
      ProcessChunkIsRowFold(store, chunks[0], index in failing);
      LoadChunksIsRowFold(c.store, chunks[1..], failing, index + 1);
      RecordsConcat(chunks[0], Seqs.Flatten(chunks[1..]));
      InsertAllConcat(store, Records(chunks[0]), Records(Seqs.Flatten(chunks[1..])));
    }
  }

  /** A successful import ends where inserting every cleaned row in turn would. */
  lemma ImportIsRowFold(store: Store, raw: seq<Chunk>, failing: set<nat>)
    requires Import(store, raw, failing).total.Success?
    ensures Import(store, raw, failing).store == InsertAll(store, Records(CleanChunk(Seqs.Flatten(raw))))
  {
    Cleaning.CleanedChunksFlatten(raw);
    LoadChunksIsRowFold(store, CleanedChunks(raw), failing, 0);
  }

  /** Chunk-boundary independence: two chunkings of the same rows that both import
      successfully leave the same store. */
  lemma ImportChunkingIndependent(store: Store, a: seq<Chunk>, b: seq<Chunk>, fa: set<nat>, fb: set<nat>)
    requires Seqs.Flatten(a) == Seqs.Flatten(b)
    requires Import(store, a, fa).total.Success? && Import(store, b, fb).total.Success?
    ensures Import(store, a, fa).store == Import(store, b, fb).store
  {
    ImportIsRowFold(store, a, fa);
    ImportIsRowFold(store, b, fb);
  }

  lemma SettledMonotone(store': Store, store: Store, row: Row)
    requires Extends(store', store)
    requires Settled(store, row)
    ensures Settled(store', row)
  {
    ExtendsKeepsKeys(store', store);
  }

  /** After a successful load every row of every chunk is settled in the final store. */
  lemma {:induction false} LoadChunksSettles(store: Store, chunks: seq<Chunk>, failing: set<nat>, index: nat)
    requires AllKept(chunks)
    requires LoadChunks(store, chunks, failing, index).total.Success?
    ensures forall row :: row in Seqs.Flatten(chunks) ==> Settled(LoadChunks(store, chunks, failing, index).store, row)
    decreases |chunks|
  {
    if chunks != [] {
      var o := LoadChunks(store, chunks, failing, index);
      assert Seqs.Flatten(chunks) == chunks[0] + Seqs.Flatten(chunks[1..]);
      var c := ProcessChunk(store, chunks[0], index in failing);
      LoadChunksSettles(c.store, chunks[1..], failing, index + 1);
      forall row | row in chunks[0] ensures Settled(o.store, row) {
        SettledMonotone(o.store, c.store, row);
      }
    }
  }

  /** A chunk whose rows are all settled loads without error and adds nothing. */
  lemma ProcessSettledChunk(store: Store, chunk: Chunk)
    requires forall row :: row in chunk ==> Keep(row)
    requires forall row :: row in chunk ==> Settled(store, row)
    ensures ProcessChunk(store, chunk, false).store == store
    ensures ProcessChunk(store, chunk, false).count.Some?
  {
    KeptRowsComplete(chunk);
    var existing := ExistingRefs(store, chunk);
    var cands := Candidates(chunk, existing);
    forall i | 0 <= i < |cands|
      ensures FitsColumns(cands[i]) && Conflicts(store, cands[i])
    {
      var rec := cands[i];
      assert rec in Records(chunk);
      var j :| 0 <= j < |chunk| && Records(chunk)[j] == rec;
      var row := chunk[j];
      assert Settled(store, row);
      assert rec.reference in ChunkReferences(chunk);
      assert rec.reference !in References(store);
    }
    InsertAllConflicting(store, cands);
  }

  /** Reloading chunks whose rows are all settled leaves the store as it is. */
  lemma {:induction false} ReloadSettled(store: Store, chunks: seq<Chunk>, index: nat)
    requires AllKept(chunks)
    requires forall row :: row in Seqs.Flatten(chunks) ==> Settled(store, row)
    ensures LoadChunks(store, chunks, {}, index).store == store
    ensures LoadChunks(store, chunks, {}, index).total.Success?
    decreases |chunks|
  {
    if chunks != [] {
      assert Seqs.Flatten(chunks) == chunks[0] + Seqs.Flatten(chunks[1..]);
      ProcessSettledChunk(store, chunks[0]);
      ReloadSettled(store, chunks[1..], index + 1);
    }
  }

  /** Importing the same source again, once the first import succeeded, changes nothing:
      every row is already stored by reference or ignored for its url. */
  lemma ImportIdempotent(store: Store, raw: seq<Chunk>, failing: set<nat>)
    requires Import(store, raw, failing).total.Success?
    ensures Import(Import(store, raw, failing).store, raw, {}).store == Import(store, raw, failing).store
    ensures Import(Import(store, raw, failing).store, raw, {}).total.Success?
  {
    var chunks := CleanedChunks(raw);
    Cleaning.CleanedChunksFlatten(raw);
    var s1 := Import(store, raw, failing).store;
    LoadChunksSettles(store, chunks, failing, 0);
    ReloadSettled(s1, chunks, 0);
  }

  /** Two complete rows of one chunk sharing the reference "R1", with different urls. */
  const SampleRow1: Row := Row(Some("R1"), Some("u1"), Some("06"), Some("06000"), Some("Nice"), Some(12000))
  const SampleRow2: Row := Row(Some("R1"), Some("u2"), Some("06"), Some("06000"), Some("Nice"), Some(15000))

  lemma SampleRowsKept()
    ensures Keep(SampleRow1) && Keep(SampleRow2)
  {
    forall c: Column ensures Present(SampleRow1, c) && Present(SampleRow2, c) {
      match c
      case ReferenceNumber =>
      case AdUrls =>
      case DeptCode =>
      case ZipCode =>
      case City =>
      case CondominiumExpenses =>
    }
  }

  lemma SampleCandidates()
    requires Complete(SampleRow1) && Complete(SampleRow2)
    ensures Candidates([SampleRow1, SampleRow2], {}) == [ToRecord(SampleRow1), ToRecord(SampleRow2)]
  {
    var chunk := [SampleRow1, SampleRow2];
    assert chunk[1..] == [SampleRow2];
    assert Candidates(chunk[1..], {}) == [ToRecord(SampleRow2)];
  }

  lemma SampleInsert()
    ensures InsertAll([], [ToRecord(SampleRow1), ToRecord(SampleRow2)]) == [ToRecord(SampleRow1)]
  {
    var rec1, rec2 := ToRecord(SampleRow1), ToRecord(SampleRow2);
    var s1 := InsertOne([], rec1);
    assert s1 == [rec1];
    assert References(s1) == {"R1"};
    assert InsertOne(s1, rec2) == s1;
    assert [rec1, rec2] == [rec1] + [rec2];
    InsertAllCons([], rec1, [rec2]);
    InsertAllCons(s1, rec2, []);
  }

  /** The reported count is the number of candidates, not of inserted announcements:
      two rows sharing a reference in one chunk both become candidates, one is ignored. */
  lemma CountCanExceedInserted()
    ensures SampleRow1.reference == SampleRow2.reference && SampleRow1.url != SampleRow2.url
    ensures Keep(SampleRow1) && Keep(SampleRow2) &&
            var o := ProcessChunk([], [SampleRow1, SampleRow2], false);
            o.count.Some? && o.count.value == 2 && |o.store| == 1
  {
    var chunk := [SampleRow1, SampleRow2];
    SampleRowsKept();
    assert ExistingRefs([], chunk) == {};
    SampleCandidates();
    var rec1, rec2 := ToRecord(SampleRow1), ToRecord(SampleRow2);
    assert FitsColumns(rec1) && FitsColumns(rec2);
    assert !(exists i :: 0 <= i < 2 && !FitsColumns([rec1, rec2][i]));
    SampleInsert();
  }
}

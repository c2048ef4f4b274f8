# copro_backend in Dafny

A Dafny model of the logic of `copro_backend`. This is a Django service that imports
real-estate adverts (announcements) from a CSV file and reports statistics on their
annual condominium expenses. It also creates announcements from a listing-site URL.
The model covers four pipelines:

- **Row cleaning and chunk streaming** (`copro/utils.py`, module `Columns` and module `Cleaning`):
  - the fixed six-column catalogue `CSVCol`;
  - `_clean_chunk`, which drops rows with a missing field and then rows whose expenses are zero;
  - `get_cleaned_chunks`, which yields the non-empty cleaned chunks in order.
- **Dedup-aware loading** (`copro/management/commands/import_csv.py` and `copro/models.py`, modules
  `Announcement` and `Loader`):
  - the announcement table is a sequence of records whose references and urls are unique;
  - per chunk, the loader looks up the references already stored and builds announcements for
    the other rows;
  - it inserts them in one atomic `bulk_create(ignore_conflicts=True)`;
  - `handle` sums the per-chunk counts.
- **Statistics** (`copro/services.py`, modules `Statistics` and `Numeric`):
  - the filter precedence, postal code, then city, then department;
  - normalisation of the filter value with Python's `zfill` and `capitalize`;
  - case-insensitive city matching;
  - the criterion text;
  - count, mean, and the 10th and 90th percentiles by numpy's default linear interpolation.
- **Create from URL** (`copro/views.py`, module `Views`):
  - identifier extraction, with the regular expression given a search semantics;
  - the API URL;
  - the zero-fee rejection;
  - the field mapping handed to the create serializer.

Helper modules:

- `Wrappers`: `Option` and `Result`.
- `Seqs`: filter, map, flatten and subsequence, with their lemmas.
- `PyStr`: Python's `zfill`, `capitalize`, `lower`, `rstrip`, `split('?')[0]` and `rfind`, all over ASCII.

A stored expense is an integer number of cents, as in the column's `DECIMAL(10, 2)` type.
Rows carry their amounts in the same whole cents. The statistics work over reals (cents / 100).

The width part of the store invariant has a precondition of its own. `Loader.BulkCreate` assumes
a database that rejects a value longer than its column, as PostgreSQL does, so a bulk insert with
such a value raises and rolls back. Other database failures of a chunk are a parameter:
`failing` is the set of indices, among the yielded cleaned chunks, whose insert raises.

When a chunk's insert raises, the code as written does not move on to the next chunk.
`_process_chunk` logs the error and returns `None`. The `sum` in `handle` then raises a
`TypeError`, and the command ends with a `CommandError`. The model follows the code
(`Loader.FailingChunkAbortsRun`, `Loader.FailedRunKeepsPrefix`, `Loader.LoadChunksTotalIsSum`).
Each chunk's insert commits in its own transaction, so the chunks loaded before the failing one stay
stored. A chunk's count is the number
of candidates it handed to the bulk insert, which may include rows the insert then ignored
(`Loader.ProcessChunk`, `Loader.CountCanExceedInserted`).

## Model

| member | source | states |
|---|---|---|
| Columns.Labels | copro/utils.py:37-40 | One label per column of the enumeration, in declaration order; no two labels are equal; every column's label is listed |
| Columns.LabelsInOrder | copro/utils.py:15-20 | The labels are exactly REFERENCE_NUMBER, AD_URLS, DEPT_CODE, ZIP_CODE, CITY, CONDOMINIUM_EXPENSES, in that order |
| Columns.DTypes | copro/utils.py:42-45 | The dtype map is keyed by the labels only, and maps every column's label to that column's dtype |
| Columns.DTypesByLabel | copro/utils.py:15-20 | CONDOMINIUM_EXPENSES is read as float32; DEPT_CODE, ZIP_CODE and CITY as category; REFERENCE_NUMBER and AD_URLS as str |
| Columns.CatalogueComplete | copro/utils.py:10-20 | Every column is in the catalogue exactly once, and a label identifies its column |
| Announcement.ReferenceIsKey | copro/models.py:6-15 | In a valid table two announcements sharing a reference or a url are the same announcement |
| Announcement.Str | copro/models.py:34-35 | `__str__` is the reference, " - ", the city, " (", the postal code and ")" |
| Announcement.Repr | copro/models.py:37-38 | `__repr__` is `__str__` wrapped in "<Announcement: " and ">" |
| Announcement.StrNotInjective | copro/models.py:34-35 | Two valid announcements with different references can have the same `__str__`, because " - " may occur inside a reference or a city |
| Cleaning.CleanChunk | copro/utils.py:71-83 | The cleaned chunk is an order-preserving subsequence of the chunk; a row survives iff all six fields are present and the expenses are non-zero; it is never longer |
| Cleaning.CleanIsFilterKeep | copro/utils.py:74-75 | `dropna` followed by the non-zero mask selects exactly the rows the combined criterion selects |
| Cleaning.NegativeExpensesKept | copro/utils.py:75 | A complete row with negative expenses survives cleaning; only zero is masked out |
| Cleaning.Report | copro/utils.py:73-81 | The logged counts: rows before, rows after, and the deleted count, which is before minus after and also the number of rows the criterion rejects |
| Cleaning.CleanIdempotent | copro/utils.py:74-75 | Cleaning a cleaned chunk returns it unchanged |
| Cleaning.CleanConcat | copro/utils.py:74-75 | Cleaning is row-local: cleaning two concatenated chunks is concatenating their cleanings |
| Cleaning.CleanMultiplicity | copro/utils.py:74-75 | A surviving row occurs in the cleaned chunk as often as in the chunk; a rejected row does not occur |
| Cleaning.CleanedChunks | copro/utils.py:85-90 | At most one yielded chunk per raw chunk; no yielded chunk is empty; every yielded row passes the criterion |
| Cleaning.CleanedChunksInOrder | copro/utils.py:85-90 | The yielded chunks are the per-chunk cleanings of the raw chunks, in source order, with the empty ones removed |
| Cleaning.CleanedChunksFlatten | copro/utils.py:85-90 | Concatenating the yielded chunks gives the cleaning of the concatenated raw chunks |
| Cleaning.ChunkingIndependent | copro/utils.py:85-90 | Two chunkings of the same rows yield the same cleaned rows |
| Loader.ToRecord | copro/management/commands/import_csv.py:46-53 | Field mapping: REFERENCE_NUMBER to reference, DEPT_CODE to department, CITY to city, ZIP_CODE to postal_code, AD_URLS to url, CONDOMINIUM_EXPENSES to expenses |
| Loader.ToRecordRoundTrip | copro/management/commands/import_csv.py:46-53 | The mapping is a bijection between complete rows and announcements |
| Loader.ExistingRefs | copro/management/commands/import_csv.py:56-63 | A reference is returned iff some stored announcement has it and some row of the chunk has it |
| Loader.ConvertToObject | copro/management/commands/import_csv.py:39-54 | No announcement iff the row's reference is already stored; otherwise the mapped announcement |
| Loader.Candidates | copro/management/commands/import_csv.py:65-72 | Exactly the chunk's announcements whose reference is not in the existing set, one per row (duplicates within the chunk included), in chunk order |
| Loader.CandidatesMultiplicity | copro/management/commands/import_csv.py:68-72 | An announcement whose reference is not in the existing set is a candidate as often as its row occurs in the chunk; one whose reference is in it, never |
| Loader.CandidatesAreUnstored | copro/management/commands/import_csv.py:56-72 | Looking up only the chunk's references loses nothing: the candidates are the chunk's announcements whose reference the whole table does not hold |
| Loader.InsertOne | copro/management/commands/import_csv.py:83-86 | One announcement under ignore-conflicts: appended iff neither its reference nor its url is taken, otherwise the table is unchanged; afterwards it clashes with the table |
| Loader.InsertAll | copro/management/commands/import_csv.py:83-86 | Ignore-conflicts insert: existing rows are kept unchanged; only candidates are added; every candidate afterwards clashes with the table by reference or url; both uniqueness constraints are preserved |
| Loader.InsertAllConcat | copro/management/commands/import_csv.py:83-86 | Inserting two batches one after the other equals inserting their concatenation |
| Loader.InsertAllConflicting | copro/management/commands/import_csv.py:83-86 | Candidates that all clash with the table add nothing |
| Loader.InsertKeepsValid | copro/models.py:5-32 | Inserting candidates that fit their columns keeps the table valid: unique reference, unique url, every width and the DECIMAL(10, 2) range |
| Loader.BulkCreate | copro/management/commands/import_csv.py:81-86 | The atomic insert fails iff the database fails or some candidate does not fit its columns; on success it is the ignore-conflicts insert |
| Loader.ProcessChunk | copro/management/commands/import_csv.py:74-93 | Fails (`None`, table unchanged) iff the database fails or a candidate does not fit its columns. On success: the count is the number of candidates, that is, of the chunk's rows whose reference the table does not hold; the table only grows, by at most the count, and stays valid; added announcements have non-zero expenses; every row of the chunk is stored by reference or blocked by its url |
| Loader.ProcessChunkIsRowFold | copro/management/commands/import_csv.py:56-86 | Skipping the already stored references changes nothing: a successful chunk ends where inserting all its rows would |
| Loader.SkipExistingIsHarmless | copro/management/commands/import_csv.py:65-72 | Dropping rows whose reference is stored does not change the result of the ignore-conflicts insert |
| Loader.CountCanExceedInserted | copro/management/commands/import_csv.py:83-90 | Two rows sharing a reference in one chunk both count, although only one announcement is added |
| Loader.LoadChunks | copro/management/commands/import_csv.py:99-108 | Chunks are loaded in sequence. The table only grows, stays valid and gets no zero expenses. A failed chunk ends the run with the `sum` error. A successful total bounds the additions and is at most the number of rows |
| Loader.ChunkCounts | copro/management/commands/import_csv.py:101 | The generator hands `sum` one count per chunk, in order; every value before the last is a count, and it stops early only after a `None` |
| Loader.SumCounts | copro/management/commands/import_csv.py:101 | Python's `sum` of the counts fails with the `TypeError` turned `CommandError` iff some value is `None`; otherwise it is at least its start |
| Loader.LoadChunksTotalIsSum | copro/management/commands/import_csv.py:88-101 | The run's total is `sum` over the per-chunk counts: it fails exactly when that sum does, and otherwise equals it |
| Loader.FailingChunkAbortsRun | copro/management/commands/import_csv.py:81-101 | If chunks 0..k-1 load and chunk k returns `None`, at any position k, the run fails with the `sum` error and its final store is the store after chunks 0..k-1: earlier chunks stay committed and no later chunk is loaded |
| Loader.FailedRunKeepsPrefix | copro/management/commands/import_csv.py:81-101 | Conversely, every failed run has a chunk k that returned `None` after chunks 0..k-1 loaded successfully. The final store is the store after chunks 0..k-1, which equals inserting their rows one by one |
| Loader.LoadChunksConcat | copro/management/commands/import_csv.py:101 | Loading `a + b` is loading `a`, then, unless `a` failed, loading `b` from the store `a` left with the numbering continued; a failed `a` fails the whole run with `a`'s store |
| Loader.Import | copro/management/commands/import_csv.py:95-108 | The command cleans, then loads; the table only grows and stays valid, with no zero expenses, and the only error is the `sum` error |
| Loader.LoadChunksIsRowFold | copro/management/commands/import_csv.py:101 | A successful load ends where inserting all rows one by one would |
| Loader.ImportIsRowFold | copro/management/commands/import_csv.py:95-108 | A successful import ends where inserting every cleaned row in turn would |
| Loader.ImportChunkingIndependent | copro/management/commands/import_csv.py:95-108 | Two chunkings of the same file that both import successfully leave the same table |
| Loader.LoadChunksSettles | copro/management/commands/import_csv.py:101 | After a successful load every loaded row is stored by reference or blocked by its url |
| Loader.ProcessSettledChunk | copro/management/commands/import_csv.py:65-90 | A chunk whose rows are all accounted for succeeds and adds nothing |
| Loader.ReloadSettled | copro/management/commands/import_csv.py:101 | Reloading chunks whose rows are all accounted for leaves the table unchanged and succeeds |
| Loader.ImportIdempotent | copro/management/commands/import_csv.py:95-108 | After a successful import, importing the same file again succeeds and leaves the table unchanged |
| Statistics.ResolveFilter | copro/services.py:15-30 | Precedence: postal_code if non-empty, else city if non-empty, else department if non-empty, else no filter; the chosen filter carries the raw parameter |
| Statistics.PrecedenceIgnoresLowerParams | copro/services.py:17-22 | Once a higher-precedence parameter is non-empty, lower-precedence parameters do not affect the filter |
| Statistics.FilterCriteria | copro/services.py:33-38 | "Filtered by {field}: {value}" for a non-empty field, and "No filter applied" exactly when the field is empty |
| Statistics.Criterion | copro/services.py:17-26 | The criterion is set iff a filter applies; its value is the zero-padded postal code, the capitalized city or the zero-padded department, and it is never "No filter applied" |
| Statistics.CleanQueryset | copro/services.py:28-31 | The selection is a subsequence of the table; an announcement is selected iff it matches the resolved filter |
| Statistics.CleanQuerysetMultiplicity | copro/services.py:15-31 | A matching announcement is selected as often as it occurs in the table; any other one, never |
| Statistics.Matches | copro/services.py:17-26 | The lookup of each filter: postal code equal to the value zero-filled to 5, city equal ignoring case, department equal to the value zero-filled to 2; no filter selects everything |
| Statistics.DepartmentIsZeroPadded | copro/services.py:23-25 | The department parameter "6" selects department "06" and is reported as "06" |
| Statistics.CityMatchIgnoresCase | copro/services.py:21-22 | The city filter matches any spelling that is equal ignoring case, including the capitalized form |
| Statistics.CalcPercentiles | copro/services.py:47-57 | Both percentiles are absent iff there are no values; otherwise they are numpy's linear 10th and 90th percentiles (`Numeric.Percentile`), with min <= p10 <= p90 <= max; a single value is both percentiles |
| Statistics.Compute | copro/services.py:40-57 | The count is the number of selected announcements; the average is the mean of their expenses (`Numeric.Mean`, absent iff none is selected) and the percentiles are those of `CalcPercentiles` on the same expenses; mean, p10 and p90 lie between the smallest and the largest expense, with p10 <= p90 |
| Statistics.GetStats | copro/services.py:59-69 | As written: fails iff no filter applies; otherwise reports the filter's criterion, and count, mean and percentiles computed over exactly the announcements the filter selects |
| Statistics.GetStatsFailsWithoutFilter | copro/services.py:59-69 | With no query parameters, or only an empty postal_code, `get_stats` fails |
| Statistics.GetStatsCorrected | copro/services.py:33-38 | Never fails. With no filter it reports "No filter applied" and the count, mean and 10th/90th percentiles of the whole table (`Compute` over all records). With a filter it agrees with `GetStats` |
| Statistics.GetStatsCorrectedTotal | copro/services.py:33-38 | The corrected statistics report "No filter applied" exactly when no filter applies, and count the selected announcements |
| Numeric.Sort | copro/services.py:53-54 | Sorting keeps the length and the multiset of values and returns them in ascending order |
| Numeric.SortEnds | copro/services.py:53-54 | The first and last sorted values are the minimum and the maximum of the values |
| Numeric.Mean | copro/services.py:44 | The mean is absent iff there are no values; otherwise mean times count equals the sum |
| Numeric.MeanBetweenExtremes | copro/services.py:44 | The mean lies between the minimum and the maximum |
| Numeric.Rank | copro/services.py:54-55 | The fractional rank (n-1)·p/100 lies between 0 and n-1 |
| Numeric.RankMonotone | copro/services.py:54-55 | A higher percentile has a rank at least as high |
| Numeric.Interpolate | copro/services.py:54-55 | On sorted values the result lies between the values at the ranks just below and just above; a single value is returned unchanged |
| Numeric.Percentile | copro/services.py:54-55 | The percentile lies between the smallest and the largest value |
| Numeric.InterpolateAtExactRank | copro/services.py:54-55 | At an integer rank the percentile is the value at that rank |
| Numeric.InterpolateMonotone | copro/services.py:54-55 | On sorted values a higher percentile is never smaller |
| Numeric.TenValuesMean | copro/services.py:44 | The mean of 100, 200, ..., 1000 is 550 |
| Numeric.TenValuesPercentiles | copro/services.py:54-55 | The 10th and 90th percentiles of 100, 200, ..., 1000 are 190 and 910 |
| PyStr.ZFill | copro/services.py:18-19 | `zfill`: the result is the longer of the text and the width; a sign stays first and zeros go after it; otherwise zeros are prepended; a long enough text is unchanged |
| PyStr.Capitalize | copro/services.py:21 | `capitalize`: same length; the first character is not lower case and the rest is not upper case |
| PyStr.CapitalizeIgnoresCase | copro/services.py:21-22 | The capitalized city equals the input ignoring case, so the reported value names the matched city |
| PyStr.CapitalizeIdempotent | copro/services.py:21 | Capitalizing twice is capitalizing once |
| PyStr.ZFillDigits | copro/services.py:18-19 | Padding a digit string shorter than the width gives exactly width digits |
| PyStr.EqualsIgnoreCase | copro/services.py:22 | `city__iexact`: the two texts are equal after ASCII lower-casing |
| PyStr.RStrip | copro/views.py:63 | `rstrip('/')`: the longest prefix not ending in the character, everything after it being that character |
| PyStr.BeforeFirst | copro/views.py:63 | `split('?')[0]`: the prefix without the character that is followed by it or by the end of the text |
| Views.ExtractId | copro/views.py:55-68 | "URL is required" iff the url is missing or empty; a returned id is non-empty and contains neither '/' nor '?' |
| Views.SearchedPath | copro/views.py:63 | The text the pattern searches: no '?' and no trailing '/' |
| Views.Search | copro/views.py:63 | The search fails iff the pattern matches at no position; a captured group is non-empty and contains neither '/' nor '?' |
| Views.SearchIsLastSegment | copro/views.py:63 | On the stripped path, the pattern captures exactly the text after the last '/', and fails iff there is no '/' |
| Views.ExtractIdIsLastSegment | copro/views.py:63-68 | The id is the text after the last '/' of the url cut at its first '?' and stripped of trailing '/'; without a '/' the error is "Could not extract ID from URL" |
| Views.ExtractIdFromAdvertUrl | copro/views.py:63-68 | `base/id`, followed by any trailing slashes and an optional query string, yields `id` |
| Views.BuildApiUrl | copro/views.py:70-73 | The API URL is the domain, then "?id=", then the id |
| Views.BuildApiUrlInjective | copro/views.py:70-73 | Different ids give different API URLs |
| Views.FetchApiData | copro/views.py:75-87 | A status other than 200 is a fetch failure; a body that does not decode raises the decoding error; a decoded value that is not an object fails on `get`; a fee equal to zero (0 or false) is rejected; otherwise the decoded object is returned |
| Views.MissingFeeIsNotRejected | copro/views.py:84-85 | A payload without a fee passes the zero check |
| Views.CreateData | copro/views.py:127-134 | Serializer input: url is the API URL, not the user's; reference, city as given; postalCode to postal_code, departmentCode to department, annualCondominiumFees to condominium_expenses; absent fields become null |
| Views.Post | copro/views.py:113-154 | A url error is answered 400 with its message. A created announcement comes from a successful fetch of the built API URL, has the mapped fields and a non-zero fee, and passed validation; conversely a 200 object payload with a non-zero fee that passes validation is created with exactly the mapped fields. Each 400 carries its own message: a failed request gives "Network error: " plus the exception text; a status other than 200 gives "Failed to fetch data from external API"; a body that does not decode gives "Network error: " plus the decode error; a zero fee gives "Condominium expenses cannot be zero"; a payload that fails validation gives "Invalid data from API". The answer is 500 iff the decoded body is not an object. Every rejection is a 400 or a 500 |

## Left out

- Reading the file. This covers `_get_csv_file`, `pd.read_csv` with `usecols`, dtype coercion and chunking (copro/utils.py:52-69, copro/management/commands/import_csv.py:17-37, 97-100). It also covers the `FileNotFoundError` branch (import_csv.py:105-106). These are file I/O. The model takes the raw chunks as sequences of rows with optional fields.
- `CSVCol.clear_na` (copro/utils.py:32-35). It indexes a third tuple element that no member has, and nothing calls it.
- Logging (copro/utils.py:78-81; import_csv.py:77, 89, 93, 103). Only the counts of the cleaning log are modelled (`Cleaning.Report`).
- Errors raised before the atomic block in `_process_chunk`, for example by the existence query. The model treats the existence query as always succeeding.
- Dropped rows and other database behaviour: `Announcement.objects.filter`, SQL, the primary key, and backend-specific `ON CONFLICT` handling. The store is a sequence, and the ignore-conflicts insert adds candidates in order unless a reference or url clashes.
- Loader.InsertKeepsValid: the width part relies on a database that rejects over-long values. A database that does not enforce VARCHAR lengths would store them; the model does not cover that case.
- Loader.ProcessChunk: the guarantee that no stored announcement has zero expenses assumes whole-cent amounts in the rows. In the code the `!= 0` mask tests the float32 value (copro/utils.py:75), and the DECIMAL(10, 2) column rounds on save (copro/models.py:28-32). So an amount such as 0.001 passes cleaning and is stored as 0.00. The same holds for Loader.LoadChunks and Loader.Import.
- Loader.ToRecord: expenses are exact integer cents. The float32 parsing, and the rounding to two decimals on save, are not modelled.
- Statistics.Compute: the mean and the percentiles are exact. `Round(Avg(...), 2)` and `round(..., 2)` are not applied, and numpy's float64 arithmetic is replaced by reals.
- Statistics.CleanQueryset: the null-expenses exclusion is the identity, because a stored announcement always has expenses. `city__iexact` is modelled as ASCII case-insensitive equality, not the database's Unicode-aware comparison.
- PyStr.Capitalize: only ASCII letters change case. Python's Unicode case mapping is not modelled.
- Statistics.ResolveFilter: the query parameters have one value per name. Django's `QueryDict.get` returns the last of several values.
- The `get` view, the serializers (`copro/serializers.py`), response rendering, `extend_schema`, routing (`copro/urls.py`, `config/urls.py`) and admin (`copro/admin.py`). This is framework code. Views.Post takes the create serializer's validation as a parameter, and leaves out `save()` and the error details.
- `requests.get` (copro/views.py:77). This is network I/O. Views.Post takes the request as a parameter whose failure carries the exception text.
- Views.Post: a body that does not decode is answered 400 "Network error: …". This holds for requests 2.27 and later, where `json()` raises `requests.exceptions.JSONDecodeError`, a `RequestException`. Older versions raise a plain `ValueError`, which would be answered 500 "Internal error: …".
- Views.Post: an exception other than these is not modelled, for example one raised by the serializer.
- Views.ExtractId: the url is a string or absent. A non-string JSON value for `url` is not modelled.

## Findings

| source | as written | input that shows it | evidently intended | confidence | as-written member | corrected member |
|---|---|---|---|---|---|---|
| copro/services.py:59-69 | `get_stats` reads `self._filter_criteria`, which is assigned only when a filter applies (lines 17-25). Otherwise the attribute does not exist and the call raises `AttributeError`. | A statistics request with no query parameters, or with only `postal_code=` empty | Report "No filter applied", the value `_set_filter_criteria` gives for a call without a field (lines 37-38), and the statistics over all announcements | high; not executed | Statistics.GetStats, Statistics.GetStatsFailsWithoutFilter | Statistics.GetStatsCorrected, Statistics.GetStatsCorrectedTotal |

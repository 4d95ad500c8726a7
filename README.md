# Facility feed exporter: a Dafny model

This project models the core of a batch job that exports the facility table
as a partner feed. The job streams facility rows from the database in id
order, in chunks of `feed_chunk_size` rows. Each non-empty chunk gets a
number from 1 upwards in arrival order. Each chunk becomes one gzip-compressed
JSON file named `facility_feed_<timestamp>_<number>.json.gz` that holds
`{"data": [...]}`, with one feed record per row. The files are uploaded to
object storage. When every unit of work has finished, the run is decided.
If any unit failed, the run fails and no manifest is written. If no file was
produced, the run ends quietly. Otherwise the run uploads `metadata.json`,
which lists the run's timestamp and the file names in string order.

The modules, one per file:

- `Decimal` (`decimal.dfy`): Python's `str()` of an integer, with a parser
  that inverts it. The round trips give injectivity, which is what makes
  entity ids and file names distinct.
- `StringOrder` (`string_order.dfy`): Python's string ordering (code-point
  lexicographic) and the result of `list.sort()`, as the unique sorted
  permutation.
- `FeedValues` (`feed_values.dfy`):
  - row values (`None`, ints, strings, and floats kept as the text Python
    prints);
  - JSON documents as trees whose objects keep key order;
  - `dict.get` and path lookup.
- `Transformer` (`transformer.dfy`): `transform_facility_for_feed_short`.
- `DbRepository` (`db_repository.dfy`): the batching loop of
  `fetch_facilities_chunked`, proved against a reference chunking function.
- `Storage` (`storage.dfy`): the object-storage adapter, reduced to a log of
  successful puts. The set of keys whose put raises is a parameter of the
  store.
- `UseCases` (`use_cases.dfy`): `_process_and_upload_chunk` and `execute`.
  This covers scheduling, the join, aggregation and the manifest.

The job starts all units of work concurrently and joins them with
`asyncio.gather(..., return_exceptions=True)`. `gather` lists outcomes in the
order the tasks were created. In this model the units run one after another
in that order. Whether an upload raises is decided by the store's fault set,
so a run is a function of the rows, the chunk size, the timestamp and the
faults.

Two points of the code's behaviour shape the model:

- `execute` recognises four kinds of outcome: an exception, a file name,
  `None`, and a value of any other type. The last one fails the run, like an
  exception (use_cases.py lines 98-108).
- A run that produced no file returns before the manifest is built
  (use_cases.py lines 114-116). The model has `execute` return `NoOp` and
  upload nothing.

## Model

| member | source | states |
|---|---|---|
| Decimal.NatToString | src/facility_feed/domain/transformer.py:3 | `str()` of a natural number is a non-empty string of digits, with a leading `0` exactly for zero |
| Decimal.IntToString | src/facility_feed/domain/transformer.py:3 | `str()` of an integer is non-empty, starts with `-` exactly for negatives, and is the digit string for non-negatives |
| Decimal.IntRoundTrip | src/facility_feed/domain/transformer.py:3 | parsing `str(i)` gives back `i` for every integer |
| Decimal.NatRoundTrip | src/facility_feed/application/use_cases.py:46 | parsing the decimal text of a natural number gives it back |
| Decimal.IntToStringInjective | src/facility_feed/domain/transformer.py:3 | different integers print differently |
| Decimal.NatToStringInjective | src/facility_feed/application/use_cases.py:46 | different chunk numbers print differently |
| StringOrder.LexLeTotal | src/facility_feed/application/use_cases.py:119 | any two strings are comparable in Python's string order |
| StringOrder.LexLeReflexive | src/facility_feed/application/use_cases.py:119 | the string order is reflexive |
| StringOrder.LexLeAntisymmetric | src/facility_feed/application/use_cases.py:119 | strings ordered both ways are equal |
| StringOrder.LexLeTransitive | src/facility_feed/application/use_cases.py:119 | the string order is transitive |
| StringOrder.LexLeCommonPrefix | src/facility_feed/application/use_cases.py:119 | a shared prefix does not change how two strings compare |
| StringOrder.Insert | src/facility_feed/application/use_cases.py:119 | inserting into a sorted list keeps it sorted and adds exactly that element |
| StringOrder.Sort | src/facility_feed/application/use_cases.py:119 | `list.sort()` leaves a sorted permutation of the list |
| StringOrder.SortedUnique | src/facility_feed/application/use_cases.py:119 | two sorted permutations of the same strings are equal, so the sorted list is determined |
| StringOrder.SortedHeadBelow | src/facility_feed/application/use_cases.py:119 | the first element of a sorted list is at or below each of its elements |
| StringOrder.SortedTail | src/facility_feed/application/use_cases.py:119 | dropping the first element of a sorted list leaves it sorted |
| StringOrder.SortOfSorted | src/facility_feed/application/use_cases.py:119 | sorting a sorted list leaves it unchanged |
| FeedValues.Member | src/facility_feed/domain/transformer.py:2-18 | looking a key up in an object fails exactly when the object has no such key |
| FeedValues.MemberAt | src/facility_feed/domain/transformer.py:2-18 | with distinct keys, looking up a field's key finds that field's value |
| Transformer.TransformFacilityForFeedShort | src/facility_feed/domain/transformer.py:1-18 | total for every row (no precondition); `entity_id` is `facility-` followed by `str()` of the `id` entry |
| Transformer.LookupField | src/facility_feed/domain/transformer.py:2-18 | in an object of at most five fields, a key that no earlier field has finds its own field's value |
| Transformer.TopLevelLeaves | src/facility_feed/domain/transformer.py:4-7 | `name`, `telephone` and `url` hold the row's `name`, `phone` and `url`, or `None` when absent, and `location` holds the nested location object |
| Transformer.LocationLeaves | src/facility_feed/domain/transformer.py:8-10 | `latitude` and `longitude` are copied from the row, and `address` holds the nested address object |
| Transformer.AddressLeaves | src/facility_feed/domain/transformer.py:11-15 | the five address fields are the row's columns of the same name, or `None` when absent |
| Transformer.CopiesColumns | src/facility_feed/domain/transformer.py:4-15 | every leaf of the output, reached by its full path, is the input value under its source column, or `None` when that column is absent |
| Transformer.OutputShape | src/facility_feed/domain/transformer.py:2-18 | every row, the empty one included, gives the same keys in the same order at all three levels |
| Transformer.ExtraColumnsIgnored | src/facility_feed/domain/transformer.py:1-18 | two rows that agree on the eleven read columns transform identically, so other columns never matter |
| Transformer.TelephoneComesFromPhone | src/facility_feed/domain/transformer.py:5 | `telephone` is the `phone` entry, and a `telephone` key in the row has no effect |
| Transformer.MissingIdGivesSentinel | src/facility_feed/domain/transformer.py:3 | a row without `id` gets the entity id `facility-None` |
| Transformer.SentinelIsAmbiguous | src/facility_feed/domain/transformer.py:3 | a missing id and the string id `"None"` give the same entity id |
| Transformer.EntityIdsDistinct | src/facility_feed/domain/transformer.py:3 | rows with different integer ids get different entity ids |
| Transformer.SampleRecord | tests/facility_feed/domain/test_transformer.py:23-41 | the fully populated sample row with id 123 maps to exactly the expected nested record, with `entity_id` `facility-123` |
| DbRepository.ChunkedPartition | src/facility_feed/infrastructure/adapters/db_repository.py:49-60 | concatenating the chunks in order gives back the rows |
| DbRepository.ChunkedSizes | src/facility_feed/infrastructure/adapters/db_repository.py:53-60 | no chunk is empty or larger than the chunk size; all but the last are full; the last is full exactly when the chunk size divides the row count |
| DbRepository.ChunkedCount | src/facility_feed/infrastructure/adapters/db_repository.py:44-60 | the number of chunks is the row count divided by the chunk size, rounded up; no rows give no chunks |
| DbRepository.FlattenAppend | src/facility_feed/infrastructure/adapters/db_repository.py:55 | emitting one more chunk extends the emitted rows by exactly that chunk |
| DbRepository.ChunkedFull | src/facility_feed/infrastructure/adapters/db_repository.py:53-56 | rows made of full chunks chunk back into those chunks |
| DbRepository.ChunkedAppend | src/facility_feed/infrastructure/adapters/db_repository.py:58-60 | full chunks followed by a final partial buffer chunk into those chunks plus that buffer |
| DbRepository.FacilityRepository.FetchFacilitiesChunked | src/facility_feed/infrastructure/adapters/db_repository.py:44-60 | the loop emits exactly the reference chunking: a partition of the rows into non-empty chunks, all full except a shorter last one exactly when the size does not divide the row count, and no chunk for no rows; the buffer stays below the chunk size between rows |
| UseCases.FeedFileNamesDistinct | src/facility_feed/application/use_cases.py:46 | within one run, different chunk numbers give different file names |
| UseCases.FeedFileIsNotMetadata | src/facility_feed/application/use_cases.py:46 | no feed file name is `metadata.json` |
| UseCases.PayloadRecords | src/facility_feed/application/use_cases.py:34-39 | a chunk's payload has `data` holding one record per row, the i-th being the transform of the i-th row |
| UseCases.NonEmptyChunksKeepRows | src/facility_feed/application/use_cases.py:70-73 | skipping empty chunks leaves only non-empty ones, keeps every row in order, and changes nothing when no chunk is empty |
| UseCases.FlattenConcat | src/facility_feed/application/use_cases.py:70-73 | the rows of two runs of chunks are the rows of each, joined |
| UseCases.Schedule | src/facility_feed/application/use_cases.py:70-88 | the k-th task carries the k-th non-empty chunk and the number k + 1 (counting from 0), so numbers are 1..n with no gaps |
| UseCases.ScheduleKeepsChunks | src/facility_feed/application/use_cases.py:70-88 | when the reader yields no empty chunk, task k carries the reader's chunk k and the number k + 1 |
| UseCases.FeedUploadsOfUnfaultedUnits | src/facility_feed/application/use_cases.py:50-56 | a unit's feed file is stored exactly when its upload does not raise; every stored feed file is gzip-tagged and none is the manifest |
| UseCases.FileNamesAreReturned | src/facility_feed/application/use_cases.py:96-108 | a name is collected exactly when some outcome returned it |
| UseCases.FileNamesAllReturned | src/facility_feed/application/use_cases.py:96-103 | when every outcome is a name, the names are collected in task order |
| UseCases.FileNamesConcat | src/facility_feed/application/use_cases.py:96-108 | collecting over two runs of outcomes collects over each, in order |
| UseCases.NoneOutcomeSkipped | src/facility_feed/application/use_cases.py:104-105 | a `None` outcome adds no file and does not mark a failure: dropping it changes neither |
| UseCases.Aggregate | src/facility_feed/application/use_cases.py:96-123 | the run aborts exactly when some outcome is an exception or of an unexpected type; it stops without a manifest exactly when there is no failure and no file; otherwise the manifest holds the run's timestamp and a non-empty sorted permutation of exactly the returned names; the decision is `Decide` of the outcomes |
| UseCases.JoinFails | src/facility_feed/application/use_cases.py:92-100 | the joined outcomes contain a failure exactly when the upload of some unit's file raises |
| UseCases.JoinNames | src/facility_feed/application/use_cases.py:92-103 | without a failing upload, the collected names are the run's n file names in unit order |
| UseCases.UnitReturns | src/facility_feed/application/use_cases.py:50-52 | without a failing upload, unit k returns its own file name |
| UseCases.ManifestFiles | src/facility_feed/application/use_cases.py:119-122 | the manifest of a run with n units lists each of the n file names exactly once, sorted, and nothing else |
| UseCases.ManifestOrderIsTextual | src/facility_feed/application/use_cases.py:119 | the manifest order is string order, not unit order: unit 10 is listed before unit 2 |
| UseCases.ManifestDocument | src/facility_feed/application/use_cases.py:120-123 | the manifest document has exactly the keys `generation_timestamp` and `data_file`, holding the timestamp and the file list in order |
| UseCases.MetadataUploadedLast | src/facility_feed/application/use_cases.py:110-127 | in a run's uploads, `metadata.json` appears at most once, only as the last upload, and only when the run succeeds |
| UseCases.DistinctByMultiset | src/facility_feed/application/use_cases.py:119 | sorting a list without repeats leaves no repeats |
| UseCases.GenerateFacilityFeedUseCase.constructor | src/facility_feed/application/use_cases.py:15-20 | the use case keeps its repository and store, and uses the configured chunk size for both database and output chunks |
| UseCases.GenerateFacilityFeedUseCase.ProcessAndUploadChunk | src/facility_feed/application/use_cases.py:22-56 | the unit returns its file name and stores the `{"data": ...}` payload under it, gzip-tagged, or raises and stores nothing |
| UseCases.RunResultCases | src/facility_feed/application/use_cases.py:96-127 | a run fails with task errors exactly when some unit's upload raises; it returns normally without a manifest (`NoOp`) exactly when the table is empty; it fails on the manifest exactly when only the manifest upload raises; it succeeds otherwise, with the run's timestamp and one file per database chunk, the row count divided by the chunk size and rounded up |
| UseCases.RunDecision | src/facility_feed/application/use_cases.py:96-123 | for the outcomes of units 1..n, the checks abort exactly when some unit's upload raises, skip exactly when there are no units, and otherwise publish the sorted names of all n units |
| UseCases.DecisionMatchesRun | src/facility_feed/application/use_cases.py:96-127 | the decision on a run's joined outcomes agrees with how the run ends, the manifest upload deciding between success and failure when the decision is to publish |
| UseCases.UnitOutcomesStep | src/facility_feed/application/use_cases.py:79-92 | one more task adds its own outcome at the end |
| UseCases.FeedUploadsStep | src/facility_feed/application/use_cases.py:79-92 | one more task adds its feed file at the end of the stored files, unless its upload raises |
| UseCases.DropKeepsFailures | src/facility_feed/application/use_cases.py:96-108 | dropping an outcome that is not a failure keeps exactly the same failures |
| UseCases.FeedFileNamesNoRepeats | src/facility_feed/application/use_cases.py:46 | the file names of units 1..n have no repeats |
| UseCases.ManifestHasEveryUnit | src/facility_feed/application/use_cases.py:119-122 | the sorted list contains the file of every unit 1..n |
| UseCases.ManifestHasOnlyUnits | src/facility_feed/application/use_cases.py:119-122 | every entry of the sorted list is the file of some unit 1..n |
| UseCases.GenerateFacilityFeedUseCase.RunUnits | src/facility_feed/application/use_cases.py:79-92 | the outcomes are listed in task order, one per task, and the store gains exactly the feed files whose upload did not raise |
| UseCases.GenerateFacilityFeedUseCase.Execute | src/facility_feed/application/use_cases.py:58-127 | the run ends as `RunResultOf` says for the table's rows, the chunk size, the timestamp and the store's faults; the store gains the feed files whose upload did not raise, in unit order, and the manifest last, only on success |
| Storage.FeedStorage.UploadFeedFile | src/facility_feed/infrastructure/adapters/s3_storage.py:32-45 | a put succeeds exactly when its key is not faulty, and is logged with content type `application/json` and encoding `gzip` |
| Storage.FeedStorage.UploadMetadataFile | src/facility_feed/infrastructure/adapters/s3_storage.py:47-59 | a put succeeds exactly when its key is not faulty, and is logged with content type `application/json` and no encoding |

The functions below carry no contract of their own. They are the
definitions that the contracts above are stated in, each written after the
source lines it names:

- `FeedValues.Get`: `facility_data.get(key)`, the value of the column or
  `None` when it is absent (transformer.py lines 3-15).
- `FeedValues.Show`: the `str()` that the f-string applies to the id
  (transformer.py line 3).
- `Transformer.LocationOf` and `Transformer.AddressOf`: the nested
  `location` and `address` objects (transformer.py lines 7-17).
- `DbRepository.Chunked`: the chunks that the batching loop yields
  (db_repository.py lines 44-60).
- `StringOrder.LexLe`: Python's `<=` on `str`, which `processed_files.sort()`
  uses (use_cases.py line 119).
- `UseCases.FeedPayload`: `dict(data=[transform(f) for f in chunk])`
  (use_cases.py lines 34-39).
- `UseCases.FeedFileName`: the f-string that names a feed file
  (use_cases.py line 46).
- `UseCases.UnitOutcome`: the result of one `_process_and_upload_chunk`,
  which is the file name, or an exception when the upload raises
  (use_cases.py lines 50-56).
- `UseCases.UnitOutcomes`: the list that `asyncio.gather` returns, one
  outcome per task in task order (use_cases.py line 92).
- `UseCases.NonEmptyChunks`: the chunks that the `if not db_chunk: continue`
  filter lets through (use_cases.py lines 71-73).
- `UseCases.Fails`: an outcome that sets `any_task_failed`, which is an
  exception or a value of unexpected type (use_cases.py lines 98-108).
- `UseCases.FileNames`: the names that the result loop appends to
  `processed_files` (use_cases.py lines 96-103).
- `UseCases.Decide`: the three checks after that loop, which raise, return
  or build the manifest (use_cases.py lines 110-123).
- `UseCases.ManifestJson`: the `metadata_content` dictionary
  (use_cases.py lines 120-123).
- `UseCases.RunResultOf`: the closed form of a whole run of `execute`
  (use_cases.py lines 70-127).

## Left out

- Concurrency: task creation, the semaphore bounded by `max_concurrent_uploads`, and the interleaving of uploads are not modelled. Units run in task order, and uploads are logged in that order.
- Wall-clock time: the generation timestamp is a parameter of `Execute`, not `int(time.time())`.
- Serialisation: `json.dumps` (including `default=str` for non-JSON values) and `gzip.compress` are not modelled. Payloads are kept as JSON document trees.
- Storage and database I/O: connections, sessions, the connection pool and the SQL query are not modelled. The table is a sequence of rows in id order, and upload failure is the store's fault set.
- UseCases.GenerateFacilityFeedUseCase.Execute: errors raised while reading rows from the database are not modelled. The model only captures failures of uploads.
- Only the `gt=0` checks of the two settings are kept, as preconditions. Environment parsing is not modelled.
- Logging is not modelled.
- Floating point: latitude and longitude are copied, never computed with, so they carry only their printed text.
- The last-write-wins behaviour of the store for a repeated key is not modelled; the log keeps every successful put. Within a run no key repeats (`UseCases.FeedFileNamesDistinct`, `UseCases.FeedFileIsNotMetadata`).

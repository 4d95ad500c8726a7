/**
 * The feed-generation use case: pull the chunks of facility rows, number the
 * non-empty ones 1, 2, ... in arrival order, turn each into a compressed feed
 * file named after the run's timestamp and its number, upload it, and once
 * every unit of work has finished decide the run: any failure fails the run
 * and no manifest is written; no files means nothing more to do; otherwise the
 * sorted list of files is published as `metadata.json`.
 *
 * The units of work run concurrently in the source and are joined with
 * `asyncio.gather`, which reports their outcomes in the order the tasks were
 * created. Here they run one after another in that order; which puts fail is
 * decided by the store's `faults`.
 */
module UseCases {
  import opened FeedValues
  import opened Storage
  import opened StringOrder
  import Decimal
  import Transformer
  import DbRepository

  const FeedFilePrefix: string := "facility_feed_"
  const FeedFileSuffix: string := ".json.gz"
  const MetadataFileName: string := "metadata.json"

  /** The two settings the use case reads; both are validated to be positive
      when the settings are loaded. */
  datatype Settings = Settings(feedChunkSize: int, maxConcurrentUploads: int)

  /** A scheduled unit of work: its output chunk index and its rows. */
  datatype Task = Task(index: nat, chunk: seq<Row>)

  /** One entry of the list `gather(..., return_exceptions=True)` returns. */
  datatype Outcome =
    | Raised            // an exception
    | Returned(fileName: string)
    | ReturnedNone
    | ReturnedOther     // a value of an unexpected type

  datatype Manifest = Manifest(generationTimestamp: int, dataFile: seq<string>)

  /** What the checks after the join decide, before the manifest upload. */
  datatype Decision = Abort | Skip | Publish(manifest: Manifest)

  datatype RunError = TaskErrors | MetadataUploadFailed

  /** How `execute` ends: raising, returning early without a manifest, or
      returning after the manifest upload. */
  datatype RunResult = Failed(error: RunError) | NoOp | Success(manifest: Manifest)

  predicate Fails(o: Outcome) {
    o.Raised? || o.ReturnedOther?
  }

  // ---------------------------------------------------------------------
  // Naming and payloads

  /** `f"facility_feed_{generation_timestamp}_{chunk_index}.json.gz"` */
  function FeedFileName(generationTimestamp: int, chunkIndex: nat): string
  {
    FeedFilePrefix + Decimal.IntToString(generationTimestamp) + "_"
      + Decimal.NatToString(chunkIndex) + FeedFileSuffix
  }

  /** The names of units 1..n of one run. */
  function FeedFileNames(generationTimestamp: int, n: nat): (names: seq<string>)
    ensures |names| == n
  {
    seq(n, k requires 0 <= k < n => FeedFileName(generationTimestamp, k + 1))
  }

  /** `{"data": [transform(f) for f in chunk]}` */
  function FeedPayload(chunk: seq<Row>): Json
  {
    Obj([Field("data", Arr(seq(|chunk|, i requires 0 <= i < |chunk| =>
      Transformer.TransformFacilityForFeedShort(chunk[i]))))])
  }

  /** `{"generation_timestamp": ..., "data_file": [...]}` */
  function ManifestJson(m: Manifest): Json
  {
    Obj([
      Field("generation_timestamp", Leaf(Int(m.generationTimestamp))),
      Field("data_file", Arr(seq(|m.dataFile|, i requires 0 <= i < |m.dataFile| =>
        Leaf(Str(m.dataFile[i])))))
    ])
  }

  function FeedUpload(generationTimestamp: int, task: Task): Upload
  {
    Upload(FeedFileName(generationTimestamp, task.index), FeedPayload(task.chunk),
           JsonContentType, Some(GzipEncoding))
  }

  function MetadataUpload(m: Manifest): Upload
  {
    Upload(MetadataFileName, ManifestJson(m), JsonContentType, None)
  }

  /** Distinct chunk indices give distinct file names within one run. */
  lemma FeedFileNamesDistinct(generationTimestamp: int, k1: nat, k2: nat)
    requires k1 != k2
    ensures FeedFileName(generationTimestamp, k1) != FeedFileName(generationTimestamp, k2)
  {
    var p := FeedFilePrefix + Decimal.IntToString(generationTimestamp) + "_";
    var d1, d2 := Decimal.NatToString(k1), Decimal.NatToString(k2);
    assert FeedFileName(generationTimestamp, k1) == p + d1 + FeedFileSuffix;
    assert FeedFileName(generationTimestamp, k2) == p + d2 + FeedFileSuffix;
    if p + d1 + FeedFileSuffix == p + d2 + FeedFileSuffix {
      assert |d1| == |d2|;
      assert d1 == (p + d1 + FeedFileSuffix)[|p|..|p| + |d1|];
      assert d2 == (p + d2 + FeedFileSuffix)[|p|..|p| + |d2|];
      Decimal.NatToStringInjective(k1, k2);
    }
  }

  /** No feed file is called `metadata.json`. */
  lemma FeedFileIsNotMetadata(generationTimestamp: int, chunkIndex: nat)
    ensures FeedFileName(generationTimestamp, chunkIndex) != MetadataFileName
  {
    assert FeedFileName(generationTimestamp, chunkIndex)[0] == 'f';
    assert MetadataFileName[0] == 'm';
  }

  /** The payload holds one feed record per row, in row order. */
  lemma PayloadRecords(chunk: seq<Row>)
    ensures At(FeedPayload(chunk), ["data"]).Some?
    ensures var data := At(FeedPayload(chunk), ["data"]).value;
      && data.Arr? && |data.items| == |chunk|
      && forall i :: 0 <= i < |chunk| ==>
           data.items[i] == Transformer.TransformFacilityForFeedShort(chunk[i])
  {
    MemberAt(FeedPayload(chunk).fields, 0);
  }

  // ---------------------------------------------------------------------
  // Scheduling: the `async for` loop of `execute` over the database chunks

  /** The chunks that get scheduled: the non-empty ones, in arrival order. */
  function NonEmptyChunks(dbChunks: seq<seq<Row>>): seq<seq<Row>>
  {
    if dbChunks == [] then []
    else
      var last := dbChunks[|dbChunks| - 1];
      NonEmptyChunks(dbChunks[..|dbChunks| - 1]) + (if last == [] then [] else [last])
  }

  /** The k-th scheduled task (from 0) is the k-th non-empty chunk, numbered k + 1. */
  function ScheduledTasks(dbChunks: seq<seq<Row>>): (tasks: seq<Task>)
    ensures |tasks| == |NonEmptyChunks(dbChunks)|
  {
    var chunks := NonEmptyChunks(dbChunks);
    seq(|chunks|, k requires 0 <= k < |chunks| => Task(k + 1, chunks[k]))
  }

  /** Skipping empty chunks keeps every row, in order, and nothing else; a
      stream with no empty chunk is scheduled whole. */
  lemma {:induction false} NonEmptyChunksKeepRows(dbChunks: seq<seq<Row>>)
    ensures forall k :: 0 <= k < |NonEmptyChunks(dbChunks)| ==> NonEmptyChunks(dbChunks)[k] != []
    ensures DbRepository.Flatten(NonEmptyChunks(dbChunks)) == DbRepository.Flatten(dbChunks)
    ensures (forall k :: 0 <= k < |dbChunks| ==> dbChunks[k] != []) ==> NonEmptyChunks(dbChunks) == dbChunks
    ensures |NonEmptyChunks(dbChunks)| <= |dbChunks|
    decreases |dbChunks|
  {
    if dbChunks != [] {
      var init := dbChunks[..|dbChunks| - 1];
      var last := dbChunks[|dbChunks| - 1];
      NonEmptyChunksKeepRows(init);
      assert dbChunks == init + [last];
      FlattenConcat(init, [last]);
      FlattenConcat(NonEmptyChunks(init), if last == [] then [] else [last]);
      assert DbRepository.Flatten([last]) == last + DbRepository.Flatten<Row>([]);
    }
  }

  lemma {:induction false} FlattenConcat(a: seq<seq<Row>>, b: seq<seq<Row>>)
    ensures DbRepository.Flatten(a + b) == DbRepository.Flatten(a) + DbRepository.Flatten(b)
    decreases |a|
  {
    if a == [] {
      assert a + b == b;
    } else {
      assert (a + b)[1..] == a[1..] + b;
      FlattenConcat(a[1..], b);
    }
  }

  /** The scheduling loop: empty chunks are skipped without using up an
      index; the k-th non-empty chunk becomes task k. */
  method Schedule(dbChunks: seq<seq<Row>>) returns (tasks: seq<Task>)
    ensures |tasks| == |NonEmptyChunks(dbChunks)|
    ensures forall k :: 0 <= k < |tasks| ==>
              tasks[k].index == k + 1 && tasks[k].chunk == NonEmptyChunks(dbChunks)[k]
  {
    tasks := [];
    var outputChunkIndex := 0;
    for j := 0 to |dbChunks|
      invariant outputChunkIndex == |tasks| == |NonEmptyChunks(dbChunks[..j])|
      invariant forall k :: 0 <= k < |tasks| ==>
                  tasks[k].index == k + 1 && tasks[k].chunk == NonEmptyChunks(dbChunks[..j])[k]
    {
      assert dbChunks[..j + 1][..j] == dbChunks[..j];
      var dbChunk := dbChunks[j];
      if dbChunk == [] {
        continue;
      }
      outputChunkIndex := outputChunkIndex + 1;
      tasks := tasks + [Task(outputChunkIndex, dbChunk)];
    }
    assert dbChunks[..|dbChunks|] == dbChunks;
  }

  // ---------------------------------------------------------------------
  // Units of work and the join

  /** The outcome of the unit numbered `chunkIndex`: its file name, unless
      its upload raises. */
  function UnitOutcome(generationTimestamp: int, chunkIndex: nat, faults: set<string>): Outcome
  {
    var name := FeedFileName(generationTimestamp, chunkIndex);
    if name in faults then Raised else Returned(name)
  }

  /** The outcomes of the units of `tasks`, in task order. */
  function UnitOutcomes(tasks: seq<Task>, generationTimestamp: int, faults: set<string>): seq<Outcome>
  {
    seq(|tasks|, k requires 0 <= k < |tasks| => UnitOutcome(generationTimestamp, tasks[k].index, faults))
  }

  lemma UnitOutcomesStep(tasks: seq<Task>, k: nat, generationTimestamp: int, faults: set<string>)
    requires k < |tasks|
    ensures UnitOutcomes(tasks[..k + 1], generationTimestamp, faults)
              == UnitOutcomes(tasks[..k], generationTimestamp, faults) + [UnitOutcome(generationTimestamp, tasks[k].index, faults)]
  {
    var lhs := UnitOutcomes(tasks[..k + 1], generationTimestamp, faults);
    var rhs := UnitOutcomes(tasks[..k], generationTimestamp, faults) + [UnitOutcome(generationTimestamp, tasks[k].index, faults)];
    assert |lhs| == |rhs|;
    forall j | 0 <= j < |lhs|
      ensures lhs[j] == rhs[j]
    {
      if j < k {
        assert tasks[..k + 1][j] == tasks[..k][j];
      }
    }
  }

  /** The feed files the units of `tasks` store, in task order. */
  function FeedUploads(tasks: seq<Task>, generationTimestamp: int, faults: set<string>): seq<Upload>
  {
    if tasks == [] then []
    else
      var last := tasks[|tasks| - 1];
      FeedUploads(tasks[..|tasks| - 1], generationTimestamp, faults)
        + (if FeedFileName(generationTimestamp, last.index) in faults then []
           else [FeedUpload(generationTimestamp, last)])
  }

  /** Exactly the units whose upload does not raise leave a feed file, and
      none of those files is the manifest. */
  lemma {:induction false} FeedUploadsOfUnfaultedUnits(tasks: seq<Task>, generationTimestamp: int, faults: set<string>)
    ensures forall k :: 0 <= k < |tasks| ==>
              ((FeedUpload(generationTimestamp, tasks[k]) in FeedUploads(tasks, generationTimestamp, faults))
                 <==> FeedFileName(generationTimestamp, tasks[k].index) !in faults)
    ensures forall u :: u in FeedUploads(tasks, generationTimestamp, faults) ==>
              u.key !in faults && u.key != MetadataFileName && u.contentEncoding == Some(GzipEncoding)
    decreases |tasks|
  {
    if tasks != [] {
      var init := tasks[..|tasks| - 1];
      var last := tasks[|tasks| - 1];
      FeedUploadsOfUnfaultedUnits(init, generationTimestamp, faults);
      FeedFileIsNotMetadata(generationTimestamp, last.index);
      forall k | 0 <= k < |tasks| - 1
        ensures tasks[k] == init[k]
      {
      }
    }
  }

  function FileNames(results: seq<Outcome>): (names: seq<string>)
    ensures |names| <= |results|
  {
    if results == [] then []
    else
      var last := results[|results| - 1];
      FileNames(results[..|results| - 1]) + (if last.Returned? then [last.fileName] else [])
  }

  /** The collected file names are exactly the string outcomes: `None`
      outcomes and failures contribute nothing. */
  lemma {:induction false} FileNamesAreReturned(results: seq<Outcome>)
    ensures forall name :: name in FileNames(results) <==> Returned(name) in results
    decreases |results|
  {
    if results != [] {
      var init := results[..|results| - 1];
      FileNamesAreReturned(init);
      assert results == init + [results[|results| - 1]];
    }
  }

  /** When every unit returned a name, the names are collected in task order. */
  lemma {:induction false} FileNamesAllReturned(results: seq<Outcome>, names: seq<string>)
    requires |results| == |names|
    requires forall i :: 0 <= i < |results| ==> results[i] == Returned(names[i])
    ensures FileNames(results) == names
    decreases |results|
  {
    if results != [] {
      var m := |results| - 1;
      FileNamesAllReturned(results[..m], names[..m]);
      assert names == names[..m] + [names[m]];
    }
  }

  lemma {:induction false} FileNamesConcat(a: seq<Outcome>, b: seq<Outcome>)
    ensures FileNames(a + b) == FileNames(a) + FileNames(b)
    decreases |b|
  {
    if b != [] {
      var m := |b| - 1;
      assert (a + b)[..|a + b| - 1] == a + b[..m];
      assert (a + b)[|a + b| - 1] == b[m];
      FileNamesConcat(a, b[..m]);
    } else {
      assert a + b == a;
    }
  }

  /** A `None` outcome is skipped: dropping it changes neither the collected
      names nor whether the run has a failure. */
  lemma NoneOutcomeSkipped(results: seq<Outcome>, i: nat)
    requires i < |results| && results[i] == ReturnedNone
    ensures var rest := results[..i] + results[i + 1..];
      && FileNames(results) == FileNames(rest)
      && ((exists j :: 0 <= j < |results| && Fails(results[j])) <==> (exists j :: 0 <= j < |rest| && Fails(rest[j])))
  {
    var rest := results[..i] + results[i + 1..];
    assert FileNames(results) == FileNames(rest) by {
      var after := results[i + 1..];
      assert results == results[..i] + ([ReturnedNone] + after);
      FileNamesConcat(results[..i], [ReturnedNone] + after);
      FileNamesConcat([ReturnedNone], after);
      assert FileNames([ReturnedNone]) == [];
      FileNamesConcat(results[..i], after);
    }
    DropKeepsFailures(results, i);
  }

  /** Dropping an outcome that is not a failure keeps every failure. */
  lemma DropKeepsFailures(results: seq<Outcome>, i: nat)
    requires i < |results| && !Fails(results[i])
    ensures var rest := results[..i] + results[i + 1..];
      (exists j :: 0 <= j < |results| && Fails(results[j])) <==> (exists j :: 0 <= j < |rest| && Fails(rest[j]))
  {
    var rest := results[..i] + results[i + 1..];
    assert |rest| == |results| - 1;
    if exists j :: 0 <= j < |results| && Fails(results[j]) {
      var j :| 0 <= j < |results| && Fails(results[j]);
      if j < i {
        assert rest[j] == results[j];
      } else {
        assert rest[j - 1] == results[j];
      }
    }
    if exists j :: 0 <= j < |rest| && Fails(rest[j]) {
      var j :| 0 <= j < |rest| && Fails(rest[j]);
      if j < i {
        assert rest[j] == results[j];
      } else {
        assert rest[j] == results[j + 1];
      }
    }
  }

  /** The decision the checks after the join take, as a function of the
      outcomes. */
  function Decide(results: seq<Outcome>, generationTimestamp: int): Decision
  {
    if exists i :: 0 <= i < |results| && Fails(results[i]) then Abort
    else if FileNames(results) == [] then Skip
    else Publish(Manifest(generationTimestamp, Sort(FileNames(results))))
  }

  /** The checks `execute` makes after the join, up to the manifest upload:
      inspect every outcome, then fail if any unit failed, stop if no file
      was produced, and otherwise build the manifest from the sorted file
      names. */
  method Aggregate(results: seq<Outcome>, generationTimestamp: int) returns (d: Decision)
    ensures d.Abort? <==> exists i :: 0 <= i < |results| && Fails(results[i])
    ensures d.Skip? <==> (forall i :: 0 <= i < |results| ==> !Fails(results[i])) && FileNames(results) == []
    ensures d.Publish? ==>
              && d.manifest.generationTimestamp == generationTimestamp
              && Sorted(d.manifest.dataFile)
              && multiset(d.manifest.dataFile) == multiset(FileNames(results))
              && d.manifest.dataFile != []
    ensures d == Decide(results, generationTimestamp)
  {
    var processedFiles: seq<string> := [];
    var anyTaskFailed := false;
    for i := 0 to |results|
      invariant anyTaskFailed <==> exists j :: 0 <= j < i && Fails(results[j])
      invariant processedFiles == FileNames(results[..i])
    {
      assert results[..i + 1][..i] == results[..i];
      match results[i]
      case Raised =>
        anyTaskFailed := true;
      case Returned(name) =>
        processedFiles := processedFiles + [name];
      case ReturnedNone =>
      case ReturnedOther =>
        anyTaskFailed := true;
    }
    assert results[..|results|] == results;
    if anyTaskFailed {
      return Abort;
    }
    if processedFiles == [] {
      return Skip;
    }
    processedFiles := Sort(processedFiles);
    d := Publish(Manifest(generationTimestamp, processedFiles));
  }

  // ---------------------------------------------------------------------
  // The manifest of a successful run

  predicate SomeUnitFails(generationTimestamp: int, n: nat, faults: set<string>)
  {
    exists k :: 1 <= k <= n && FeedFileName(generationTimestamp, k) in faults
  }

  ghost predicate Distinct(s: seq<string>)
  {
    forall i, j :: 0 <= i < j < |s| ==> s[i] != s[j]
  }

  /** The manifest of a run with n units lists each of the n file names
      exactly once, in string order (so "..._10.json.gz" comes before
      "..._2.json.gz"). */
  lemma ManifestFiles(generationTimestamp: int, n: nat)
    ensures var files := Sort(FeedFileNames(generationTimestamp, n));
      && |files| == n
      && Sorted(files)
      && Distinct(files)
      && (forall k :: 1 <= k <= n ==> FeedFileName(generationTimestamp, k) in files)
      && (forall f :: f in files ==> exists k :: 1 <= k <= n && f == FeedFileName(generationTimestamp, k))
  {
    var names := FeedFileNames(generationTimestamp, n);
    var files := Sort(names);
    assert Distinct(files) by {
      FeedFileNamesNoRepeats(generationTimestamp, n);
      DistinctByMultiset(names, files);
    }
    ManifestHasEveryUnit(generationTimestamp, n);
    ManifestHasOnlyUnits(generationTimestamp, n);
  }

  lemma ManifestHasEveryUnit(generationTimestamp: int, n: nat)
    ensures forall k :: 1 <= k <= n ==> FeedFileName(generationTimestamp, k) in Sort(FeedFileNames(generationTimestamp, n))
  {
    var names := FeedFileNames(generationTimestamp, n);
    var files := Sort(names);
    forall k | 1 <= k <= n
      ensures FeedFileName(generationTimestamp, k) in files
    {
      var name := names[k - 1];
      assert name == FeedFileName(generationTimestamp, k);
      assert name in multiset(names);
      assert name in multiset(files);
    }
  }

  lemma ManifestHasOnlyUnits(generationTimestamp: int, n: nat)
    ensures forall f :: f in Sort(FeedFileNames(generationTimestamp, n)) ==>
              exists k :: 1 <= k <= n && f == FeedFileName(generationTimestamp, k)
  {
    var names := FeedFileNames(generationTimestamp, n);
    forall f | f in Sort(names)
      ensures exists k :: 1 <= k <= n && f == FeedFileName(generationTimestamp, k)
    {
      assert f in multiset(Sort(names));
      var i :| 0 <= i < n && names[i] == f;
      assert f == FeedFileName(generationTimestamp, i + 1);
    }
  }

  lemma FeedFileNamesNoRepeats(generationTimestamp: int, n: nat)
    ensures Distinct(FeedFileNames(generationTimestamp, n))
  {
    var names := FeedFileNames(generationTimestamp, n);
    forall i, j | 0 <= i < j < n
      ensures names[i] != names[j]
    {
      FeedFileNamesDistinct(generationTimestamp, i + 1, j + 1);
    }
  }

  /** The manifest document: the run's timestamp, and the file list in
      manifest order. */
  lemma ManifestDocument(m: Manifest)
    ensures At(ManifestJson(m), ["generation_timestamp"]) == Some(Leaf(Int(m.generationTimestamp)))
    ensures At(ManifestJson(m), ["data_file"]).Some?
    ensures var files := At(ManifestJson(m), ["data_file"]).value;
      && files.Arr? && |files.items| == |m.dataFile|
      && forall i :: 0 <= i < |m.dataFile| ==> files.items[i] == Leaf(Str(m.dataFile[i]))
    ensures Keys(ManifestJson(m)) == ["generation_timestamp", "data_file"]
  {
    var fields := ManifestJson(m).fields;
    MemberAt(fields, 0);
    MemberAt(fields, 1);
    assert |Keys(ManifestJson(m))| == 2;
  }

  /** In the uploads of one run, an object under `metadata.json` appears only
      as the very last upload, and only when the run publishes a manifest. */
  lemma MetadataUploadedLast(tasks: seq<Task>, generationTimestamp: int, faults: set<string>, result: RunResult)
    ensures var log := FeedUploads(tasks, generationTimestamp, faults)
                       + (if result.Success? then [MetadataUpload(result.manifest)] else []);
      forall i :: 0 <= i < |log| && log[i].key == MetadataFileName ==>
        i == |log| - 1 && result.Success?
  {
    var feeds := FeedUploads(tasks, generationTimestamp, faults);
    FeedUploadsOfUnfaultedUnits(tasks, generationTimestamp, faults);
  }

  /** A rearrangement of a list without repeats has no repeats. */
  lemma DistinctByMultiset(a: seq<string>, b: seq<string>)
    requires Distinct(a)
    requires multiset(a) == multiset(b)
    ensures Distinct(b)
  {
    forall i, j | 0 <= i < j < |b|
      ensures b[i] != b[j]
    {
      if b[i] == b[j] {
        RepeatCountsTwice(b, i, j);
        DistinctCountsOnce(a, b[i]);
        assert false;
      }
    }
  }

  lemma RepeatCountsTwice(s: seq<string>, i: nat, j: nat)
    requires i < j < |s| && s[i] == s[j]
    ensures multiset(s)[s[i]] >= 2
  {
    assert s == s[..j] + s[j..];
    assert s[i] in multiset(s[..j]);
    assert s[j] in multiset(s[j..]);
  }

  lemma {:induction false} DistinctCountsOnce(s: seq<string>, x: string)
    requires Distinct(s)
    ensures multiset(s)[x] <= 1
    decreases |s|
  {
    if s != [] {
      assert s == [s[0]] + s[1..];
      DistinctCountsOnce(s[1..], x);
      if x == s[0] {
        assert x !in s[1..];
      }
    }
  }

  /** In the manifest order a two-digit index sorts before a one-digit index
      with a larger leading digit: unit 10 is listed before unit 2. */
  lemma ManifestOrderIsTextual(generationTimestamp: int)
    ensures LexLe(FeedFileName(generationTimestamp, 10), FeedFileName(generationTimestamp, 2))
    ensures !LexLe(FeedFileName(generationTimestamp, 2), FeedFileName(generationTimestamp, 10))
  {
    var p := FeedFilePrefix + Decimal.IntToString(generationTimestamp) + "_";
    assert Decimal.NatToString(10) == "10";
    assert Decimal.NatToString(2) == "2";
    assert FeedFileName(generationTimestamp, 10) == p + ("10" + FeedFileSuffix);
    assert FeedFileName(generationTimestamp, 2) == p + ("2" + FeedFileSuffix);
    LexLeCommonPrefix(p, "10" + FeedFileSuffix, "2" + FeedFileSuffix);
    LexLeCommonPrefix(p, "2" + FeedFileSuffix, "10" + FeedFileSuffix);
  }

  /** When every chunk is non-empty, as the repository's chunks are, the
      scheduled tasks are those chunks numbered 1, 2, ... */
  lemma ScheduleKeepsChunks(dbChunks: seq<seq<Row>>, tasks: seq<Task>)
    requires forall k :: 0 <= k < |dbChunks| ==> dbChunks[k] != []
    requires |tasks| == |NonEmptyChunks(dbChunks)|
    requires forall k :: 0 <= k < |tasks| ==>
               tasks[k].index == k + 1 && tasks[k].chunk == NonEmptyChunks(dbChunks)[k]
    ensures tasks == ScheduledTasks(dbChunks)
    ensures |tasks| == |dbChunks|
    ensures forall k :: 0 <= k < |tasks| ==> tasks[k] == Task(k + 1, dbChunks[k])
  {
    NonEmptyChunksKeepRows(dbChunks);
  }

  /** Joining the units numbered 1..n: the run has a failure exactly when the
      upload of some unit's file raises. */
  lemma JoinFails(results: seq<Outcome>, generationTimestamp: int, faults: set<string>)
    requires forall k :: 0 <= k < |results| ==> results[k] == UnitOutcome(generationTimestamp, k + 1, faults)
    ensures (exists i :: 0 <= i < |results| && Fails(results[i]))
              <==> SomeUnitFails(generationTimestamp, |results|, faults)
  {
    var n := |results|;
    if exists i :: 0 <= i < n && Fails(results[i]) {
      var i :| 0 <= i < n && Fails(results[i]);
      assert results[i] == UnitOutcome(generationTimestamp, i + 1, faults);
      assert FeedFileName(generationTimestamp, i + 1) in faults;
    }
    if SomeUnitFails(generationTimestamp, n, faults) {
      var k :| 1 <= k <= n && FeedFileName(generationTimestamp, k) in faults;
      assert results[k - 1] == UnitOutcome(generationTimestamp, k, faults);
      assert Fails(results[k - 1]);
    }
  }

  /** Otherwise the collected names are the n file names in unit order. */
  lemma JoinNames(results: seq<Outcome>, generationTimestamp: int, faults: set<string>)
    requires forall k :: 0 <= k < |results| ==> results[k] == UnitOutcome(generationTimestamp, k + 1, faults)
    requires !SomeUnitFails(generationTimestamp, |results|, faults)
    ensures FileNames(results) == FeedFileNames(generationTimestamp, |results|)
  {
    var names := FeedFileNames(generationTimestamp, |results|);
    forall i | 0 <= i < |results|
      ensures results[i] == Returned(names[i])
    {
      UnitReturns(results, generationTimestamp, faults, i);
    }
    FileNamesAllReturned(results, names);
  }

  lemma UnitReturns(results: seq<Outcome>, generationTimestamp: int, faults: set<string>, i: nat)
    requires forall k :: 0 <= k < |results| ==> results[k] == UnitOutcome(generationTimestamp, k + 1, faults)
    requires !SomeUnitFails(generationTimestamp, |results|, faults)
    requires i < |results|
    ensures results[i] == Returned(FeedFileNames(generationTimestamp, |results|)[i])
  {
    assert FeedFileName(generationTimestamp, i + 1) !in faults;
  }

  /** The decision on the outcomes of units 1..n: abort exactly when some
      unit's upload raises, skip exactly when there are no units, and
      otherwise publish the sorted names of all n units. */
  lemma RunDecision(results: seq<Outcome>, generationTimestamp: int, faults: set<string>)
    requires forall k :: 0 <= k < |results| ==> results[k] == UnitOutcome(generationTimestamp, k + 1, faults)
    ensures var d := Decide(results, generationTimestamp);
      && (d.Abort? <==> SomeUnitFails(generationTimestamp, |results|, faults))
      && (d.Skip? <==> !SomeUnitFails(generationTimestamp, |results|, faults) && results == [])
      && (d.Publish? ==> d.manifest == Manifest(generationTimestamp, Sort(FeedFileNames(generationTimestamp, |results|))))
  {
    JoinFails(results, generationTimestamp, faults);
    if !SomeUnitFails(generationTimestamp, |results|, faults) {
      JoinNames(results, generationTimestamp, faults);
    }
  }

  lemma FeedUploadsStep(tasks: seq<Task>, k: nat, generationTimestamp: int, faults: set<string>)
    requires k < |tasks|
    ensures FeedUploads(tasks[..k + 1], generationTimestamp, faults)
              == FeedUploads(tasks[..k], generationTimestamp, faults)
                 + (if FeedFileName(generationTimestamp, tasks[k].index) in faults then []
                    else [FeedUpload(generationTimestamp, tasks[k])])
  {
    assert tasks[..k + 1][..k] == tasks[..k];
  }

  /** How a run over `rows` ends, given the keys whose upload raises. */
  function RunResultOf(rows: seq<Row>, dbChunkSize: nat, generationTimestamp: int, faults: set<string>): RunResult
    requires dbChunkSize > 0
  {
    var n := |DbRepository.Chunked(rows, dbChunkSize)|;
    if SomeUnitFails(generationTimestamp, n, faults) then Failed(TaskErrors)
    else if n == 0 then NoOp
    else if MetadataFileName in faults then Failed(MetadataUploadFailed)
    else Success(Manifest(generationTimestamp, Sort(FeedFileNames(generationTimestamp, n))))
  }

  /** A run fails with task errors exactly when the upload of some unit's file
      raises; it ends without a manifest exactly when there are no rows; it
      fails on the manifest exactly when only the manifest upload raises; and
      a successful run publishes the sorted names of units 1..n, one unit per
      database chunk. */
  lemma RunResultCases(rows: seq<Row>, dbChunkSize: nat, generationTimestamp: int, faults: set<string>)
    requires dbChunkSize > 0
    ensures var n := |DbRepository.Chunked(rows, dbChunkSize)|;
      var result := RunResultOf(rows, dbChunkSize, generationTimestamp, faults);
      && (result == Failed(TaskErrors) <==> SomeUnitFails(generationTimestamp, n, faults))
      && (result == NoOp <==> rows == [])
      && (result == Failed(MetadataUploadFailed) <==>
            !SomeUnitFails(generationTimestamp, n, faults) && rows != [] && MetadataFileName in faults)
      && (result.Success? <==> !SomeUnitFails(generationTimestamp, n, faults) && rows != [] && MetadataFileName !in faults)
      && (result.Success? ==> result.manifest.generationTimestamp == generationTimestamp
                              && |result.manifest.dataFile| == n
                              && n == (|rows| + dbChunkSize - 1) / dbChunkSize)
  {
    DbRepository.ChunkedCount(rows, dbChunkSize);
  }

  /** The decision on the joined outcomes of a run over `rows` agrees with
      how that run ends. */
  lemma DecisionMatchesRun(results: seq<Outcome>, rows: seq<Row>, dbChunkSize: nat,
                           generationTimestamp: int, faults: set<string>)
    requires dbChunkSize > 0
    requires |results| == |DbRepository.Chunked(rows, dbChunkSize)|
    requires forall k :: 0 <= k < |results| ==> results[k] == UnitOutcome(generationTimestamp, k + 1, faults)
    ensures var d := Decide(results, generationTimestamp);
      var r := RunResultOf(rows, dbChunkSize, generationTimestamp, faults);
      && (d.Abort? <==> r == Failed(TaskErrors))
      && (d.Skip? <==> r == NoOp)
      && (d.Publish? ==> r == if MetadataFileName in faults then Failed(MetadataUploadFailed) else Success(d.manifest))
  {
    RunDecision(results, generationTimestamp, faults);
  }

  // ---------------------------------------------------------------------
  // The use case object

  class GenerateFacilityFeedUseCase {
    const repository: DbRepository.FacilityRepository
    const storage: FeedStorage
    const feedChunkSize: nat
    const dbChunkSize: nat
    /** The semaphore's capacity; it bounds concurrency only, which is not
        modelled. */
    const maxConcurrentUploads: nat

    constructor (repository: DbRepository.FacilityRepository, storage: FeedStorage, settings: Settings)
      requires settings.feedChunkSize > 0 && settings.maxConcurrentUploads > 0
      ensures this.repository == repository && this.storage == storage
      ensures feedChunkSize == settings.feedChunkSize && dbChunkSize == settings.feedChunkSize
      ensures maxConcurrentUploads == settings.maxConcurrentUploads
      ensures dbChunkSize > 0
    {
      this.repository := repository;
      this.storage := storage;
      feedChunkSize := settings.feedChunkSize;
      dbChunkSize := settings.feedChunkSize;
      maxConcurrentUploads := settings.maxConcurrentUploads;
    }

    /** `_process_and_upload_chunk`: transform the rows, wrap them as
        `{"data": ...}`, name the file, upload it. The result is the file
        name, or an exception when the upload raises. */
    method ProcessAndUploadChunk(chunkIndex: nat, facilityChunk: seq<Row>, generationTimestamp: int)
      returns (outcome: Outcome)
      modifies storage
      ensures outcome == UnitOutcome(generationTimestamp, chunkIndex, storage.faults)
      ensures storage.uploads == old(storage.uploads)
                + (if outcome.Returned? then [FeedUpload(generationTimestamp, Task(chunkIndex, facilityChunk))] else [])
    {
      var feedContent := FeedPayload(facilityChunk);
      var fileName := FeedFileName(generationTimestamp, chunkIndex);
      var ok := storage.UploadFeedFile(fileName, feedContent);
      if ok {
        outcome := Returned(fileName);
      } else {
        outcome := Raised;
      }
    }

    /** The tasks run and are joined; the outcomes come back in task order. */
    method RunUnits(tasks: seq<Task>, generationTimestamp: int) returns (results: seq<Outcome>)
      modifies storage
      ensures |results| == |tasks|
      ensures forall k :: 0 <= k < |tasks| ==>
                results[k] == UnitOutcome(generationTimestamp, tasks[k].index, storage.faults)
      ensures storage.uploads == old(storage.uploads) + FeedUploads(tasks, generationTimestamp, storage.faults)
    {
      results := [];
      for k := 0 to |tasks|
        invariant results == UnitOutcomes(tasks[..k], generationTimestamp, storage.faults)
        invariant storage.uploads == old(storage.uploads)
                    + FeedUploads(tasks[..k], generationTimestamp, storage.faults)
      {
        FeedUploadsStep(tasks, k, generationTimestamp, storage.faults);
        UnitOutcomesStep(tasks, k, generationTimestamp, storage.faults);
        var outcome := ProcessAndUploadChunk(tasks[k].index, tasks[k].chunk, generationTimestamp);
        results := results + [outcome];
      }
      assert tasks[..|tasks|] == tasks;
    }

    /** `execute`, for a run started at `generationTimestamp`. */
    method Execute(generationTimestamp: int) returns (result: RunResult)
      requires dbChunkSize > 0
      modifies storage
      ensures result == RunResultOf(repository.rows, dbChunkSize, generationTimestamp, storage.faults)
      ensures storage.uploads == old(storage.uploads)
                + FeedUploads(ScheduledTasks(DbRepository.Chunked(repository.rows, dbChunkSize)),
                              generationTimestamp, storage.faults)
                + (if result.Success? then [MetadataUpload(result.manifest)] else [])
    {
      var dbChunks := repository.FetchFacilitiesChunked(dbChunkSize);
      var tasks := Schedule(dbChunks);
      ScheduleKeepsChunks(dbChunks, tasks);
      var n := |tasks|;
      var results := RunUnits(tasks, generationTimestamp);
      assert forall k :: 0 <= k < |results| ==> results[k] == UnitOutcome(generationTimestamp, k + 1, storage.faults) by {
        forall k | 0 <= k < |results|
          ensures results[k] == UnitOutcome(generationTimestamp, k + 1, storage.faults)
        {
          assert tasks[k].index == k + 1;
        }
      }
      DecisionMatchesRun(results, repository.rows, dbChunkSize, generationTimestamp, storage.faults);

      var decision := Aggregate(results, generationTimestamp);
      match decision
      case Abort =>
        result := Failed(TaskErrors);
      case Skip =>
        result := NoOp;
      case Publish(manifest) =>
        var ok := storage.UploadMetadataFile(MetadataFileName, ManifestJson(manifest));
        if ok {
          result := Success(manifest);
        } else {
          result := Failed(MetadataUploadFailed);
        }
    }
  }
}

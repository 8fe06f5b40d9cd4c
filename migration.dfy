/**
 * The migration engine (`WhatsAppDataReader` in src/migrate.ts): walk the
 * archive's chat folders, normalise every `.json` envelope file and upsert the
 * resulting record into the structured store, keyed by its messageId.
 *
 * The archive is a tree of directory listings in the order the directory
 * reads return them. The structured store is a map from messageId to record;
 * an upsert is a map update. Whether the store connection is open is a field
 * of the reader, so that "disconnect runs on every path of the try" can be
 * stated.
 */
module Migration {
  import opened JsValues
  import opened Envelopes
  import opened Normalize

  /** One name in a directory listing and what the name refers to. */
  datatype Entry = Entry(name: string, node: Node)

  /** A directory, a regular file, or a name whose stat fails (a dangling link). */
  datatype Node = Directory(entries: seq<Entry>) | File(content: Content) | Dangling

  /** The per-chat summary `{ processed, total }`. */
  datatype Stats = Stats(processed: nat, total: nat)

  /** One call `onProgress(chatId, processed, total)`. */
  datatype Progress = Progress(chatId: string, processed: nat, total: nat)

  datatype MigrationError =
    | DirectoryNotFound(dir: string)  // the explicit existence check
    | NotADirectory(dir: string)      // listing the root throws inside the try
    | StatFailed(name: string)        // stat of a top-level entry throws inside the try

  datatype Result<T> = Ok(value: T) | Err(error: MigrationError)

  type Store = map<string, Record>

  // ---------------------------------------------------------------------------
  // One chat folder

  predicate IsJsonName(e: Entry)
  {
    EndsWith(e.name, ".json")
  }

  /** `files.filter(file => file.endsWith('.json'))` */
  function JsonFiles(listing: seq<Entry>): (r: seq<Entry>)
    ensures |r| <= |listing|
    ensures forall e {:trigger e in r} :: e in r <==> e in listing && IsJsonName(e)
    decreases |listing|
  {
    if listing == [] then []
    else
      var last := listing[|listing| - 1];
      JsonFiles(listing[..|listing| - 1]) + (if IsJsonName(last) then [last] else [])
  }

  /**
   * Read, parse and normalise one file. None where `readFileSync` throws (a
   * directory or a dangling name) or where the content is not an envelope.
   */
  function Load(chatId: string, e: Entry): (r: Option<Record>)
    ensures r.None? <==> !e.node.File? || Decode(e.node.content).None?
    ensures r.Some? ==> r.value.chatId == chatId
  {
    if e.node.File? && Decode(e.node.content).Some?
    then Some(ParseMessage(chatId, Decode(e.node.content).value))
    else None
  }

  /** The records that the files produce, in order, skipping the files that fail. */
  function Loaded(chatId: string, files: seq<Entry>): (rs: seq<Record>)
    ensures |rs| <= |files|
    decreases |files|
  {
    if files == [] then []
    else
      var last := files[|files| - 1];
      Loaded(chatId, files[..|files| - 1]) + (match Load(chatId, last) case Some(r) => [r] case None => [])
  }

  /** The records one chat folder contributes to the store, in processing order. */
  function FolderRecords(chatId: string, listing: seq<Entry>): seq<Record>
  {
    Loaded(chatId, JsonFiles(listing))
  }

  /** How many of the files fail to load. */
  function FailureCount(chatId: string, files: seq<Entry>): nat
    decreases |files|
  {
    if files == [] then 0
    else FailureCount(chatId, files[..|files| - 1]) + (if Load(chatId, files[|files| - 1]).None? then 1 else 0)
  }

  // ---------------------------------------------------------------------------
  // The store

  /** Upsert every record in order: insert when absent, replace when present. */
  function UpsertAll(store: Store, rs: seq<Record>): (after: Store)
    ensures store.Keys <= after.Keys
    decreases |rs|
  {
    if rs == [] then store
    else
      var last := rs[|rs| - 1];
      UpsertAll(store, rs[..|rs| - 1])[last.messageId := last]
  }

  /** The last record in `rs` with this messageId, if any (an independent reading of "last write wins"). */
  function LastWith(rs: seq<Record>, id: string): (r: Option<Record>)
    ensures r.Some? ==> r.value in rs && r.value.messageId == id
    ensures r.None? ==> forall x :: x in rs ==> x.messageId != id
    decreases |rs|
  {
    if rs == [] then None
    else if rs[|rs| - 1].messageId == id then Some(rs[|rs| - 1])
    else
      var r := LastWith(rs[..|rs| - 1], id);
      assert forall x :: x in rs ==> x in rs[..|rs| - 1] || x == rs[|rs| - 1];
      r
  }

  /** Every record sits under its own messageId, so each id has at most one record. */
  ghost predicate KeyedById(store: Store)
  {
    forall id :: id in store ==> store[id].messageId == id
  }

  // ---------------------------------------------------------------------------
  // The walk over chat folders

  /** What the walk over the root's entries has done so far. */
  datatype Walk = Walk(records: seq<Record>, stats: map<string, Stats>, progress: seq<Progress>, failed: Option<string>)

  /** One top-level entry: a directory is a chat, a file is skipped, a failing stat aborts. */
  function Visit(w: Walk, e: Entry): Walk
  {
    match e.node
    case Dangling => w.(failed := Some(e.name))
    case File(_) => w
    case Directory(listing) =>
      var rs := FolderRecords(e.name, listing);
      Walk(w.records + rs, w.stats[e.name := Stats(|rs|, |rs|)],
           w.progress + [Progress(e.name, |rs|, |rs|)], None)
  }

  /** The loop over `chatFolders`, stopped by the first failing stat. */
  function WalkFolders(entries: seq<Entry>): (w: Walk)
    ensures |w.progress| <= |entries|
    ensures w.failed.Some? ==> exists e :: e in entries && e.node.Dangling? && e.name == w.failed.value
    decreases |entries|
  {
    if entries == [] then Walk([], map[], [], None)
    else
      var w := WalkFolders(entries[..|entries| - 1]);
      assert forall e :: e in entries[..|entries| - 1] ==> e in entries;
      if w.failed.Some? then w else Visit(w, entries[|entries| - 1])
  }

  /** The outcome of `readAllChats` on a store and an archive root (None: nothing there). */
  datatype Run = Run(result: Result<map<string, Stats>>, store: Store, progress: seq<Progress>, disconnected: bool)

  function Migrate(dataDir: string, root: Option<Node>, store: Store): (run: Run)
    ensures run.disconnected <==> root.Some? && !root.value.Dangling?
    ensures run.result.Ok? ==> root.Some? && root.value.Directory?
    ensures store.Keys <= run.store.Keys
  {
    if root.None? || root.value.Dangling? then Run(Err(DirectoryNotFound(dataDir)), store, [], false)
    else if root.value.File? then Run(Err(NotADirectory(dataDir)), store, [], true)
    else
      var w := WalkFolders(root.value.entries);
      Run(if w.failed.Some? then Err(StatFailed(w.failed.value)) else Ok(w.stats),
          UpsertAll(store, w.records), w.progress, true)
  }

  // ---------------------------------------------------------------------------
  // The reader

  class DataReader {
    const dataDir: string
    /** The structured store: messageId to record. */
    var records: Store
    /** Whether the store connection is open. */
    var connected: bool

    constructor (dataDir: string, existing: Store)
      ensures this.dataDir == dataDir && records == existing && !connected
    {
      this.dataDir := dataDir;
      records := existing;
      connected := false;
    }

    /** `readChatFolder(chatId, folderPath)`, with the folder's listing given. */
    method ReadChatFolder(chatId: string, listing: seq<Entry>) returns (processedCount: nat)
      modifies this`records
      ensures records == UpsertAll(old(records), FolderRecords(chatId, listing))
      ensures processedCount == |FolderRecords(chatId, listing)|
    {
      processedCount := 0;
      var jsonFiles := JsonFiles(listing);
      var i := 0;
      while i < |jsonFiles|
        invariant 0 <= i <= |jsonFiles|
        invariant records == UpsertAll(old(records), Loaded(chatId, jsonFiles[..i]))
        invariant processedCount == |Loaded(chatId, jsonFiles[..i])|
      {
        var outcome := Load(chatId, jsonFiles[i]);
        match outcome {
          case Some(message) =>
            assert UpsertAll(old(records), Loaded(chatId, jsonFiles[..i + 1])) == records[message.messageId := message]
              && |Loaded(chatId, jsonFiles[..i + 1])| == processedCount + 1 by {
              LoadedStep(chatId, jsonFiles, i);
              UpsertStep(old(records), Loaded(chatId, jsonFiles[..i]), message);
            }
            records := records[message.messageId := message];
            processedCount := processedCount + 1;
          case None =>
            assert Loaded(chatId, jsonFiles[..i + 1]) == Loaded(chatId, jsonFiles[..i]) by {
              LoadedStep(chatId, jsonFiles, i);
            }
        }
        i := i + 1;
      }
      assert jsonFiles[..i] == jsonFiles;
    }

    /**
     * `readAllChats({ onProgress })`, on the file system found at dataDir.
     * `progress` lists the onProgress calls (none when no callback is given).
     */
    method ReadAllChats(root: Option<Node>, reportProgress: bool)
      returns (result: Result<map<string, Stats>>, progress: seq<Progress>)
      modifies this`records, this`connected
      ensures var run := Migrate(dataDir, root, old(records));
        && result == run.result
        && records == run.store
        && progress == (if reportProgress then run.progress else [])
        && connected == (if run.disconnected then false else old(connected))
    {
      progress := [];
      if root.None? || root.value.Dangling? {
        result := Err(DirectoryNotFound(dataDir));
        return;
      }
      connected := true;
      if root.value.File? {
        connected := false;
        result := Err(NotADirectory(dataDir));
        return;
      }
      var chatFolders := root.value.entries;
      ghost var before := records;
      ghost var done: seq<Record> := [];
      var stats: map<string, Stats> := map[];
      ghost var calls: seq<Progress> := [];
      var failed: Option<string> := None;
      var i := 0;
      while i < |chatFolders| && failed.None?
        invariant 0 <= i <= |chatFolders|
        invariant WalkFolders(chatFolders[..i]) == Walk(done, stats, calls, failed)
        invariant records == UpsertAll(before, done)
        invariant progress == if reportProgress then calls else []
        invariant failed.Some? ==> WalkFolders(chatFolders) == WalkFolders(chatFolders[..i])
      {
        WalkStep(chatFolders, i);
        var folder := chatFolders[i];
        match folder.node {
          case Dangling =>
            failed := Some(folder.name);
            WalkStopsAtFailure(chatFolders, i + 1);
          case File(_) =>
          case Directory(listing) =>
            var processedCount := ReadChatFolder(folder.name, listing);
            UpsertAllAppend(before, done, FolderRecords(folder.name, listing));
            done := done + FolderRecords(folder.name, listing);
            stats := stats[folder.name := Stats(processedCount, processedCount)];
            calls := calls + [Progress(folder.name, processedCount, processedCount)];
            if reportProgress {
              progress := progress + [Progress(folder.name, processedCount, processedCount)];
            }
        }
        i := i + 1;
      }
      if failed.None? {
        assert chatFolders[..i] == chatFolders;
        result := Ok(stats);
      } else {
        result := Err(StatFailed(failed.value));
      }
      connected := false;
    }
  }

  // ---------------------------------------------------------------------------
  // Lemmas about the store

  lemma {:induction false} UpsertAllAppend(store: Store, a: seq<Record>, b: seq<Record>)
    ensures UpsertAll(store, a + b) == UpsertAll(UpsertAll(store, a), b)
    decreases |b|
  {
    if b != [] {
      assert (a + b)[..|a + b| - 1] == a + b[..|b| - 1];
      UpsertAllAppend(store, a, b[..|b| - 1]);
    } else {
      assert a + b == a;
    }
  }

  /**
   * Last write wins: after upserting `rs`, an id holds the last record in `rs`
   * with that id, and an id that `rs` never mentions keeps its old record.
   */
  lemma {:induction false} UpsertAllLastWins(store: Store, rs: seq<Record>, id: string)
    ensures LastWith(rs, id).Some? ==> id in UpsertAll(store, rs) && UpsertAll(store, rs)[id] == LastWith(rs, id).value
    ensures LastWith(rs, id).None? ==>
      (id in UpsertAll(store, rs) <==> id in store) &&
      (id in store ==> UpsertAll(store, rs)[id] == store[id])
    decreases |rs|
  {
    if rs != [] {
      UpsertAllLastWins(store, rs[..|rs| - 1], id);
    }
  }

  /** The store's ids after the upserts are the old ids and the ids of the records. */
  lemma {:induction false} UpsertAllKeys(store: Store, rs: seq<Record>)
    ensures UpsertAll(store, rs).Keys == store.Keys + set r | r in rs :: r.messageId
    decreases |rs|
  {
    if rs != [] {
      var init := rs[..|rs| - 1];
      UpsertAllKeys(store, init);
      assert forall r :: r in rs <==> r in init || r == rs[|rs| - 1];
    }
  }

  /** Upserting keeps every record under its own messageId. */
  lemma {:induction false} UpsertAllKeyedById(store: Store, rs: seq<Record>)
    requires KeyedById(store)
    ensures KeyedById(UpsertAll(store, rs))
    decreases |rs|
  {
    if rs != [] {
      UpsertAllKeyedById(store, rs[..|rs| - 1]);
    }
  }

  /** Upserting the same records twice leaves the store as once. */
  lemma UpsertAllIdempotent(store: Store, rs: seq<Record>)
    ensures UpsertAll(UpsertAll(store, rs), rs) == UpsertAll(store, rs)
  {
    var once := UpsertAll(store, rs);
    var twice := UpsertAll(once, rs);
    forall id | id in twice || id in once
      ensures id in twice && id in once && twice[id] == once[id]
    {
      UpsertAllLastWins(store, rs, id);
      UpsertAllLastWins(once, rs, id);
    }
    assert twice.Keys == once.Keys;
  }

  // ---------------------------------------------------------------------------
  // Lemmas about one chat folder

  lemma {:induction false} JsonFilesAppend(a: seq<Entry>, b: seq<Entry>)
    ensures JsonFiles(a + b) == JsonFiles(a) + JsonFiles(b)
    decreases |b|
  {
    if b == [] {
      assert a + b == a;
    } else {
      var init := b[..|b| - 1];
      var last := b[|b| - 1];
      var kept := if IsJsonName(last) then [last] else [];
      assert (a + b)[..|a + b| - 1] == a + init;
      assert (a + b)[|a + b| - 1] == last;
      assert JsonFiles(a + b) == JsonFiles(a + init) + kept;
      JsonFilesAppend(a, init);
      assert JsonFiles(b) == JsonFiles(init) + kept;
      assert JsonFiles(a) + JsonFiles(init) + kept == JsonFiles(a) + (JsonFiles(init) + kept);
    }
  }

  lemma {:induction false} LoadedAppend(chatId: string, a: seq<Entry>, b: seq<Entry>)
    ensures Loaded(chatId, a + b) == Loaded(chatId, a) + Loaded(chatId, b)
    ensures FailureCount(chatId, a + b) == FailureCount(chatId, a) + FailureCount(chatId, b)
    decreases |b|
  {
    if b == [] {
      assert a + b == a;
    } else {
      var init, last := b[..|b| - 1], b[|b| - 1];
      assert (a + b)[..|a + b| - 1] == a + init;
      assert (a + b)[|a + b| - 1] == last;
      LoadedAppend(chatId, a, init);
      var kept := match Load(chatId, last) case Some(r) => [r] case None => [];
      assert Loaded(chatId, a + b) == Loaded(chatId, a) + Loaded(chatId, init) + kept;
      assert Loaded(chatId, a) + Loaded(chatId, init) + kept == Loaded(chatId, a) + (Loaded(chatId, init) + kept);
    }
  }

  /** Every file either produces exactly one record or counts as one failure. */
  lemma {:induction false} LoadedPlusFailures(chatId: string, files: seq<Entry>)
    ensures |Loaded(chatId, files)| + FailureCount(chatId, files) == |files|
    decreases |files|
  {
    if files != [] {
      LoadedPlusFailures(chatId, files[..|files| - 1]);
    }
  }

  /** The processed count never exceeds the number of `.json` names in the folder. */
  lemma FolderCountBound(chatId: string, listing: seq<Entry>)
    ensures |FolderRecords(chatId, listing)| <= |JsonFiles(listing)| <= |listing|
  {
    LoadedPlusFailures(chatId, JsonFiles(listing));
  }

  /**
   * Failure is contained: a `.json` file that cannot be read or parsed
   * contributes nothing, and every file before and after it is processed as
   * if it were not there.
   */
  lemma FailingFileContained(chatId: string, before: seq<Entry>, bad: Entry, after: seq<Entry>)
    requires Load(chatId, bad).None?
    ensures FolderRecords(chatId, before + [bad] + after)
      == FolderRecords(chatId, before) + FolderRecords(chatId, after)
  {
    var jb, jx, ja := JsonFiles(before), JsonFiles([bad]), JsonFiles(after);
    JsonFilesAppend(before + [bad], after);
    JsonFilesAppend(before, [bad]);
    assert JsonFiles(before + [bad] + after) == jb + jx + ja;
    assert Loaded(chatId, jx) == [] by {
      assert [bad][..0] == [];
      if IsJsonName(bad) {
        assert jx == [bad];
        assert jx[..0] == [];
      } else {
        assert jx == [];
      }
    }
    LoadedAppend(chatId, jb + jx, ja);
    LoadedAppend(chatId, jb, jx);
    assert Loaded(chatId, jb + jx) == Loaded(chatId, jb);
  }

  /** One malformed file among N `.json` files that otherwise load gives N - 1 records. */
  lemma OneMalformedFile(chatId: string, files: seq<Entry>, k: nat)
    requires k < |files|
    requires forall e :: e in files ==> IsJsonName(e)
    requires Load(chatId, files[k]).None?
    requires forall j :: 0 <= j < |files| && j != k ==> Load(chatId, files[j]).Some?
    ensures |FolderRecords(chatId, files)| == |files| - 1
  {
    var before, after := files[..k], files[k + 1..];
    assert |FolderRecords(chatId, before)| == |before| by {
      AllJson(before);
      AllLoad(chatId, before);
    }
    assert |FolderRecords(chatId, after)| == |after| by {
      AllJson(after);
      AllLoad(chatId, after);
    }
    SplitAround(files, k);
    FailingFileContained(chatId, before, files[k], after);
  }

  /** Loading one more file appends its record, if it has one. */
  lemma LoadedStep(chatId: string, files: seq<Entry>, i: nat)
    requires i < |files|
    ensures Load(chatId, files[i]).None? ==> Loaded(chatId, files[..i + 1]) == Loaded(chatId, files[..i])
    ensures Load(chatId, files[i]).Some? ==>
      Loaded(chatId, files[..i + 1]) == Loaded(chatId, files[..i]) + [Load(chatId, files[i]).value]
  {
    assert files[..i + 1][..i] == files[..i];
  }

  /** Upserting one more record updates the store at that record's id. */
  lemma UpsertStep(store: Store, rs: seq<Record>, r: Record)
    ensures UpsertAll(store, rs + [r]) == UpsertAll(store, rs)[r.messageId := r]
  {
    assert (rs + [r])[..|rs|] == rs;
  }

  /** A sequence is its part before index k, the element at k, and its part after k. */
  lemma SplitAround<T>(s: seq<T>, k: nat)
    requires k < |s|
    ensures s == s[..k] + [s[k]] + s[k + 1..]
  {
  }

  lemma {:induction false} AllJson(files: seq<Entry>)
    requires forall i :: 0 <= i < |files| ==> IsJsonName(files[i])
    ensures JsonFiles(files) == files
    decreases |files|
  {
    if files != [] {
      var init := files[..|files| - 1];
      AllJson(init);
      assert files == init + [files[|files| - 1]];
    }
  }

  lemma {:induction false} AllLoad(chatId: string, files: seq<Entry>)
    requires forall i :: 0 <= i < |files| ==> Load(chatId, files[i]).Some?
    ensures |Loaded(chatId, files)| == |files|
    decreases |files|
  {
    if files != [] {
      AllLoad(chatId, files[..|files| - 1]);
    }
  }

  /** Re-reading an unchanged folder leaves the store as it was after the first read. */
  lemma ReadChatFolderIdempotent(store: Store, chatId: string, listing: seq<Entry>)
    ensures var once := UpsertAll(store, FolderRecords(chatId, listing));
      UpsertAll(once, FolderRecords(chatId, listing)) == once
  {
    UpsertAllIdempotent(store, FolderRecords(chatId, listing));
  }

  /** After one folder, each processed id holds the record of the last file with that id. */
  lemma ReadChatFolderLastWins(store: Store, chatId: string, listing: seq<Entry>, id: string)
    requires LastWith(FolderRecords(chatId, listing), id).Some?
    ensures var after := UpsertAll(store, FolderRecords(chatId, listing));
      id in after && after[id] == LastWith(FolderRecords(chatId, listing), id).value
      && after[id].chatId == chatId
  {
    UpsertAllLastWins(store, FolderRecords(chatId, listing), id);
    LoadedChatIds(chatId, JsonFiles(listing));
  }

  /** Every record a chat folder yields carries that folder's chat id. */
  lemma {:induction false} LoadedChatIds(chatId: string, files: seq<Entry>)
    ensures forall r :: r in Loaded(chatId, files) ==> r.chatId == chatId
    decreases |files|
  {
    if files != [] {
      LoadedChatIds(chatId, files[..|files| - 1]);
    }
  }

  /** After the upserts, the store holds a record under every id that was upserted. */
  lemma {:induction false} UpsertAllCovers(store: Store, rs: seq<Record>)
    ensures forall r :: r in rs ==> r.messageId in UpsertAll(store, rs)
    decreases |rs|
  {
    if rs != [] {
      var last := rs[|rs| - 1];
      UpsertAllCovers(store, rs[..|rs| - 1]);
      assert forall r :: r in rs ==> r in rs[..|rs| - 1] || r == last;
    }
  }


  // ---------------------------------------------------------------------------
  // Lemmas about the walk

  /** The walk over one more entry is one more `Visit`, unless a stat has already failed. */
  lemma WalkStep(entries: seq<Entry>, i: nat)
    requires i < |entries|
    ensures WalkFolders(entries[..i + 1]) ==
      if WalkFolders(entries[..i]).failed.Some? then WalkFolders(entries[..i])
      else Visit(WalkFolders(entries[..i]), entries[i])
  {
    assert entries[..i + 1][..i] == entries[..i];
  }

  /** Once a stat has failed, later entries change nothing. */
  lemma {:induction false} WalkStopsAtFailure(entries: seq<Entry>, k: nat)
    requires k <= |entries|
    requires WalkFolders(entries[..k]).failed.Some?
    ensures WalkFolders(entries) == WalkFolders(entries[..k])
    decreases |entries| - k
  {
    if k < |entries| {
      assert entries[..k + 1][..k] == entries[..k];
      WalkStopsAtFailure(entries, k + 1);
    } else {
      assert entries[..k] == entries;
    }
  }

  /** The names of the directory entries. */
  function DirectoryNames(entries: seq<Entry>): set<string>
  {
    set e | e in entries && e.node.Directory? :: e.name
  }

  /** One report `(folder, n, n)` per directory entry, in listing order, n being that folder's record count. */
  function DirReports(entries: seq<Entry>): seq<Progress>
    decreases |entries|
  {
    if entries == [] then []
    else
      var e := entries[|entries| - 1];
      DirReports(entries[..|entries| - 1]) +
        (if e.node.Directory?
         then [Progress(e.name, |FolderRecords(e.name, e.node.entries)|, |FolderRecords(e.name, e.node.entries)|)]
         else [])
  }

  /**
   * A walk that finishes has a stats entry for exactly the directory entries,
   * each with total == processed, and reports exactly `DirReports`: one
   * `(folder, n, n)` per directory, in order, n being the folder's count.
   */
  lemma {:induction false} WalkStats(entries: seq<Entry>)
    requires WalkFolders(entries).failed.None?
    ensures WalkFolders(entries).stats.Keys == DirectoryNames(entries)
    ensures forall f :: f in WalkFolders(entries).stats ==>
      WalkFolders(entries).stats[f].processed == WalkFolders(entries).stats[f].total
    ensures forall p :: p in WalkFolders(entries).progress ==>
      p.processed == p.total && p.chatId in DirectoryNames(entries)
    ensures WalkFolders(entries).progress == DirReports(entries)
    decreases |entries|
  {
    if entries != [] {
      var init := entries[..|entries| - 1];
      var last := entries[|entries| - 1];
      WalkStats(init);
      assert forall e :: e in entries <==> e in init || e == last;
      assert DirectoryNames(entries) == DirectoryNames(init) + (if last.node.Directory? then {last.name} else {});
    }
  }

  /** Every chat's processed count is bounded by that folder's `.json` names. */
  lemma {:induction false} WalkStatsBounded(entries: seq<Entry>, f: string)
    requires f in WalkFolders(entries).stats
    ensures exists e :: e in entries && e.name == f && e.node.Directory? &&
                        WalkFolders(entries).stats[f].processed <= |JsonFiles(e.node.entries)|
    decreases |entries|
  {
    var init := entries[..|entries| - 1];
    var last := entries[|entries| - 1];
    var w := WalkFolders(init);
    if w.failed.None? && last.node.Directory? && last.name == f {
      FolderCountBound(f, last.node.entries);
    } else {
      WalkStatsBounded(init, f);
      var e :| e in init && e.name == f && e.node.Directory? &&
        WalkFolders(init).stats[f].processed <= |JsonFiles(e.node.entries)|;
      assert e in entries;
    }
  }

  /**
   * Every chat's statistics are exactly that folder's record count: processed
   * and total both equal the number of `.json` files in it that load.
   */
  lemma {:induction false} WalkStatsCount(entries: seq<Entry>, f: string)
    requires f in WalkFolders(entries).stats
    ensures exists e :: e in entries && e.name == f && e.node.Directory? &&
                        WalkFolders(entries).stats[f].processed == |FolderRecords(f, e.node.entries)| &&
                        WalkFolders(entries).stats[f].total == |FolderRecords(f, e.node.entries)|
    decreases |entries|
  {
    var init := entries[..|entries| - 1];
    var last := entries[|entries| - 1];
    var w := WalkFolders(init);
    if w.failed.None? && last.node.Directory? && last.name == f {
      assert last in entries;
    } else {
      WalkStatsCount(init, f);
      var e :| e in init && e.name == f && e.node.Directory? &&
        WalkFolders(init).stats[f].processed == |FolderRecords(f, e.node.entries)| &&
        WalkFolders(init).stats[f].total == |FolderRecords(f, e.node.entries)|;
      assert e in entries;
    }
  }

  /** The walk's records are always exactly the folders' records, in order; no file is counted twice. */
  lemma {:induction false} WalkRecordsCounted(entries: seq<Entry>)
    requires WalkFolders(entries).failed.None?
    ensures |WalkFolders(entries).records| == SumProcessed(WalkFolders(entries).progress)
    decreases |entries|
  {
    if entries != [] {
      WalkRecordsCounted(entries[..|entries| - 1]);
      var w := WalkFolders(entries[..|entries| - 1]);
      var last := entries[|entries| - 1];
      if last.node.Directory? {
        var p := Progress(last.name, |FolderRecords(last.name, last.node.entries)|,
                          |FolderRecords(last.name, last.node.entries)|);
        assert (w.progress + [p])[..|w.progress|] == w.progress;
      }
    }
  }

  function SumProcessed(ps: seq<Progress>): nat
    decreases |ps|
  {
    if ps == [] then 0 else SumProcessed(ps[..|ps| - 1]) + ps[|ps| - 1].processed
  }

  // ---------------------------------------------------------------------------
  // Lemmas about a whole run

  /** A missing root fails before any work: the store is untouched and nothing is reported. */
  lemma MissingRootFailsFirst(dataDir: string, root: Option<Node>, store: Store)
    requires root.None? || root.value.Dangling?
    ensures Migrate(dataDir, root, store).result == Err(DirectoryNotFound(dataDir))
    ensures Migrate(dataDir, root, store).store == store
    ensures Migrate(dataDir, root, store).progress == []
    ensures !Migrate(dataDir, root, store).disconnected
  {
  }

  /** Every run past the existence check ends with the connection released. */
  lemma DisconnectAfterCheck(dataDir: string, root: Option<Node>, store: Store)
    requires root.Some? && !root.value.Dangling?
    ensures Migrate(dataDir, root, store).disconnected
  {
  }

  /**
   * Re-running the migration over an unchanged archive leaves the store
   * identical, returns the same result and reports the same progress.
   */
  lemma MigrateIdempotent(dataDir: string, root: Option<Node>, store: Store)
    ensures var first := Migrate(dataDir, root, store);
      var second := Migrate(dataDir, root, first.store);
      second.store == first.store && second.result == first.result && second.progress == first.progress
  {
    if root.Some? && root.value.Directory? {
      UpsertAllIdempotent(store, WalkFolders(root.value.entries).records);
    }
  }

  /** A migration keeps the store keyed by messageId: at most one record per id. */
  lemma MigrateKeyedById(dataDir: string, root: Option<Node>, store: Store)
    requires KeyedById(store)
    ensures KeyedById(Migrate(dataDir, root, store).store)
  {
    if root.Some? && root.value.Directory? {
      UpsertAllKeyedById(store, WalkFolders(root.value.entries).records);
    }
  }
}

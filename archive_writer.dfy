/**
 * The archive writer and the two message handlers of src/extract.ts:
 * `saveMessage`, `downloadAndSaveMedia`, the history handler (filter, save,
 * then rewrite `chats.json`) and the live handler (save every message that
 * has a conversation identifier).
 *
 * The backup folder is a map from paths below it to directories and files.
 * Writing a file fails, as `writeFileSync` does, when its parent is not a
 * directory or when the path itself is a directory; such a failure inside
 * `saveMessage` escapes and ends the handler, while one inside the media
 * download is caught. The media fetch is an outcome supplied from outside.
 */
module ArchiveWriter {
  import opened JsValues
  import opened Envelopes
  import opened Filter

  /** A path below the backup folder, as its segments; [] is the backup folder itself. */
  type Path = seq<string>

  datatype FsNode = Dir | File(content: Content)

  type Fs = map<Path, FsNode>

  /** What the media download returns for a message. */
  datatype Fetch = Fetched(bytes: seq<bv8>) | FetchFailed

  /** The state of the archive after an operation, and whether the operation completed. */
  datatype Outcome = Outcome(fs: Fs, ok: bool)

  /** The file every history batch rewrites. */
  const ChatsFile: Path := ["chats.json"]

  predicate IsDir(fs: Fs, p: Path)
  {
    p == [] || (p in fs && fs[p].Dir?)
  }

  /** `fs.writeFileSync(p, c)`; None where it throws. */
  function WriteFile(fs: Fs, p: Path, c: Content): (r: Option<Fs>)
    requires |p| > 0
    ensures r.None? <==> !IsDir(fs, p[..|p| - 1]) || IsDir(fs, p)
    ensures r.Some? ==> p in r.value && r.value[p] == File(c) && r.value.Keys == fs.Keys + {p}
    ensures r.Some? ==> forall q :: q != p ==> SameAt(fs, r.value, q)
  {
    if IsDir(fs, p[..|p| - 1]) && !IsDir(fs, p) then Some(fs[p := File(c)]) else None
  }

  /** `if (!fs.existsSync(chatDir)) fs.mkdirSync(chatDir, { recursive: true })` */
  function EnsureChatDir(fs: Fs, chat: string): (r: Fs)
    ensures [chat] in fs ==> r == fs
    ensures [chat] !in fs ==> IsDir(r, [chat]) && forall q :: q != [chat] ==> SameAt(fs, r, q)
  {
    if [chat] in fs then fs else fs[[chat] := Dir]
  }

  /** `${message.key.id}.json` */
  function JsonName(m: Envelope): string
  {
    IdText(m) + ".json"
  }

  /** `${message.key.id}${mediaExt}` */
  function MediaName(m: Envelope): string
  {
    IdText(m) + MediaExtension(m)
  }

  /** `downloadAndSaveMedia`: every failure, of the fetch or of the write, is caught. */
  function SaveMedia(fs: Fs, m: Envelope, chat: string, fetch: Envelope -> Fetch): (r: Fs)
    ensures forall q :: q != [chat, MediaName(m)] ==> SameAt(fs, r, q)
    ensures !WantsMedia(m) || fetch(m).FetchFailed? ==> r == fs
  {
    if !WantsMedia(m) then fs
    else match fetch(m)
      case FetchFailed => fs
      case Fetched(bytes) =>
        match WriteFile(fs, [chat, MediaName(m)], Blob(bytes))
        case Some(written) => written
        case None => fs
  }

  /** `saveMessage(message, chatDir, sock, config)` with chatDir = backup folder / chat. */
  function Save(fs: Fs, m: Envelope, chat: string, cfg: SyncConfig, fetch: Envelope -> Fetch): (r: Outcome)
    ensures fs.Keys + {[chat]} <= r.fs.Keys
    ensures r.ok ==>
      [chat, JsonName(m)] in r.fs && r.fs[[chat, JsonName(m)]].File? &&
      Decode(r.fs[[chat, JsonName(m)]].content) == Some(m)
    ensures !r.ok ==> r.fs == EnsureChatDir(fs, chat)
  {
    var withDir := EnsureChatDir(fs, chat);
    match WriteFile(withDir, [chat, JsonName(m)], Encode(m))
    case None => Outcome(withDir, false)
    case Some(written) => Outcome(if cfg.includeMedia then SaveMedia(written, m, chat, fetch) else written, true)
  }

  /** Whether a handler passes the message on to saveMessage: the history handler filters, the live one does not. */
  predicate Admits(m: Envelope, cfg: SyncConfig, history: bool)
  {
    if history then ShouldKeep(m, cfg) else HasRemoteJid(m)
  }

  /** The loop of a handler: save each admitted message in order, stopping at the first throw. */
  function SaveBatch(fs: Fs, ms: seq<Envelope>, cfg: SyncConfig, fetch: Envelope -> Fetch, history: bool): (r: Outcome)
    ensures fs.Keys <= r.fs.Keys
    ensures r.ok ==> forall m :: m in ms && Admits(m, cfg, history) ==> [Phone(m.key.remoteJid.value)] in r.fs
    decreases |ms|
  {
    if ms == [] then Outcome(fs, true)
    else
      var before := SaveBatch(fs, ms[..|ms| - 1], cfg, fetch, history);
      var m := ms[|ms| - 1];
      assert forall x :: x in ms ==> x in ms[..|ms| - 1] || x == m;
      if !before.ok || !Admits(m, cfg, history) then before
      else Save(before.fs, m, Phone(m.key.remoteJid.value), cfg, fetch)
  }

  /** The `messaging-history.set` handler: the loop, then `chats.json` rewritten wholesale. */
  function History(fs: Fs, ms: seq<Envelope>, chats: seq<JsValue>, cfg: SyncConfig, fetch: Envelope -> Fetch): (r: Outcome)
    ensures fs.Keys <= r.fs.Keys
    ensures r.ok ==> (forall m :: m in ms && ShouldKeep(m, cfg) ==> [Phone(m.key.remoteJid.value)] in r.fs)
    ensures r.ok ==> ChatsFile in r.fs && r.fs[ChatsFile] == File(ChatList(chats))
  {
    var saved := SaveBatch(fs, ms, cfg, fetch, true);
    if !saved.ok then saved
    else match WriteFile(saved.fs, ChatsFile, ChatList(chats))
      case None => Outcome(saved.fs, false)
      case Some(written) => Outcome(written, true)
  }

  // ---------------------------------------------------------------------------
  // The archive

  class Archive {
    /** The contents of the backup folder. */
    var fs: Fs

    constructor (initial: Fs)
      ensures fs == initial
    {
      fs := initial;
    }

    method DownloadAndSaveMedia(message: Envelope, chat: string, fetch: Envelope -> Fetch)
      modifies this
      ensures fs == SaveMedia(old(fs), message, chat, fetch)
    {
      if WantsMedia(message) {
        var media := fetch(message);
        if media.Fetched? {
          var mediaExt := MediaExtension(message);
          var written := WriteFile(fs, [chat, IdText(message) + mediaExt], Blob(media.bytes));
          if written.Some? {
            fs := written.value;
          }
        }
      }
    }

    /** Returns false where the file write throws out of saveMessage. */
    method SaveMessage(message: Envelope, chat: string, cfg: SyncConfig, fetch: Envelope -> Fetch)
      returns (ok: bool)
      modifies this
      ensures Outcome(fs, ok) == Save(old(fs), message, chat, cfg, fetch)
    {
      if [chat] !in fs {
        fs := fs[[chat] := Dir];
      }
      var written := WriteFile(fs, [chat, JsonName(message)], Encode(message));
      if written.None? {
        return false;
      }
      fs := written.value;
      ok := true;
      if cfg.includeMedia {
        DownloadAndSaveMedia(message, chat, fetch);
      }
    }

    /** The history handler; returns false where an exception ends it. */
    method OnHistory(messages: seq<Envelope>, chats: seq<JsValue>, cfg: SyncConfig, fetch: Envelope -> Fetch)
      returns (ok: bool)
      modifies this
      ensures Outcome(fs, ok) == History(old(fs), messages, chats, cfg, fetch)
    {
      for i := 0 to |messages|
        invariant SaveBatch(old(fs), messages[..i], cfg, fetch, true) == Outcome(fs, true)
      {
        assert messages[..i + 1][..i] == messages[..i];
        var message := messages[i];
        if !TypeAllowed(message, cfg) {
          continue;
        }
        if !HasRemoteJid(message) {
          continue;
        }
        var remoteJid := message.key.remoteJid.value;
        if !cfg.includeGroup && IsGroupJid(remoteJid) {
          continue;
        }
        var phone := Phone(remoteJid);
        if cfg.includeList.Some? && LocalNumber(phone) !in cfg.includeList.value {
          continue;
        }
        ok := SaveMessage(message, phone, cfg, fetch);
        if !ok {
          SaveBatchStops(old(fs), messages, cfg, fetch, true, i + 1);
          return;
        }
      }
      assert messages[..|messages|] == messages;
      var written := WriteFile(fs, ChatsFile, ChatList(chats));
      if written.None? {
        return false;
      }
      fs := written.value;
      ok := true;
    }

    /** The live (`messages.upsert`) handler; returns false where an exception ends it. */
    method OnLive(messages: seq<Envelope>, cfg: SyncConfig, fetch: Envelope -> Fetch)
      returns (ok: bool)
      modifies this
      ensures Outcome(fs, ok) == SaveBatch(old(fs), messages, cfg, fetch, false)
    {
      for i := 0 to |messages|
        invariant SaveBatch(old(fs), messages[..i], cfg, fetch, false) == Outcome(fs, true)
      {
        assert messages[..i + 1][..i] == messages[..i];
        var message := messages[i];
        if !HasRemoteJid(message) {
          continue;
        }
        var chat := message.key.remoteJid.value;
        ok := SaveMessage(message, Phone(chat), cfg, fetch);
        if !ok {
          SaveBatchStops(old(fs), messages, cfg, fetch, false, i + 1);
          return;
        }
      }
      assert messages[..|messages|] == messages;
      ok := true;
    }
  }

  // ---------------------------------------------------------------------------
  // saveMessage

  /** Path p holds the same thing, or nothing, in both states. */
  predicate SameAt(fs: Fs, fs': Fs, p: Path)
  {
    (p in fs <==> p in fs') && (p in fs ==> fs[p] == fs'[p])
  }

  /**
   * The chat folder is created only when absent, and an existing entry under
   * that name is left as it was.
   */
  lemma SaveCreatesChatDirOnlyIfAbsent(fs: Fs, m: Envelope, chat: string, cfg: SyncConfig, fetch: Envelope -> Fetch)
    ensures [chat] in fs ==> SameAt(fs, Save(fs, m, chat, cfg, fetch).fs, [chat])
    ensures [chat] !in fs ==> IsDir(Save(fs, m, chat, cfg, fetch).fs, [chat])
  {
  }

  /**
   * saveMessage completes exactly when the chat folder is (or becomes) a
   * directory and the message's `.json` name is not a directory; it then holds
   * the serialised message, whatever was there before.
   */
  lemma SaveWritesEnvelope(fs: Fs, m: Envelope, chat: string, cfg: SyncConfig, fetch: Envelope -> Fetch)
    ensures Save(fs, m, chat, cfg, fetch).ok <==>
      ([chat] !in fs || fs[[chat]].Dir?) && !([chat, JsonName(m)] in fs && fs[[chat, JsonName(m)]].Dir?)
    ensures Save(fs, m, chat, cfg, fetch).ok ==>
      [chat, JsonName(m)] in Save(fs, m, chat, cfg, fetch).fs &&
      Save(fs, m, chat, cfg, fetch).fs[[chat, JsonName(m)]] == File(Encode(m))
  {
    var withDir := EnsureChatDir(fs, chat);
    assert [chat, JsonName(m)][..1] == [chat];
    if WantsMedia(m) {
      MediaNameIsNotJsonName(m);
      assert [chat, MediaName(m)] != [chat, JsonName(m)];
    }
  }

  /**
   * Nothing else changes: apart from the chat folder, the message's `.json`
   * file and its media file, every path is as it was.
   */
  lemma SaveFrame(fs: Fs, m: Envelope, chat: string, cfg: SyncConfig, fetch: Envelope -> Fetch, p: Path)
    requires p != [chat] && p != [chat, JsonName(m)] && p != [chat, MediaName(m)]
    ensures SameAt(fs, Save(fs, m, chat, cfg, fetch).fs, p)
  {
  }

  /**
   * The media file is written only with `includeMedia` set, a media payload
   * and a successful fetch; it then holds the fetched bytes.
   */
  lemma SaveMediaOnlyWhenFetched(fs: Fs, m: Envelope, chat: string, cfg: SyncConfig, fetch: Envelope -> Fetch)
    requires Save(fs, m, chat, cfg, fetch).ok
    ensures !(cfg.includeMedia && WantsMedia(m) && fetch(m).Fetched?) ==>
      Save(fs, m, chat, cfg, fetch).fs == EnsureChatDir(fs, chat)[[chat, JsonName(m)] := File(Encode(m))]
    ensures cfg.includeMedia && WantsMedia(m) && fetch(m).Fetched? && !IsDir(fs, [chat, MediaName(m)]) ==>
      [chat, MediaName(m)] in Save(fs, m, chat, cfg, fetch).fs &&
      Save(fs, m, chat, cfg, fetch).fs[[chat, MediaName(m)]] == File(Blob(fetch(m).bytes))
  {
    var withDir := EnsureChatDir(fs, chat);
    var written := withDir[[chat, JsonName(m)] := File(Encode(m))];
    assert [chat, MediaName(m)][..1] == [chat];
    if WantsMedia(m) {
      MediaNameIsNotJsonName(m);
      assert [chat, MediaName(m)] != [chat, JsonName(m)];
      assert [chat, JsonName(m)][..1] == [chat];
      assert WriteFile(withDir, [chat, JsonName(m)], Encode(m)).Some?;
      assert IsDir(withDir, [chat]);
      assert IsDir(written, [chat]);
    }
  }

  /** A failed media fetch is contained: the `.json` file is written and nothing else. */
  lemma MediaFailureKeepsEnvelope(fs: Fs, m: Envelope, chat: string, cfg: SyncConfig, fetch: Envelope -> Fetch)
    requires fetch(m) == FetchFailed
    requires ([chat] !in fs || fs[[chat]].Dir?) && !([chat, JsonName(m)] in fs && fs[[chat, JsonName(m)]].Dir?)
    ensures Save(fs, m, chat, cfg, fetch)
      == Outcome(EnsureChatDir(fs, chat)[[chat, JsonName(m)] := File(Encode(m))], true)
  {
    assert [chat, JsonName(m)][..1] == [chat];
  }

  /**
   * A retry with a different fetch outcome (a download that failed the first
   * time and now succeeds, say) changes nothing but the media file.
   */
  lemma SaveRetry(fs: Fs, m: Envelope, chat: string, cfg: SyncConfig, f1: Envelope -> Fetch, f2: Envelope -> Fetch, p: Path)
    requires p != [chat, MediaName(m)]
    ensures SameAt(Save(fs, m, chat, cfg, f1).fs, Save(Save(fs, m, chat, cfg, f1).fs, m, chat, cfg, f2).fs, p)
  {
    var first := Save(fs, m, chat, cfg, f1);
    SaveCreatesChatDirOnlyIfAbsent(fs, m, chat, cfg, f1);
    SaveCreatesChatDirOnlyIfAbsent(first.fs, m, chat, cfg, f2);
    SaveWritesEnvelope(fs, m, chat, cfg, f1);
    SaveWritesEnvelope(first.fs, m, chat, cfg, f2);
    if p != [chat] && p != [chat, JsonName(m)] {
      SaveFrame(first.fs, m, chat, cfg, f2, p);
    }
  }

  /**
   * Saving is idempotent: saving the same message again (with the same fetch
   * outcome) leaves the archive as the first save left it.
   */
  lemma SaveIdempotent(fs: Fs, m: Envelope, chat: string, cfg: SyncConfig, fetch: Envelope -> Fetch)
    ensures Save(Save(fs, m, chat, cfg, fetch).fs, m, chat, cfg, fetch) == Save(fs, m, chat, cfg, fetch)
  {
    var json := [chat, JsonName(m)];
    assert json[..1] == [chat];
    var withDir := EnsureChatDir(fs, chat);
    var once := Save(fs, m, chat, cfg, fetch);
    if once.ok {
      var written := withDir[json := File(Encode(m))];
      assert WriteFile(withDir, json, Encode(m)) == Some(written);
      assert IsDir(written, [chat]);
      assert once.fs == if cfg.includeMedia then SaveMedia(written, m, chat, fetch) else written;
      assert IsDir(once.fs, [chat]) && once.fs[json] == File(Encode(m)) by {
        if WantsMedia(m) {
          MediaNameIsNotJsonName(m);
          assert [chat, MediaName(m)] != json && [chat, MediaName(m)] != [chat];
        }
      }
      assert EnsureChatDir(once.fs, chat) == once.fs;
      assert WriteFile(once.fs, json, Encode(m)) == Some(once.fs) by {
        assert once.fs[json := File(Encode(m))] == once.fs;
      }
      if cfg.includeMedia {
        SaveMediaIdempotent(written, m, chat, fetch);
      }
    }
  }

  /** Saving the same media twice leaves the archive as the first save left it. */
  lemma SaveMediaIdempotent(fs: Fs, m: Envelope, chat: string, fetch: Envelope -> Fetch)
    ensures SaveMedia(SaveMedia(fs, m, chat, fetch), m, chat, fetch) == SaveMedia(fs, m, chat, fetch)
  {
    if WantsMedia(m) && fetch(m).Fetched? {
      var p := [chat, MediaName(m)];
      var blob := Blob(fetch(m).bytes);
      assert p[..1] == [chat];
      var once := SaveMedia(fs, m, chat, fetch);
      if WriteFile(fs, p, blob).Some? {
        assert once == fs[p := File(blob)];
        assert IsDir(once, [chat]) && !IsDir(once, p);
        assert once[p := File(blob)] == once;
      }
    }
  }

  /**
   * Two messages with the same id in the same chat share one `.json` file,
   * which holds the second.
   */
  lemma SaveSameIdTwice(fs: Fs, m1: Envelope, m2: Envelope, chat: string, cfg: SyncConfig, fetch: Envelope -> Fetch)
    requires IdText(m1) == IdText(m2)
    requires Save(fs, m1, chat, cfg, fetch).ok
    ensures var second := Save(Save(fs, m1, chat, cfg, fetch).fs, m2, chat, cfg, fetch);
      second.ok && second.fs[[chat, JsonName(m2)]] == File(Encode(m2))
      && Decode(second.fs[[chat, JsonName(m1)]].content) == Some(m2)
  {
    var first := Save(fs, m1, chat, cfg, fetch);
    SaveWritesEnvelope(fs, m1, chat, cfg, fetch);
    SaveCreatesChatDirOnlyIfAbsent(fs, m1, chat, cfg, fetch);
    SaveWritesEnvelope(first.fs, m2, chat, cfg, fetch);
  }

  // ---------------------------------------------------------------------------
  // The handlers

  /** Once a save has thrown, the rest of the batch does nothing. */
  lemma {:induction false} SaveBatchStops(fs: Fs, ms: seq<Envelope>, cfg: SyncConfig, fetch: Envelope -> Fetch, history: bool, k: nat)
    requires k <= |ms|
    requires !SaveBatch(fs, ms[..k], cfg, fetch, history).ok
    ensures SaveBatch(fs, ms, cfg, fetch, history) == SaveBatch(fs, ms[..k], cfg, fetch, history)
    decreases |ms| - k
  {
    if k < |ms| {
      assert ms[..k + 1][..k] == ms[..k];
      SaveBatchStops(fs, ms, cfg, fetch, history, k + 1);
    } else {
      assert ms[..k] == ms;
    }
  }

  /** A message the handler does not admit leaves no trace. */
  lemma SkippedMessageLeavesNoTrace(fs: Fs, ms: seq<Envelope>, m: Envelope, cfg: SyncConfig, fetch: Envelope -> Fetch, history: bool)
    requires !Admits(m, cfg, history)
    ensures SaveBatch(fs, ms + [m], cfg, fetch, history) == SaveBatch(fs, ms, cfg, fetch, history)
  {
    assert (ms + [m])[..|ms|] == ms;
  }

  /**
   * Every path a batch changes lies in the folder of a message the handler
   * admitted: the folder named after that message's identifier.
   */
  lemma {:induction false} BatchFootprint(fs: Fs, ms: seq<Envelope>, cfg: SyncConfig, fetch: Envelope -> Fetch, history: bool, p: Path)
    requires !SameAt(fs, SaveBatch(fs, ms, cfg, fetch, history).fs, p)
    ensures exists m :: m in ms && Admits(m, cfg, history) && |p| > 0 && p[0] == Phone(m.key.remoteJid.value)
    decreases |ms|
  {
    var init := ms[..|ms| - 1];
    var last := ms[|ms| - 1];
    var before := SaveBatch(fs, init, cfg, fetch, history);
    if SameAt(fs, before.fs, p) {
      var chat := Phone(last.key.remoteJid.value);
      if p != [chat] && p != [chat, JsonName(last)] && p != [chat, MediaName(last)] {
        SaveFrame(before.fs, last, chat, cfg, fetch, p);
      }
      assert last in ms;
    } else {
      BatchFootprint(fs, init, cfg, fetch, history, p);
      var m :| m in init && Admits(m, cfg, history) && |p| > 0 && p[0] == Phone(m.key.remoteJid.value);
      assert m in ms;
    }
  }

  /**
   * The chat folder holds, under the `.json` name of `m`, a file that decodes
   * to a message with that same name.
   */
  predicate HoldsEnvelopeNamed(fs: Fs, chat: string, m: Envelope)
  {
    [chat, JsonName(m)] in fs && fs[[chat, JsonName(m)]].File?
    && Decode(fs[[chat, JsonName(m)]].content).Some?
    && JsonName(Decode(fs[[chat, JsonName(m)]].content).value) == JsonName(m)
  }

  /** A `.json` name is never a media name: the two end in different characters. */
  lemma JsonNameIsNoMediaName(m: Envelope, other: Envelope)
    requires WantsMedia(other)
    ensures JsonName(m) != MediaName(other)
  {
    var ext := MediaExtension(other);
    assert JsonName(m)[|JsonName(m)| - 1] == 'n';
    assert MediaName(other)[|MediaName(other)| - 1] == ext[|ext| - 1];
  }

  /**
   * A completed save of another message keeps a saved `.json` file decoding
   * to a message of the same name: either it is left alone, or it is
   * overwritten by a message with the same identifier.
   */
  lemma SaveKeepsEnvelopes(fs: Fs, m: Envelope, chat: string, cfg: SyncConfig, fetch: Envelope -> Fetch, saved: Envelope, savedChat: string)
    requires Save(fs, m, chat, cfg, fetch).ok
    requires HoldsEnvelopeNamed(fs, savedChat, saved)
    ensures HoldsEnvelopeNamed(Save(fs, m, chat, cfg, fetch).fs, savedChat, saved)
  {
    var p := [savedChat, JsonName(saved)];
    if p == [chat, JsonName(m)] {
      assert JsonName(saved) == JsonName(m);
    } else if p == [chat, MediaName(m)] {
      if WantsMedia(m) {
        JsonNameIsNoMediaName(saved, m);
        assert false;
      }
      SaveMediaOnlyWhenFetched(fs, m, chat, cfg, fetch);
      assert p != [chat];
    } else {
      assert p != [chat];
      SaveFrame(fs, m, chat, cfg, fetch, p);
    }
  }

  /**
   * After a completed batch, every admitted message has its `.json` file in
   * its chat folder, decoding to a message with its identifier: the message
   * itself, or a later one in the batch with the same identifier.
   */
  lemma {:induction false} BatchSavesEveryAdmitted(fs: Fs, ms: seq<Envelope>, cfg: SyncConfig, fetch: Envelope -> Fetch, history: bool)
    requires SaveBatch(fs, ms, cfg, fetch, history).ok
    ensures forall m :: m in ms && Admits(m, cfg, history) ==>
      HoldsEnvelopeNamed(SaveBatch(fs, ms, cfg, fetch, history).fs, Phone(m.key.remoteJid.value), m)
    decreases |ms|
  {
    if ms != [] {
      var init := ms[..|ms| - 1];
      var last := ms[|ms| - 1];
      var before := SaveBatch(fs, init, cfg, fetch, history);
      BatchSavesEveryAdmitted(fs, init, cfg, fetch, history);
      assert forall x :: x in ms ==> x in init || x == last;
      if Admits(last, cfg, history) {
        var chat := Phone(last.key.remoteJid.value);
        forall m | m in init && Admits(m, cfg, history)
          ensures HoldsEnvelopeNamed(SaveBatch(fs, ms, cfg, fetch, history).fs, Phone(m.key.remoteJid.value), m)
        {
          SaveKeepsEnvelopes(before.fs, last, chat, cfg, fetch, m, Phone(m.key.remoteJid.value));
        }
      }
    }
  }

  /**
   * Without groups, the history handler changes nothing outside the folders
   * of identifiers that contain no "@g", apart from `chats.json`.
   */
  lemma GroupChatsNeverWritten(fs: Fs, ms: seq<Envelope>, chats: seq<JsValue>, cfg: SyncConfig, fetch: Envelope -> Fetch, p: Path)
    requires !cfg.includeGroup
    requires p != ChatsFile
    requires !SameAt(fs, History(fs, ms, chats, cfg, fetch).fs, p)
    ensures exists m :: (m in ms && HasRemoteJid(m) && !IsGroupJid(m.key.remoteJid.value)
      && |p| > 0 && p[0] == Phone(m.key.remoteJid.value))
  {
    var saved := SaveBatch(fs, ms, cfg, fetch, true);
    assert !SameAt(fs, saved.fs, p);
    BatchFootprint(fs, ms, cfg, fetch, true, p);
  }

  /** A completed history batch leaves `chats.json` holding exactly this batch's chats. */
  lemma ChatsFileRewritten(fs: Fs, ms: seq<Envelope>, chats: seq<JsValue>, cfg: SyncConfig, fetch: Envelope -> Fetch)
    requires History(fs, ms, chats, cfg, fetch).ok
    ensures ChatsFile in History(fs, ms, chats, cfg, fetch).fs
    ensures History(fs, ms, chats, cfg, fetch).fs[ChatsFile] == File(ChatList(chats))
  {
  }

  /**
   * A completed history batch has saved every message the filter kept, as a
   * `.json` file decoding to a message with its identifier.
   */
  lemma HistorySavesEveryKept(fs: Fs, ms: seq<Envelope>, chats: seq<JsValue>, cfg: SyncConfig, fetch: Envelope -> Fetch)
    requires History(fs, ms, chats, cfg, fetch).ok
    ensures forall m :: m in ms && ShouldKeep(m, cfg) ==>
      HoldsEnvelopeNamed(History(fs, ms, chats, cfg, fetch).fs, Phone(m.key.remoteJid.value), m)
  {
    var saved := SaveBatch(fs, ms, cfg, fetch, true);
    BatchSavesEveryAdmitted(fs, ms, cfg, fetch, true);
    forall m | m in ms && ShouldKeep(m, cfg)
      ensures HoldsEnvelopeNamed(History(fs, ms, chats, cfg, fetch).fs, Phone(m.key.remoteJid.value), m)
    {
      assert Admits(m, cfg, true);
      assert [Phone(m.key.remoteJid.value), JsonName(m)] != ChatsFile;
    }
  }

  /**
   * The live handler is the history loop under a configuration that switches
   * every rule off: only the presence of an identifier is checked.
   */
  lemma {:induction false} LiveIsUnfilteredHistory(fs: Fs, ms: seq<Envelope>, cfg: SyncConfig, fetch: Envelope -> Fetch)
    ensures SaveBatch(fs, ms, cfg, fetch, false)
      == SaveBatch(fs, ms, cfg.(messageTypes := None, includeGroup := true, includeList := None), fetch, true)
    decreases |ms|
  {
    if ms != [] {
      LiveIsUnfilteredHistory(fs, ms[..|ms| - 1], cfg, fetch);
      var open := cfg.(messageTypes := None, includeGroup := true, includeList := None);
      var last := ms[|ms| - 1];
      assert Admits(last, cfg, false) == Admits(last, open, true);
      var before := SaveBatch(fs, ms[..|ms| - 1], cfg, fetch, false);
      if Admits(last, cfg, false) {
        assert Save(before.fs, last, Phone(last.key.remoteJid.value), cfg, fetch)
          == Save(before.fs, last, Phone(last.key.remoteJid.value), open, fetch);
      }
    }
  }
}

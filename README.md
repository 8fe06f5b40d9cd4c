# WhatsApp archiver and migration: a Dafny model

The system backs up a WhatsApp account to a folder tree and later loads that tree into a relational store. There are two sides.

- **Ingestion** (`src/extract.ts`) receives message envelopes from the messaging protocol.
  - A history batch goes through a filter: allowed types, groups, and a contact list.
  - Each kept envelope is written to `<backup>/<phone>/<id>.json`, optionally with a media file `<id>.<ext>`.
  - `chats.json` is then rewritten with the batch's chat list.
  - Live messages skip the filter.
  - A closed connection is re-opened unless the close reason is "logged out".
- **Migration** (`src/migrate.ts`) walks every chat folder of the backup.
  - Each `.json` file is normalised into a canonical record (`parseMessage`).
  - The record is upserted into the store under its message id.
  - Per-chat counts and progress reports come out of the walk.

The model is organised as follows.

- `js_values.dfy` (`JsValues`): the slice of JavaScript value and string semantics the code relies on:
  - truthiness and `||`;
  - `?.`;
  - string conversion in `+`;
  - `indexOf`, `replace` with a string pattern, `split(c)[0]`, `substring`, `endsWith`.
- `envelope.dfy` (`Envelopes`): the envelope and the content of an archived file. Serialisation is abstract, and a decode inverts an encode.
- `normalize.dfy` (`Normalize`): `parseMessage` as a pure function, with its type, media-flag, text, id and timestamp rules.
- `migration.dfy` (`Migration`): the reader as a class.
  - Its fields are the store (a map from message id to record) and the connection flag.
  - `ReadChatFolder` and `ReadAllChats` are loops proved against the specification functions `FolderRecords`, `UpsertAll`, `WalkFolders` and `Migrate`.
- `filter.dfy` (`Filter`): the pure decisions of the ingestion side: the history filter, the media guard and extension, and the reconnect predicate.
- `archive_writer.dfy` (`ArchiveWriter`): the backup folder as a map from paths to directories and files.
  - `Archive` is a class over that map.
  - Its methods `SaveMessage`, `DownloadAndSaveMedia`, `OnHistory` and `OnLive` are proved equal to the functions `Save`, `SaveMedia`, `History` and `SaveBatch`.

The archive appears twice: as the tree of `Node`s that `Migration` reads, and as the path map `Fs` that `ArchiveWriter` writes. The two are independent models of the same folder, and no lemma connects what a save writes to what a later migration reads.

Behaviours of the code worth knowing:

- **No disconnect when the backup folder is missing.** A missing folder or a dangling link makes `readAllChats` throw before its `try`, so `$disconnect` does not run on that path (`MissingRootFailsFirst`). A root that is a regular file fails inside the `try`, and disconnect does run there (`DisconnectAfterCheck`).
- **No rollback.** The upserts go through the reader's own client, not the transaction's. So a failure part-way through keeps every record upserted before it, and `Migrate` returns that partial store with the error.
- **Media is judged twice, differently.** The media download is guarded by truthiness of the payload fields. The record's media flag comes from the payload's first key.
- **The contact list.** The configuration as written has `includeList: []`, which rejects every history message (`SourceConfigKeepsNothing`).
  - At start-up, `includeList.txt` replaces that list whenever the file can be read (src/extract.ts:201-206). So the empty list applies only when the file is missing.
  - The file is split on `'\n'`. A trailing newline or a blank line therefore leaves a `""` entry, and a `""` entry admits every number of at most two characters (`BlankContactAdmitsShortNumbers`).

## Model

| member | source | states |
|---|---|---|
| JsValues.Lookup | src/migrate.ts:24-37 | a property read yields `undefined` when the key is absent, and otherwise the value of the first property with that key, wherever it stands |
| JsValues.IndexOf | src/extract.ts:162 | -1 exactly when the pattern occurs nowhere; otherwise the first index where it occurs |
| JsValues.ReplaceFirst | src/migrate.ts:57 | without an occurrence the string is unchanged; otherwise exactly the first occurrence is replaced |
| JsValues.BeforeFirst | src/extract.ts:164 | `split('@')[0]` is a prefix without '@', followed in the input by '@' when shorter |
| JsValues.SubstringFrom | src/extract.ts:167 | `substring(2)` is empty for inputs of at most two characters, otherwise the input minus its first two characters |
| Envelopes.DecodeEncode | src/extract.ts:91 | a saved envelope decodes back to itself |
| Envelopes.EncodeInjective | src/extract.ts:91 | different envelopes are saved as different contents |
| Envelopes.ContentKind | src/extract.ts:145-146 | the kind is the payload's first key when that key is non-empty; none for an empty payload or an empty first key |
| Normalize.KindOrUnknown | src/migrate.ts:18 | never empty: "unknown" or the payload's first key, and the first key whenever it is non-empty |
| Normalize.DispatchText | src/migrate.ts:20-38 | the chain's text is `undefined`, truthy, or copied from a conversation or extended-text payload |
| Normalize.DispatchCaption | src/migrate.ts:22-33 | a caption is set only when the image or video branch is taken |
| Normalize.ParseMessage | src/migrate.ts:16-62 | chatId and fromMe are copied; the text is `undefined` or truthy; media implies a known type |
| Normalize.TypeOfEmptyPayload | src/migrate.ts:17-18 | an absent or empty payload gives type "unknown", no media, no text |
| Normalize.TypeStripsMessage | src/migrate.ts:57 | a first key `kMessage` gives type `k` (when `k` has no "Message") |
| Normalize.StripsPlainKind | src/migrate.ts:57 | a first key `kMessage` with no capital M in `k` gives type `k` |
| Normalize.NoCapitalM | src/migrate.ts:57 | a key without 'M' has no "Message" to strip |
| Normalize.TypeKeepsPlainKey | src/migrate.ts:18-57 | a first key without "Message" is the type unchanged |
| Normalize.TypeRemovesFirstOccurrenceOnly | src/migrate.ts:57 | `MessageMessage` gives "Message" |
| Normalize.HasMediaIffMediaKind | src/migrate.ts:41-47 | media exactly when the first key is one of the five media kinds |
| Normalize.MediaTypes | src/migrate.ts:41-57 | a media record's type is image, video, audio, document or sticker |
| Normalize.MediaKindName | src/migrate.ts:41-47 | each of the five media kinds is image, video, audio, document or sticker followed by "Message" |
| Normalize.MediaTypeWithoutMedia | src/migrate.ts:41-47 | the converse fails: a first key "image" has type image and no media |
| Normalize.TextOfConversation | src/migrate.ts:24-59 | a non-empty conversation text is the text |
| Normalize.TextOfEmptyConversation | src/migrate.ts:24-59 | an empty conversation text becomes `undefined` |
| Normalize.TextOfExtendedText | src/migrate.ts:26-27 | the extended text's `text` field, when truthy |
| Normalize.TextOfImage | src/migrate.ts:28-30 | "[imagem] " plus the caption, or plus nothing when the caption is falsy |
| Normalize.TextOfVideo | src/migrate.ts:31-33 | "[video] " plus the caption, or plus nothing when the caption is falsy |
| Normalize.TextOfAudio | src/migrate.ts:34-35 | the literal "[audio]" |
| Normalize.TextOfDocument | src/migrate.ts:36-37 | "[document] " plus the file name, "[document] undefined" when it is missing |
| Normalize.DocumentShown | src/migrate.ts:36-59 | in the document branch the text is "[document] " plus the file name as `+` prints it |
| Normalize.DispatchDocument | src/migrate.ts:36-37 | the document branch sets the text and leaves the caption `undefined` |
| Normalize.DocumentLabel | src/migrate.ts:37 | `+` prints a missing file name as "undefined" and a string name as itself |
| Normalize.TextOfOtherKinds | src/migrate.ts:24-59 | any other kind has no text |
| Normalize.TypeAndTextDisagree | src/migrate.ts:18-38 | type and media follow the first key while the text follows the priority chain over all keys |
| Normalize.SingleDocumentText | src/migrate.ts:36-37 | a lone document with a file name has text "[document] " plus the name |
| Normalize.SingleDocumentKind | src/migrate.ts:41-57 | a lone document has type "document" and media |
| Normalize.SingleDocument | src/migrate.ts:16-62 | a lone document gives type "document", media and its "[document] ..." text |
| Normalize.IdentityFields | src/migrate.ts:53-55 | messageId is `key.id` or "" when absent; chatId is the folder name |
| Normalize.TimestampThreeHoursEarlier | src/migrate.ts:49-50 | the stored instant is three hours before the envelope's |
| Normalize.TimestampKeepsDistances | src/migrate.ts:49-50 | the correction keeps order and distances between messages |
| Migration.JsonFiles | src/migrate.ts:72 | exactly the `.json` names of the listing are kept |
| Migration.Load | src/migrate.ts:77-82 | a file fails exactly when it is not a readable file or its content is not an envelope; its record carries the folder name as chatId |
| Migration.Loaded | src/migrate.ts:75-95 | at most one record per file |
| Migration.LoadedStep | src/migrate.ts:75-91 | one more file appends its record when it loads, and nothing otherwise |
| Migration.UpsertAll | src/migrate.ts:85-89 | no id already in the store leaves it |
| Migration.UpsertAllCovers | src/migrate.ts:85-89 | the id of every upserted record is in the store afterwards |
| Migration.UpsertStep | src/migrate.ts:85-89 | one more upsert replaces or inserts the record under its id |
| Migration.WalkFolders | src/migrate.ts:120-141 | at most one progress report per entry; a failure names a dangling entry of the listing |
| Migration.WalkStep | src/migrate.ts:120-141 | one more entry is one more visit, unless the walk has already failed |
| Migration.Migrate | src/migrate.ts:101-149 | disconnects exactly when the root exists; success needs a root directory; no id leaves the store |
| Migration.LastWith | src/migrate.ts:85-89 | the last record with an id is among the records; none means no record has it |
| Migration.DataReader.ReadChatFolder | src/migrate.ts:65-98 | the store becomes the old store with the folder's records upserted in order; the count is the number of records |
| Migration.DataReader.ReadAllChats | src/migrate.ts:101-149 | result, store and progress reports are those of `Migrate`; the connection is released on every path past the existence check |
| Migration.UpsertAllAppend | src/migrate.ts:85-89 | upserting two runs of records is upserting one then the other |
| Migration.UpsertAllLastWins | src/migrate.ts:85-89 | each id holds its last record; ids never upserted keep their old record |
| Migration.UpsertAllKeys | src/migrate.ts:85-89 | the ids after are the old ids plus the records' ids |
| Migration.UpsertAllKeyedById | src/migrate.ts:85-89 | every record stays under its own message id |
| Migration.UpsertAllIdempotent | src/migrate.ts:85-89 | upserting the same records twice is upserting them once |
| Migration.JsonFilesAppend | src/migrate.ts:72 | the `.json` filter distributes over concatenated listings |
| Migration.LoadedAppend | src/migrate.ts:75-95 | records and failures of concatenated files add up |
| Migration.LoadedPlusFailures | src/migrate.ts:75-95 | each `.json` file is either one record or one failure |
| Migration.FolderCountBound | src/migrate.ts:72-97 | the processed count is at most the `.json` count, at most the listing size |
| Migration.FailingFileContained | src/migrate.ts:77-94 | a failing file contributes nothing and does not disturb the files around it |
| Migration.OneMalformedFile | src/migrate.ts:77-94 | N `.json` files with one malformed give N - 1 records |
| Migration.AllJson | src/migrate.ts:72 | a listing of `.json` names passes the filter unchanged |
| Migration.AllLoad | src/migrate.ts:77-91 | files that all load give one record each |
| Migration.ReadChatFolderIdempotent | src/migrate.ts:65-98 | re-reading an unchanged folder leaves the store as after the first read |
| Migration.ReadChatFolderLastWins | src/migrate.ts:75-95 | each id holds the record of the folder's last file with that id |
| Migration.LoadedChatIds | src/migrate.ts:82 | every record of a folder carries that folder's name as chatId |
| Migration.WalkStopsAtFailure | src/migrate.ts:120-124 | after a failing stat the remaining entries change nothing |
| Migration.WalkStats | src/migrate.ts:120-140 | a completed walk has stats for exactly the directories, total equal to processed, one progress report per directory, in listing order, carrying that folder's record count (`DirReports`) |
| Migration.WalkStatsBounded | src/migrate.ts:124-134 | each chat's count is bounded by its folder's `.json` names |
| Migration.WalkStatsCount | src/migrate.ts:124-134 | each chat's stats come from a directory entry of that name: processed and total both equal the number of its `.json` files that load |
| Migration.WalkRecordsCounted | src/migrate.ts:120-140 | the records upserted are exactly the sum of the reported counts |
| Migration.MissingRootFailsFirst | src/migrate.ts:109-111 | a missing root fails with the store untouched, no progress, no disconnect |
| Migration.DisconnectAfterCheck | src/migrate.ts:113-148 | every run past the existence check disconnects |
| Migration.MigrateIdempotent | src/migrate.ts:101-149 | a second run over an unchanged archive gives the same store, result and progress |
| Migration.MigrateKeyedById | src/migrate.ts:101-149 | a run keeps the store keyed by message id |
| Filter.NoRemoteJidNeverKept | src/extract.ts:157-158 | a message without a conversation identifier is never kept |
| Filter.ShouldKeep | src/extract.ts:141-171 | kept exactly when: with a non-empty type list, the first key is non-empty and listed; the identifier is present and non-empty; without groups it has no "@g"; with a contact list, its number minus two characters is listed |
| Filter.KeptTypeIsListed | src/extract.ts:144-149 | with a non-empty type list, a kept message's first key is listed |
| Filter.KeptIsNotGroup | src/extract.ts:162 | without groups, no kept identifier contains "@g" anywhere |
| Filter.ContactRule | src/extract.ts:164-171 | with a contact list, kept exactly when the number minus its two-character prefix is listed |
| Filter.EmptyContactListKeepsNothing | src/extract.ts:166-171 | an empty contact list rejects everything |
| Filter.SourceConfigKeepsNothing | src/extract.ts:27-42 | the configuration as written keeps no history message |
| Filter.PhoneOfJid | src/extract.ts:164 | the folder of `number@domain` is `number` |
| Filter.GroupMarkerOfJid | src/extract.ts:162 | `number@domain` is a group identifier exactly when the domain starts with 'g' |
| Filter.ContactExample | src/extract.ts:164-171 | `5511999998765@s.whatsapp.net` is kept exactly when "11999998765" is listed |
| Filter.BlankContactAdmitsShortNumbers | src/extract.ts:164-171 | with an empty line in the contact list, every number of at most two characters is admitted |
| Filter.MediaExtension | src/extract.ts:64-67 | the extension is one of ".doc", ".jpg", ".mp4", ".ogg" or "" |
| Filter.WantsMedia | src/extract.ts:49-67 | the download guard holds exactly when an extension is chosen |
| Filter.MediaExtensionPriority | src/extract.ts:64-67 | document before image before video before audio |
| Filter.MediaNameIsNotJsonName | src/extract.ts:69-90 | a media file never collides with the message's `.json` file |
| Filter.StatusCode | src/extract.ts:122 | a status code exists only when the close carries an error with an output, and never without a close reason or an error |
| Filter.ShouldReconnect | src/extract.ts:122 | no reconnect exactly when the status code is 401; a close without a reason reconnects |
| ArchiveWriter.Archive.DownloadAndSaveMedia | src/extract.ts:44-76 | the archive becomes `SaveMedia` of the old one: the media file is written on a successful fetch and write, and nothing changes otherwise |
| ArchiveWriter.Archive.SaveMessage | src/extract.ts:78-96 | the archive and the completion flag are those of `Save` |
| ArchiveWriter.Archive.OnHistory | src/extract.ts:136-182 | the archive and the completion flag are those of `History`: the filtered loop, stopping at the first throw, then `chats.json` |
| ArchiveWriter.Archive.OnLive | src/extract.ts:185-195 | the archive and the completion flag are those of the unfiltered loop |
| ArchiveWriter.SaveCreatesChatDirOnlyIfAbsent | src/extract.ts:85-87 | an existing chat entry is left as is; a missing one becomes a directory |
| ArchiveWriter.SaveWritesEnvelope | src/extract.ts:85-91 | saving completes exactly when the chat entry is or becomes a directory and the `.json` name is not a directory, and it then holds the envelope |
| ArchiveWriter.SaveFrame | src/extract.ts:78-96 | nothing changes besides the chat folder, the `.json` file and the media file |
| ArchiveWriter.SaveMediaOnlyWhenFetched | src/extract.ts:49-95 | without includeMedia, media or a successful fetch, only the `.json` file is written; with them the media file holds the fetched bytes |
| ArchiveWriter.MediaFailureKeepsEnvelope | src/extract.ts:72-74 | a failed fetch is caught: the envelope is saved and nothing else |
| ArchiveWriter.SaveIdempotent | src/extract.ts:78-96 | saving the same message again, with the same fetch outcome, changes nothing |
| ArchiveWriter.SaveRetry | src/extract.ts:44-96 | saving the same message again with any other fetch outcome changes nothing but its media file |
| ArchiveWriter.SaveSameIdTwice | src/extract.ts:90-91 | two messages with one id share a file that ends up holding the second |
| ArchiveWriter.SaveBatchStops | src/extract.ts:141-176 | after a throw the rest of the batch does nothing |
| ArchiveWriter.SkippedMessageLeavesNoTrace | src/extract.ts:141-171 | a message that the handler does not admit changes nothing |
| ArchiveWriter.BatchFootprint | src/extract.ts:141-194 | every changed path lies in the folder of an admitted message |
| ArchiveWriter.GroupChatsNeverWritten | src/extract.ts:162-174 | without groups, only folders of non-group identifiers and `chats.json` change |
| ArchiveWriter.ChatsFileRewritten | src/extract.ts:178-181 | a completed history batch leaves `chats.json` holding exactly its chats |
| ArchiveWriter.LiveIsUnfilteredHistory | src/extract.ts:185-195 | the live handler is the history loop with every rule switched off |
| ArchiveWriter.WriteFile | src/extract.ts:91 | a write throws exactly when the parent is not a directory or the path is a directory; otherwise the path holds the content and nothing else changes |
| ArchiveWriter.EnsureChatDir | src/extract.ts:85-87 | an existing chat entry is kept; a missing one becomes a directory and nothing else changes |
| ArchiveWriter.SaveMedia | src/extract.ts:44-76 | only the media path can change; without media or after a failed fetch nothing changes |
| ArchiveWriter.SaveMediaIdempotent | src/extract.ts:44-76 | saving the same media again, with the same fetch outcome, changes nothing |
| ArchiveWriter.Save | src/extract.ts:78-96 | no path disappears and the chat entry exists; on completion the `.json` file decodes to the message; on a throw only the chat folder was created |
| ArchiveWriter.SaveBatch | src/extract.ts:141-176 | no path disappears; a completed loop leaves a folder for the phone of every admitted message (the saved files themselves: `BatchSavesEveryAdmitted`) |
| ArchiveWriter.JsonNameIsNoMediaName | src/extract.ts:64-90 | a `.json` name never equals any message's media name |
| ArchiveWriter.SaveKeepsEnvelopes | src/extract.ts:78-96 | a completed save keeps every saved `.json` file decoding to a message of its name |
| ArchiveWriter.BatchSavesEveryAdmitted | src/extract.ts:141-194 | after a completed loop, every admitted message's `.json` file is in its chat folder and decodes to a message with its identifier |
| ArchiveWriter.HistorySavesEveryKept | src/extract.ts:136-182 | after a completed history batch, every kept message's `.json` file is in its chat folder and decodes to a message with its identifier |
| ArchiveWriter.History | src/extract.ts:136-182 | no path disappears; on completion every kept message has its folder and `chats.json` holds the chats (the saved files themselves: `HistorySavesEveryKept`) |

## Left out

- The socket, QR pairing, credential storage, the `connection.update` re-invocation itself and `main`: I/O against the messaging service. Only the reconnect decision is modelled.
- The internals of `downloadMediaMessage`: the fetch outcome is a parameter (`Fetch`).
- SaveIdempotent: `fetch` gives each envelope one fixed outcome, but every `saveMessage` downloads again, and a retry can succeed where the first download failed. Such a retry writes the media file, so the archive changes. This lemma does not cover that case; `SaveRetry` states what holds for any two outcomes: only the media file can differ.
- SaveMediaIdempotent: likewise covers only a repeated download with the same outcome; a retry that now succeeds writes the media file.
- JSON text: serialisation is abstract (`Encode`/`Decode`), so formatting, key order on disk and numbers inside payloads are not modelled. Only the shapes the code inspects are: objects, strings, booleans, null and undefined.
- Key order and duplicate keys in a payload object: the model reads the first value of a repeated key, where `JSON.parse` keeps the last one. Files written by `JSON.stringify` never repeat a key, so this does not arise for saved messages. `Object.keys` lists integer-like keys first; `FirstKey` uses insertion order.
- `Date` arithmetic: the timestamp is epoch milliseconds minus three hours. Time zones, daylight saving and `parseInt` of non-numeric timestamps are not modelled.
- Reading `includeList.txt` and the commented-out `maxMessages` limit: outside the handlers. A list read from the file is just another `includeList` value of the configuration. `batchSize` is read by `readAllChats` but never used.
- Logging: `console.log` and `console.error`.
- Path normalisation in `path.join`: a phone or id that is empty, "." or "..", or that contains "/", would be resolved to another place. The model treats every name as one path segment.
- Store and connection failures: the store never throws, and the `$transaction` timeout is not modelled.
- A chat folder whose own `readdirSync` throws: its listing is always available.
- The rendering of a `null` id in a file name (`"null"`): an absent id renders as "undefined".
- A non-string `conversation` value: it is carried through as whatever JavaScript value it is, not converted.
- UpsertAll: Prisma's `upsert` skips `undefined` fields in its `update` branch (`text`, `fromMe`), so a re-imported message without text keeps its old text in the store. `UpsertAll` replaces the whole record, so this difference is not captured.
- Concurrency between the two handlers, and the `async` interleaving of awaits: handlers run to completion one at a time.

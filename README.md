# Island life manager: record store, sync codec, merge and service-worker routing

This project models the core of a browser app that keeps a daily journal in
`localStorage` and backs it up to a private GitHub gist.

- **The record store** (`app.js`) is a flat map from storage key to JSON text.
  - Each category key of `STORAGE_KEYS` holds a map from a `YYYY-MM-DD` date key to a list of records.
  - `key + '_TEMP'` holds that day's drafts in the same shape.
  - Saving appends one timestamped record.
  - `archiveToday` moves today's drafts into the final maps. It concatenates lists; the island-interaction entry, which is a nested object, is replaced instead.
  - There are also nested island-interaction flags, important-date edits, a date → categories index and a record counter.
  - The page's own GitHub panel (`githubSyncManager`, `uploadData`, `downloadData`) uploads a filtered snapshot and overwrites cells on download.
- **The sync manager** (`github-sync.js`) does the following:
  - `collectAllData` selects which keys go into a snapshot.
  - The snapshot is encoded as JSON text, then UTF-8 (RFC 3629), then Base64 (section 4 of RFC 4648), then the prefix `island-v1:`. Decoding reverses this and rejects bad input.
  - `mergeData` reconciles a downloaded snapshot with local data key by key, then date by date. Same-date lists are concatenated, with remote records de-duplicated by `timestamp || date || ''`.
  - It also covers configuration load/save/clear, gist selection, the `sync` dispatch and the thirty-minute auto-sync gate.
- **The service worker** (`service-worker.js`) has four parts:
  - The fetch routing table (not intercepted / network-first / cache-first).
  - The network-first fallback order.
  - The activate whitelist.
  - The weekly clean-up of the dynamic cache.

## How it is modelled

- **Storage cells.** A stored cell is an `Item`: either `Doc(j)`, the JSON text of a value `j`, or `Plain(t)`, text the model reads as not JSON, which `JSON.parse` rejects (tokens, ISO times, the device id, the empty string). The auto-sync flag is `Plain` too; it is only compared with `'true'` and never parsed.
  - `JSON.stringify` and `JSON.parse` are not modelled character by character. Where text matters they are parameters, and a round trip assumes they are mutually inverse.
- **JavaScript semantics are written out.**
  - Truthiness: `Truthy`.
  - `Object.keys`/`Object.values`/spread over objects, arrays and strings: `ObjectView`.
  - Property reads and writes: `Member`, `SetPath`, `DeleteKey`.
  - A property write on `null`/`undefined` is a `TypeError` result.
- **Classes for in-place state.** What the source updates in place is a class:
  - `LocalStorage` with an `items` map.
  - `App`: the page's module-level `islandInteractions` and `importantDates`.
  - `GitHubSyncManager` and `PageSyncManager`: the config fields.
  - `CacheStorage`: cache names and dynamic-cache entries.
- **The same-date merge rule is a parameter.** `Merge.DayRule` is `AsWritten` (github-sync.js:385-386 as it is) or `Corrected` (a non-list local entry is kept). The merge functions and loops take the rule. `GitHubSyncManager` uses `AsWritten`; `Corrected` exists for the first finding. In the same way, `PageSyncManager` uses `btoa`/`atob` as written, and `PageCodec.Encode`/`Decode` hold the corrected UTF-8 codec of the second finding.
- **Loops become methods.** Each loop of the source is a method with a loop, proved equal to a specification function. The properties are then proved about that function as lemmas. There are two exceptions, which are functions only: the page's upload filter (`forEach` over the keys, app.js:330-341) is the map comprehension `PageSync.PageRecords`, and the `filter`/`sort` of `findOrCreateGist` (github-sync.js:164-175) is the recursive `GitHubSync.SelectGist`.
- **Parameters for I/O.**
  - Clock, randomness, `confirm()` answers and network responses are parameters.
  - "Today" is a date key (see `Dates.FormatDate`).
  - "now" is an integer of milliseconds.
- **Integers.** All integers are unbounded. No width or wrap-around matters in the modelled code.

## Model

| member | source | states |
|---|---|---|
| JsonModel.ParseItem | app.js:909 | parsing a cell succeeds exactly for JSON text and gives back its value |
| JsonModel.ReadDoc | app.js:909 | `JSON.parse(getItem(k) \|\| '{}')`: a missing or empty cell reads as `{}`, a non-empty one as its parse |
| JsonModel.ObjectView | github-sync.js:367 | `Object.keys` of an object is its fields, of an array or string its index keys, of anything else nothing |
| JsonModel.Member | github-sync.js:368 | a property read finds a value exactly when the value is an object with that key |
| JsonModel.SetPath | app.js:1204 | a nested assignment adds the first key to an object; on a primitive it is silently lost; on null it throws |
| JsonModel.SetPathStores | app.js:1195-1212 | on a writable path, the assignment succeeds and reading the path back gives the value stored |
| JsonModel.SetPathFrame | app.js:1195-1212 | every other path of the same depth keeps its value |
| JsonModel.DeleteKey | app.js:1606 | `delete x[k]` throws only on null, removes exactly `k` from an object and keeps every other key's value |
| JsonModel.JsText | app.js:1013 | `String(v)`: a string is itself, an object `[object Object]`, an empty list the empty text |
| JsonModel.JoinTextsConcat | app.js:1013 | `join(',')` of two non-empty lists put together is their joins with one comma between |
| Dates.FormatDate | app.js:891-896 | the key has the shape `year-MM-DD`, ten characters for four-digit years |
| Dates.PadTwoDigits | app.js:893-894 | `padStart(2, '0')` of a number below 100 is two digits that read back as the number |
| Dates.YearLength | app.js:892 | a four-digit year prints as four characters |
| Dates.FormatDateRoundTrip | app.js:891-896 | the date key parses back to the year, month and day it was built from |
| Dates.FormatDateInjective | app.js:891-896 | different days never share a date key |
| RecordStore.TempKeyInjective | app.js:923 | different categories never share a `_TEMP` cell |
| RecordStore.StorageKeysWellFormed | app.js:488-507 | the eighteen category keys are distinct, none is another's `_TEMP` cell, and both island keys are among them |
| RecordStore.SaveRecordAppendsOne | app.js:921-931 | saving appends exactly the record at the end of today's list (from `[]` if absent); other dates and other cells are unchanged |
| RecordStore.SaveRecordRejectsNonList | app.js:913 | a truthy non-list entry for today makes `push` throw |
| RecordStore.ArchiveLoopEffect | app.js:1005-1018 | the category loop fails iff some step fails; otherwise each category's two cells hold what its step writes, no other cell changes, and `hasData` is set iff some category had drafts |
| RecordStore.ArchiveLoopAllSkip | app.js:1005-1018 | when no category has drafts for today, the loop writes nothing |
| RecordStore.ArchiveLoopStops | app.js:1005-1018 | a throwing step ends the loop with the cells written so far |
| RecordStore.ArchiveKeyConcatenates | app.js:1007-1016 | a non-empty draft list becomes the tail of the final list in order; only today is removed from the drafts; other dates are untouched |
| RecordStore.ArchiveKeyConcatenatesText | app.js:1009-1016 | a non-empty text as today's final entry gets the drafts appended as `String(drafts)`, and today's draft entry is still deleted |
| RecordStore.ArchiveKeySkips | app.js:1007 | an absent, falsy or empty draft entry writes nothing |
| RecordStore.ArchiveIslandReplaces | app.js:1020-1028 | today's island entry replaces the final one whatever it held, and today is removed from the drafts |
| RecordStore.IslandMoveIff | app.js:1021-1022 | the island step moves data iff today's island draft is present and truthy |
| RecordStore.MovedDraftsSkip | app.js:1015-1027 | once today is deleted from a draft map, neither step moves anything for it |
| RecordStore.ArchiveReportsData | app.js:1004-1037 | `hasData` is true iff some category had a non-empty draft list or the island draft map had today's entry |
| RecordStore.LoopLeavesNoDrafts | app.js:1005-1018 | after the loop, no category step would move anything |
| RecordStore.IslandStepLeavesNoDrafts | app.js:1020-1028 | the island step keeps that true and leaves no island draft for today |
| RecordStore.ArchiveTwiceMovesNothing | app.js:999-1038 | a second archive run on the same day writes nothing and reports no data |
| RecordStore.DraftFlagStored | app.js:1197-1205 | `temp[today][resident][interaction]` becomes the flag; every other three-level path and every other cell keep their values |
| RecordStore.InteractionsSourcePrefersDrafts | app.js:1215-1224 | non-empty drafts are read in preference to the final map; nothing is read when both are empty |
| RecordStore.ImportantDateEdits | app.js:1590-1607 | adding stores the entry under the date and keeps other dates; deleting removes exactly that date |
| Calendar.DaysIndexSound | app.js:1690-1718 | a category is listed under a date iff it is indexed and has a final or draft entry for that date; no date lists a category twice |
| Calendar.IndexedStep | app.js:1694-1714 | adding an indexed category that is not yet listed lists it exactly under its final and draft dates and keeps every list free of duplicates |
| Calendar.DaysIndexStops | app.js:1692-1716 | the first unreadable cell aborts the index |
| Calendar.AddKeyNone | app.js:1697-1702 | adding a category for no dates changes nothing |
| Calendar.AddKeyStep | app.js:1707-1713 | adding one more date appends the category to that date's list only |
| Calendar.AddKeyListed | app.js:1697-1714 | the category is listed under exactly the dates added |
| Application.App.constructor | app.js:530-531 | both in-memory maps start empty |
| Application.App.SaveData | app.js:907-919 | the final cell is the record store's save of the timestamped data |
| Application.App.SaveTempData | app.js:921-931 | the `_TEMP` cell is the record store's save of the timestamped data |
| Application.App.AppendRecord | app.js:909-914 | read, append and write back one cell; a throw leaves storage unchanged |
| Application.App.ArchiveToday | app.js:999-1038 | without confirmation nothing changes; otherwise storage becomes the archive run and the outcome reports its failure or `hasData` |
| Application.App.ArchiveKeyStep | app.js:1006-1017 | one category's step writes exactly what `ArchiveKey` computes, including a text final entry extended by `String.prototype.concat` |
| Application.App.ArchiveIslandStep | app.js:1020-1028 | the island step writes exactly what `ArchiveIsland` computes |
| Application.App.SaveIslandInteraction | app.js:1195-1213 | the draft cell gets the nested flag and the in-memory map mirrors it; a throw while writing the draft cell changes nothing, while a throw in the in-memory mirror leaves the draft cell written |
| Application.App.LoadIslandInteractions | app.js:1215-1224 | the in-memory map becomes the parse of the preferred cell; a parse error keeps the old map |
| Application.App.LoadImportantDates | app.js:1548-1554 | a non-empty cell is parsed into the in-memory map |
| Application.App.AddImportantDate | app.js:1582-1602 | an empty date or label is rejected with no change; otherwise the entry is set and the whole map written back |
| Application.App.DeleteImportantDate | app.js:1604-1612 | after confirmation only that date's key is deleted and the map written back |
| Application.App.GetDaysWithRecords | app.js:1690-1718 | returns the days index over `STORAGE_KEYS` |
| Application.App.IndexDays | app.js:1692-1716 | the loop over categories computes the days index |
| Application.App.IndexCategoryInto | app.js:1693-1715 | one category's final and draft dates are added to the index |
| Application.ListUnder | app.js:1697-1714 | the per-date loop appends the category once per date |
| Application.ListDate | app.js:1697-1713 | one date step: the updated index equals the reference AddKey over the dates handled so far plus this one, with the list created when absent and the duplicate check honoured |
| Utf8.EncodeChar | github-sync.js:259 | one code point becomes one to four bytes of the shortest UTF-8 form |
| Utf8.DecodeFirst | github-sync.js:271 | strict decoding of the first sequence: no stray continuation, overlong form, surrogate or value above U+10FFFF |
| Utf8.DecodeFirstEncodeChar | github-sync.js:259-271 | decoding the bytes of a code point gives it back and consumes exactly those bytes |
| Utf8.DecodeTwo | github-sync.js:271 | two-byte sequences decode to their code point |
| Utf8.DecodeThree | github-sync.js:271 | three-byte sequences decode to their code point |
| Utf8.DecodeFour | github-sync.js:271 | four-byte sequences decode to their code point |
| Utf8.DecodeEncode | github-sync.js:259-271 | `decodeURIComponent(escape(unescape(encodeURIComponent(s))))` gives back `s` |
| Utf8.RejectsStrayContinuation | github-sync.js:271 | a lone continuation byte is rejected |
| Utf8.RejectsOverlong | github-sync.js:271 | an overlong encoding is rejected |
| Utf8.RejectsSurrogate | github-sync.js:271 | an encoded surrogate is rejected |
| Base64.SextetValue | github-sync.js:271 | an alphabet character reads as a value below 64 |
| Base64.SextetRoundTrip | github-sync.js:259-271 | character and value conversions are inverse |
| Base64.Quad | github-sync.js:259 | three bytes encode as four alphabet characters |
| Base64.Tail | github-sync.js:259 | a final group of one or two bytes encodes as two or three characters |
| Base64.EncodeCore | github-sync.js:259 | the unpadded encoding is in the alphabet, empty iff the input is, and its length matches the input's length modulo 3 |
| Base64.Encode | github-sync.js:259 | `btoa` output is padded to a multiple of four |
| Base64.QuadValues | github-sync.js:271 | the sextets of an encoded group are the byte bits |
| Base64.DecodeQuad | github-sync.js:271 | a full group decodes to its three bytes |
| Base64.DecodeTail | github-sync.js:271 | a short final group decodes to its one or two bytes |
| Base64.DecodeEncodeCore | github-sync.js:259-271 | decoding the unpadded encoding gives back the bytes |
| Base64.NoWhitespaceUnchanged | github-sync.js:271 | text without ASCII whitespace is unchanged by `atob`'s whitespace removal |
| Base64.EncodeHasNoWhitespace | github-sync.js:259 | `btoa` output contains no whitespace |
| Base64.StripEncode | github-sync.js:271 | removing the padding of `btoa` output gives the unpadded encoding |
| Base64.DecodeEncode | github-sync.js:259-271 | `atob(btoa(b)) == b` for every byte string |
| Base64.RejectsForeignCharacter | github-sync.js:271 | a character outside the alphabet is rejected |
| Base64.RejectsDanglingCharacter | github-sync.js:271 | a length of 1 modulo 4 is rejected |
| SnapshotCodec.EncryptData | github-sync.js:255-262 | the result is `island-v1:` followed by the Base64 of the UTF-8 of the JSON text |
| SnapshotCodec.DecryptData | github-sync.js:264-277 | every failure is reported as `数据解密失败` |
| SnapshotCodec.DecryptEncrypt | github-sync.js:255-277 | decrypting what was encrypted gives back the data, for any text including non-ASCII |
| SnapshotCodec.DecryptAccepts | github-sync.js:264-277 | decryption succeeds iff the prefix is present and the rest is valid Base64, valid UTF-8 and valid JSON, and then gives the parse |
| SnapshotCodec.DecryptRejectsOtherVersion | github-sync.js:266-268 | another version prefix is rejected |
| SnapshotCodec.DecryptRejectsBadBase64 | github-sync.js:270-275 | a payload outside the Base64 alphabet is rejected |
| PageCodec.Latin1Bytes | app.js:346 | text of code points up to U+00FF maps to one byte per character |
| PageCodec.Latin1Text | app.js:411 | bytes map back to the same Latin-1 characters |
| PageCodec.Btoa | app.js:346 | `btoa` succeeds exactly for Latin-1 text |
| PageCodec.Atob | app.js:411 | `atob` decodes to one character per byte, or fails |
| PageCodec.AtobBtoa | app.js:346 | `atob(btoa(s)) == s` for Latin-1 text |
| PageCodec.EncodeAsWritten | app.js:346 | the page's upload encoding `btoa(JSON.stringify(data))` |
| PageCodec.DecodeAsWritten | app.js:411 | the page's download decoding `JSON.parse(atob(content))` |
| PageCodec.AsWrittenRoundTripOnLatin1 | app.js:346 | the page codec round-trips when the JSON text is Latin-1 |
| PageCodec.AsWrittenRejectsCjkText | app.js:346 | a record holding a Chinese character cannot be encoded |
| PageCodec.AsWrittenMisreadsUtf8 | app.js:411 | as written, `atob` reads each byte as a character, so the UTF-8 bytes of `é` come back as `Ã©` |
| PageCodec.Encode | app.js:346 | corrected encoding through UTF-8, defined for every text (second half of the second finding) |
| PageCodec.Decode | app.js:411 | corrected decoding succeeds iff the payload is Base64 of UTF-8 of JSON (second half of the second finding) |
| PageCodec.DecodeEncode | app.js:346 | the corrected page codec round-trips every document |
| Merge.Key | github-sync.js:391-395 | a record's identity is its truthy `timestamp`, else its truthy `date`, else `''` |
| Merge.Identity | github-sync.js:395 | reading the identity throws exactly on a null record |
| Merge.AllIds | github-sync.js:390-392 | the local list's identity set, or a `TypeError` exactly when it holds null |
| Merge.AppendRemote | github-sync.js:394-400 | errors from the remote loop are `TypeError` |
| Merge.AppendRemoteKept | github-sync.js:389-400 | a successful remote loop appends exactly the `Kept` records and ends with the seen set grown by every remote identity |
| Merge.AppendRemoteFacts | github-sync.js:389-400 | succeeds iff no remote record is null; the appended records are exactly `Kept`: the remote records, in order, whose identity is an object or list or a primitive neither seen nor on an earlier remote record; the seen set grows by every remote identity |
| Merge.AppendRemoteStops | github-sync.js:394-395 | a null remote record makes the loop throw |
| Merge.AppendNothingNew | github-sync.js:394-400 | remote records whose identities were all seen add nothing |
| Merge.KeptKeepsFirst | github-sync.js:394-400 | of two remote records with the same new primitive identity, only the first is appended |
| Merge.KeptKeepsOrder | github-sync.js:394-400 | two remote records with distinct new primitive identities are both appended, in their order |
| Merge.Combine | github-sync.js:389-402 | the same-date list succeeds iff neither list holds null, and it starts with the local list |
| Merge.CombineAppendsUnseen | github-sync.js:389-402 | after the local list come exactly the `Kept` remote records, in order, first occurrence of each new primitive identity only |
| Merge.CombineSelf | github-sync.js:389-402 | merging a list with itself leaves it unchanged |
| Merge.CombineDay | github-sync.js:389-402 | the two loops compute the same-date list |
| Merge.MergeDayAsWritten | github-sync.js:385-402 | the code as written: succeeds iff neither side, read as a list or `[]`, holds null; the result is a list that starts with the local list or `[]` |
| Merge.AsWrittenDayAppendsUnseen | github-sync.js:385-402 | as written, a successful same-date merge is the local list (or `[]`) followed by exactly the `Kept` remote records in order, with every remote identity seen |
| Merge.AsWrittenEmptiesNonListDay | github-sync.js:385-386 | as written, a same-date value that is a list on neither side becomes `[]` |
| Merge.AsWrittenLosesImportantDate | github-sync.js:380-402 | as written, restoring an important date over itself erases it |
| Merge.MergeDay | github-sync.js:385-402 | the corrected rule (second half of the first finding): a non-list local value is kept; a list local value becomes the same-date combination |
| Merge.MergeDate | github-sync.js:380-402 | one remote date's merged value under the given same-date rule (`AsWritten` is the code) |
| Merge.MergeDateMaps | github-sync.js:377-404 | under either rule: fails iff some same-date merge with a truthy local entry fails; the date keys are the union; local-only dates keep their value; a remote date over a missing or falsy local value takes the remote value; every other date holds the same-date rule's result |
| Merge.MergedDates | github-sync.js:379-404 | a map holding each date's value under the given rule, and the local values elsewhere, is the date-level merge |
| Merge.MergeDateMapsLoop | github-sync.js:379-404 | the date loop computes the date-level merge under the given rule |
| Merge.MergeDates | github-sync.js:376-404 | the object spread of the local value merged with the remote object: fails iff the date-level merge fails, and the per-date guarantees above hold over `Object.keys` |
| Merge.MergeDatesLoop | github-sync.js:376-404 | the loop computes the object-level merge under the given rule |
| Merge.MergeDatesSelf | github-sync.js:377-404 | merging a category with itself leaves it unchanged when its lists hold primitive identities; under the rule as written, only when every truthy date entry is such a list |
| Merge.MergeKey | github-sync.js:368-408 | an absent or falsy local value takes the remote; a primitive remote overwrites; a truthy local value with an object or list remote gets the date-level merge under the given rule |
| Merge.MergeRecords | github-sync.js:366-410 | fails iff a key merged date by date fails; the merged keys are exactly the remote keys, so local-only keys are never written; a key merged date by date holds `MergeDates`, every other key the remote value |
| Merge.MergeRecordMap | github-sync.js:367-410 | over the remote keys, under either rule: fails iff a key merged date by date fails; the keys are the remote keys; such a key holds `MergeDates` and every other key the remote value |
| Merge.MergedRecords | github-sync.js:367-410 | a map holding each key's merged value under the given rule is the key-level merge |
| Merge.KeyFailsRecords | github-sync.js:367-376 | one key whose date merge throws makes the whole merge throw |
| Merge.MergeKeyLoop | github-sync.js:368-408 | one iteration of the key loop computes that key's merged value under the given rule |
| Merge.MergeKeysLoop | github-sync.js:367-410 | the key loop computes the key-level merge under the given rule |
| Merge.MergeRecordsLoop | github-sync.js:366-410 | the merge of the remote `records` value under the given rule is the loop over its `Object.keys` |
| Merge.AsWrittenMergedDay | github-sync.js:367-404 | as written, for a key merged date by date and a date with a truthy local entry, the merged entry is a list: the local list (or `[]`) followed by exactly the `Kept` remote records of that date, in order |
| Merge.MergeRecordsSelf | github-sync.js:366-410 | restoring a snapshot of the local records over themselves gives them back, under the corrected rule for any category without top-level lists or object identities, and as written only when every truthy date entry is a list (second half of the first finding) |
| Merge.AsWrittenSelfRestoreLosesImportantDates | github-sync.js:366-410 | as written, restoring a device's own `importantDates` turns each entry into `[]`; the corrected rule gives the records back |
| Merge.MergeData | github-sync.js:361-411 | a null snapshot throws; missing or falsy `records` merges nothing; otherwise the records merge under the given rule |
| GitHubSync.Loaded | github-sync.js:38-54 | the four text fields are the cells; the flag is the text `true`; user info is kept when absent and `{}` when unparsable |
| GitHubSync.Saved | github-sync.js:56-63 | writes the truthy text fields, the user info and the flag, and no other key |
| GitHubSync.SaveThenLoad | github-sync.js:38-63 | save then load restores every truthy field, the user info and the flag |
| GitHubSync.SaveSkipsFalsy | github-sync.js:57 | a falsy token is not written, so loading gives back the old cell |
| GitHubSync.Records | github-sync.js:233-250 | a key is in the snapshot iff it contains none of `github_`, `_temp`, `_TEMP`, is not `device_id`, and its cell parses; its value is the parse |
| GitHubSync.NotIncludedWhenContains | github-sync.js:237-239 | a key containing one of the excluded parts anywhere is left out |
| GitHubSync.ConfigKeysExcluded | github-sync.js:237-240 | no configuration key or the device id goes into a snapshot |
| GitHubSync.RecordsAgree | github-sync.js:233-250 | the snapshot depends only on the included cells |
| GitHubSync.RecordsIgnoreSaved | github-sync.js:56-63 | saving the configuration does not change the snapshot |
| GitHubSync.RecordsIgnoreCleared | github-sync.js:65-71 | clearing the configuration does not change the snapshot |
| GitHubSync.RecordsIgnoreDeviceId | github-sync.js:213-240 | making a device id does not change the snapshot |
| GitHubSync.Snapshot | github-sync.js:222-230 | the snapshot's `records` member is the collected records |
| GitHubSync.WithDeviceId | github-sync.js:213-220 | afterwards a device id is stored, and no other cell changes |
| GitHubSync.DeviceIdKept | github-sync.js:213-220 | a second `getDeviceId()` changes nothing |
| GitHubSync.WriteBack | github-sync.js:414-420 | every merged key whose write succeeds holds the merged value; a failing write leaves its cell and does not stop the others |
| GitHubSync.SelfRestoreChangesNothing | github-sync.js:361-423 | merging a device's own snapshot succeeds with its records and writes nothing new, under a rule whose self-merge condition the records meet (as written: every truthy date entry a list) |
| GitHubSync.SelectGist | github-sync.js:164-175 | none iff no description contains `island`; otherwise an island gist with the latest `updated_at`, the first such one in listing order |
| GitHubSync.FindOrCreateGist | github-sync.js:159-205 | a listing error propagates; an existing island gist is used; otherwise the created gist's result |
| GitHubSync.SyncDispatch | github-sync.js:425-458 | not connected gives `success: false`; upload/auto and download report success with the time; an unknown operation gives undefined; a failed upload or download always resolves to `success: false` with the error's message and the operation |
| GitHubSync.AutoSyncWaits | github-sync.js:483-492 | no auto-sync when disconnected, disabled, within thirty minutes or after an unreadable time; always when never synced |
| GitHubSync.AutoSyncMonotone | github-sync.js:492 | once due, an auto-sync stays due as time passes |
| GitHubSync.GitHubSyncManager.IsConnected | github-sync.js:86-88 | connected iff the token is truthy |
| GitHubSync.GitHubSyncManager.constructor | github-sync.js:7-18 | the fields start empty and are then loaded from storage |
| GitHubSync.GitHubSyncManager.LoadConfig | github-sync.js:38-54 | the fields become `Loaded` of the cells |
| GitHubSync.GitHubSyncManager.SaveConfig | github-sync.js:56-63 | the cells become `Saved` of the fields |
| GitHubSync.GitHubSyncManager.ClearConfig | github-sync.js:65-84 | the six `github_*` cells are removed, the fields reset, and the manager is disconnected |
| GitHubSync.GitHubSyncManager.SetAutoSync | github-sync.js:460-462 | the flag is set and saved |
| GitHubSync.GitHubSyncManager.GetDeviceId | github-sync.js:213-220 | returns the stored device id, making one when there is none |
| GitHubSync.GitHubSyncManager.CollectRecords | github-sync.js:233-250 | the key loop collects `Records` of the cells |
| GitHubSync.GitHubSyncManager.CollectAllData | github-sync.js:222-253 | the snapshot of the records with the metadata |
| GitHubSync.GitHubSyncManager.MergeData | github-sync.js:361-423 | the merge of the local records with the snapshot under the rule as written, written back key by key; a throw leaves only the device id written |
| GitHubSync.GitHubSyncManager.WriteMerged | github-sync.js:413-420 | every merged key whose `setItem` succeeds holds the merged value; every other cell is as before |
| GitHubSync.GitHubSyncManager.DownloadData | github-sync.js:322-359 | the error messages for not connected, no gist, 404 and other statuses; for an ok GET: a missing file throws, missing content or a failed decryption is `数据解密失败`, a throwing merge (as written) is reported, and otherwise the download succeeds; on success the merge is written back and `lastSync` saved; on an error the fields are unchanged |
| GitHubSync.GitHubSyncManager.UploadData | github-sync.js:279-320 | connected with a gist id, or with one found or created, the PATCH is sent with the encrypted snapshot; the new gist id is stored; a failed lookup or PATCH reports its message; success stores `lastSync` and saves the configuration; the other fields never change |
| GitHubSync.GitHubSyncManager.FindOrCreate | github-sync.js:126-210 | as called from `uploadData`: the outcome is `FindOrCreateGist`, a found or created id becomes `gistId`, and only the creation path writes the device id |
| GitHubSync.GitHubSyncManager.PatchSnapshot | github-sync.js:288-319 | the PATCH carries the encrypted snapshot of the cells; a failed PATCH reports its status and leaves only the device id written; success saves `lastSync` |
| PageSync.PageLoaded | app.js:15-22 | the four text fields are the cells; user info changes only to a parsed cell |
| PageSync.PageSaved | app.js:24-30 | only the five configuration keys are written |
| PageSync.PageSaveThenLoad | app.js:15-30 | save then load restores every truthy field and does not throw |
| PageSync.SumOverRemove | app.js:97-99 | the length sum splits off one key |
| PageSync.SumLengthsRemove | app.js:97-99 | the length sum over a map splits off one key |
| PageSync.SumOverSame | app.js:97-99 | equal values give equal sums |
| PageSync.SumListLengths | app.js:97-99 | the value loop sums the list lengths |
| PageSync.RecordCountChange | app.js:84-107 | changing one cell changes the count only through that cell, and only if it is counted |
| PageSync.SaveRecordCountsCell | app.js:84-107 | saving a record adds one to its cell's count |
| PageSync.SaveRecordCounts | app.js:84-107 | saving a record adds one to the total if its category is counted, else leaves it |
| PageSync.PageRecords | app.js:330-341 | a key is uploaded iff it contains neither `github_` nor `_temp` and its cell parses |
| PageSync.PageBacksUpDrafts | app.js:331 | `_TEMP` draft cells are uploaded by the page, unlike the sync manager's snapshot |
| PageSync.Overwrite | app.js:416-418 | every downloaded key overwrites its cell wholesale; other cells are unchanged |
| PageSync.PageSyncManager.IsConnected | app.js:45-47 | connected iff the token is truthy |
| PageSync.PageSyncManager.constructor | app.js:2-8 | all fields start empty |
| PageSync.PageSyncManager.LoadConfig | app.js:15-22 | the fields become `PageLoaded` of the cells; it throws exactly on unparsable user info |
| PageSync.PageSyncManager.SaveConfig | app.js:24-30 | the cells become `PageSaved` of the fields |
| PageSync.PageSyncManager.ClearConfig | app.js:32-43 | the five cells are removed, the fields reset, and the page is disconnected |
| PageSync.PageSyncManager.CalculateRecordCount | app.js:84-107 | the count over the twelve counted categories |
| PageSync.PageSyncManager.CountRecords | app.js:92-104 | the category loop sums the list lengths of each parsable cell |
| PageSync.PageSyncManager.UploadData | app.js:323-383 | the PATCH carries `btoa` of the filtered records; text above U+00FF makes `btoa` throw and nothing is sent or written; a failed PATCH changes nothing; success saves `lastSync` |
| PageSync.PageSyncManager.DownloadData | app.js:385-439 | a decline or a failed GET writes nothing; the payload is decoded by `atob` and parsed before any write; a decode failure is `数据解密失败`; a decodable non-null payload is restored: every downloaded key is overwritten and `lastSync` saved |
| ServiceWorker.RouteOf | service-worker.js:168-216 | not intercepted iff non-GET or `chrome-extension:`; same-origin is cache-first iff a static suffix other than `/` and `/index.html`; cross-origin is cache-first iff a CDN href |
| ServiceWorker.EntryPageNetworkFirst | service-worker.js:185-188 | `/` and `/index.html` are network-first |
| ServiceWorker.ScriptsCacheFirst | service-worker.js:191-194 | a same-origin `.js` path is cache-first |
| ServiceWorker.GitHubApiNetworkFirst | service-worker.js:209-212 | GitHub API requests are network-first |
| ServiceWorker.NetworkFirstStrategy | service-worker.js:65-96 | a network response is returned, and cached iff ok; on failure: the cached match, else `./` for navigations, else a 503 |
| ServiceWorker.OfflineMissIs503 | service-worker.js:91-94 | an uncached offline sub-resource gets status 503 |
| ServiceWorker.KeptCaches | service-worker.js:44-55 | a cache survives activation iff it is the static or the dynamic cache |
| ServiceWorker.KeptCachesIdempotent | service-worker.js:44-55 | a second activation deletes nothing more |
| ServiceWorker.CacheStorage.Activate | service-worker.js:41-62 | the cache names become the whitelisted ones |
| ServiceWorker.Surviving | service-worker.js:346-363 | an entry is kept iff it has no readable `date` header or it is not older than a week; kept entries are unchanged |
| ServiceWorker.SurvivingMonotone | service-worker.js:349-358 | a later clean-up keeps no more, and a repeated one deletes nothing more |
| ServiceWorker.UndatedKept | service-worker.js:353-355 | entries without a readable date header are never deleted |
| ServiceWorker.CacheStorage.CleanupOldCache | service-worker.js:346-363 | the dynamic cache exists afterwards (`caches.open` creates it) and holds only its surviving entries |

## Left out

- DOM work (forms, panels, notifications, progress bars, calendar painting and overview text) is not modelled. It is presentation.
- Application.App.LoadIslandInteractions and Application.App.LoadImportantDates: a throw raised by the painting code after the load (for instance reading a property of a cell that parsed to `null`, app.js:1226) is not modelled, because that code is DOM work; the load itself succeeds as modelled.
- Network calls are not modelled. Their answers are parameters: gist listing and creation, PATCH status, GET status and file content, and `confirm()` answers. `testConnection` and `validateAndRepair` only talk to the network and are left out.
- Asynchronous ordering is not modelled. Each operation runs to completion.
- Timers and event listeners are not modelled: `setInterval`/`setTimeout`, the `visibilitychange` and `storage` listeners, the `queueAutoSync` debounce, and the service worker's update checks.
- GitHubSync.GitHubSyncManager.SetAutoSync: models only the flag and the save; the interval timer and its listener are scheduling.
- The clock, `Math.random`, `toISOString` and `toLocaleString` are not modelled. Today's key, `now` in milliseconds, the ISO time and the random suffix are parameters.
- Floating point (finance sums, `toFixed`, `formatBytes`) is not modelled. Numbers inside records are integers (`Num(int)`), so a fractional `parseFloat` amount cannot be stored; merge and archive treat record values as opaque, so nothing proved depends on it.
- RecordStore.PositiveLength: JavaScript's `length > 0` converts a text or list `length` value to a number; the model reads those as not positive. The app never stores such an entry.
- JSON text is not parsed or printed character by character. `JSON.stringify`/`JSON.parse` are parameters where text is encoded. Stored documents are values, and a cell that does not parse is `Plain`.
- Unusual property names are not modelled: keys that look like array indices on objects, and `length` on arrays.
- Lone surrogates in strings cannot be represented, so the `URIError` that `encodeURIComponent` raises for them is not modelled.
- Storage quota failures are modelled only in the merge write-back, as the `failing` parameter, because that is the only place the source catches them.
- `PageSync.PageSyncManager.DownloadData`: in the source, a quota failure partway through the overwrite loop leaves earlier keys written before `数据解密失败` is thrown. The model writes all keys, so it does not capture this.
- `GitHubSync.SelectGist`: an `updated_at` that is not a valid date (a `NaN` comparison) is not modelled. Times are integers.
- The page's own `findOrCreateGist` (app.js:141-198) is not modelled. It takes the first listed gist whose description contains the given description, and it is called only while connecting (app.js:250), which is network work. The page's `isAutoSync` field is never read and is left out.
- ServiceWorker.CacheStorage.CleanupOldCache: the model does not tie the dynamic entries to whether the dynamic cache exists. When the cache is missing, the source opens an empty one, and the model cleans whatever the entries map holds.
- The service worker's install handler, `cacheFirstStrategy` internals, push, notification and periodic-sync handlers, and storage estimates are not modelled. They are browser I/O.
- `ServiceWorker.CacheStorage.Activate`: the deletions run concurrently (`Promise.all`) in the source and as a loop here. The resulting set of names is the same.
- `ServiceWorker.NetworkFirstStrategy` does not model a failure of `caches.open` or `cache.put`, which the source does not await.
- Archiving happens only when `archiveToday` is called; no other code path archives. `updateOverviewFromTemp` lacks its closing brace before `archiveToday` (app.js:998-999); `archiveToday` is modelled as the top-level function it is evidently meant to be.
- Archived drafts are appended into the category keys themselves. A non-object remote value overwrites local data in `mergeData`.
- The members that implement corrected rather than as-written behaviour are `Merge.MergeDay` (and every merge member applied with `Merge.Corrected`), `Merge.MergeRecordsSelf` under `Corrected`, and `PageCodec.Encode`, `PageCodec.Decode` and `PageCodec.DecodeEncode`. No manager method uses them.

## Findings

| source | as written | input that shows it | evidently intended | confidence | as-written member | corrected member |
|---|---|---|---|---|---|---|
| github-sync.js:385-402 | when both sides have a truthy value for the same date, a value that is not a list is replaced by `[]` before concatenation | local and snapshot `records` both `{"importantDates": {"2024-05-01": {type: "birthday", label: "Mum"}}}`: the restore writes `{"2024-05-01": []}` | same-date non-list values (important dates, island interactions) are kept, so restoring a device's own snapshot changes nothing | not executed | Merge.AsWrittenSelfRestoreLosesImportantDates | Merge.MergeRecordsSelf |
| app.js:346 | `btoa(JSON.stringify(allData))` throws for any character above U+00FF | a record whose JSON text is `{"note":"好"}` | the page's upload encodes through UTF-8, as the sync manager does, and its download decodes UTF-8 (as written, `atob` would read `é` back as `Ã©`, `PageCodec.AsWrittenMisreadsUtf8`), so every record round-trips | not executed | PageCodec.AsWrittenRejectsCjkText | PageCodec.DecodeEncode |

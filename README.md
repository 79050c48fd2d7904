# DAP-Sync synchronisation core in Dafny

DAP-Sync copies a MusicBee music library to a portable player (a DAP) over
the Android debug bridge. This project models the core of that program and
proves properties of the model:

- **Track selection.** The sync criteria pick tracks from the library; the
  results are joined in order and reduced to the first track of each path.
- **Change detection.** Each file has a fingerprint built from its size and
  its whole-second modification time. It is compared with the sync-history
  table to decide whether the file must be pushed again.
- **Transfer.** A push is retried up to three times, with a pause between
  attempts, and the run's counters and the history table are updated.
- **Orchestration.** A run connects, selects, makes the folders, transfers
  each track, writes the playlists and disconnects.
- **Path translation and playlists.** A library path becomes a path below the
  player's music folder. The playlist handler writes M3U text, turns playlist
  names into file names and groups tracks by folder.
- **The MusicBee reader.** It rewrites Windows paths, parses `<Item>` elements
  and M3U files, looks up playlist entries with a basename fallback, and
  implements the AND-of-filters criteria.
- **Tag-handler guards.** The early returns of the tag and artwork operations,
  and the supported-format test.
- **The entry point.** The configuration key check and the exit status of
  `main`.

The classes that change state in place are Dafny classes:

- The engine, `Engine.DapSync`, has fields for the counters, the history
  table and the player.
- The reader, `MusicBee.MusicBeeReader`, has fields for the catalog and the
  playlist table.

Each method with a loop is proved equal to a step function over the old state.
The properties are proved as lemmas about those step functions. Everything
else is a value: the playlist handler, which never changes after
construction, the history table (a map), and the player.

Everything the program reaches outside itself is an oracle given as a
parameter:

- **The player** is a `Device`. It records whether it is reachable, the files
  on it, the folders that cannot be made, a script of results for the coming
  pushes, and a trace of every connect, folder creation, push, pause and
  disconnect, in order (existence checks are not recorded).
- **The host file system** is a `Host`. It holds the files with their size and
  mtime (directories included, as `os.stat` reports them), the directory
  listings, the lines of text files and the paths `shutil.copy2` cannot copy.
- **The XML document** is a `LibraryDocument`. The float and date parsers are
  functions returning `Option`.
- **The tag library** is a map from path to tags.
- **The clock** is an integer `now` (and `finish`) per run.
- **Database failures** are a run-wide flag `storeOk`. When it is false,
  every read finds nothing and every write is dropped, as the engine swallows
  those errors.

Python dictionaries that the program iterates in insertion order are
`OrderedMaps.Entries`, a sequence of pairs with distinct keys. Assigning to an
existing key keeps its position. Examples are the catalog, the playlist table
and the folder structure.

### Path assumptions

`os.path.normpath`, `relpath`, `join`, `basename`, `dirname` and `splitext`
are modelled on strings, following `posixpath`. The lemmas about whole paths
are stated for absolute paths built from clean components
(`Paths.AbsPathOf(cs)` with `Paths.Clean(cs)`). The catalog is keyed by
normalised path (src/musicbee_reader.py:67-68). De-duplication and the
playlist filter compare the raw `file_path` (src/dap_sync.py:399, 422). For
library paths that are already normal, as the lemmas assume, the two agree.

### Behaviours reproduced as the code has them

- **Character-prefix root test.** The "below the library root" test compares
  characters, not components. A file in `/lib2` under the root `/lib` takes
  the relative branch and comes out as `../lib2/...`
  (`Playlists.PlaylistHandler.CharacterPrefixSibling`).
- **Unused name mapping.** `generate_playlist` looks up the playlist-name
  mapping but never uses the mapped name. Neither the text nor the path of a
  playlist depends on it.
- **Failed rows still skip.** The stored size and status are never read, so a
  row whose push failed still causes a skip when the fingerprint matches and
  a file is on the player.
- **Fingerprint collisions.** The fingerprint writes size and mtime with no
  separator between them, so 12 bytes at second 345 and 123 bytes at second
  45 share a fingerprint (`Metadata.UnseparatedFieldsCollide`).
- **Truncated names can end in a dot.** `_sanitize_filename` truncates after
  stripping, so a 256-character name can end in a dot
  (`Playlists.TruncationCanEndInDot`).
- **A long playlist name ends the playlist loop.** The whole loop of
  `_sync_playlists` sits in one `try`. A playlist whose sanitized name with
  `.m3u` takes more than 255 bytes of UTF-8 gets a temporary file name the
  host cannot create, `open` raises, and the playlists after it are not
  written (`PlaylistSync.PlaylistsRunStops`). The playlist folder itself
  cannot list such a name when it shares the host's 255-byte limit, since
  sanitizing never lengthens a name; it can when the folder lies on a file
  system that counts its limit otherwise, such as an NTFS folder under
  `/mnt` (255 UTF-16 units), where a name of 130 Greek letters fits but
  takes 264 bytes here. `PlaylistSync.LongNameRaises` shows the shortest
  such case in ASCII: a 255-letter name survives sanitizing whole and its
  259-byte file name is refused.
- **A directory counts as a failed track.** `os.path.exists` holds for a
  directory, so it gets a fingerprint; the copy to the staging file raises
  and the track counts as failed, with no history row
  (`TransferFacts.DirectoryCountsFailed`).
- **Validation does not guarantee a run.** A section written as a string or a
  list can pass the key check. The configuration summary that follows then
  raises, and the run exits with 1
  (`EntryPoint.TextSectionPasses`, `EntryPoint.ExitCode`).

## Model

| member | source | states |
|---|---|---|
| Engine.SettingsOf | src/dap_sync.py:60-67 | full mode exactly when `sync.mode` is `full`; music folder `dap.music_path` or `/sdcard/Music`; the handler's playlist folder is `<music>/Playlists` and its root is `library_path` |
| Engine.DapSync.constructor | src/dap_sync.py:24-84 | components built from the configuration with the defaults for missing keys (criteria `[]`, mode `incremental`), an empty reader and zeroed counters with no start or end time |
| Engine.DapSync.UpdateSyncStatus | src/dap_sync.py:178-203 | the history table becomes the upsert of the row; counters and player unchanged |
| Engine.DapSync.SyncFile | src/dap_sync.py:263-348 | result and new state equal `SyncFileEffect` for the landing path `_get_dap_path(file)` |
| Engine.DapSync.SyncFileTo | src/dap_sync.py:274-339 | the guards, the skip, the copy to the staging file that raises for a directory or an uncopyable path (one failed track, no row, player untouched), and the retry loop (`success` flag, pause only before another attempt), proved equal to `SyncFileEffect` |
| Engine.DapSync.GetTracksToSync | src/dap_sync.py:350-405 | the reader's catalog and playlist table are those of `load_library`/`load_playlists` (a playlist failure does not stop selection); the result is nothing when the library does not load, otherwise the de-duplicated concatenation of the criteria's tracks |
| Engine.DapSync.GatherTracks | src/dap_sync.py:366-392 | the concatenation, in criterion order, of the tracks every criterion contributes, read from the loaded reader |
| Engine.DapSync.CriterionTracks | src/dap_sync.py:368-393 | one criterion adds the whole library, its playlists, its smart playlists and its custom filter, in that order; a criterion that is not a dictionary adds nothing |
| Engine.DapSync.PlaylistsTracks | src/dap_sync.py:376-380 | the loop over a criterion's playlist names concatenates `get_playlist_tracks` of each name in order |
| Engine.DapSync.SmartPlaylistsTracks | src/dap_sync.py:383-387 | the loop over smart playlists concatenates each one's matching tracks in order |
| Engine.DapSync.Deduplicate | src/dap_sync.py:395-402 | the `seen_paths` loop computes `Dedup` of its input |
| Engine.DapSync.SyncPlaylists | src/dap_sync.py:407-472 | state after the loop equals `PlaylistsEffect` over the reader's playlists in table order: the loop stops at the first playlist whose temporary file cannot be created, and the exception is swallowed |
| Engine.DapSync.SyncPlaylist | src/dap_sync.py:420-460 | one playlist: nothing when no entry is synced or none is found; an exception, with nothing changed, when the temporary file name (the basename of the player path) is over 255 bytes of UTF-8; otherwise one push of the generated text to the sanitized path |
| Engine.DapSync.PushText | src/dap_sync.py:455-460 | one push; success counts in `playlists_synced`, failure in `playlists_failed` |
| Engine.DapSync.FilterEntries | src/dap_sync.py:422-426 | the comprehension keeps the entries among the synced paths, in order, duplicates included |
| Engine.DapSync.LookupTracks | src/dap_sync.py:432-436 | the `get_track` loop keeps the entries found in the catalog, in order |
| Engine.DapSync.Sync | src/dap_sync.py:474-545 | start time set; the result is whether the player was reachable; an unreachable player ends the run with only the connect recorded; otherwise reader state as loaded and engine state equal to `RunAfterConnect` of the selection |
| Engine.DapSync.GetStats | src/dap_sync.py:547-554 | the counters as they stand; the copy the source returns is a value here |
| Engine.DapSync.SyncTracks | src/dap_sync.py:505-521 | the track loop equals `TracksEffect` over the tracks in order |
| Engine.DapSync.SyncTrack | src/dap_sync.py:507-521 | a track without a path is passed over; otherwise its folder is made when the landing path has one, then the file is synced with three retries |
| EngineFacts.RunAfterConnectSpec | src/dap_sync.py:493-541 | an empty selection changes nothing more (no folder, no disconnect); otherwise the first two calls make the music and `Playlists` folders, the last is the disconnect, the end time is set, every track with a fingerprint counts once, and the playlist counters grow by the number of playlists `PlaylistSync.Outcome` says are pushed |
| EngineFacts.SelectedTracksSpec | src/dap_sync.py:360-402 | nothing when the library does not load; every selected track is a catalog track with a non-empty path, no two share a path, and the selected paths are exactly the gathered non-empty paths |
| EngineFacts.PlaylistWrittenIff | src/dap_sync.py:420-444 | for a well-keyed catalog, a library playlist has tracks to write exactly when one of its entries is the path of a selected track |
| Transfer.GetFileHash | src/dap_sync.py:122-140 | the fingerprint of the handler, `None` for a missing file |
| TransferFacts.ShouldSyncSpec | src/dap_sync.py:218-239 | full mode always pushes; incremental mode pushes exactly when there is no readable row, the stored fingerprint differs, or the player lacks the landing path |
| TransferFacts.FailedRowStillSkips | src/dap_sync.py:224-239 | a `failed` row with a matching fingerprint and a file on the player is skipped: status and size are never read |
| TransferFacts.RetryPushSpec | src/dap_sync.py:311-321 | between one and `retries` attempts; success exactly when the last attempt's scripted result succeeds, all earlier ones failed; exhaustion means `retries` attempts; the trace is the attempts with a pause after each failure but the last; the file is on the player only after a success |
| TransferFacts.RetryPushSucceedsIff | src/dap_sync.py:311-317 | the retry loop succeeds exactly when some scripted result among the next `retries` succeeds |
| TransferFacts.AttemptEventsShape | src/dap_sync.py:312-321 | `n` attempts record `2n - 1` events: pushes at even positions, pauses at odd ones, only the last push may succeed |
| TransferFacts.SyncFileGuards | src/dap_sync.py:274-284 | a file without a fingerprint (a missing file) fails and changes neither counters, history nor player |
| TransferFacts.SyncFileCopyFails | src/dap_sync.py:297-339 | a file to push that cannot be copied to the staging file counts one failed track, writes no row and leaves the player alone |
| TransferFacts.DirectoryCountsFailed | src/dap_sync.py:274-339 | on a coherent host a path has a fingerprint exactly when it exists, and a directory to push counts one failed track |
| TransferFacts.SyncFileSkip | src/dap_sync.py:286-290 | an unchanged file succeeds, counts as skipped and writes no row |
| TransferFacts.SyncFilePush | src/dap_sync.py:310-334 | a file to push gets the retry loop's result; success adds one synced track and its size in bytes, failure one failed track; the row is written with status `synced` or `failed` |
| TransferFacts.SyncFileCounters | src/dap_sync.py:274-334 | exactly one track counter grows by one for a file with a fingerprint, none otherwise; playlist counters and times unchanged; bytes grow only for a synced file |
| TransferFacts.SyncFileMonotone | src/dap_sync.py:297-334 | files already on the player stay there, and rows of other paths are kept |
| TransferFacts.SecondTransferSkips | src/dap_sync.py:223-325 | in incremental mode with a usable history, a file that was synced or skipped is skipped by the next transfer of the same unchanged file |
| TransferFacts.SkipSurvivesSyncFile | src/dap_sync.py:223-239 | once a file would be skipped, transferring another file, or the same unchanged file, keeps it skipped |
| TransferFacts.SkipSurvivesTrackStep | src/dap_sync.py:507-521 | one turn of the track loop keeps a skipped file skipped |
| TransferFacts.SkipSurvivesTracks | src/dap_sync.py:507-521 | the whole track loop keeps a skipped file skipped, so a second run over an unchanged library pushes nothing |
| TransferFacts.TracksEffectCounters | src/dap_sync.py:507-521 | the track loop counts every track with a fingerprint exactly once, leaves playlist counters and times alone, and only grows the player's files |
| TransferFacts.TracksEffectConcat | src/dap_sync.py:507-521 | the loop over `a + b` is the loop over `a` followed by the loop over `b` |
| DapPathFacts.DapPathBelowRoot | src/dap_sync.py:241-261 | a file below the library root lands at its components below the root, inside the music folder |
| DapPathFacts.DapPathSlashes | src/dap_sync.py:259 | no landing path contains a backslash |
| Transfer.ShouldSync | src/dap_sync.py:205-239 | no contract: the decision; its properties are `TransferFacts.ShouldSyncSpec` and `TransferFacts.FailedRowStillSkips` |
| Transfer.DapPath | src/dap_sync.py:241-261 | no contract: the landing path; its properties are `DapPathFacts.DapPathBelowRoot` and `DapPathFacts.DapPathSlashes` |
| Transfer.RetryPush | src/dap_sync.py:311-321 | no contract: the retry loop; its properties are `TransferFacts.RetryPushSpec`, `RetryPushSucceedsIff` and `AttemptEventsShape` |
| Transfer.SyncFileEffect | src/dap_sync.py:263-339 | no contract: one transfer; its properties are the `TransferFacts.SyncFile*` lemmas |
| Transfer.TracksEffect | src/dap_sync.py:505-521 | no contract: the track loop; its properties are `TransferFacts.TracksEffectCounters`, `TracksEffectConcat` and `SkipSurvivesTracks` |
| SyncStore.Lookup | src/dap_sync.py:142-176 | the row of the path when the table can be read and has one, otherwise nothing |
| SyncStore.Upsert | src/dap_sync.py:193-197 | with a usable table the path holds exactly the new row, the key set grows by the path and other rows are unchanged; otherwise nothing changes |
| SyncStore.UpsertThenLookup | src/dap_sync.py:142-203 | reading after writing gives the new row for that path and the old answer for every other path |
| SyncStore.UpsertIdempotent | src/dap_sync.py:193-197 | writing the same row twice equals writing it once |
| SyncStore.UpsertLastWins | src/dap_sync.py:193-197 | the later of two writes to one path wins |
| PlaylistSync.PlaylistsRunStep | src/dap_sync.py:416-420 | one more playlist of the table is one more `PlaylistStep` while nothing has raised, and changes nothing after an exception |
| PlaylistSync.PlaylistsRunStops | src/dap_sync.py:416-472 | once an exception ends the loop, the remaining playlists change nothing: the outcome of the whole table is the outcome at that point |
| PlaylistSync.FilterPathsCount | src/dap_sync.py:422-426 | filtering keeps each synced path as often as it occurs among the entries and drops every other path |
| PlaylistSync.FilterPathsConcat | src/dap_sync.py:422-426 | filtering keeps order: the entries of `a + b` filter to those of `a`, then those of `b` |
| PlaylistSync.GetOwnTrack | src/musicbee_reader.py:255-266 | in a well-keyed catalog a track is found under its own normalised path |
| PlaylistSync.LookupAllSelected | src/dap_sync.py:432-436 | paths of selected tracks are all found, one track per path, each a selected track with exactly that path |
| PlaylistSync.PlaylistDictsExact | src/dap_sync.py:420-436 | the tracks written for a playlist are, in entry order, one selected track for each synced entry, with that entry's path |
| PlaylistSync.FilterEmptyIff | src/dap_sync.py:423-429 | nothing remains of a playlist exactly when none of its entries is a synced path |
| PlaylistSync.PlaylistStepCounters | src/dap_sync.py:428-460 | a playlist turn raises exactly when it has tracks to write and its file name does not fit; it pushes at most once, exactly when it has tracks to write and the name fits, and counts that push in exactly one playlist counter; track counters, history and times unchanged |
| PlaylistSync.PlaylistsEffectCounters | src/dap_sync.py:416-472 | the playlist loop raises exactly when the reference count `Outcome` says it does, makes as many pushes as `Outcome` counts and counts each exactly once; track counters, history and times unchanged |
| PlaylistSync.HasTracksIffShared | src/dap_sync.py:423-439 | for a well-keyed catalog a playlist has tracks to write exactly when it shares an entry with the synced paths |
| PlaylistSync.OutcomeAtMostPushed | src/dap_sync.py:416-472 | the loop pushes at most the playlists with tracks to write, and every one of them when nothing raised |
| PlaylistSync.Utf8LengthBounds | src/dap_sync.py:447-450 | a name takes between one and four bytes per character, one per ASCII character |
| PlaylistSync.ShortAsciiNameFits | src/dap_sync.py:447-450 | the temporary file of a playlist with an ASCII sanitized name of at most 251 characters can be created |
| PlaylistSync.LongNameRaises | src/dap_sync.py:447-450 | a 255-letter name survives sanitizing whole, so its 259-byte file name cannot be created |
| PlaylistSync.PlaylistFileNameOfPath | src/dap_sync.py:446-447 | the temporary file is named after the basename of the player path, which is the sanitized name with `.m3u` |
| PlaylistSync.NoSlashInFileName | src/playlist_handler.py:139-141 | a playlist's file name holds no `/`, since the sanitizer replaces it |
| PlaylistSync.PlaylistsEffect | src/dap_sync.py:407-472 | no contract: the loop's state; its properties are `PlaylistsRunStep`, `PlaylistsRunStops` and `PlaylistsEffectCounters` |
| Selection.DedupStep | src/dap_sync.py:398-402 | one loop turn: a track with a new non-empty path is appended and its path marked seen; any other track changes nothing |
| Selection.DedupFromInput | src/dap_sync.py:398-402 | every kept track is an input track with a non-empty path |
| Selection.DedupDistinct | src/dap_sync.py:398-402 | no two kept tracks share a path |
| Selection.DedupKeepsFirst | src/dap_sync.py:398-402 | the first track of every non-empty path is kept |
| Selection.DedupCovers | src/dap_sync.py:398-402 | the kept paths are exactly the input's non-empty paths |
| Selection.DedupPrefix | src/dap_sync.py:398-402 | what is kept from a prefix of the input is a prefix of what is kept: order follows the input |
| Selection.GatheredFromCatalog | src/dap_sync.py:368-393 | every gathered track is a catalog track |
| Selection.RuleFromCatalog | src/dap_sync.py:369-393 | every track one criterion adds is a catalog track |
| Selection.NamedFromCatalog | src/dap_sync.py:376-380 | every track of the named playlists is a catalog track |
| Selection.SmartFromCatalog | src/dap_sync.py:383-387 | every track of the smart playlists is a catalog track |
| Selection.FlattenConcat | src/dap_sync.py:368 | the tracks of `a + b` are those of `a` followed by those of `b` |
| Selection.GatheredConcat | src/dap_sync.py:368-393 | criteria are taken in order: gathering `a + b` is gathering `a`, then `b` |
| Selection.Dedup | src/dap_sync.py:395-402 | no contract: the de-duplicated selection; its properties are the `Selection.Dedup*` lemmas above |
| Playlists.PlaylistHandler.RelativeDapPathBelowRoot | src/playlist_handler.py:78-100 | a file below the library root maps to its components below the root, `/`-joined, and joining the root with the result gives the file back |
| Playlists.PlaylistHandler.BelowRootIsRelative | src/playlist_handler.py:78-95 | a file below the library root takes the `relpath` branch |
| Playlists.PlaylistHandler.CharacterPrefixSibling | src/playlist_handler.py:82-95 | below root `/.../x`, a file in sibling `/.../xy` passes the string-prefix test and maps to `../xy/...` |
| Playlists.PlaylistHandler.RelativeDapPath | src/playlist_handler.py:66-104 | no contract: the translated path; its properties are `RelativeDapPathBelowRoot`, `BelowRootIsRelative`, `CharacterPrefixSibling` and `OutsideRootKeepsLastThree` |
| Playlists.PlaylistHandler.OutsideRootKeepsLastThree | src/playlist_handler.py:82-92 | a file whose path does not start with the root maps to its last three components (fewer for a shallower path), never to nothing |
| Playlists.ArtistAlbumPathOfAbs | src/playlist_handler.py:85-92 | the `artist/album/file` fallback keeps the last three components of a clean absolute path, with empty names dropped |
| Playlists.ArtistAlbumOfNames | src/playlist_handler.py:85-91 | the fallback joins grandparent name, parent name and basename |
| Playlists.ArtistAlbumDeep | src/playlist_handler.py:85-92 | at depth three or more the fallback is `artist/album/file` |
| Playlists.ArtistAlbumShallow | src/playlist_handler.py:85-92 | for `/a/b` the empty grandparent name is dropped and the fallback is `a/b` |
| Playlists.ArtistAlbumTop | src/playlist_handler.py:85-92 | for `/a` the fallback is `a` |
| Playlists.PlaylistHandler.PlaylistLinesShape | src/playlist_handler.py:42-62 | the playlist is `#EXTM3U` followed by two lines per emitted track in order, its `#EXTINF:<secs>,<artist> - <title>` line and its translated path: `1 + 2·emitted` lines |
| Playlists.PlaylistHandler.PlaylistLinesStep | src/playlist_handler.py:44-62 | one more track appends exactly its lines |
| Playlists.PlaylistHandler.PlaylistContentEnds | src/playlist_handler.py:42-64 | the text starts with `#EXTM3U` and ends with a newline |
| Playlists.PlaylistHandler.PlaylistContent | src/playlist_handler.py:38-64 | no contract: the M3U text; its properties are `PlaylistLinesShape`, `PlaylistLinesStep` and `PlaylistContentEnds` |
| Playlists.PlaylistHandler.GeneratePlaylist | src/playlist_handler.py:24-64 | the loop builds `PlaylistContent(tracks)`, whatever the name and the mapping |
| Playlists.PlaylistHandler.SanitizeFilename | src/playlist_handler.py:126-148 | the replacement loop, strip and cut compute `Sanitized(name)` |
| Playlists.SanitizedProperties | src/playlist_handler.py:137-148 | a sanitized name holds none of `<>:"/\|?*`, does not start with a space or a dot, and is at most 255 characters |
| Playlists.Sanitized | src/playlist_handler.py:126-148 | no contract: the file-name form of a playlist name; its properties are `SanitizedProperties`, `TruncationCanEndInDot` and `PlaylistHandler.SanitizeFilename` |
| Playlists.ReplaceInvalid | src/playlist_handler.py:137-139 | same length; each invalid character becomes `_`, every other character is kept |
| Playlists.ReplacedUpTo | src/playlist_handler.py:138-139 | after `k` turns of the loop over the invalid characters, exactly the occurrences of the first `k` of them are replaced |
| Playlists.ReplaceInvalidValid | src/playlist_handler.py:137-139 | replacement leaves no invalid character |
| Playlists.StripKeepsValid | src/playlist_handler.py:142 | stripping keeps a name free of invalid characters |
| Playlists.TruncationCanEndInDot | src/playlist_handler.py:142-146 | truncation after stripping: 254 letters, `.x` sanitize to 254 letters and a trailing dot |
| Playlists.ReplaceInvalidNoOp | src/playlist_handler.py:137-139 | a name without invalid characters is not changed by the replacement |
| Playlists.PlaylistHandler.SavePlaylist | src/playlist_handler.py:106-124 | the path is `join(dir, sanitize(name) + '.m3u')`; the content is not used |
| Playlists.PlaylistHandler.GeneratePlaylistFile | src/playlist_handler.py:214-232 | text `PlaylistContent(tracks)` and path in `<music>/Playlists` from the original name: the mapping affects neither |
| Playlists.PlaylistHandler.GetTracksForPlaylist | src/playlist_handler.py:150-177 | the reader's tracks for the playlist restricted to the paths of `all_tracks`, in order, nothing for an unknown playlist |
| Playlists.Restrict | src/playlist_handler.py:174-175 | never longer than its input |
| Playlists.RestrictMembers | src/playlist_handler.py:174-175 | a track is kept exactly when it is among the input and its path is among the allowed paths |
| Playlists.PlaylistHandler.StructureBuckets | src/playlist_handler.py:189-212 | bucket keys are distinct; the bucket of `d` holds exactly the paths of the emitted tracks whose folder is `d` (`.` for none), in input order, and no empty bucket exists |
| Playlists.PlaylistHandler.CreatePlaylistStructure | src/playlist_handler.py:179-212 | the loop builds `StructureOf(tracks)` |
| MusicBee.WindowsToPosixResult | src/musicbee_reader.py:97-106 | the rewrite leaves no backslash and does not touch a path without one |
| MusicBee.DriveLetterRewrite | src/musicbee_reader.py:97-106 | `X:\dir\file` becomes `/mnt/x/dir/file` |
| MusicBee.DriveReplaced | src/musicbee_reader.py:99 | replacing backslashes in `X:\rest` gives `X:/` and the replaced rest |
| MusicBee.DriveRewritten | src/musicbee_reader.py:101-106 | the split at the first colon lower-cases the drive letter and keeps the rest |
| MusicBee.ParseCount | src/musicbee_reader.py:123-124 | an absent or empty count reads as 0 |
| MusicBee.ParseCountOfString | src/musicbee_reader.py:123-124 | a count written as a decimal integer reads back as that integer |
| MusicBee.WindowsToPosixNonEmpty | src/musicbee_reader.py:97-106 | the rewrite of a non-empty path is non-empty |
| MusicBee.WindowsToPosix | src/musicbee_reader.py:97-106 | no contract: the rewritten path; its properties are `WindowsToPosixResult` and `WindowsToPosixNonEmpty` |
| MusicBee.ItemPathShape | src/musicbee_reader.py:96-112 | an item's path is non-empty, absolute below an absolute root, and kept as-is when already a POSIX absolute path |
| MusicBee.ParseTrackItem | src/musicbee_reader.py:78-153 | a track exactly when `FilePath` is non-empty and both counts and the duration parse; its path is rewritten and made absolute, its counts parsed, its text fields copied with `''` defaults and its date added parsed |
| MusicBee.CatalogAfterSnoc | src/musicbee_reader.py:60-69 | one more item of the `load_library` loop is one more `AddItem` |
| MusicBee.AddItemWellKeyed | src/musicbee_reader.py:61-68 | adding an item keeps every key the normalised path of its track |
| MusicBee.CatalogAfterProperties | src/musicbee_reader.py:54-69 | loading keeps the catalog well keyed, and the track under a key is the last item with that normalised path, or what was there before |
| MusicBee.CatalogAfter | src/musicbee_reader.py:54-69 | no contract: the catalog after the item loop; its properties are `CatalogAfterSnoc` and `CatalogAfterProperties` |
| MusicBee.AddItemGet | src/musicbee_reader.py:61-68 | one item replaces the entry under its own key and leaves every other key alone |
| MusicBee.EntrySource | src/musicbee_reader.py:204-239 | a skipped line (blank, `#EXTM3U`, `#EXTINF`, `http(s)://`) names nothing; any other result exists on the host |
| MusicBee.PlaylistDirFirst | src/musicbee_reader.py:216-220 | a relative line naming a file next to the playlist resolves there, before the library is tried |
| MusicBee.Collect | src/musicbee_reader.py:204-239 | the values collected by a loop are never more than its input |
| MusicBee.CollectSpec | src/musicbee_reader.py:204-293 | every collected value comes from some input element; nothing is collected when none gives a value |
| MusicBee.CollectSnoc | src/musicbee_reader.py:204-293 | one more element appends its value or nothing |
| MusicBee.CollectAll | src/musicbee_reader.py:283-286 | when every element gives a value, all are collected in order |
| MusicBee.EntriesOf | src/musicbee_reader.py:204-239 | a playlist has no more entries than lines |
| MusicBee.EntriesExist | src/musicbee_reader.py:204-239 | every entry is the normalised path of a file that exists; a playlist of headers, blanks and URLs has no entries |
| MusicBee.ResolveEntrySpec | src/musicbee_reader.py:205-239 | one line resolves to the normalised path of an existing file or to nothing, a skipped line to nothing |
| MusicBee.PlaylistsAfterSnoc | src/musicbee_reader.py:170-178 | one more directory entry: a non-playlist name changes nothing, a playlist file is parsed and stored when it has entries |
| MusicBee.PlaylistsAfterProperties | src/musicbee_reader.py:170-178 | loading keeps playlist names distinct and stores no empty playlist |
| MusicBee.PutNonEmpty | src/musicbee_reader.py:176-177 | storing a non-empty playlist keeps names distinct and every playlist non-empty |
| MusicBee.FirstByBasenameSpec | src/musicbee_reader.py:290-293 | the fallback finds a track exactly when some key has the basename, and then it is the track of the first such key |
| MusicBee.LookupEntryFromCatalog | src/musicbee_reader.py:283-293 | a looked-up track is a catalog track |
| MusicBee.TracksOfEntries | src/musicbee_reader.py:282-295 | a playlist yields no more tracks than entries |
| MusicBee.TracksOfEntriesSnoc | src/musicbee_reader.py:283-293 | one more entry appends its track or nothing |
| MusicBee.TracksOfEntriesFromCatalog | src/musicbee_reader.py:282-295 | every track of a playlist is a catalog track |
| MusicBee.ExactEntries | src/musicbee_reader.py:283-286 | entries with exact keys yield those keys' tracks, one for one, in order |
| MusicBee.AnyTermInExists | src/musicbee_reader.py:360-372 | the term test holds exactly when some lower-cased term occurs in the lower-cased field, lower case as `Strings.LowerChar` gives it |
| MusicBee.AnyTermInIgnoresCase | src/musicbee_reader.py:360-372 | the term test ignores the field's case |
| MusicBee.UmlautTermMatches | src/musicbee_reader.py:360-372 | the term `MOTÖRHEAD` matches the artist `Motörhead`: case is ignored beyond ASCII |
| MusicBee.GreekAccentTermMatches | src/musicbee_reader.py:360-372 | the term `όλα` matches the artist `Όλα`, and `ґанок` matches `Ґанок`: accented Greek and Cyrillic Supplement capitals are lowered too |
| MusicBee.MatchesCriteria | src/musicbee_reader.py:315-375 | a track matches exactly when it passes every filter present: genre, rating, date added after, days, artist, album |
| MusicBee.MatchesCriteriaEdges | src/musicbee_reader.py:326-375 | no filters accept every track; an empty term list rejects every track; a value that is not a list filters nothing |
| MusicBee.Select | src/musicbee_reader.py:307-313 | never more tracks than the input |
| MusicBee.SelectMembers | src/musicbee_reader.py:307-313 | a track is selected exactly when it is in the input and matches |
| MusicBee.SmartCriteria | src/musicbee_reader.py:388-403 | `date_added_after` is dropped and every other filter kept |
| MusicBee.MusicBeeReader.constructor | src/musicbee_reader.py:16-29 | the three paths stored and both tables empty |
| MusicBee.MusicBeeReader.LoadLibrary | src/musicbee_reader.py:31-76 | true exactly when the file exists and has `Items`; then the catalog is the old one with every item added in document order; the playlist table is untouched |
| MusicBee.MusicBeeReader.ParsePlaylist | src/musicbee_reader.py:188-244 | the line loop computes the playlist's entries; nothing when the file cannot be read |
| MusicBee.MusicBeeReader.LoadPlaylists | src/musicbee_reader.py:155-186 | true exactly when the folder exists and can be listed; then each listed playlist file with entries is stored under its name without extension; the catalog is untouched |
| MusicBee.MusicBeeReader.AllTracks | src/musicbee_reader.py:246-253 | the catalog's tracks in insertion order, as `list(self.tracks.values())` |
| MusicBee.MusicBeeReader.GetTrack | src/musicbee_reader.py:255-266 | a track exactly when the normalised path is a key; in a well-keyed catalog the track's own path normalises to the same path |
| MusicBee.MusicBeeReader.FindByBasename | src/musicbee_reader.py:290-293 | the search with `break` returns the first catalog track whose key has the basename |
| MusicBee.MusicBeeReader.GetPlaylistTracks | src/musicbee_reader.py:268-295 | nothing for an unknown playlist; otherwise each entry's track by exact key or by the first basename match, in entry order |
| MusicBee.MusicBeeReader.LookupPlaylistEntry | src/musicbee_reader.py:284-293 | one entry: the exact-key track, else the first basename match |
| MusicBee.MusicBeeReader.FilterTracksByCriteria | src/musicbee_reader.py:297-313 | exactly the matching catalog tracks, in catalog order |
| MusicBee.MusicBeeReader.GetSmartPlaylistTracks | src/musicbee_reader.py:377-405 | the matching catalog tracks under the five forwarded filters |
| Metadata.Truncate | src/metadata_handler.py:335 | `int()` of a float truncates toward zero |
| Metadata.FileHash | src/metadata_handler.py:316-339 | nothing exactly for a missing file |
| Metadata.SupportedShape | src/metadata_handler.py:25 | every supported extension is a lower-case dot-extension |
| Metadata.NoExtensionUnsupported | src/metadata_handler.py:38-49 | a path whose last component has no dot has no extension and is unsupported |
| Metadata.SupportedByExtension | src/metadata_handler.py:38-49 | `<dir>/<name><ext>` is supported exactly when the lower-cased `ext` is listed; a hidden file `<dir>/.mp3` is not |
| Metadata.NamedSplitExt | src/metadata_handler.py:48 | the extension of `<dir>/<name><ext>` is `ext`, or none for an empty name |
| Metadata.SameStatSameHash | src/metadata_handler.py:330-336 | equal size and equal whole-second mtime give equal fingerprints |
| Metadata.SubSecondChangeUndetected | src/metadata_handler.py:335 | a rewrite within the same second keeps the fingerprint |
| Metadata.NewSecondDetected | src/metadata_handler.py:334-336 | with the size unchanged, a move to another whole second changes the text the digest is taken of, and so the fingerprint |
| Metadata.IntToStringInjective | src/metadata_handler.py:334-335 | `str(i)` determines `i` |
| Metadata.UnseparatedFieldsCollide | src/metadata_handler.py:334-335 | 12 bytes at second 345 and 123 bytes at second 45 share a fingerprint |
| Metadata.ExtractArtwork | src/metadata_handler.py:119-171 | nothing for an unsupported format; a cover only from a file the tag library opens |
| Metadata.ReadMetadata | src/metadata_handler.py:51-117 | the empty result for an unsupported format or a missing file, before the tag library; a cover is kept only when non-empty |
| Metadata.EmbedArtworkInFile | src/metadata_handler.py:213-292 | true exactly when the format is supported, the data non-empty and the file can be opened and saved |
| Metadata.PreserveMetadata | src/metadata_handler.py:294-314 | false without source metadata; true when embedding is off or there is no cover; a cover is copied only into a supported, writable file |
| EntryPoint.CheckKeysSpec | src/main.py:128-131 | one key loop passes exactly when every key is found, raises only for a value without `in`, and otherwise names the first missing key |
| EntryPoint.ValidateConfigIff | src/main.py:116-155 | the configuration passes exactly when it is a dictionary with the three sections and each section holds its keys (`library_path`, `library_xml`, `playlists_path`; `ip_address`, `music_path`; `criteria`) |
| EntryPoint.ValidateConfig | src/main.py:116-155 | no contract: the verdict of the key checks; its properties are `ValidateConfigIff`, `ValidWithMappings` and `ValuesIgnored` |
| EntryPoint.ValidWithMappings | src/main.py:126-155 | with dictionary sections, it passes exactly when the nine keys are present; `port` and every other key play no part |
| EntryPoint.CheckKeysAgree | src/main.py:128-131 | two values that answer `in` alike pass a key loop alike |
| EntryPoint.SectionSkeleton | src/main.py:134-155 | blanking the entries of a section does not change its verdict |
| EntryPoint.ValuesIgnored | src/main.py:116-155 | the values of the configuration are never inspected |
| EntryPoint.TextSectionPasses | src/main.py:116-214 | string sections mentioning the keys and a list section listing `criteria` pass, and the summary then cannot be read |
| EntryPoint.ValidMappingsReadable | src/main.py:200-214 | for dictionary sections, passing validation makes the summary readable |
| EntryPoint.ExitCode | src/main.py:200-264 | 0, 1 or 130; 0 exactly for a valid configuration with a readable summary that is a dry run or a built engine whose run succeeds; 130 exactly when such a run is interrupted |
| DeviceOracle.Connect | src/adb_client.py:58-92 | true exactly when the player is reachable; the call is recorded and nothing else changes |
| DeviceOracle.Mkdir | src/adb_client.py:249-267 | true exactly when the folder exists afterwards; recorded; files and push count unchanged |
| DeviceOracle.Push | src/adb_client.py:142-174 | the next scripted result; on success the file is on the player; one more push recorded |
| DeviceOracle.Pause | src/dap_sync.py:319-321 | only the pause is recorded |
| DeviceOracle.Disconnect | src/adb_client.py:110-121 | only the disconnect is recorded |
| HostFiles.ListDir | src/musicbee_reader.py:170 | a listing only of a path that exists |
| OrderedMaps.Get | src/musicbee_reader.py:266 | `d.get(k)`: a value exactly when `k` is a key, and then `(k, value)` is one of the entries |
| OrderedMaps.Put | src/musicbee_reader.py:68 | `d[k] = v`: an existing key keeps its position, a new key goes last |
| OrderedMaps.PutProperties | src/musicbee_reader.py:68 | assignment keeps keys distinct, stores `v` under `k` and leaves other keys alone |
| OrderedMaps.GetAt | src/musicbee_reader.py:266 | with distinct keys, the entry at index `i` is what its key gives |
| OrderedMaps.Values | src/musicbee_reader.py:253 | `list(d.values())`, one per entry, in insertion order |
| Paths.SplitExt | src/metadata_handler.py:48 | the stem followed by the extension is the path; an extension starts with a dot and has no `/` |
| Paths.Normpath | src/musicbee_reader.py:67 | `normpath` of a non-empty path is non-empty |
| Paths.NormpathOfAbs | src/playlist_handler.py:78-79 | a clean absolute path is already normal |
| Paths.RelPathOfClean | src/playlist_handler.py:95 | `relpath` between clean absolute paths climbs out of the unshared part of the start, then descends |
| Paths.RelPathBelow | src/playlist_handler.py:95 | a path below the root is reached by its remaining components |
| Paths.SiblingRelPath | src/playlist_handler.py:95 | from `/.../x` to `/.../xy/...` is one `..` then down |
| Paths.JoinRelPath | src/playlist_handler.py:95 | joining the root with `relpath` of a path below it gives the path back |
| Paths.AbsPathBelowStartsWith | src/playlist_handler.py:82 | a path below the root starts, as a string, with the root |
| Paths.LongerNamePrefix | src/playlist_handler.py:82 | lengthening the last name gives a path that still starts with the shorter one |
| Paths.JoinShape | src/musicbee_reader.py:110 | joining a non-empty name gives a non-empty path, absolute under an absolute base |
| Paths.BasenameOfAbs | src/playlist_handler.py:85 | the basename of `/c1/.../cn` is `cn` |
| Paths.DirnameOfAbs | src/playlist_handler.py:87-88 | the dirname of `/c1/.../cn` drops `cn` |
| Paths.ParentOfAbs | src/playlist_handler.py:85-88 | basename and dirname of `/c1/.../cn`, the root included |
| Strings.Lower | src/musicbee_reader.py:104 | same length, each character lowered by `LowerChar`, which covers the blocks listed under "Left out" |
| Strings.LowerCharFacts | src/musicbee_reader.py:104 | lowering is idempotent, only `\\` lowers to `\\`, and an ASCII letter results exactly from an ASCII letter |
| Strings.ReplaceChar | src/musicbee_reader.py:99 | same length; every `a` becomes `b`, every other character is kept |
| Strings.LStrip | src/musicbee_reader.py:105 | a suffix of the input that does not start with a stripped character |
| Strings.RStrip | src/playlist_handler.py:142 | a prefix of the input that does not end with a stripped character |
| Strings.StripSlice | src/playlist_handler.py:142 | `strip` returns a contiguous slice of its input |
| Strings.Find | src/musicbee_reader.py:101-102 | the first index of the character, or -1 when it is absent |
| Strings.RFind | src/playlist_handler.py:85 | the last index of the character, or -1 when it is absent |
| Strings.ParseIntOfString | src/musicbee_reader.py:123-124 | `int(str(i)) == i` |

## Left out

- `Engine.DapSync.Sync`: the outer `except` that turns any exception into `False` (src/dap_sync.py:543-545) is not modelled; the result is taken to be whether the player was reachable. The exceptions it would catch are a criteria section of the wrong type (`playlists: null`, a string iterated one character at a time, src/dap_sync.py:376-387) and the comparison of a time-zone-aware date with the naive `datetime.now()` in the days filter (src/musicbee_reader.py:351-357).
- `Engine.DapSync.CriterionTracks`: the criteria are taken well typed, as the `Criterion` datatype has them: a `playlists` or `smart_playlists` value is a list of names and `custom` a dictionary; other YAML shapes raise in the source.
- `MusicBee.MatchesCriteria`: dates are whole numbers of seconds from a parser given as a parameter, so the aware/naive `TypeError` of the days filter does not arise; lower case is `Strings.LowerChar`'s.
- `Strings.Lower`: lowers the capitals whose lower case is one character, context-free and regular, in these blocks: ASCII, Latin-1, Latin Extended-A, Latin Extended-B (the digraphs `Ǆ Ǉ Ǌ Ǳ` and the paired letters from U+01CD on), Latin Extended Additional and `ẞ`, Greek and Coptic (accented capitals included), Cyrillic and Cyrillic Supplement, Armenian, Georgian (U+10A0–U+10CD), Roman numerals, circled letters and full-width Latin. It leaves unchanged the irregular capitals of Latin Extended-B (U+0181–U+01BC, U+01F6, U+01F7, U+0220 and U+023A–U+0245, such as `Ɓ` and `Ⱥ`), Latin Extended-C, -D and -E, Georgian Mtavruli (U+1C90–U+1CBF), Greek Extended, Coptic, Glagolitic, Cherokee, the capitals beyond U+FFFF, and the letter-like symbols `Ω` (U+2126), `K` (U+212A) and `Å` (U+212B). It also leaves unchanged the mappings that change length (`İ` to `i̇`) and those that depend on context (final `Σ`).
- `MusicBee.AnyTermInExists`: case is ignored as far as `Strings.Lower` goes, not for every character Python's `str.lower` maps.
- `MusicBee.AnyTermInIgnoresCase`: the same limit of `Strings.Lower`.
- `Metadata.Digest`: MD5 is kept symbolic and taken free of collisions: two digests are equal exactly when their inputs are.
- `Metadata.NewSecondDetected`: its second clause, that the fingerprints differ, holds only because MD5 is taken collision-free; the first, that the digested texts differ, is the part proved about the code.
- `Strings.ParseInt`: accepts surrounding whitespace, one sign and ASCII digits; Python's `int` also accepts `_` between digits and digits of other scripts.
- `Metadata.Truncate`: durations and mtimes are `real`, with no NaN or infinity; a NaN or infinite duration makes `int(duration)` raise (src/playlist_handler.py:57), which would end the playlist loop the way a long file name does.
- `Playlists.PlaylistHandler.PlaylistContent`: the duration written is `int(duration)` of a finite value; see `Metadata.Truncate`.
- `Transfer.GetFileHash`: the fingerprint is the handler's (size and whole-second mtime as `os.stat` reports them); a stat that fails between `os.path.exists` and the hash is not modelled.
- `Transfer.SyncFileEffect`: the only exception of the copy step modelled is `shutil.copy2` failing (a directory, or a path the host marks uncopyable); a failing `tempfile.mkdtemp` and the staging-file cleanup in `finally` are left out, as the cleanup swallows its own errors.
- `PlaylistSync.PlaylistsRun`: the only exception of the playlist loop modelled is a temporary file name over 255 bytes (`NAME_MAX` of the host); a failing `mkdtemp`, a failing write and the non-finite duration above are left out.
- Temporary staging: the staging files and folders themselves, and their removal, are not modelled; only the copy's success is.
- The Android debug bridge: the `adb` commands, their output parsing and the connect retries inside `ADBClient` are not modelled; the player is the `Device` oracle, and `push_file`'s own `mkdir -p` of the target folder (src/adb_client.py:159-161) is folded into a push's result.
- The sync-history database: SQLite, the table definition and the SQL text are not modelled; the table is a map and a failing database is the run-wide `storeOk` flag.
- Pauses: `time.sleep(3)` is a `Paused` event in the player's trace; no time passes.
- The clock: one `now` per run stands for every `datetime.now()` and `time.time()` call of a run; `finish` is the end time.
- `os.path.relpath`: computed on the two normalised absolute paths, without the current directory the source consults for relative ones.
- Logging, YAML loading and `load_config`, `load_sync_rules` and `setup_logging`: the configuration is given as a value; `--verbose` without a `logging` section raises `KeyError` at src/main.py:196 and the edits at src/main.py:189-196 are not modelled.
- `EntryPoint.ExitCode`: `KeyboardInterrupt` gives 130 only around `sync()` (src/main.py:258-260); an interrupt during validation, the summary or the engine's construction is not caught by `except Exception` and is not modelled.
- Tags and artwork: mutagen, PIL, and the format-specific branches of `extract_artwork` and `embed_artwork` are not modelled; only their early returns and the supported-format test are.
- XML parsing and `dateutil`: the library document is a `LibraryDocument` oracle and the date parser a parameter.
- Tracks always carry every key `_parse_track_item` sets; the source's `track.get` defaults for missing keys are therefore not needed.
- Path normalisation: the lemmas about whole paths assume absolute paths of clean components (see "Path assumptions").

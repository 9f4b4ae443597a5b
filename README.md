# kotlin-file-sync in Dafny

kotlin-file-sync keeps a client folder and a server store in step over a
websocket. A pass has three parts:

- **The planner** compares the local walk with the server's `/tree` listing.
  It decides which files to upload and which to pull.
- **The sender** turns each file into frames:
  - a zero-length file is a single `FilePath:<path>:empty` text frame;
  - any other file is binary frames of at most 16 KiB, then one `FilePath:<path>` text frame.
- **The receiver** buffers binary frames. It writes the buffer to disk when a
  `FilePath:` frame names the file.

The model covers all three parts, in every version the repository carries:

- the newest client (`SyncManager`, module `Manager`);
- the older client (`Synchronization`, module `LegacySync`);
- the first client (`App.kt`, module `App`);
- the server's `/tree` and `/upload` routes (module `Server`).

The shared pieces are:

- Kotlin's string and list operations, with their exact edge cases (`KotlinStrings`, `KotlinCollections`);
- the chunk concatenation `flattenToBytes` (`Chunks`);
- the file service and the `java.io.File` operations (`Files`);
- the frame format (`Protocol`).

The filesystem is a value `Tree`: a map from normalised paths to bytes, plus
the set of existing directories. It is held in a `Disk` object whose methods
are `mkdirs`, `writeBytes` and `createNewFile`.

- A missing file reads as zero bytes, as `File.length()` reports it.
- `createNewFile` never truncates an existing file.

`Protocol.Deliver` states what a transfer is meant to do. It stores each file's
bytes at its path, or creates the file when the file is empty.

Each receiver gets its own round-trip theorem against `Deliver`. The theorems
differ exactly where the receivers differ:

- **Newest client.** It tests for `:empty` on the whole message. A non-empty
  file whose relative path is exactly `empty` sends `FilePath:empty`, which the
  client takes for an empty marker. The file is created empty and its bytes stay
  in the buffer. `Manager.FileNamedEmptyIsMisread` proves this, and
  `Manager.MisreadBytesJoinNextFile` proves that the next non-empty file is then
  written with both files' bytes. The round trip excludes that one name.
- **Older client.** It tests the same way, but it also writes the buffer after an
  empty marker. The file named `empty` is therefore overwritten with its bytes,
  and the round trip needs only that no non-empty file's path ends in `:empty`.
- **Server.** It tests the suffix after removing the prefix, so it never confuses
  the two markers for that name. Its current path is sticky: any later text frame
  flushes the buffer to it. A control frame stops its loop.

The older client's planner is written with predicates and `find`, while the
newest uses `none` and `first`. `LegacySync.PlansAgree` proves that the two
produce the same plan, so the planner lemmas proved in `Manager` cover both.

Three behaviours of the code are easy to miss:

- `createNewFile` leaves an existing file as it is; it does not empty it.
- The newest client's empty marker does not touch the buffer.
- The `empty` file name is misread by the newest client, as described above.

## Model

| member | source | states |
|---|---|---|
| Chunks.FlattenLength | file-sync-shared/src/main/kotlin/org/osaaka/extensions/FIle.kt:11-15 | the flattened length is the sum of the chunk lengths |
| Chunks.FlattenEmpty | file-sync-shared/src/main/kotlin/org/osaaka/extensions/FIle.kt:11-15 | no chunks flatten to no bytes |
| Chunks.FlattenSingleton | file-sync-shared/src/main/kotlin/org/osaaka/extensions/FIle.kt:11-15 | one chunk flattens to itself |
| Chunks.FlattenAppend | file-sync-shared/src/main/kotlin/org/osaaka/extensions/FIle.kt:11-15 | flattening two chunk lists in turn is flattening their concatenation (order kept) |
| Chunks.FlattenToBytes | file-sync-shared/src/main/kotlin/org/osaaka/extensions/FIle.kt:11-15 | the output-stream loop returns the in-order concatenation of the chunks |
| Files.AfterWriteFile | file-sync-client/app/src/main/kotlin/org/osaaka/service/FileService.kt:16-21 | after `writeFile` the file holds exactly the new bytes, every other file is unchanged, and its parent directories exist |
| Files.AfterCreateEmptyFile | file-sync-client/app/src/main/kotlin/org/osaaka/service/FileService.kt:23-27 | after `createEmptyFile` the file exists, keeps any earlier content (empty if new), every other file is unchanged, and its parent directories exist |
| Files.MkdirsIdempotent | file-sync-client/app/src/main/kotlin/org/osaaka/service/FileService.kt:19 | creating the parent directories twice is the same as once |
| Files.Disk.Mkdirs | file-sync-client/app/src/main/kotlin/org/osaaka/service/FileService.kt:19 | `mkdirs` adds every directory above the path and changes no file |
| Files.Disk.WriteBytes | file-sync-client/app/src/main/kotlin/org/osaaka/service/FileService.kt:20 | `writeBytes` replaces the whole content at the path |
| Files.Disk.CreateNewFile | file-sync-client/app/src/main/kotlin/org/osaaka/service/FileService.kt:26 | `createNewFile` adds an empty file only when none exists |
| Files.LocalFiles | file-sync-client/app/src/main/kotlin/org/osaaka/service/FileService.kt:13-14 | a walk entry is kept iff it is a regular file whose own name is not ignored |
| Files.LocalFilesAppend | file-sync-client/app/src/main/kotlin/org/osaaka/service/FileService.kt:13-14 | the filter keeps walk order |
| Files.NewerIsStrict | file-sync-client/app/src/main/kotlin/org/osaaka/service/FileService.kt:29-33 | equal instants are never newer |
| Files.FileService.WriteFile | file-sync-client/app/src/main/kotlin/org/osaaka/service/FileService.kt:16-21 | `writeFile` is `mkdirs` then a whole-content write at root/rel |
| Files.FileService.CreateEmptyFile | file-sync-client/app/src/main/kotlin/org/osaaka/service/FileService.kt:23-27 | `createEmptyFile` is `mkdirs` then `createNewFile` at root/rel |
| Protocol.ChunkedSpec | file-sync-client/app/src/main/kotlin/org/osaaka/synchronization/SyncManager.kt:46-50 | N bytes give ceil(N/16384) chunks of 1 to 16384 bytes, all full but the last, concatenating to the bytes |
| Protocol.FortyThousandBytes | file-sync-client/app/src/main/kotlin/org/osaaka/App.kt:67-77 | 40000 bytes go as 16384, 16384 and 7232 |
| Protocol.FileFramesShape | file-sync-client/app/src/main/kotlin/org/osaaka/synchronization/SyncManager.kt:31-52 | an empty file is one empty marker and no binary frame; a non-empty file is its chunks as binary frames, then exactly one path marker |
| Protocol.SendChunks | file-sync-client/app/src/main/kotlin/org/osaaka/synchronization/Synchronization.kt:68-78 | the offset loop emits exactly the slices `[offset, min(offset+16384, size))`, which are Kotlin's `chunked` |
| Protocol.OutgoingAt | file-sync-client/app/src/main/kotlin/org/osaaka/synchronization/SyncManager.kt:28-31 | each file is sent under its path with everything up to the first occurrence of the root removed, with the bytes stored at the path as `java.io.File` normalises it |
| Protocol.DoubledSlashReadsNormalisedFile | file-sync-client/app/src/main/kotlin/org/osaaka/synchronization/SyncManager.kt:29 | an instance of `Protocol.OutgoingAt`: a path written with a doubled '/' reads the file it normalises to |
| Protocol.DeliverElsewhere | file-sync-client/app/src/main/kotlin/org/osaaka/service/FileService.kt:16-27 | a transfer touches no path that none of its files resolves to |
| Protocol.DeliverPlacesFiles | file-sync-client/app/src/main/kotlin/org/osaaka/service/FileService.kt:16-27 | with distinct paths, each non-empty file ends with exactly its bytes and each empty one exists |
| Protocol.EmptyMarkerParts | file-sync-client/app/src/main/kotlin/org/osaaka/synchronization/SyncManager.kt:72 | reading an empty marker back gives the path it was built from |
| Protocol.PathMarkerEndsWithEmpty | file-sync-client/app/src/main/kotlin/org/osaaka/synchronization/SyncManager.kt:72-74 | a path marker ends in ":empty" iff its path does or its path is "empty" |
| Manager.PlanPaths | file-sync-client/app/src/main/kotlin/org/osaaka/synchronization/SyncManager.kt:90-104 | a full local path is handed to `uploadFiles` iff some local file has it and the upload filter keeps it; a relative path is handed to `pullFiles` iff some remote entry has it and the pull filter keeps it |
| Manager.OneSidedPaths | file-sync-client/app/src/main/kotlin/org/osaaka/synchronization/SyncManager.kt:93-101 | a path only on the local side is uploaded; a path only on the remote side is pulled |
| Manager.SharedPath | file-sync-client/app/src/main/kotlin/org/osaaka/synchronization/SyncManager.kt:93-101 | a path on both sides is uploaded iff the local copy is strictly newer and pulled iff it is not, so it is in exactly one list |
| Manager.TieGoesToPull | file-sync-client/app/src/main/kotlin/org/osaaka/synchronization/SyncManager.kt:98-101 | equal instants pull and never upload |
| Manager.PlanKeepsOrder | file-sync-client/app/src/main/kotlin/org/osaaka/synchronization/SyncManager.kt:93-101 | both lists keep the order of the listing they come from |
| Manager.NoMarkersOnlyBuffer | file-sync-client/app/src/main/kotlin/org/osaaka/synchronization/SyncManager.kt:61-80 | frames other than "FilePath:" messages only append binary payloads to the buffer, in order |
| Manager.EmptyMarkerKeepsBuffer | file-sync-client/app/src/main/kotlin/org/osaaka/synchronization/SyncManager.kt:72-75 | an empty marker creates its file and leaves the buffer untouched |
| Manager.MarkerWithEmptyBuffer | file-sync-client/app/src/main/kotlin/org/osaaka/synchronization/SyncManager.kt:71-80 | a path marker arriving with an empty buffer writes nothing |
| Manager.ReadableIff | file-sync-client/app/src/main/kotlin/org/osaaka/synchronization/SyncManager.kt:72-74 | the client reads a file back iff its path does not end in ":empty" and a non-empty file is not named "empty" |
| Manager.ReceiveFile | file-sync-client/app/src/main/kotlin/org/osaaka/synchronization/SyncManager.kt:60-80 | one file's frames, from an empty buffer, store that file and leave the buffer empty |
| Manager.RoundTrip | file-sync-client/app/src/main/kotlin/org/osaaka/synchronization/SyncManager.kt:54-81 | the sender's frames, received from an empty buffer, store every readable file as it was sent |
| Manager.RoundTripPlacesFiles | file-sync-client/app/src/main/kotlin/org/osaaka/synchronization/SyncManager.kt:54-81 | with distinct targets, each received non-empty file holds exactly its bytes and each empty one exists with its earlier content |
| Manager.EmptyFileKeepsOldBytes | file-sync-client/app/src/main/kotlin/org/osaaka/service/FileService.kt:23-27 | an empty file received over an existing one leaves the old bytes |
| Manager.FileNamedEmptyIsMisread | file-sync-client/app/src/main/kotlin/org/osaaka/synchronization/SyncManager.kt:72-77 | a non-empty file named "empty" is created empty and its chunks stay buffered, unlike the intended delivery |
| Manager.MisreadBytesJoinNextFile | file-sync-client/app/src/main/kotlin/org/osaaka/synchronization/SyncManager.kt:71-81 | after a non-empty file named "empty" with bytes a, the next non-empty file with bytes b is stored as a + b and the buffer ends empty |
| Manager.SyncManager.SendFileInChunks | file-sync-client/app/src/main/kotlin/org/osaaka/synchronization/SyncManager.kt:44-52 | one binary frame per `chunked` slice, then the path marker |
| Manager.SyncManager.UploadFiles | file-sync-client/app/src/main/kotlin/org/osaaka/synchronization/SyncManager.kt:23-42 | the frames sent are the encoding of each path's relative name and content, file after file |
| Manager.SyncManager.HandleTextFrame | file-sync-client/app/src/main/kotlin/org/osaaka/synchronization/SyncManager.kt:71-81 | the handler's effect on disk and buffer is the receiver's text step |
| Manager.SyncManager.PullFiles | file-sync-client/app/src/main/kotlin/org/osaaka/synchronization/SyncManager.kt:54-69 | an empty list changes nothing; otherwise the disk ends as the receiver loop over the incoming frames leaves it |
| Manager.SyncManager.Sync | file-sync-client/app/src/main/kotlin/org/osaaka/synchronization/SyncManager.kt:83-106 | without a listing nothing happens; otherwise the plan is made, the pull runs, and the upload reads the files as the pull left them |
| LegacySync.UploadPredicateAgrees | file-sync-client/app/src/main/kotlin/org/osaaka/synchronization/Synchronization.kt:199-201 | the predicate "no remote match, or local newer", given the `find` result, accepts exactly what the newer `none`-or-`isNewerThan(first)` filter accepts |
| LegacySync.PullPredicateAgrees | file-sync-client/app/src/main/kotlin/org/osaaka/synchronization/Synchronization.kt:202-204 | the predicate "no local match, or local not newer", given the `find` result, accepts exactly what the newer `none`-or-not-`isNewerThan(first)` filter accepts |
| LegacySync.PlansAgree | file-sync-client/app/src/main/kotlin/org/osaaka/synchronization/Synchronization.kt:169-204 | the predicate-based plan equals the newer planner's, list for list and in order |
| LegacySync.HandledPath | file-sync-client/app/src/main/kotlin/org/osaaka/synchronization/Synchronization.kt:100-117 | the handler returns the marker's path without prefix and ":empty", and for any other message returns null with no effect |
| LegacySync.EmptyMarkerFlushes | file-sync-client/app/src/main/kotlin/org/osaaka/synchronization/Synchronization.kt:100-115 | an empty marker creates the file, then a non-empty buffer is written over it and cleared |
| LegacySync.MarkerWithEmptyBuffer | file-sync-client/app/src/main/kotlin/org/osaaka/synchronization/Synchronization.kt:100-109 | a path marker with an empty buffer only creates the parent directories |
| LegacySync.NoMarkersOnlyBuffer | file-sync-client/app/src/main/kotlin/org/osaaka/synchronization/Synchronization.kt:128-136 | frames other than "FilePath:" messages only append binary payloads to the buffer |
| LegacySync.ReceiveFile | file-sync-client/app/src/main/kotlin/org/osaaka/synchronization/Synchronization.kt:95-136 | one file's frames, from an empty buffer, store that file, a non-empty file named "empty" included |
| LegacySync.RoundTrip | file-sync-client/app/src/main/kotlin/org/osaaka/synchronization/Synchronization.kt:95-138 | the sender's frames store every file whose non-empty content is not under a path ending in ":empty" |
| LegacySync.EmptyFileKeepsOldBytes | file-sync-client/app/src/main/kotlin/org/osaaka/synchronization/Synchronization.kt:100-104 | an empty file received over an existing one leaves the old bytes |
| LegacySync.Synchronization.UploadFiles | file-sync-client/app/src/main/kotlin/org/osaaka/synchronization/Synchronization.kt:52-93 | the frames sent are the encoding of each path's relative name and content |
| LegacySync.Synchronization.HandleTextFrame | file-sync-client/app/src/main/kotlin/org/osaaka/synchronization/Synchronization.kt:96-118 | the handler's effect and returned path are the receiver's text step |
| LegacySync.Synchronization.PullFiles | file-sync-client/app/src/main/kotlin/org/osaaka/synchronization/Synchronization.kt:95-138 | the disk ends as the receiver loop leaves it, whatever the list |
| LegacySync.Synchronization.Sync | file-sync-client/app/src/main/kotlin/org/osaaka/synchronization/Synchronization.kt:191-209 | without a listing nothing happens; otherwise the plan is computed and only the pull runs |
| Server.TreeListing | file-sync-server/src/main/kotlin/com/osaaka/plugins/Routing.kt:73-75 | the listing keeps every node's name and times, and each reported path is a suffix of the stored one |
| Server.TreeListingIsRelative | file-sync-server/src/main/kotlin/com/osaaka/plugins/Routing.kt:73-75 | a file stored at store+rel is reported as rel |
| Server.AbortStops | file-sync-server/src/main/kotlin/com/osaaka/plugins/Routing.kt:152-154 | a control frame ends the loop; nothing after it is read |
| Server.StrayTextFlushes | file-sync-server/src/main/kotlin/com/osaaka/plugins/Routing.kt:100-150 | a text frame that is not "FilePath:" writes a non-empty buffer to the previous current path, and otherwise changes nothing |
| Server.EmptyMarkerCreatesThenFlushes | file-sync-server/src/main/kotlin/com/osaaka/plugins/Routing.kt:105-149 | an empty marker makes its path current and creates the file; a non-empty buffer is then written over it |
| Server.MarkerWithEmptyBuffer | file-sync-server/src/main/kotlin/com/osaaka/plugins/Routing.kt:105-129 | a path marker with an empty buffer only changes the current path |
| Server.NoPathKeepsBuffering | file-sync-server/src/main/kotlin/com/osaaka/plugins/Routing.kt:128-129 | with no current path, binary data stays buffered and nothing is written |
| Server.ReceiveBinaries | file-sync-server/src/main/kotlin/com/osaaka/plugins/Routing.kt:96-99 | binary frames append to the buffer in arrival order |
| Server.ReceiveFile | file-sync-server/src/main/kotlin/com/osaaka/plugins/Routing.kt:94-150 | one file's frames, from an empty buffer, store the file and make its path current |
| Server.RoundTrip | file-sync-server/src/main/kotlin/com/osaaka/plugins/Routing.kt:91-150 | from an empty buffer and any current path, the sender's frames store every file whose non-empty content is not under a path ending in ":empty", end with an empty buffer and do not abort |
| Server.EmptyFileKeepsOldBytes | file-sync-server/src/main/kotlin/com/osaaka/plugins/Routing.kt:110-123 | an empty file uploaded over an existing one leaves the old bytes |
| Server.UploadFiles | file-sync-server/src/main/kotlin/com/osaaka/plugins/Routing.kt:84-157 | the `/upload` loop leaves the disk as the receiver model does and reports whether a control frame stopped it |
| App.RemoteLocalCompare | file-sync-client/app/src/main/kotlin/org/osaaka/App.kt:122-129 | a local path is selected iff its relative form is not in the remote list, whatever the timestamps |
| App.SelectedIffNotListed | file-sync-client/app/src/main/kotlin/org/osaaka/App.kt:126 | a file at syncFolder+rel is selected iff rel is not listed remotely |
| App.SelectionKeepsOrder | file-sync-client/app/src/main/kotlin/org/osaaka/App.kt:126 | the selection keeps local order |
| App.SendFiles | file-sync-client/app/src/main/kotlin/org/osaaka/App.kt:55-92 | the frames sent are the encoding of each path's relative name and content |
| App.SyncDirectory | file-sync-client/app/src/main/kotlin/org/osaaka/App.kt:131-133 | the upload sends exactly the files the server does not list |

## Left out

- Websocket and HTTP plumbing is not modelled: the client setup, the `/tree` request and its failure, and `close()`. The incoming frames are a parameter, and a failed listing is `None`. A websocket failure during the pull is not modelled either: `sync` has no `try` around `pullFiles`, so in the source such a failure throws out of `sync` and the upload never runs.
- The JSON request that `pullFiles` sends is not modelled. The `/download` peer that answers it is outside the modelled source (the server here registers only `/tree` and `/upload`), so the frames a client receives are an input.
- Directory walking is not modelled: `File.walk`, `listFiles` recursion, the older client's `localFiles` with its pruning of ignored directories, `directoryFilesList` on both sides. Walks are inputs; only the name filter of `FileService.localFiles` is modelled.
- Timestamps are integers compared with `<`. Parsing, zones and file attributes are foreign library calls.
- Progress bars, `println` and `print` are not modelled; they only display text.
- The server's `if (!parentDir.exists())` guard is modelled as an unconditional `mkdirs`, which has the same effect.
- Filesystem failures are not modelled: permissions, a path that is a directory, a parent that is a file, I/O errors.
- Java path normalisation is modelled only as collapsing repeated '/' and dropping a trailing '/'.
- The file tree is a map keyed by path strings, so paths that a real disk resolves to one file are distinct keys here: `.` and `..` segments, symbolic links and case-insensitive names are not captured. Two entries `a` and `./a` are two files in `Protocol.Deliver`, where on a disk the second overwrites the first, and a server receiving `FilePath:../x` writes outside its store, where the model stores the key `store/../x`. The "distinct targets" premise of `Protocol.DeliverPlacesFiles` and `Manager.RoundTripPlacesFiles`, and the "every other file is unchanged" clause of `Files.AfterWriteFile`, hold for the map only.
- Coroutines and the `delayTask` loop are not modelled; each operation is one sequential run.
- The chunk buffer is threaded as a value through the handler methods rather than mutated in place; it is local to one loop, so no aliasing is lost.
- Protocol.SendChunks: Kotlin's 32-bit `Int` is not modelled. In the source, `offset + chunkSize` wraps negative for files of 2147467265 to 2147483639 bytes, and `copyOfRange` then throws. Larger files make `readAllBytes`/`readBytes` throw. The model sends frames for every size, because file sizes are unbounded integers here.

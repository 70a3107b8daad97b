# webadf: models and proofs

This project models six parts of webadf, the server and boards that give an Amiga its floppy
disks over the network, and proves what each of them is for:

* **The LZ4 block encoder** (`Lz4Format`, `Lz4Encoder`, `Lz4Finds`). The greedy encoder with its uncleared
  16-bit hash table, its window and its exact output cap, against a decoder written from the public
  LZ4 block format description ("Compressed block format" and "End of block conditions"). The
  encoder is a set of loops over arrays; the decoder knows nothing of it. `Lz4Finds` is about what
  the encoder finds, since a block of nothing but literals would decode as well.
* **Boards writing disks back** (`DiskImage`, `WriteBack`, `WriteBackRuns`, `BoardSession`,
  `WriteBackStore`). Tracks staged in sessions keyed by mount and boot token, closes that record a
  new version, browser edits as check, record and repoint, and every board's desired and mounted
  digest. `BoardSession` adds the board's own side: one request at a time, every upload under a
  fresh number, with answers lost, requests repeated or late, uploads made while a close is
  unanswered, and restarts under new tokens.
* **Uploads from the Amiga** (`AmigaUploads`, `AmigaUploadRuns`, `AmigaCloseRaces`,
  `AmigaUploadStore`). Open, chunk and close as transactions on rows. A close is taken statement by
  statement, with any number of other closes, chunks, deletes and daily passes between its steps.
* **Disk sets** (`DiskSet`, `DiskSetLibrary`, `DiskSetUnchanged`, `DiskSetOps`, `DiskSetUndo`,
  `DiskSetAdd`, `DiskSetStore`). Plans made from lists of disks, applied as one batch of guarded
  statements to a library that may have changed since. Deleting a title deletes its disks, so that
  none is ever lost is a theorem.
* **Covers without their metadata** (`ByteLists`, `PngStrip`, `WebpStrip`, `JpegStrip`,
  `JpegExif`, `CoverStrip`). The three walkers as index-driven loops, against files parsed into lists of chunks
  or segments.
* **Small exact kernels**: the table-driven CRC-32 (`Crc32`), the OLED layout's blob
  (`DisplayLayout`), and the batches of an upload (`BatchSplit`).

Throughout, what the code does is first a function on values: rows as maps, files as byte
sequences. The methods and classes are the code's own loops and statements, each proved to do what
its function says. The lemmas are about the functions: over every input, every run of calls, or
every reachable state.

Some choices run through all of it. A SHA-256 digest is modelled as the bytes it names. Clocks,
random ids and the order in which the database lists rows come in as parameters, constrained only
by what the code relies on. Each transaction is one step; steps are finer where a property is about
what comes between them.

Where the code and what is written about it differ, the code is followed. The documented bound of
`n + n / 255 + 16` on a block's size holds with room to spare: 2 already does (`CapSuffices`). The
encoder does not need its table size to be a power of two, so any size from 1 up is covered. The
edit's repoint does not always leave every board at its disk's head: another writer of the disk
between the record and the repoint can make it send a board for an image that is no longer the head.
`RepointMisses` is such a run, and `RepointExact` says exactly, for every run, when the repoint does
what is written about it. A board is written to expect that a close may be told an upload is missing;
`CloseLands` shows that it never is, so long as no upload arrives after a close that was asked for
later. When one does, it can open a session of its own and make the server drop the board's next
write: `LateUploadHarms` is such a run, and `LateUploads` says exactly which uploads change nothing.
A JPEG is meant to lose all its APP1 and APP13 but the orientation, but a segment between the scans is
copied with them: `KeptBetweenScans` is a file that keeps one, and `CleanThroughEoi` says exactly
which files lose them all.

## Model

| member | source | states |
|---|---|---|
| Lz4Encoder.RoundTrip | m68k/lz4/lz4_68k.c:41-87 | For every source, window and table contents, the block decodes under the LZ4 block format, with that window, to exactly the source |
| Lz4Encoder.PlanLegal | m68k/lz4/lz4_68k.c:22-25 | Read back by the decoder's reader, every match reaches 1..65535 back inside the window, is at least 4 long, starts at least 12 bytes before the end, and the last 5 bytes are literals |
| Lz4Encoder.LinkedRunDecodes | m68k/lz4/lz4_68k.h:57-62 | Frames encoded one after another against one base with the table carried over decode, frame by frame into one buffer, to all the sources in order |
| Lz4Encoder.CapSuffices | m68k/lz4/lz4_68k.c:67-86 | No block is longer than n + n/255 + 2, and none is empty: a cap of that much is never refused |
| Lz4Encoder.ReadsBack | m68k/lz4/lz4_68k.c:67-86 | What the encoder lays out for any legal parse is read back by the format's reader as that parse |
| Lz4Encoder.SearchDescribes | m68k/lz4/lz4_68k.c:50-80 | Whatever the table named, what the greedy loop finds are true repeats, overlapping or not, and the literals between them |
| Lz4Encoder.CopiesRepeat | m68k/lz4/lz4_68k.c:64-65 | The decoder's byte-by-byte copy of a true repeat continues the buffer, however far it overlaps itself |
| Lz4Encoder.Grow | m68k/lz4/lz4_68k.c:63-65 | A match is extended as far as it goes both ways: it ends at the limit or a different byte, and begins at the pending literals' start, the window's start or a different byte |
| Lz4Encoder.ExtendMatch | m68k/lz4/lz4_68k.c:63-65 | The two inner loops reach that same match |
| Lz4Encoder.Greedy | m68k/lz4/lz4_68k.c:50-80 | The loop writes the parse's sequences in order and leaves its table, or stops exactly when the block is over the cap; nothing at or past the cap changes |
| Lz4Encoder.EncodeLinked | m68k/lz4/lz4_68k.c:41-87 | The exact cap: the whole block and its size when it fits, else 0; 0 for positions over 16 bits; nothing at or past the cap is written |
| Lz4Encoder.Encode | m68k/lz4/lz4_68k.c:89-92 | The whole block when it fits, else 0; a non-zero result decodes, with no window, to the source; a cap of n + n/255 + 16 always gives one |
| Lz4Finds.HashIs | m68k/lz4/lz4_68k.c:53-55 | For a table of a power of two the hash of a position is half of 2X + Y modulo the table |
| Lz4Finds.RepeatsAreTaken | m68k/lz4/lz4_68k.c:50-80 | Of two probed positions alike in four bytes, none probed between them in their slot, the later is covered by a match that repeats the earlier, whatever the table held |
| Lz4Finds.CarriedIsTaken | m68k/lz4/lz4_68k.h:57-62 | A position alike in four bytes to the earlier one a table carried over names in its slot repeats it, if it is the first probed in that slot |
| Lz4Finds.PeriodPays | m68k/lz4/lz4_68k.c:50-86 | A source that repeats every d bytes, d up to 64, with no two positions of a period in one slot, takes exactly 9 + d + extlen(d) + extlen(n - d - 9) bytes, fewer than its own, whatever the table held |
| Lz4Finds.AbcdPays | m68k/lz4/lz4_68k.c:41-87 | "abcd" fifteen times, 60 bytes, takes 14 |
| DiskImage.OverlayTracks | src/lib/disk-history/version.ts:39-50 | Every byte is its track's staged byte or the base's; it throws exactly for an image or a track of the wrong size |
| DiskImage.AnyListing | src/lib/disk-history/version.ts:39-50 | The order in which staged tracks are read back does not matter |
| WriteBackRuns.BoardsWantHeads | src/lib/device-write.ts:207-251 | In every run of mounts, ejects, reports, uploads, closes and edits taken one at a time, each board that desires a disk desires that disk's current head |
| WriteBackRuns.EveryChangeAnnounced | src/lib/device-write.ts:218-251 | A board's desired digest only changes with its version rising, or as the answer to its own close, of bytes it already holds; a version never falls |
| WriteBackRuns.NeverSilent | src/lib/device-write.ts:218-251 | Over any run without a close of its own, a board whose desired digest has changed has had its version raised |
| WriteBackRuns.OnlyWritersWrite | src/lib/device-write.ts:170-207 | A disk's image only changes by a close, from a board that holds the mount, of a session with every track the board sent, to their overlay; or by an edit while no board holds or wants the disk |
| WriteBackRuns.EditKeepsInv | src/lib/disk-write.ts:50-124 | A browser edit that goes through finds no board that wants the disk, so boards stay at their heads |
| WriteBackRuns.EditsExactly | src/lib/disk-write.ts:86-124 | An edit changes a disk if and only if the disk is not an HFE, no board has its image mounted or wants it, and the edit makes another image of the same 880 or 1760 KB; the disk then has that image |
| WriteBackRuns.LateMountsRepaired | src/lib/disk-write.ts:87-124 | With any calls between check and record, and any but writers of this disk between record and repoint, boards mounted meanwhile end at the new head: what the repoint is for |
| WriteBackRuns.OnlyLateMountsRepointed | src/lib/disk-holder.ts:41-77 | The repoint never touches a board that did not ask for the disk after the holder check |
| WriteBackRuns.RepointExact | src/lib/disk-holder.ts:41-77 | With any calls at all between an edit's check, record and repoint, closes and edits of the same disk included, every board that wants a disk ends at its head if and only if the repoint finds the disk still at the image the edit recorded, or no board that wants it at the one the edit read |
| WriteBackRuns.RepointMisses | src/lib/disk-write.ts:87-124 | A run where it does not: a board mounted after the check writes its unchanged image back between the record and the repoint, and is then sent for an image that is not the head |
| BoardSession.CloseLands | src/lib/device-write.ts:104-214 | For a board that sends every upload under a fresh number, with answers lost, requests repeated and late, writes while a close is unanswered and restarts: a close answered 200 with a session leaves the head equal to the session's base overlaid with the last upload of each track of this boot since its last close, and equal to the digest the board sent; the board is never told it is incomplete, and a close that finds no session has nothing left to record |
| BoardSession.BootIsFresh | src/lib/device-write.ts:104-150 | A restart under an unused token and mount is such a start whatever rows earlier boots left, so none of their tracks can enter |
| BoardSession.LatestIsLast | src/lib/device-write.ts:139-150 | The overlay's tracks are those uploaded since the last close, each with its last upload's bytes |
| BoardSession.RunKeeps | wifi-floppy/firmware/src/uploader.c:235-395 | Through every such run what the server has staged of a track, once its last upload has been answered, is that upload, and every upload answered has a number no higher than the session's last |
| BoardSession.LateUploads | src/lib/device-write.ts:52-151 | Whenever an upload arrives it changes nothing if and only if the board does not hold the mount, or its session there got as far, or it has none and may open none |
| BoardSession.LateUploadHarms | src/lib/device-write.ts:104-177 | A run where one that arrives after the close harms: it opens a session, the board's next write is answered as a duplicate and not staged, or its next close is told it is incomplete |
| BoardSession.CrashesAreHarmless | src/lib/device-write.ts:181-254 | A close that dies any number of times between recording the version and its batch, then retried, gives the same answer and final rows as one that never died |
| WriteBackStore.Store.StageTrack | src/lib/device-write.ts:76-151 | Disks and boards are never touched; a refusal leaves all sessions, and so does a repeat; a staged track is the only one of its session to change, under a higher number; a new session starts over the disk's head, and only sessions of its own board go |
| WriteBackStore.Store.RecordVersion | src/lib/disk-history/store.ts:101-215 | A new head is the image given and follows, in the history, the digest the caller read, nothing before it lost; whatever else happens no disk changes |
| WriteBackRuns.RecordExact | src/lib/disk-history/store.ts:101-215 | An image is recorded if and only if the digest read is still the last of the history, the sizes are right, and it is another image |
| WriteBackRuns.RecordsRepeat | src/lib/disk-history/store.ts:101-215 | Recording the same image again, as a retried close does, records nothing and leaves the disk as it is |
| WriteBackRuns.UploadsRepeat | src/lib/device-write.ts:135-150 | An upload repeated after it was taken changes nothing and is answered as a duplicate |
| WriteBackRuns.OpenSessionsGoOn | src/lib/device-write.ts:31-74 | While the board still holds the disk, uploads of an open session are taken whatever versions it was bumped to and reported since, and though the disk has been write-protected |
| WriteBackRuns.SessionsOpenAtHeads | src/lib/device-write.ts:38-138 | A new session only opens for a board at its mount, of a disk that is not protected; and if the board still wants the disk, it has acknowledged its last bump and the session's base is the digest it was told to hold |
| WriteBackRuns.NewSessionsExact | src/lib/device-write.ts:52-151 | The first upload of a session is taken if and only if the board holds the disk at this mount with no bump to acknowledge, the disk may be written, and the track is the disk's size |
| WriteBackRuns.ClosesExact | src/lib/device-write.ts:153-255 | A close of a session with tracks answers 200 if and only if the board still holds the disk, sends the last number, and holds what the tracks over the base come to |
| WriteBackStore.Store.Close | src/lib/device-write.ts:153-255 | The close's statements leave the rows and the answer its specification says |
| WriteBackStore.Store.ApplyDiskEdit | src/lib/disk-write.ts:50-124 | The three steps of an edit; it answers, with the new head, if and only if the disk is not an HFE, no board has its image mounted or wants it, its history is up to date and the sizes are right |
| AmigaUploadRuns.RunKeepsInv | src/lib/amiga-uploads.ts:116-224 | In every reachable state, closes half done included, a receiving upload's chunks are in order from 0 with none missing, full but one that completes the file, and sum to what was received; a stored file has the row's size and CRC |
| AmigaUploadRuns.ResumesOnBoundary | src/lib/amiga-uploads.ts:116-132 | So every resume offset is a whole number of chunks, or the whole file |
| AmigaUploadRuns.NeverFalls | src/lib/amiga-uploads.ts:116-132 | What was received of an upload never falls, and a settled upload never receives again |
| AmigaUploadRuns.StoredIsAccepted | src/lib/amiga-uploads.ts:167-224 | A stored file is exactly its accepted chunks in order, all of them, with the CRC the board sent |
| AmigaUploadRuns.HonestUploadStoresFile | src/lib/amiga-uploads.ts:107-132 | If the board sends pieces of one file at their places, repeated, after lost answers or reopened, what is stored is that file |
| AmigaUploadStore.ResumedUploadStores | src/lib/amiga-uploads.ts:107-224 | From wherever such a board has got, the pieces from its resume offset on complete the upload, and a close with the file's CRC that nothing interrupts stores that file and answers the name sent |
| AmigaUploadStore.WholeUploadStores | src/lib/amiga-uploads.ts:33-224 | From an open that makes a row, in any reachable state, a file's pieces sent in order bring it to its size, and the close stores the file |
| AmigaCloseRaces.SameAnswer | src/lib/amiga-uploads.ts:154-224 | Once every byte is in, all closes by its board with one CRC answer alike, with one name, however their steps interleave with each other, other boards' closes, resent chunks and daily passes, until the upload is deleted, closed with another CRC, or so old that a pass fails or drops it; a staging file may be handed on or deleted as soon as it is stored |
| AmigaCloseRaces.AtMostOneSettles | src/lib/amiga-uploads.ts:178-224 | In every run at most one close decides what becomes of an upload |
| AmigaCloseRaces.OkMeansStored | src/lib/amiga-uploads.ts:141-224 | With deletes anywhere, a close answers ok only for an upload that was stored under the CRC it sent and the name it answers |
| AmigaUploadStore.Store.OpenUpload | src/lib/amiga-uploads.ts:33-102 | An open resumes if and only if the size and name will do and the board has the same file receiving and not expired, and then a newest such row; it makes a row if and only if there is none and there is room |
| AmigaUploadStore.Store.StoreChunkRow | src/lib/amiga-uploads.ts:107-132 | Something is stored if and only if it is the next piece: a full chunk, or one that ends the file, at the offset reached; it then adds exactly its bytes to this upload alone. Anything else answered ok is behind what was received |
| AmigaUploadStore.ChunksExact | src/lib/amiga-uploads.ts:107-132 | The same of the rows and chunks: the next piece is always taken, and answered with where it ends |
| AmigaUploadStore.ChunksRepeat | src/lib/amiga-uploads.ts:116-132 | A chunk sent again after it was taken changes nothing and hears the same answer |
| AmigaUploadStore.Store.ReadBytes | src/lib/amiga-uploads.ts:164-175 | The buffer is filled with the chunks in order exactly when they make the whole file |
| AmigaUploadStore.Store.StoreFile | src/lib/amiga-uploads.ts:189-224 | The guarded update: stored if and only if still receiving, with its bytes, CRC and a new expiry, its chunks gone, under a name that a repeated close hears as sent; of other rows only stored ones it replaces change |
| AmigaUploadStore.Store.CloseUpload | src/lib/amiga-uploads.ts:154-224 | A close that nothing interrupts does and answers what its steps one after another do |
| AmigaUploadStore.Store.ReleaseStagingRow | src/lib/amiga-uploads.ts:240-246 | A staging row ends deleted, whatever it was, no other row or chunk changes, any other row's release changes nothing, and a second release neither |
| AmigaUploadStore.HandedOnAnswersOn | src/lib/amiga-uploads.ts:141-151 | In every reachable state a stored staging file, once released, answers a repeated close as it did before |
| AmigaUploadStore.Store.DeleteFromStash | src/lib/stash.ts:105-114 | Every row asked for ends deleted and is otherwise as it was, no other row or staged chunk changes, none is left for a second call, and the answer counts those that were not deleted before |
| AmigaUploadStore.DeletedIsGone | src/lib/stash.ts:104-114 | After a delete the board's next chunk stores nothing, and its close hears that the upload is gone if and only if it was not a staging file stored under the CRC the close sends |
| AmigaUploadStore.Store.ExpireUploads | src/lib/amiga-uploads.ts:280-297 | Overdue partial uploads fail and lose their chunks; exactly the stored rows past their time, the others over 30 days old and staging over a day old go |
| DiskSetLibrary.AnyPlanIsSafe | src/lib/disk-set-store.ts:88-138 | Any plan on any later library keeps every disk row, leaves disks that another tab moved and other organisations' where they are, deletes a title or membership only when no disk of anybody's is in the title, and tells a board only a place its disk is really at |
| DiskSetOps.ReorderNumbers | src/lib/disk-set-store.ts:291-298 | A reorder is refused exactly when the ids are not the title's disks once each; else the title is in that order, numbered 1..N, and boards stay right |
| DiskSetOps.MoveOutNumbers | src/lib/disk-set-store.ts:315-341 | The disk is alone in its new title as disk 1, the set it left is numbered 1..N in its order; a lone disk is refused |
| DiskSetAdd.AddMoves | src/lib/disk-set-store.ts:216-289 | An add is refused exactly when its picks or titles are not the library's to add; else each source brings all its disks, a plain add keeps the set's numbers and appends fresh consecutive ones, a compact one numbers 1..N, and a source stays only for another organisation's disk |
| DiskSetAdd.TitlesPicked | src/lib/disk-set-store.ts:196-214 | Picking whole titles adds exactly those titles, in the order given |
| DiskSetAdd.AddThenUndo | src/lib/disk-set-store.ts:216-387 | Whole titles added to a set that is not empty and their snapshots undone in any order: every disk is grouped as it was, up to new title ids, in its order, each restored title numbered 1..k |
| DiskSetUndo.UndosRestore | src/lib/disk-set-store.ts:343-387 | The same after any number of the undos: each undone snapshot is restored, the set has its own disks and those of the snapshots left |
| DiskSetUndo.UndoOne | src/lib/disk-set-store.ts:343-387 | An undo whose disks are together in a set with others is never refused, and touches nothing but the set and the new title |
| DiskSetUndo.UndoExact | src/lib/disk-set-store.ts:343-387 | An undo goes through if and only if the snapshot names some disks, none twice, that are the organisation's own local disks, still all together in one of its titles, and that title has another disk of the organisation |
| DiskSetUndo.UndoMoves | src/lib/disk-set-store.ts:343-387 | The disks are then a title of their own in the snapshot's order, numbered 1..k, and the others are numbered 1..N in theirs, wherever in the title the disks were |
| DiskSetUnchanged.PlanLands | src/lib/disk-set-store.ts:101-127 | On the library it was made from, every move of a plan lands and every board's desired and mounted places are those of the disks it names |
| DiskSet.SortSorts | src/lib/disk-set.ts:21-21 | Sorting by number and id loses and repeats no disk |
| DiskSet.OneOrder | src/lib/disk-set.ts:21-21 | A title has one order, however its disks were read |
| DiskSetStore.UpdatesOf | src/lib/disk-set.ts:23-32 | The loop over boards gives each the new places of the disks it names |
| DiskSetStore.PlanAddDisks | src/lib/disk-set.ts:39-61 | The pushing loops number the sources' disks title by title after the set's own |
| DiskSetStore.PlanMoveOutOf | src/lib/disk-set.ts:77-81 | The plan of a move out, with its loop |
| DiskSetStore.Store.RunBatch | src/lib/disk-set-store.ts:101-182 | The statements run in order as one transaction: all of them, or the rows as they were |
| DiskSetStore.Store.DeleteEmptiedTitles | src/lib/disk-set-store.ts:130-138 | No disk row goes, in spite of the cascade; exactly the titles asked for that are this organisation's and have no disk of anybody's go, and exactly the memberships of those without disks |
| DiskSetStore.Store.AddDisksToSet | src/lib/disk-set-store.ts:216-289 | The reads, the plan and the batch of an add |
| DiskSetStore.Store.ReorderSet | src/lib/disk-set-store.ts:291-298 | The reads, the plan and the batch of a reorder |
| DiskSetStore.Store.MoveDiskOut | src/lib/disk-set-store.ts:315-341 | The reads, the plan and the batch of a move out |
| DiskSetStore.Store.UndoMove | src/lib/disk-set-store.ts:343-387 | The reads, the merged plan and the batch of an undo |
| PngStrip.StripFilters | src/lib/cover-strip.ts:144-164 | The stripped file's chunks are the file's without tEXt, zTXt, iTXt and eXIf up to IEND, the signature and the tail kept |
| PngStrip.DropsByName | src/lib/cover-strip.ts:144-164 | The chunks that go are those named tEXt, zTXt, iTXt and eXIf, and the list ends at IEND |
| PngStrip.ParseIsStable | src/lib/cover-strip.ts:147-164 | A file that parses is its chunks put together: the walk loses nothing |
| PngStrip.StripTwice | src/lib/cover-strip.ts:147-164 | Stripping twice is stripping once, on every byte string |
| PngStrip.StripPng | src/lib/cover-strip.ts:147-164 | The walk by index makes that file |
| WebpStrip.StripFilters | src/lib/cover-strip.ts:167-193 | When something is dropped, the chunks are the file's without EXIF and XMP with only VP8X's flags cleared, the size field is the length less 8, and the rest of the header is as it was |
| WebpStrip.DropsByName | src/lib/cover-strip.ts:167-193 | The chunks that go are those named EXIF and XMP, the one whose flags change VP8X |
| WebpStrip.WithoutFlags | src/lib/cover-strip.ts:179-181 | Clearing the flags clears bits 2 and 3 and no other |
| WebpStrip.StripTwice | src/lib/cover-strip.ts:167-193 | Stripping twice is stripping once, on every byte string |
| WebpStrip.StripWebp | src/lib/cover-strip.ts:167-193 | The walk by index makes that file |
| JpegStrip.StripRebuilds | src/lib/cover-strip.ts:101-142 | Once the walk reaches SOS, the stripped file parses into the file's segments without APP1 and APP13, in order, up to the scans through EOI, plus at most an Exif segment that gives the orientation the file gave |
| JpegStrip.OnlyOrientationLeft | src/lib/cover-strip.ts:101-142 | Up to the first SOS, all the APP1 and APP13 a stripped file has is that one segment, and none for an upright photo |
| JpegStrip.CleanThroughEoi | src/lib/cover-strip.ts:60-142 | A stripped file ends with its EOI and has no APP1 or APP13 through it besides its orientation if and only if an EOI was found and none of the segments stepped over after the first SOS is one |
| JpegStrip.KeptBetweenScans | src/lib/cover-strip.ts:68-121 | A JPEG of 12 bytes that keeps an APP1: it is after its SOS |
| JpegStrip.OrientationReadsBack | src/lib/cover-strip.ts:23-58 | The segment written for an orientation is whole and reads back as it |
| JpegExif.ExifReads | src/lib/cover-strip.ts:23-46 | An Exif block in either byte order, wherever its directory is, reads as the value of its first orientation entry if that is 1..8, and as none otherwise |
| JpegExif.PhotoKeepsOrientation | src/lib/cover-strip.ts:101-142 | A photo whose first Exif gives an orientation is stored with that orientation, in a big-endian Exif of that one entry, and no other APP1 or APP13 before its scans; an upright one with none |
| JpegExif.NoExifKeepsNone | src/lib/cover-strip.ts:101-142 | A photo with no Exif is stored with none |
| JpegStrip.ScanCut | src/lib/cover-strip.ts:60-93 | A file cut off right after the EOI found ends there just the same |
| JpegStrip.ScanFindsEoi | src/lib/cover-strip.ts:60-93 | The end found for the scans is just past the two bytes of an EOI marker |
| JpegStrip.StripTwice | src/lib/cover-strip.ts:101-142 | Stripping twice is stripping once, on every byte string |
| JpegStrip.JpegEoiEnd | src/lib/cover-strip.ts:68-93 | The nested loops find the end of the scans, or that there is none |
| JpegStrip.ReadOrientation | src/lib/cover-strip.ts:23-46 | The loop over directory entries finds the orientation |
| JpegStrip.StripJpeg | src/lib/cover-strip.ts:101-142 | The walk by index, with its parts pushed and spliced, makes that file |
| CoverStrip.StripTwice | src/lib/cover-strip.ts:196-201 | Whatever the bytes, storing a stored cover again changes nothing |
| CoverStrip.StripImageMetadata | src/lib/cover-strip.ts:196-201 | The walker goes by the first byte |
| Crc32.LookupFeedsByte | src/lib/crc32.ts:17-21 | One table lookup does to the register what feeding the byte's eight bits does |
| Crc32.Print | src/lib/crc32.ts:6-25 | The table, the loop and the digits give the bit-at-a-time CRC-32 of section 8 of RFC 1952 |
| Crc32.PolynomialIs | src/lib/crc32.ts:6-14 | The constant is the polynomial of RFC 1952 by its powers, reflected |
| Crc32.PrintedReadsBack | src/lib/crc32.ts:16-25 | The checksum prints as exactly 8 digits that read back to the same 32-bit value |
| Crc32.DamageNoticed | src/lib/crc32.ts:1-25 | Two messages of one length that differ only within four bytes in a row have the same checksum only if they are equal |
| DisplayLayout.EncodeThenDecode | src/lib/display-layout.ts:116-167 | A layout comes back from its blob, a rotation of 0 left out, if and only if it has at most 255 records and its fields are bytes |
| DisplayLayout.DecodeThenEncode | src/lib/display-layout.ts:116-167 | A blob that decodes comes back byte for byte if and only if it is as the encoder writes them |
| DisplayLayout.ElementBytes | src/lib/display-layout.ts:116-133 | Each element's eight bytes, field by field |
| DisplayLayout.HeaderBytes | src/lib/display-layout.ts:116-140 | The header, the length, and the record that turns the layout |
| DisplayLayout.HeadsDoNotMatter | src/lib/display-layout.ts:34-62 | Without withdrawn head records every byte string decodes as it did, or fails with the same error |
| DisplayLayout.StrippedUpright | src/lib/display-layout.ts:44-62 | Without rotation records only the rotation changes |
| DisplayLayout.EncodeLayout | src/lib/display-layout.ts:116-140 | The loop writes the blob in place |
| DisplayLayout.DecodeLayout | src/lib/display-layout.ts:143-167 | The loop reads it, and stops at the first id it does not know |
| DisplayLayout.StripRecords | src/lib/display-layout.ts:52-62 | The copied blob, or the same one when nothing goes |
| BatchSplit.SplitBatches | src/lib/blob-upload.ts:79-97 | Nothing is lost or reordered whatever the caps; with caps of at least 1 every batch is non-empty, within both, and closes only when the next file would break one |
| BatchSplit.FewestBatches | src/lib/blob-upload.ts:73-97 | No order-preserving split within the caps has fewer batches |
| BatchSplit.OnlyOneEager | src/lib/blob-upload.ts:73-97 | There is only one split that closes batches so |
| BatchSplit.SplitsLikeChunk | src/lib/blob-upload.ts:73-77 | A list with no HFE splits exactly like chunk |
| BatchSplit.HfeNames | src/lib/blob-upload.ts:68-71 | A name is an HFE's if it ends in .hfe in any case |
| BatchSplit.Chunk | src/lib/chunk.ts:11-15 | Groups of n in order, only the last one shorter |

## Left out

- The 68000 assembly of the encoder and decoder, registers, timing: the C model is the target.
- LZ4 memory: source and window are one read-only sequence from the window's start; the destination and the table are separate arrays, as the C code needs them to be.
- HTTP routes, authentication, rate limits, logging, blob stores and their garbage collection, and the text of answers.
- Two closes' batches interleaved on one disk, and two edits of one disk both taken step by step: the code does not claim anything of them.
- Boards and disks of more than one organisation in the write-back model; sharing and entitlements.
- Mounting a disk: what may be mounted where (sizes, formats, DF1) is not modelled, only that a mount copies the head's digest and raises the version.
- BoardSession.CloseLands: an upload may arrive late, after later uploads, but not after a close that the board asked for later; `LateUploadHarms` shows what such a one can do, and `LateUploads` when it does nothing.
- Deleting a disk while a session is open on it, and rewinding its history.
- The board's flash, its track buffers and how it works out the digest it sends.
- Uploads: quotas come in as a flag, cleaned names and keep-both names as parameters; the requests of a copy between volumes appear only as the source a row has and the row a request names.
- Renaming a stored upload, which changes the name a repeated close is answered with.
- Upload rows made by the browser; folders and their expiry.
- AmigaUploadStore.Store.ReadBytes: chunks are kept in the order they were stored, which every reachable state shows to be the order of their offsets that the query asks for.
- A title's name, year, publisher, cover, labels and whether a person arranged it; collections appear as pairs with titles.
- DiskSetAdd.AddThenUndo: asks that the added titles' disks are local, since an undo refuses a disk of a remote library.
- Ids of new titles are parameters; one already in use aborts the batch.
- GIF covers, which pass through; image dimensions.
- The minimum firmware a display layout needs, and the board's validator of layouts.
- BatchSplit.Chunk: asks for groups of at least 1, since the loop does not end for 0.

# A verified model of the VPP JSON gateway

The gateway takes JSON requests from Redis streams, journals them in SQLite, runs each one
against VPP at most once, spools the reply to disk and publishes it frame by frame. This
project models its four cores and the receiving side in Dafny and proves what they promise
each other.

**Text and JSON** (`text`, `json`, `json_reading`, `nesting`, `base64`, `sums`). Byte strings, a
concrete compact printer that no two values share a text of, base64 as section 4 of RFC 4648
defines it, and the nesting scan.

**The spool and the reassembler** (`frames`, `spool`, `spool_log`, `spool_budget`, `assembler`,
`reassembly`, `reader_safety`, `reading_examples`, `answers`). The classes `Spool` and `ResponseAssembler` keep
the fields of the originals and are proved equal to functions on their state, for any disk that
stops accepting bytes anywhere and any base64 decoder, however lenient. The promises are proved
of those functions; `Answers` joins them for every way a log can come about: a list that is
finished, a reply or a refusal, alone or after items.

**The journal** (`lines`, `journal`, `journal_*`, `torn_logs`, `inline_replies`, `spool_service`,
`server`). A transition system with one action
for every durable effect and for everything from outside: a crash between any two effects,
clients that send and acknowledge, a clock that jumps forward, publishes and deletes whose
outcome is lost. Its history records what was accepted, executed, answered and published; no
guard reads it. `JournalSafety.AlwaysSafe` keeps one invariant over every sequence of actions,
and the lemmas after it read the promises off. `SpoolService` derives what the machine asks of a
finished spool, the shape of its log and its size, from the spool itself. The class `ApiServer` is the main loop in its own
form; each of its methods is a sequence of machine steps, so its executions are runs.

**The client and the whole way** (`client`, `delivery`). The waiting loop, and the theorem that
joins everything: over every run in which jobs are answered through the spool, what a client
prints of any request is what was spooled for it, in order, whatever crashes, duplicates and
replays lie between.

**Uploads** (`transfers`, `transfer_*`). Manifests replaced atomically over a data file written
in place. Every system call may fail and the power may fail after any of them; then any manifest
since the last directory sync may be found, and of the data what was synced.

**The codec** (`catalog`, `integers`, `leaves`, `codec`, `codec_*`, `symbols`, `canonical`,
`roundtrip`, `prefix_lengths`, `converter`, `reply_layout`, `describe`, `resolvers`,
`catalog_growth`, `catalog_example`).
Encoding and decoding over a catalog of aliases, enumerations, flags, tagged unions, derived
counts, texts and defaults, with the nesting limit of 32. `Converting` runs both directions over
a buffer, as the original does; the functions of `Codec` specify it, and `Canonical.Canon` says
independently of any bytes what must come back. The platform's address routines, interface
resolvers and floating-point conversions are parameters with laws (`Leaves.Consistent`); the
address routines are handed C strings, so their laws speak of texts without a NUL only, and the
one that tells the families apart (`Leaves.Telling`) is asked for where it is needed.

**Pagination** (`pagination`). The loop over pages of a stream, for any replies whatever.

## What the proofs brought to light

- A record too large for one frame is spooled at any nesting depth, but the reader refuses one
  that nests deeper than 32. `Answers.AnswerIsRead` has the exact condition for every kind of log,
  `ReadingExamples.DeepItemIsLost` an item that is lost while the dump reports success.
- "A finished job has a complete log" fails: a clean-up that is interrupted after the file is
  gone, and then a recovery that is interrupted while it writes the file again
  (src/main.cc:302-317), leave the job finished with anything in its file. This can befall every
  job whose lease has run out (`TornLogs.ExpiredJobTears`), it does happen
  (`TornLogs.TornLogExists`), and it is the only exception: `JournalSafety.FinishedJobs` holds while
  the lease lasts and whenever the gateway serves. Such a session is removed before anything is
  delivered again.
- The length of a text is kept in 32 bits (src/schema.cc:454), so of a text of 4 GiB and more only
  the remainder is sent: it comes back exactly if it is shorter (`CodecPromises.TextsComeBack`,
  `CodecPromises.LongTextIsLost`). Requests are limited to 16 MiB (src/common.h:21-24), so no such
  text reaches the codec through the gateway.
- "The canonical form has the same encoding" fails for prefixes of IPv4 addresses. The length is
  judged by a colon anywhere in front of the slash (src/schema.cc:686), but `inet_pton` reads the
  address up to the first NUL (src/schema.cc:535), and a NUL can be written in a JSON text. So
  "1.2.3.4", a NUL and ":/64" are sent as 1.2.3.4 with length 64, come back as "1.2.3.4/64", and
  that is refused (`PrefixLengths.LostPrefix`; `PrefixLengths.DeceptiveIsLost` for every such text).
  Over such a type the round trip is complete exactly if the length is at most 32 or the text holds
  no colon (`PrefixLengths.PrefixComesBackExactly`); for any type and value exactly if the value is
  settled (`Canonical.Settled`, `CodecPromises.DecodeOfEncode`), that is if every prefix inside it
  has a length that suits the address in front of any NUL. Decoding is not affected: it always gives
  the canonical form, and equal encodings still mean equal canonical forms.
- The published description is wrong exactly where a message bears the name of an integer type
  (src/schema.cc:905): the encoder still takes the number, the description is that of the message
  (`Descriptions.IntegerMisdescribed`, `Descriptions.DescriptionExactly`).
- An alias of `string` beside a message of that name is given the tail of the message, although a
  text is sent (`ReplyLayouts.MixedTailFails`); `ReplyLayouts.LeavesApart` excludes this for the types
  on the way to the tail, and only for them.
- A union can be encoded without a discriminator (`CatalogExample.UnionIsEncoded`) but never decoded
  (`CodecPromises.UnionNeedsTag`). Of all that can be encoded exactly the values of untagged types
  come back (`CodecPromises.ComesBackExactly`).
- A module with a message named like a basic type can change what was converted before.
  `CatalogGrowth.HarmlessExactly` has the condition for each name: any message may be called
  `string`, and under the other names only one of nothing but fixed-length texts keeps everything.
- Requests that wait in a stream the gateway has not looked at for an hour are dropped by Redis
  (src/main.cc:385); `JournalSafety.NoRequestLost` names this as one of its cases.
- The quota on retained requests adds characters, as SQLite's `length()` counts them, to the bytes
  of the new request (src/main.cc:438-440), so what it bounds is characters.
- A frame whose `id` is not a text stops the client (tools/client.cc:57); the gateway never
  publishes one.

## Model

| member | source | states |
|---|---|---|
| Nesting.CheckNesting | src/common.cc:46-71 | the scan loop decides exactly what the automaton accepts |
| Nesting.NestingIsExact | src/common.cc:46-71 | a printed value passes exactly when it nests at most 32 deep, whatever brackets, quotes and backslashes its texts hold |
| JsonText.DumpOneLine | src/common.cc:250-253 | a printed value has no raw newline, so a frame is one line of its file |
| JsonText.InsertSize | src/common.cc:250-256 | what one more member adds to the size of a printed object |
| JsonReading.DumpInjective | src/common.cc:376-380 | different values have different texts, so there is a parser that reads back every printed value |
| JsonReading.ParseOfDump | src/common.cc:376-380 | that parser |
| Base64.DecodeOfEncode | src/common.cc:283-287 | decoding an encoding gives the bytes back, for every length |
| Base64.EncodeInjective | src/common.cc:367-374 | different bytes have different encodings, so the re-encoding test accepts only the canonical text |
| Spooling.Spool.WriteFrame | src/common.cc:250-266 | one frame is refused, written in full, or torn at any byte, with the status and counters that follow |
| Spooling.Spool.WriteLogical | src/common.cc:267-277 | small records go out whole, those above 16 MiB are refused, the others in pieces |
| Spooling.Spool.WriteBlocks | src/common.cc:278-297 | the loop over 48 KiB blocks, stopping at the first refused one |
| Spooling.Spool.AddItem | src/common.cc:398-408 | an item counts only if its whole record was written and nothing failed before |
| Spooling.Spool.FinishWith | src/common.cc:409-423 | the terminal tells the first failure, or the given status, or completion |
| Spooling.Spool.WriteSingle | src/common.cc:424-432 | a single reply, or an error in its place |
| SpoolLog.WriteKeeps | src/common.cc:250-266 | every write keeps the file a sequence of whole numbered frames, unless a write was torn |
| SpoolLog.FragmentsKeep | src/common.cc:278-297 | so do the pieces of a record, and a failure leaves no logical record behind |
| SpoolLog.AddsShape | src/common.cc:398-408 | after any adds the accepted items are a prefix, each one record in order, numbered like its last frame |
| SpoolLog.FailureIsSticky | src/common.cc:398-401 | once an add fails every later add fails and changes nothing |
| SpoolLog.NoFalseCompletion | src/common.cc:398-423 | a finished log has one terminal, at the end; it is `complete` exactly when every item was accepted, and then its counts are those of the frames and items before it |
| SpoolLog.SingleIsFinished | src/common.cc:424-432 | a reply that ends a log, alone or after items, is there in full with the reserve untouched, or one error of the spool stands in its place |
| SpoolBudget.SlackSuffices | src/common.cc:267-271 | the 64 bytes of slack cover any frame number: a record that passes the size test fits a frame |
| SpoolBudget.RefusedMeansFull | src/common.cc:278-297 | a block of 48 KiB always fits a frame, so a refused piece means the spool is full |
| SpoolBudget.ErrorSize | src/common.cc:209-213 | an error record costs what its status costs and at most 184 bytes more |
| Assembling.ResponseAssembler.AcceptFrame | src/common.cc:300-320 | the reader's treatment of any frame, whole or partial |
| Assembling.ResponseAssembler.AcceptPiece | src/common.cc:321-347 | the checks on a piece and the start of a record |
| Assembling.ResponseAssembler.DecodePiece | src/common.cc:348-375 | only the canonical encoding of at least one and at most the missing bytes is taken |
| Assembling.ResponseAssembler.Conclude | src/common.cc:376-397 | digest, nesting, parse, identity and type of a finished record |
| Reassembly.FragmentsFed | src/common.cc:278-297 | feeding the pieces of a record in order leads to its verdict with the number of the last piece; a torn one delivers nothing |
| Reassembly.SpoolThenReassemble | src/common.cc:267-432 | feeding a finished dump delivers exactly the accepted items in order and the terminal, if and only if every large item nests within 32 |
| Reassembly.SingleThenReassemble | src/common.cc:424-432 | the same for a reply that ends a log |
| Reassembly.BrokenStays | src/common.cc:300-397 | a refused frame is not made good by later ones |
| ReadingExamples.PairsExist | src/common.cc:267-397 | hosts for both ends exist that agree on the digest, the parser and the base64 decoder |
| ReadingExamples.ReadableExactly | src/common.cc:376-380 | a large text inside n arrays can be read back exactly if n is at most 30 |
| ReadingExamples.LargeItemExactly | src/common.cc:267-432 | with room on the disk a dump of one large item always finishes well, and is read back exactly if the item nests at most 30 deep |
| ReadingExamples.DeepItemIsLost | src/common.cc:267-432 | 256 KiB of text inside 31 arrays are spooled without a complaint and refused by the reader |
| Answers.AnswerIsComplete | src/common.cc:398-432 | however a spool is used, once it finishes well its file is one complete log: the accepted items in order, then the reply, or the terminal, or an error |
| Answers.AnswerFits | src/common.cc:250-265 | and that file keeps to the limit, replies and the errors in their place included |
| Answers.ShortReply | src/common.cc:424-432 | a reply of at most 4 KiB can only be refused by the disk and is then the only line |
| Answers.AnswerIsRead | src/common.cc:300-432 | feeding such a log delivers its records, if and only if none that was written is both too large for a frame and nested deeper than 32 |
| Answers.AnswerEndsOnce | src/common.cc:398-432 | the records of such a log have one terminal, at the end |
| ReaderSafety.AlwaysSafe | src/common.cc:300-397 | over any frames the held bytes are the pieces since the last reset, contiguous, of one record, never above 16 MiB |
| ReaderSafety.ReadyOnlyWhole | src/common.cc:376-397 | a record is delivered from pieces only if they share their header, cover it from 0 to the end and hash to the digest |
| LineFile.LineAtBoundary | src/main.cc:551-578 | reading a line from a frame boundary gives that frame and leads to the next boundary |
| LineFile.BoundaryBelowEnd | src/main.cc:556-559 | the offset is below the size exactly while frames are left |
| Journal.DecideFacts | src/main.cc:412-453 | only a new id within the quotas is inserted, and only a finished job is rewound |
| JournalRuns.LedgerKept | src/main.cc:412-453 | every row holds the first accepted body of its id and belongs to a live session |
| JournalRuns.OneAtATimeKept | src/main.cc:463-550 | whatever is running is held by the main thread or the worker, never by both |
| JournalRuns.RunOnceKept | src/main.cc:463-550 | no id is executed twice, and what is executed is its accepted body |
| JournalRuns.InOrderKept | src/main.cc:463-475 | jobs start in row order |
| JournalLogs.SweptKept | src/main.cc:579-597 | a session whose clean-up was interrupted is cleaned up before the gateway serves again |
| JournalLogs.LogsKept | src/main.cc:291-317 | finished jobs hold a whole log, their recorded size is its size, their offset lies on a frame boundary |
| JournalPosts.DeliverPublished | src/main.cc:551-578 | a publish adds the frame at the cursor, whether or not its outcome is known |
| JournalPosts.AdvancePublished | src/main.cc:573-577 | moving the offset moves the cursor to the next frame |
| JournalRequests.LeavesOnlyByRemoval | src/main.cc:378-462 | an entry leaves its stream only by a recorded removal, with its session, or with a stream past its deadline |
| JournalRequests.ConservedKept | src/main.cc:378-462 | every removal has its reason: journaled body, valid replay, or published reply |
| JournalAnswers.AnswersKept | src/main.cc:302-317 | how finished jobs were answered: executed, refused without effect, or outcome unknown |
| JournalBudget.BudgetKept | src/main.cc:518-535 | available bytes computed for the one job in flight stay available until it is done |
| JournalBudget.MarkedFits | src/main.cc:291-301 | marking that job done keeps the total and the session within their limits |
| JournalBudget.RecoverySize | src/main.cc:307-315 | the notice after a crash is a small reply for every valid id |
| JournalBudget.RetainedBytes | src/main.cc:518-535 | the bounds on retained bytes that follow |
| JournalSafety.AlwaysSafe | src/main.cc:239-268 | the whole invariant holds in every world any sequence of actions leads to |
| JournalSafety.AtMostOnce | src/main.cc:463-550 | each id is executed at most once, with its first accepted body, in journal order, one at a time |
| JournalSafety.HistoryGrows | src/main.cc:412-453 | accepted bodies, executions, published frames and departures are part of every later world |
| JournalSafety.FinishedJobs | src/main.cc:291-317 | unless its lease has run out and the gateway is deleting it, down, or has not cleaned up since, a finished job has one complete log, never a torn write, and is answered by its execution, a refusal, or the notice |
| TornLogs.ExpiredJobTears | src/main.cc:302-317 | the exception is real for every job: from any run that leaves a finished job due for clean-up, six more actions leave it finished with arbitrary bytes |
| TornLogs.TornLogExists | src/main.cc:302-317 | such a run exists for every request that is accepted, and the file need not be a log |
| JournalSafety.FramesInStep | src/main.cc:551-578 | published frames of a job go to the next, repeat the last or restart at 0, with unchanging contents; never more than 32 wait |
| JournalSafety.NeverUnreadable | src/main.cc:291-301 | a serving gateway never finds a finished job without its file or its line |
| JournalSafety.NoRequestLost | src/main.cc:378-462 | an entry that is gone was journaled, validly replayed or replied to, or its session was cleaned up, or its stream had not been looked at for the time of a lease |
| JournalSafety.BudgetsHold | src/main.cc:436-446 | 256 MiB of responses in all and 64 MiB a session plus 4 KiB a job, 16 Mi characters of requests, 128 jobs a session, 32 sessions |
| InlineReplies.InlineIsShort | src/main.cc:109-131 | capabilities, lease renewals, transfer positions and errors fit one line of 4 KiB for every valid id |
| SpoolService.AnswerIsLog | src/common.cc:398-432 | every use of a spool that finishes well leaves what the journal takes for a log, within the limit |
| SpoolService.SpoolServesWorker | src/main.cc:526-535 | in every reachable world the worker can hand over whatever its spool has finished: shape and size are derived, and the file is the spool's |
| SpoolService.SpoolServesInline | src/main.cc:508-516 | so can the main thread with its own replies, which only the disk can refuse |
| Serving.StaysReachable | src/main.cc:239-268 | what the main loop does from a reachable world is a run of the machine |
| Serving.ApiServer.Recover | src/main.cc:302-317 | the recovery loop over all rows, as machine steps |
| Serving.ApiServer.Receive | src/main.cc:378-462 | the first entry is judged and, unless a reply may not have arrived, removed, by exactly these machine steps |
| Serving.ApiServer.Judge | src/main.cc:412-453 | the branches of admission, quotas counted from the rows |
| Serving.ApiServer.StartJob | src/main.cc:463-536 | if the worker is free and a job is queued, the oldest one is answered here or handed over, by exactly these machine steps; otherwise nothing happens |
| Serving.ApiServer.First | src/main.cc:463-474 | the query for the oldest row of a kind |
| Serving.ApiServer.Room | src/main.cc:518-523 | the bytes available to a response |
| Serving.ApiServer.CompleteWorker | src/main.cc:537-550 | a finished worker job is marked done and the slot is free, as one machine step |
| Serving.ApiServer.Deliver | src/main.cc:551-578 | every session with an answer to go on with is sent exactly the next frame of the oldest one, unless publishing is refused, as machine steps |
| Serving.ReplyIsLog | src/main.cc:508-516 | the log of a reply given by the main thread is one the machine takes |
| Serving.ApiServer.Cleanup | src/main.cc:579-597 | the clean-up of expired sessions, as machine steps |
| Serving.ApiServer.Register | src/main.cc:345-368 | a new session with its lease if and only if there is room for one, as a machine step |
| ResponseClient.Client.Handle | tools/client.cc:54-88 | one stream entry: skipped, failed on, or accepted as the expected frame |
| ResponseClient.Client.Wait | tools/client.cc:31-97 | the loop over entries stops right after the one that ends the wait |
| ResponseClient.WaitIsOver | tools/client.cc:79-93 | entries after that do not matter |
| EndToEnd.NextFrame | tools/client.cc:65-84 | accepting the expected frame is feeding it to the reader |
| EndToEnd.TakeFrame | tools/client.cc:58-84 | repeated and earlier frames change nothing |
| EndToEnd.WaitStands | tools/client.cc:31-97 | from any entry on the client never sees a gap and never fails |
| EndToEnd.ClientSeesTheLog | tools/client.cc:31-97 | over every run: never a failure; what is printed is a beginning of the log, all of it once answered; answered once first and last frame were read |
| EndToEnd.RecoveryIsLegible | src/main.cc:302-317 | the notice after a crash reads back as its one record |
| EndToEnd.RecoveryIsSpooled | src/main.cc:307-315 | it is what a spool leaves there, and only the disk can refuse it |
| EndToEnd.SourceIsLegible | src/common.cc:398-432 | lists, replies, refusals and notices read back as their records, if and only if none is both large and deep |
| EndToEnd.PrintedIsSpooled | src/main.cc:551-578 | the whole way, for any such log: printed is spooled, despite crashes, duplicates and replays |
| EndToEnd.LogIsSourced | src/main.cc:508-535 | over every run through the spool, every job's log comes from one use of the spool for its id, or is the notice |
| EndToEnd.EveryClientIsServed | src/main.cc:551-578 | so over every such run, for every request and every reader of its session, what is printed is a beginning of what was spooled for it, and all of it once the wait is over |
| Transfers.Written | src/transfer.cc:176-189 | how far the write loop gets over interrupted, short and failed writes |
| TransferSafety.ParsedRequestsRun | src/transfer.cc:78-97 | the guard on calls is what parsing guarantees: it stops no request |
| TransferSafety.WriteChunkFacts | src/transfer.cc:171-196 | a chunk, complete or not, changes nothing before its offset; if it succeeds the data ends with it and is on disk |
| TransferSafety.ChunkKeeps | src/transfer.cc:171-196 | no version of the manifest that could be found loses its data |
| TransferSafety.SaveKeeps | src/transfer.cc:217-226 | replacing the manifest keeps every earlier version good |
| TransferSafety.PowerFailKeeps | src/common.cc:217-237 | whatever a power failure leaves is good |
| TransferSafety.AlwaysUploads | src/transfer.cc:78-226 | the invariant of uploads over every run with failing calls and power failures |
| TransferBudget.BeginQuotas | src/transfer.cc:110-134 | a new transfer fits the quotas together with all that could reappear |
| TransferBudget.ReservationsHold | src/transfer.cc:110-134 | at most 256 MiB reserved and four transfers a session, in every world |
| TransferPromises.UploadHolds | src/transfer.cc:139-205 | the data starts with exactly the accepted chunks, is no longer than declared, and of that length once complete; committed data has the declared digest |
| TransferPromises.SendAgain | src/transfer.cc:158-162 | sending the last chunk again is acknowledged and changes nothing |
| TransferPromises.CommittedIsFinal | src/transfer.cc:163-165 | after an answered commit neither manifest nor data changes until expiry |
| TransferPromises.CommitAnswered | src/transfer.cc:206-212 | the answer to a commit leaves no other version |
| TransferPromises.ResolvesToUpload | src/transfer.cc:227-244 | what a reference resolves to is all chunks in order with the declared digest |
| TransferManaging.TransferManager.HasRoom | src/transfer.cc:110-134 | the loop over the directory decides the quota test |
| TransferManaging.TransferManager.WriteAll | src/transfer.cc:176-189 | the write loop leaves the bytes it got through in place |
| TransferManaging.TransferManager.WriteInPlace | src/transfer.cc:171-196 | open, write, truncate and sync of one chunk |
| TransferManaging.TransferManager.HandleBegin | src/transfer.cc:85-138 | starting or resuming a transfer |
| TransferManaging.TransferManager.HandleChunk | src/transfer.cc:144-205 | one chunk with all its refusals |
| TransferManaging.TransferManager.Handle | src/transfer.cc:78-226 | every request, branch by branch |
| TransferManaging.TransferManager.Expire | src/transfer.cc:256-272 | the expiry loop, data before manifest |
| Catalogs.SizeAnywhere | src/schema.cc:294-335 | a static size does not depend on the depth a type occurs at |
| Catalogs.FixedAnywhere | src/schema.cc:336-359 | nor does being of fixed size |
| Catalogs.PartSizes | src/schema.cc:318-334 | no part of a known size exceeds the limit, no member its union |
| Integers.WriteThenRead | src/schema.cc:98-158 | every integer in range is read back from its bytes |
| Integers.ReadInRange | src/schema.cc:98-158 | what is read from bytes is in range |
| Leaves.ParsedDecimal | src/schema.cc:118-127 | 64-bit numbers in decimal are read back |
| Leaves.MacTextParses | src/schema.cc:509-556 | six bytes print as a text that is read as those bytes |
| Leaves.FixedRoundTrip | src/schema.cc:404-566 | basic, address, MAC and interface values: native size, read back in canonical form, same bytes again; addresses as far as the platform sees them, up to a NUL |
| Leaves.TextRoundTrip | src/schema.cc:450-469 | a text with its length in front, whatever follows |
| Leaves.UpToNulPadded | src/schema.cc:786-808 | a fixed text loses exactly its padding |
| SymbolTables.SymbolFound | src/schema.cc:655-666 | with distinct values a number names the enumerator it came from |
| SymbolTables.FlagsRoundTrip | src/schema.cc:602-655 | covered flags leave no unknown bits and gather to the same number |
| SymbolTables.SymbolsRoundTrip | src/schema.cc:597-667 | enumerators and flags through their base type, either way |
| CodecSizes.WriteFits | src/schema.cc:81-97 | no payload of any type exceeds 1 MiB |
| CodecSizes.SizeIsExact | src/schema.cc:294-359 | a type of known fixed size is encoded in exactly that many bytes, padded unions, fixed texts and nested arrays included |
| Canonical.GoodIsWellSized | src/schema.cc:294-359 | well-formed catalogs meet what the sizes rely on |
| RoundTrips.FieldWritten | src/schema.cc:778-866 | if a struct can be encoded so can each field, from the object with defaults filled in before it |
| RoundTrips.SameCount | src/schema.cc:809-821 | both directions find the same length for a counted array |
| RoundTrips.SameChoice | src/schema.cc:836-861 | both directions choose the same union member |
| CodecRoundTrip.RoundTrip | src/schema.cc:398-881 | encode then decode is the canonical form with the rest of the input untouched; that form encodes to the same bytes if the value is settled, and is refused otherwise |
| CodecRoundTrip.UnionRoundTrip | src/schema.cc:696-749 | the same for tagged unions and their padding |
| CodecRoundTrip.FieldsRoundTrip | src/schema.cc:778-866 | the same for the field loop |
| CodecRoundTrip.PreparedAgain | src/schema.cc:755-777 | lengths left out of an object are derived again |
| CodecRoundTrip.AddressRead | src/schema.cc:668-695 | an address text stands for the same family and member after a round trip, whatever follows a NUL in it |
| CodecRoundTrip.PrefixRead | src/schema.cc:671-690 | a prefix text stands for the same address and length after a round trip exactly if the length suits the family of the address that is left |
| CodecPromises.DecodeOfEncode | src/schema.cc:381-397 | decoding an encoding gives the canonical value; its encoding is the same exactly if the value is settled, and there is none otherwise |
| PrefixLengths.PrefixComesBackExactly | src/schema.cc:671-690 | over an IPv4 address a prefix text comes back, and re-encodes alike if and only if its length is at most 32 or it holds no colon |
| PrefixLengths.DeceptiveIsLost | src/schema.cc:535-690 | any IPv4 address, a NUL, a colon and a length above 32: encoded, decoded, and what is decoded is refused |
| PrefixLengths.LostPrefix | src/schema.cc:535-690 | a platform, a catalog and a text where that happens |
| CodecNormal.SameBytes | src/schema.cc:398-881 | values with the same canonical form are written as the same bytes, settled or not |
| CodecPromises.CanonIsNormal | src/schema.cc:381-397 | two values encode alike exactly when their canonical forms agree, and these are normal forms wherever they can be written |
| CodecPromises.ReadMore | src/schema.cc:388-397 | decoding never looks past what it takes |
| CodecPromises.SelfDelimiting | src/schema.cc:388-397 | no strict prefix and no proper extension of an encoding is accepted |
| CodecPromises.EncodedSize | src/schema.cc:81-97 | encodings have the static size where there is one, and at most 1 MiB |
| CodecPromises.TextsComeBack | src/schema.cc:450-469 | a text comes back exactly if it is shorter than 4 GiB |
| CodecPromises.LongTextIsLost | src/schema.cc:450-469 | one of exactly 4 GiB is sent as the empty text |
| CodecPromises.UnionNeedsTag | src/schema.cc:726-735 | what stands for a union, through aliases too, is never decoded without a discriminator |
| CodecPromises.ComesBackExactly | src/schema.cc:381-397 | of what can be encoded, decoding gives the canonical form back exactly for untagged types |
| CatalogExample.CatalogIsGood | src/schema.cc:668-695 | native addresses, prefixes, flags and a counted array form a well-formed catalog |
| CatalogExample.UnionIsEncoded | src/schema.cc:696-724 | a union on its own has an encoding |
| Converting.Encoder.Convert | src/schema.cc:398-601 | the conversion appends what the specification gives, or fails as it does |
| Converting.Encoder.ConvertItems | src/schema.cc:577-596 | the loop over elements |
| Converting.Encoder.ConvertUnion | src/schema.cc:696-724 | a union through a buffer of its own |
| Converting.Encoder.ConvertFields | src/schema.cc:778-866 | the loop over fields, defaults joining as it goes |
| Converting.Decoder.Convert | src/schema.cc:398-601 | the conversion consumes what the specification takes, or fails as it does |
| Converting.Decoder.ConvertItems | src/schema.cc:577-596 | the loop over elements |
| Converting.Decoder.ConvertFields | src/schema.cc:778-866 | the loop over fields, the object growing as it goes |
| Converting.RunEncode | src/schema.cc:381-387 | encoding into an empty buffer |
| Converting.RunDecode | src/schema.cc:388-397 | decoding with nothing left over |
| ReplyLayouts.FieldAt | tools/schema_generator.cc:45-102 | a field lies where the static sizes before it say |
| ReplyLayouts.TailSize | tools/schema_generator.cc:45-102 | a variable reply has the static size plus as many elements as the number at the derived place says, unless a message named like a converted type lies on the way there |
| ReplyLayouts.MixedTailFails | tools/schema_generator.cc:45-102 | where one does, an alias of `string`, the size is wrong |
| ReplyLayouts.PathIsCount | tools/schema_generator.cc:45-102 | resolving the emitted path through the structs leads to the number that size is computed from |
| ReplyLayouts.GuardIsExact | tools/schema_generator.cc:120-129 | the emitted division test accepts exactly up to 1 MiB |
| ReplyLayouts.SupportedTail | tools/schema_generator.cc:16-42 | a supported type has a known size, and so have the elements of its tail |
| ReplyLayouts.GuardAcceptsEncodings | tools/schema_generator.cc:120-129 | every encoding of a supported reply type passes the emitted test, its size exact with the number read where the emitted path leads |
| Descriptions.DescriptionIsSound | src/schema.cc:882-977 | every value the encoder accepts satisfies the published description |
| Descriptions.IntegerMisdescribed | src/schema.cc:903-911 | under every integer name that a message bears, every number in range is encoded and violates the description |
| Descriptions.DescriptionExactly | src/schema.cc:882-977 | everything that is encoded satisfies its description if and only if no message bears the name of an integer type |
| CatalogGrowth.Schema.AddModule | src/schema.cc:200-289 | loading a module entry by entry, stopping part-way at the first unfit one |
| CatalogGrowth.LoadingExtends | src/schema.cc:207-217 | no definition is lost or changed, however loading ends |
| CatalogGrowth.GrowthIsConservative | src/schema.cc:200-359 | every size, encoding and decoding there was is the same afterwards, if what the catalog ends up with under basic names is harmless |
| CatalogGrowth.LoadingIsTame | src/schema.cc:200-289 | which a caller can see from the entries of the module |
| CatalogGrowth.HarmlessExactly | src/schema.cc:336-359 | harmless is exact: under each basic name, a message keeps everything of every such catalog if and only if it is harmless |
| CatalogGrowth.HarmfulNamesBreak | src/schema.cc:336-359 | any other one, however it is loaded, makes a value be refused that was encoded before |
| Resolving.FindIndex | src/vapi_backend.cc:199-214 | the loop over the name table finds the index of a name that occurs once, and tells ambiguity |
| Resolving.TableResolves | src/vapi_backend.cc:199-225 | the table keeps the codec's law exactly when no interface that can be named has the index standing for all |
| Pagination.Paginate | src/vapi_backend.cc:229-356 | the page loop, call by call |
| Pagination.TakeElements | src/vapi_backend.cc:237-246 | elements are spooled in order until one cannot be decoded or spooled |
| Pagination.PaginationIsHonest | src/vapi_backend.cc:227-356 | at most 1024 calls; items in order of arrival, one terminal; `complete` exactly if every page but the last asked to go on at another cursor, the last ended the stream, and all was decoded and spooled |

## Left out

- Redis, hiredis, SQLite and the file system are atomic or crash-splittable effects; the Lua publish with its window check is one step. Request streams have deadlines; a response stream that expires is one whose entries are all acknowledged.
- SHA-256 is an arbitrary function of the bytes; nothing relies on its being injective. Transfers and spool files are keyed by session and id rather than by the digest of both.
- Serving.ApiServer.Register: one step with a fresh session id; tokens, protocol versions, bootstrap replies and the repeated registration that finds its session are not modelled.
- Serving.ApiServer.StartJob: which handler a method has, and what it replies, is a given plan; the replies themselves are those of `InlineReplies`, whose size is proved.
- The ownership script, options, environment, identity file and the worker thread beyond a one-slot hand-off are not modelled; the worker reads no state of the main thread.
- Answers.AnswerFits: a backend status whose printed code and message take more than 800 bytes is outside the size theorem of finished lists, and a worker whose last line overruns its limit for that reason has no action in the journal machine, so such runs are outside all its theorems; the statuses of the gateway and its backends are short sentences.
- `transfer.chunk` requests that bypass the journal are published as direct replies; their effect on uploads is the subject of the upload modules.
- A reply published directly under a job's id, such as an id conflict, is outside the end-to-end theorem, whose entries contain none for that id.
- Uploads: `Resolve` gives the text of a committed transfer; its splice into an envelope and the parsing of it are not modelled. Unreadable manifests and directories that cannot be listed in part are not either.
- Floating-point conversion, `inet_pton`, `inet_ntop` and the interface resolvers are parameters with laws; MAC addresses are concrete. Native integers are little-endian, as on the platforms VPP supports.
- `HasInterface` only decides when names are refreshed and is not modelled. In the generator, event and stream policies and the emitted text are not.
- Type names are an enumeration of the names the codec treats by themselves and one constructor for all others. A discriminator field that is itself an address or prefix keeps its text during encoding in the model, while the original replaces it by its parts; well-formed catalogs have none.
- Catalogs.FixedSize: sizes are unbounded integers, so a product of lengths beyond 64 bits, undefined in the original, is a number here.
- CatalogGrowth.Schema.AddModule: a module is its list of entries; the parsing of raw module documents into definitions is not modelled.
- JournalSafety.AtMostOnce: journal order is the order of insertion; the database may use the number of a deleted row again.
- CodecPromises.ComesBackExactly: leaves out the next hop of a FIB path and its aliases, which are encoded inside a path only and whose members may or may not need the discriminator.
- Descriptions.DescriptionIsSound: descriptions are values rather than JSON text, formats and defaults are annotations; text lengths are in bytes, of which there are at least as many as characters.
- Pagination: deadlines, sockets and dispatch are part of an arbitrary reply; operations that are not streams answer with one record and have no loop.
- The nesting property uses a concrete printer; parsing is only assumed to read back what was printed, and only where a lemma says so. `ReadingExamples.PairsExist` shows that this can be met. The original prints texts that are not UTF-8 with replacement characters (src/common.cc:252); such items, which a decoded native text can be, are printed byte for byte here.
- Error texts of the codec and of uploads are reduced to their codes.

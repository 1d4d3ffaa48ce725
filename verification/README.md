# FolioTone archive inspection, verified

FolioTone lists and checks archives by running a 7-Zip tool in a container and reading its output through a bounded
byte pipe. This project models that pipeline in Dafny and proves what it is meant to guarantee: what a successful run
delivered, what a parsed listing says, when a container may start and its staging may go, and which decisions are taken
on the result. Python classes that update their fields are Dafny classes, loops are loops, and threads are the
interleaved steps of a transition system; every method is proved against a specification function whose properties are
the theorems below.

How the parts fit together:

- **Pump and pipe.** `ProcessPump` (one process, two reader threads, a supervising loop) and `Duplex` (a producer whose
  output is framed and written to an inner process). Every theorem is about every reachable state of every interleaving.
- **TAR frames.** `TarHeader` (octal fields and checksums), `TarFrame` (the incremental consumer and the function it
  refines), `TarGrammar` (framed streams stated without scanning), `TarLimits` (streams over the bounds). The layout is
  that of the "ustar Interchange Format" of the pax utility in IEEE Std 1003.1, of which the code checks size, checksum
  and padding only.
- **SLT listings.** `Utf8`, `Text`, `Locators`, `LocatorSafety`, the parser object and drivers (`SltFields`,
  `SltMachine`, `SltDriver`), the way from characters over lines and records to members (`SltLines`, `SltRecords`,
  `SltBody`, `SltMembers`), the grammars of the three forms with their round trips (`SltGrammar`, `SltHeader`,
  `SltLocked`, `SltLockedGrammar`, `SltRoundTrip`, `SltDocument`, `SltResults`), what values and classes mean
  (`SltValues`), and what a locked record says (`SltLockedMembers`).
- **Lifecycle and handoff.** `Lifecycle` (container runs against arbitrary answers of backend and filesystem), `Permits`
  (lock and semaphore), `WrapperRun` (pipe, frame consumer and lifecycle together), `Handoff` (the one-slot queue between
  pump and parser worker, ending in the LISTED theorem), `ParserReason` (when a refusal by the parser is the answer), the
  answers from end to end (`RunOutcomes`, `ListingAnswers`), and the runs that do succeed and end LISTED (`DuplexRun`,
  `ListingRun`).
- **Decisions.** `SafetyPolicy`, `SafetyRefusals`, `QuotaSlots`, `Volumes`, `VolumeNames`, `VolumeSets`,
  `VolumePartition`, `VolumeGroups`, `VolumeFindings`, `VolumeOverlap`, `VolumeScan`, `WorkspaceShape`, `Extraction`,
  `JsonScan`, `Projection` and `ProjectionLinks`.
- `Prelude`, `PolicyLimits`, `Permutations` and `Sorting` hold shared vocabulary.

Where the code does something a reader may not expect, the model follows the code:

- The chunk limit caps a TAR stream fed by 65,536-byte reads at 2^32 bytes, below the limit the constants advertise
  (`TarGrammar.ReadSizeCapsTheStream`).
- The parse with a header refuses a blank line behind the last record; the headerless parse insists on one
  (`SltHeader.DocumentParsedIffListed`, `SltGrammar.MembersParsedIffListed`).
- Acceptance and content of a parse do not depend on how the bytes are cut, but the code of a rejection may.
- `run` lets a recorded LIMIT_EXCEEDED override what its loop saw; `run_duplex` does not. `Duplex.CancelledDespiteLimit`
  is the counterexample and `Duplex.LateLimitLosesToTheLoop` the exact condition.
- Numbers are tried before checksums, so a checksum of digits without a leading zero is classed as a number
  (`SltFields.CrcClass`).
- For a signature the parser does not support, whether a refused listing is answered TOOL_FAILED or POLICY_REJECTED
  depends on which thread is first: `ParserReason.UnsupportedIsARace` has both runs and
  `ParserReason.ReasonReachesTheCaller` the exact condition.
- Partitioning volume names raises on some inputs: `VolumeOverlap.PartitionCanRaise` is one,
  `VolumeGroups.RaisesExactlyOnSharedVolume` describes them all.

Library functions are parameters with only the laws a theorem needs: SHA-256, the record hash, NFC and case folding of a
path segment (segments stay non-empty and free of slashes), upper case, CRC-32 (continuing over two pieces is the CRC of
both), `str.casefold` of volume names (idempotent, character by character, keeping digits and lowering R and P), and the
identifiers and fingerprints of a projection. Docker, filesystem, clock, launcher and backends may answer anything or
raise at each call.

## Model

| member | source | states |
|---|---|---|
| TarFrame.FrameConsumer.Feed | src/foliotone/archive/wrapper_stream.py:102-124 | Feeding a chunk to the incremental consumer moves it exactly where the scan of all bytes fed so far goes: chunk, count and size limits first, then every complete block; a refused consumer never changes again. |
| TarFrame.FrameConsumer.AcceptBlock | src/foliotone/archive/wrapper_stream.py:145-180 | One 512-byte block updates payload, padding, header and zero-block accounting as the block function says, or fixes a failure that is never VALID. |
| TarFrame.FrameConsumer.Finish | src/foliotone/archive/wrapper_stream.py:126-143 | Finishing yields the outcome of the bytes fed, and always a result its own constructor takes. |
| TarFrame.ValidateStream | src/foliotone/archive/wrapper_stream.py:190-198 | The driver stops at the first refused chunk; an iterable that raises ends INVALID unless the stream had been refused before. |
| TarFrame.ResultIgnoresChunking | src/foliotone/archive/wrapper_stream.py:102-143 | Any two ways of cutting the same bytes into chunks within the limits give the same result, which is the verdict on the concatenation. |
| TarFrame.ValidIsConstructible | src/foliotone/archive/wrapper_stream.py:44-65 | A stream that ends complete is at least 1,024 bytes long and within the header count, so a VALID result satisfies its constructor. |
| TarGrammar.ValidIffFramed | src/foliotone/archive/wrapper_stream.py:102-180 | VALID exactly for a sequence of (checksummed header, payload, zero padding) within the header and size bounds followed by at least two zero blocks and nothing else; then size, digest and header count are those of the stream. |
| TarGrammar.StreamLimitAdmitsFramed | src/foliotone/archive/wrapper_stream.py:17-23 | A framed stream with two trailing zero blocks is never longer than the stream limit, so that limit never rejects it. |
| TarGrammar.ReadSizeCapsTheStream | src/foliotone/archive/wrapper_stream.py:109-115 | Fed by 65,536-byte reads, the chunk count caps an accepted stream at 2^32 bytes, which is below the advertised stream limit. |
| TarHeader.ParseOctalIsTheGrammar | src/foliotone/archive/wrapper_stream.py:201-210 | A field parses to n exactly when it is spaces, then octal digits denoting n, then NULs and spaces. |
| TarHeader.OctalRoundTrip | src/foliotone/archive/wrapper_stream.py:201-210 | Printing a number in octal between any legal padding and parsing it gives the number back. |
| TarHeader.ReprintedDigits | src/foliotone/archive/wrapper_stream.py:201-210 | The other direction: the value of a digit string prints as that digit string. |
| TarHeader.WrittenChecksumVerifies | src/foliotone/archive/wrapper_stream.py:213-219 | The sum of every blanked header fits six octal digits, and storing it makes the header verify without touching its other bytes. |
| TarHeader.ChecksumIsTheBlankedSum | src/foliotone/archive/wrapper_stream.py:213-219 | For every 512-byte block the checksum verifies exactly when the field holds the sum of all bytes of the block with that field blanked by eight spaces; sums are additive and a single byte sums to itself (`TarHeader.SumAppend`). |
| TarLimits.LimitIffAsksTooMuch | src/foliotone/archive/wrapper_stream.py:145-180 | A byte string is LIMIT_EXCEEDED exactly when behind good entries, padded and whole, comes a header that verifies and asks for more headers, member bytes or total bytes than the bounds allow. |
| TarLimits.OverLimitEnds | src/foliotone/archive/wrapper_stream.py:102-124 | A chunk that breaks the chunk count, chunk size or stream size, behind chunks the consumer was content with, ends the stream LIMIT_EXCEEDED whatever follows. |
| TarHeader.ZeroBlockIsNoHeader | src/foliotone/archive/wrapper_stream.py:213-219 | The all-zero block never passes the checksum, so the end marker cannot be taken for a header. |
| Utf8.DecodeSplit | src/foliotone/archive/sevenzip_slt.py:664-709 | Incremental UTF-8 decoding (RFC 3629, section 3) chunk by chunk is decoding the concatenation, held-back bytes included. |
| Utf8.DecodeIffEncoded | src/foliotone/archive/sevenzip_slt.py:664-709 | Whole-string decoding succeeds with a text exactly on the encoding of that text. |
| SltMachine.Parser.Feed | src/foliotone/archive/sevenzip_slt.py:729-751 | The character loop over line buffer, pending CR and stage reaches the state of the machine function, or its failure. |
| SltMachine.Parser.Close | src/foliotone/archive/sevenzip_slt.py:753-758 | End of input: a pending CR or an unfinished line is refused, otherwise each form applies its own end condition. |
| SltMachine.Parser.Accept | src/foliotone/archive/sevenzip_slt.py:788-823 | One line moves header, separator and member stages as the machine function says and leaves line buffer and CR flag alone. |
| SltMachine.Parser.AddFieldTo | src/foliotone/archive/sevenzip_slt.py:825-853 | The field checks on one line give the new record or exactly the failure of the first check that refuses it. |
| SltMachine.Parser.AppendMember | src/foliotone/archive/sevenzip_slt.py:855-894 | A member joins list and locator map, or the parser fails, exactly as count, collision, conflict and constructor decide. |
| SltMachine.Parser.CloseLockedMember | src/foliotone/archive/sevenzip_slt.py:1007-1085 | Closing a locked record narrows the candidate cases, records the hash and appends the member (what that member is, `SltLockedMembers.UsableIffReads` says), or fails with the code of the first check that fails. |
| SltFields.CrcClass | src/foliotone/archive/sevenzip_slt.py:1186-1205 | An eight-digit checksum is classed CANONICAL_UINT exactly when it is all digits without a leading zero; every other checksum is classed CRC32. |
| SltValues.ClassIs | src/foliotone/archive/sevenzip_slt.py:1186-1205 | A locked value has exactly the class whose own condition it meets, in terms of flags, private names, printed numbers, checksums and timestamps and of no order among them; only a flag that is neither + nor - has none. |
| SltValues.ClassesSayTheFields | src/foliotone/archive/sevenzip_slt.py:1008-1016 | What goes into the hash of a record is the names of its fields and the classes of their values, in order. |
| SltValues.TimestampIsTheGrammar | src/foliotone/archive/sevenzip_slt.py:602-602 | The timestamp test takes exactly a four-digit year, a month and a day of two digits, and a time of digits, colons, points and dashes. |
| SltValues.GoodFieldMeans | src/foliotone/archive/sevenzip_slt.py:825-853 | A field is taken exactly when its name is allowed, its value is unpadded, flags are + or -, numbers are printed numbers of at most 63 bits, checksums eight hexadecimal digits, and it is no overlong comment. |
| SltValues.LimitIs | src/foliotone/archive/sevenzip_slt.py:825-853 | The line of a field is LIMIT_EXCEEDED exactly when it is fine but for a full record or the length of a comment. |
| SltDriver.StepChunk | src/foliotone/archive/sevenzip_slt.py:257-340 | One chunk passes the count and size limits, the decoder, the byte-order-mark rule and the parser, in that order, with the failure code of the first that refuses. |
| SltDriver.ParseStream | src/foliotone/archive/sevenzip_slt.py:200-245 | The driver loop over a parser object computes the fold over the chunks; an iterable that raises ends GRAMMAR_REJECTED. |
| SltDriver.AcceptanceIgnoresChunking | src/foliotone/archive/sevenzip_slt.py:664-709 | In all three forms, chunks within the limits are accepted exactly when their concatenation parses, with the same header, members and candidates. |
| SltRecords.SeparatorIsFirst | src/foliotone/archive/sevenzip_slt.py:825-828 | A name without "=" is split right behind it even when the value contains " = " again. |
| SltRecords.AddsField | src/foliotone/archive/sevenzip_slt.py:825-853 | The line of a good field whose name is new adds exactly that field. |
| SltRecords.AddedField | src/foliotone/archive/sevenzip_slt.py:825-853 | Conversely a line that adds a field is the line of that field, which is allowed, well-formed and new. |
| SltRecords.PlainFieldCount | src/foliotone/archive/sevenzip_slt.py:837-839 | In the plain forms distinct allowed names number at most 23, so the limit of 32 fields can fire in the locked form only. |
| SltGrammar.MembersParsedIffListed | src/foliotone/archive/sevenzip_slt.py:901-931 | The headerless parse accepts exactly the UTF-8 encodings of listings (LF or CRLF lines, distinct allowed fields, every record closed by one blank line, good locators, no conflicts), with the members they denote. |
| SltHeader.DocumentParsedIffListed | src/foliotone/archive/sevenzip_slt.py:753-823 | The parse with a header accepts exactly the encoded documents: complete header, blank, separator, records with blank lines between them only; header and members are the ones spelled out. |
| SltRoundTrip.ParsingUndoesPrinting | src/foliotone/archive/sevenzip_slt.py:825-898 | Conflict-free valid members printed with either line ending, encoded and cut into chunks within the limits parse back to the same list. |
| SltDocument.ParsingUndoesPrintingDocuments | src/foliotone/archive/sevenzip_slt.py:760-898 | The same for documents with a header: header and members both come back. |
| Text.PrintOfValue | src/foliotone/archive/sevenzip_slt.py:1216-1223 | A digit string without a superfluous leading zero is the print of its value, so canonical numbers are the printed ones. |
| Locators.ConflictIsSomeClash | src/foliotone/archive/sevenzip_slt.py:1267-1272 | The one-sided check against the map holds exactly when some entry symmetrically clashes with the new locator. |
| Locators.OnePassIsPairwise | src/foliotone/archive/sevenzip_slt.py:880-884 | Collision and parent/child checks against the growing map accept a list exactly when every pair is compatible. |
| Locators.AncestorIsSegmentPrefix | src/foliotone/archive/sevenzip_slt.py:1261-1264 | On canonical locators the string test for an ancestor is the test that its folded path segments are a proper prefix. |
| LocatorSafety.SafeLocatorsStayBelow | src/foliotone/archive/safety_policy.py:255-290 | A safe locator is relative, has no drive, colon or backslash in any segment and no trailing point or space, and following it segment by segment from any directory goes exactly one level down each time, never up. |
| SltMembers.MemberIsConstructible | src/foliotone/archive/sevenzip_slt.py:428-450 | A record the state machine closes denotes a member its constructor takes. |
| SltMembers.CloseAllIsPairwise | src/foliotone/archive/sevenzip_slt.py:855-894 | Closing records in turn succeeds exactly when each has good shape, they are few enough and no two members conflict. |
| SltResults.AcceptedMembersAreConstructible | src/foliotone/archive/sevenzip_slt.py:69-87 | In all three forms the members of an accepted parse pass the member checks and the one-pass locator check of the result constructor. |
| SltResults.AcceptedDocumentIsConstructible | src/foliotone/archive/sevenzip_slt.py:373-487 | An accepted v1 parse passes the header, comment, member and result constructors. |
| SltResults.LockedResultNeedsOnlyShapes | src/foliotone/archive/sevenzip_slt.py:138-174 | Behind an accepted locked parse only the listed shapes of its case can still refuse the result: case, record count and members always pass. |
| SltLocked.CandidatesMatchPrefix | src/foliotone/archive/sevenzip_slt.py:1007-1031 | For any case table, after k accepted records the candidates are exactly the cases whose first k hashes are those seen. |
| SltLocked.LockedAcceptsOneCase | src/foliotone/archive/sevenzip_slt.py:945-956 | An accepted locked parse equals exactly one case as a whole, which becomes its only candidate, with one member per record. |
| SltLockedGrammar.LockedParsedIffSpelled | src/foliotone/archive/sevenzip_slt.py:934-1085 | For any case table the locked parse accepts exactly the encoded listings that spell out one case and no other, whose first record settles the directory question, with usable conflict-free members; its members are those listed. |
| SltLockedMembers.UsableIffReads | src/foliotone/archive/sevenzip_slt.py:1035-1083 | A locked record yields a member exactly when the member says what the lines say: the locator and both sizes as printed, "Encrypted" with its TAR default, an empty CRC as none, non-empty links, and presence of the rest. |
| SltLockedMembers.LockedParsedIffRead | src/foliotone/archive/sevenzip_slt.py:934-1085 | For any case table the locked parse accepts exactly the encoded listings that spell out one case and no other, and its members say, record by record, what the lines say. |
| SltLockedMembers.LockedResultIffRead | src/foliotone/archive/sevenzip_slt.py:958-971 | A locked result exists exactly for those listings whose members fit the listed shapes of the case field by field, and it is that case with those members. |
| ProcessPump.DeliveryIsBounded | src/foliotone/archive/process_runner.py:163-195 | In every state of every interleaving accepted chunks are a prefix of offered ones and those of the ones read; bytes offered never exceed the limit and a counter exceeds it by at most one read. |
| ProcessPump.SucceededMeansComplete | src/foliotone/archive/process_runner.py:212-274 | SUCCEEDED means both streams were read to their end, every chunk accepted in order and counted, exit code zero, no failure recorded. |
| ProcessPump.RecordedFailuresDecide | src/foliotone/archive/process_runner.py:675-680 | If termination worked, a recorded LIMIT_EXCEEDED decides the status whatever order failures came in, then CONSUMER_REJECTED, then what the loop saw, then the exit code. |
| ProcessPump.EventsDecide | src/foliotone/archive/process_runner.py:212-274 | If termination worked, at most one event made the loop stop; the status is LIMIT_EXCEEDED or CONSUMER_REJECTED if such a failure was recorded, else the answer of that event (CANCELLED, FAILED for a raising probe, TIMED_OUT), else SUCCEEDED exactly for exit zero. |
| ProcessPump.SuccessIsPossible | src/foliotone/archive/process_runner.py:163-274 | Whatever the two streams hold within their limits, some run delivers all of it and returns SUCCEEDED, so success means complete and complete can succeed. |
| Duplex.WrittenIsPrefixOfAccepted | src/foliotone/archive/process_runner.py:339-366 | In every state the bytes written to the inner process begin the bytes accepted, which begin the bytes read; the limits hold for all four threads. |
| Duplex.SucceededMeansComplete | src/foliotone/archive/process_runner.py:434-520 | SUCCEEDED means all four streams were delivered whole, the stream was finalized and everything read was written, both exits zero. |
| Duplex.EventsDecide | src/foliotone/archive/process_runner.py:434-511 | With both processes brought down, at most one event of the run made the loop answer, and the status is that answer (CANCELLED, FAILED, TIMED_OUT or the precedence of the failures so far); if none did, LIMIT_EXCEEDED if it was recorded, else CONSUMER_REJECTED if any failure was, else SUCCEEDED exactly for two zero exits and FAILED otherwise. |
| Duplex.LateLimitLosesToTheLoop | src/foliotone/archive/process_runner.py:434-511 | With both processes brought down and LIMIT_EXCEEDED recorded, it decides the status exactly when no earlier event made the loop answer otherwise: cancellation, a raising probe, expiry, a bad exit, a consumer ending before the producer, or a failure taken up with no limit recorded. |
| DuplexRun.SuccessIsPossible | src/foliotone/archive/process_runner.py:339-520 | Whatever the other streams hold within their limits, any framed stream that comes in chunks the frame consumer takes has a run that writes it whole to the inner process and returns SUCCEEDED. |
| Duplex.CancelledDespiteLimit | src/foliotone/archive/process_runner.py:434-511 | A concrete run that records LIMIT_EXCEEDED, brings both processes down and still answers CANCELLED, unlike `run`. |
| Lifecycle.CleanUp | src/foliotone/archive/container_sandbox.py:507-549 | For any answers: targets are killed or not as a whole, each is removed and asked for, staging is removed only once every target was proven absent; success exactly when every answer was the good one. |
| Lifecycle.CreateAndInspect | src/foliotone/archive/container_sandbox.py:472-489 | A creation counts as attempted from its call on; the run goes on only with an id and a matching inspection. |
| Lifecycle.RunLocked | src/foliotone/archive/container_sandbox.py:413-557 | For every behaviour of backend and filesystem: a start follows a matching inspection and a second staging check, staging goes only behind proven absence, COMPLETED exactly when process and cleanup were good, kills exactly when needed. |
| Lifecycle.RunWrapperLocked | src/foliotone/archive/container_sandbox.py:560-785 | The same for two containers, with the frame verdict deciding rejected streams, and COMPLETED only for a VALID frame whose size and digest are reported. |
| RunOutcomes.StartIsReached | src/foliotone/archive/container_sandbox.py:413-507 | A run reaches its start exactly when nobody cancelled, the approved backend answered, the staging was there and verified twice and the container was created and found as asked; before that it answers CANCELLED only if somebody cancelled, TOOL_UNAVAILABLE only if something was missing, else TOOL_FAILED. |
| RunOutcomes.StartedAnswers | src/foliotone/archive/container_sandbox.py:1708-1720 | Behind its start a run answers, cleanup permitting, the status of its process: a rejected consumer is POLICY_REJECTED, a failure or exception TOOL_FAILED, and the rest keeps its name. |
| RunOutcomes.WrapperStartIsReached | src/foliotone/archive/container_sandbox.py:560-700 | The same for two containers, the second with an id of its own. |
| RunOutcomes.StartedWrapperAnswers | src/foliotone/archive/container_sandbox.py:690-712 | The same for two processes, a refused stream being blamed on the verdict of the frame consumer. |
| Permits.AtMostTwoInFlight | src/foliotone/archive/container_sandbox.py:371-385 | Under every interleaving of calls at most two runs are in flight, at most one per runner, and no permit is returned that was not taken. |
| Permits.EverythingIsReturned | src/foliotone/archive/container_sandbox.py:399-411 | Once every call is back, every lock is free and every permit available. |
| Permits.TurnedAwayOnlyWhenBusy | src/foliotone/archive/container_sandbox.py:371-385 | A call goes on past the lock exactly when no other call on its runner holds it, and runs exactly when fewer than two runs are in flight; otherwise it goes back without a run. |
| WrapperRun.SucceededIsFramed | src/foliotone/archive/container_sandbox.py:602-619 | When the pipe succeeds the bytes written are the whole output of the producer, a framed TAR, and the frame result carries their size and digest. |
| WrapperRun.TerminalIsTheVerdict | src/foliotone/archive/container_sandbox.py:604-620 | On a stream in chunks within the limits the terminal status, when there is one, is the verdict on the bytes, and a stream that ended has one exactly when it is not valid. |
| WrapperRun.WrittenWasAccepted | src/foliotone/archive/container_sandbox.py:606-612 | In every reachable state what was written is a prefix of what the frame consumer accepted. |
| WrapperRun.OutcomeIsConstructible | src/foliotone/archive/wrapper_stream.py:126-143 | Finishing the frame consumer after any chunks whatever never builds a result its constructor rejects. |
| WrapperRun.RunWrapper | src/foliotone/archive/container_sandbox.py:602-785 | COMPLETED reports size and digest of exactly the bytes written to the inner process, which are the whole output of the producer and a framed TAR, with the lifecycle guarantees. |
| Handoff.NothingIsLostOnTheWay | src/foliotone/archive/provider.py:1330-1397 | In every reachable state of every interleaving of pump, consumer, worker and one-slot queue, the chunks put are the ones taken and the one waiting, in order, and begin what was read. |
| Handoff.ListedIsTheWholeParse | src/foliotone/archive/provider.py:1671-1697 | LISTED means the process succeeded and the members are exactly the parse of its complete standard output. |
| ListingRun.ListingIsPossible | src/foliotone/archive/provider.py:1330-1397 | Conversely any output within the limit that parses has a run of pump, queue and worker that ends LISTED with that result. |
| ListingRun.WrapperListingIsPossible | src/foliotone/archive/provider.py:1424-1500 | The same for a wrapper: any framed stream, with any output of the inner process that parses. |
| Handoff.ListedWrapperReadTheWholeStream | src/foliotone/archive/provider.py:1424-1500 | Behind a LISTED wrapper the inner process was written exactly the whole output of the decoder, a framed TAR. |
| ParserReason.RefusedCallIsFlagged | src/foliotone/archive/provider.py:1351-1368 | For a supported signature, a consumer call that is answered false while the runner is active means the parser has refused and set `parser_terminal`. |
| ParserReason.ReasonReachesTheCaller | src/foliotone/archive/provider.py:1671-1697 | Behind a policy-rejected run the answer is the reason of the parser (LIMIT_EXCEEDED or TOOL_FAILED) exactly when the worker finished while the runner was active, else POLICY_REJECTED; for a supported signature the former holds whenever a consumer call was refused during the run. |
| ParserReason.UnsupportedIsARace | src/foliotone/archive/provider.py:1351-1377 | For an unsupported signature the same refused call of the same output ends POLICY_REJECTED when the worker refused before the runner was active and TOOL_FAILED when it did so afterwards: both runs, concretely. |
| ListingAnswers.EveryEndIsAnswered | src/foliotone/archive/provider.py:1671-1697 | Every call that ends answers TOOL_FAILED if the runner failed, else what fits the status its process had ended with: TIMED_OUT and limits keep their name, cancellation and failure are TOOL_FAILED, a success is what the parser says, a rejection the reason of stream or parser; LISTED only behind a success. |
| ListingAnswers.CompletedIsTheWholeParse | src/foliotone/archive/provider.py:1330-1397 | Behind a completed run of a supported signature the result of the worker is the parse of the complete output, to its end or to the chunk that stopped it, and the answer is what that parse says. |
| ListingAnswers.OverTheParserLimit | src/foliotone/archive/sevenzip_slt.py:257-340 | A chunk that takes the output over a limit of the parser behind chunks it was content with makes the parse LIMIT_EXCEEDED, whatever follows. |
| ListingAnswers.ListedSaysTheRecords | src/foliotone/archive/provider.py:1671-1697 | LISTED means that the members say, record by record, what the lines of the complete output say, and fit the shapes of their case. |
| SafetyPolicy.CheckMembers | src/foliotone/archive/safety_policy.py:165-188 | The loop with running totals and a dictionary reports the violation of the first member that has one, judged against all earlier members. |
| SafetyPolicy.Validate | src/foliotone/archive/safety_policy.py:139-196 | Input, member and workspace checks combine into the verdict, with the failure code the source maps to. |
| SafetyPolicy.NoViolationIffGood | src/foliotone/archive/safety_policy.py:199-252 | A member passes the ordered checks exactly when it is a file or directory at a safe place with known, proportionate sizes and nothing special. |
| SafetyPolicy.AcceptsExactlyThePolicy | src/foliotone/archive/safety_policy.py:139-196 | Acceptance is exactly the declarative policy: members good, total and reserve within bounds, canonical paths distinct, no file an ancestor of another member; the result is always constructible. |
| SafetyRefusals.RefusedExactly | src/foliotone/archive/safety_policy.py:313-324 | LIMIT_EXCEEDED exactly when the inputs are out of bounds, the first member that is not fine breaks a limit, or fine members do not fit the workspace; POLICY_REJECTED exactly for an overlap or when the first member that is not fine breaks no limit. |
| SafetyRefusals.RefusedWithCode | src/foliotone/archive/safety_policy.py:139-252 | A refusal carries exactly the code that the inputs, the first member that is not fine (by itself or among the earlier ones) or the workspace earn, in this order. |
| SafetyPolicy.AggregateRatioHolds | src/foliotone/archive/safety_policy.py:176-182 | Once each member passed its own ratio check the running aggregate checks can never fire. |
| SafetyPolicy.AcceptanceIgnoresOrder | src/foliotone/archive/safety_policy.py:139-196 | Acceptance is the same for every order of the members. |
| QuotaSlots.Coordinator.constructor | src/foliotone/archive/quota_slots.py:252-259 | A new coordinator is valid with nothing active and nothing granted. |
| QuotaSlots.Coordinator.LeaseOne | src/foliotone/archive/quota_slots.py:269-300 | A lease is granted exactly under capacity, for a good fresh lease of the one backend with a higher generation; otherwise the coordinator is unchanged; a lease the backend handed over counts as obtained and, when not granted, goes to quarantine; nothing else moves. |
| QuotaSlots.Coordinator.ReturnCapability | src/foliotone/archive/quota_slots.py:302-313 | Exactly an active capability leaves the map; it is RETURNED when the backend attests the same lease, else QUARANTINED and the lease handed over. |
| QuotaSlots.Coordinator.QuarantineCapability | src/foliotone/archive/quota_slots.py:315-323 | Exactly an active capability leaves the map as QUARANTINED and its lease is handed over, even when the backend then raises. |
| QuotaSlots.Coordinator.Settle | src/foliotone/archive/quota_slots.py:308-313 | The answer of the backend to a return decides between returned and quarantined, conserving every lease. |
| QuotaSlots.RootsAreLentWhileActive | src/foliotone/archive/quota_slots.py:195-201 | Under a valid coordinator a granted capability lends roots exactly while it is in the active map, and then those of its own lease. |
| QuotaSlots.GoneStaysGone | src/foliotone/archive/quota_slots.py:230-246 | Whatever is asked afterwards, a capability that is not LEASED stays RETURNED or QUARANTINED as it is, and keeps its place and lease. |
| QuotaSlots.EveryLeaseIsSomewhere | src/foliotone/archive/quota_slots.py:269-323 | Over any requests the leases obtained are exactly those the backend handed over, and each is still leased out, was cleanly returned, or was handed to quarantine. |
| QuotaSlots.GrantKeepsHistory | src/foliotone/archive/quota_slots.py:378-386 | A fresh grant keeps generations strictly increasing per slot and one backend identity for all grants. |
| QuotaSlots.FreshIffHistoryGoesOn | src/foliotone/archive/quota_slots.py:378-386 | A grant is fresh exactly when the history may go on with it: the generations of its slot keep increasing and the backend is the same. |
| QuotaSlots.GoodLeaseMeans | src/foliotone/archive/quota_slots.py:341-352 | A lease is good exactly when it is attested leased, empty, authorized, of the five fixed limits, and of an approved backend. |
| QuotaSlots.GoodReturnMeans | src/foliotone/archive/quota_slots.py:354-376 | A return is clean exactly when the attestation repeats every field of the leased one and says returned, empty and authorized. |
| QuotaSlots.ValidMeans | src/foliotone/archive/quota_slots.py:249-300 | A valid coordinator has at most two LEASED capabilities, exactly those of its map, increasing generations per slot, one identity, and the leases obtained are the active, the returned and the quarantined ones, none lost or counted twice. |
| QuotaSlots.RunRequests | src/foliotone/archive/quota_slots.py:269-323 | From any valid coordinator any sequence of lease, return and quarantine calls against any backend leads to exactly what the books say: a capability that left the map is never LEASED again, and the gain in leases obtained is what the backend handed over. |
| Volumes.GroupIgnoresOrder | src/foliotone/archive/signatures.py:469-487 | The classification of a set of names is the same for every order of the names. |
| Volumes.NumberedGroupIsContiguous | src/foliotone/archive/signatures.py:736-756 | A LISTED numbered group holds exactly the names given, as volumes 1, 2, ... of one stem and one digit width, led by the first. |
| Volumes.EntryGroupIsContiguous | src/foliotone/archive/signatures.py:758-795 | A group with an entry holds exactly the names given: the entry, and the contiguous parts of its stem. |
| VolumePartition.PartitionIgnoresOrder | src/foliotone/archive/signatures.py:490-576 | The partition, or the refusal, is the same for every order of the names. |
| VolumeSets.GroupedIffComplete | src/foliotone/archive/signatures.py:469-487 | Names are grouped exactly when they are at most 256, differ under folding and are, in some order, a complete set: volumes 1, 2, ... of one stem and width, or an entry with all the parts of its stem; the group is that set in its own order. |
| VolumeGroups.GroupedAtIffComplete | src/foliotone/archive/signatures.py:542-568 | A stem yields a group exactly when the names of its only family are a complete set, and that set is the group. |
| VolumeGroups.GroupsAreCompleteSets | src/foliotone/archive/signatures.py:490-576 | The groups of a partition are exactly the complete sets that are the whole of the only family of a stem, and the recognized names that no family uses, each by itself. |
| VolumeGroups.GroupsAreOrdered | src/foliotone/archive/signatures.py:572-576 | The groups come in the order of their entries, by folding and then by the name itself. |
| VolumeFindings.FoundIffComesTo | src/foliotone/archive/signatures.py:542-568 | A stem comes to AMBIGUOUS exactly for several families or one that disagrees in exact stem, width or entry; to ORPHAN for parts without an entry; to UNSUPPORTED for more than 256 names; to MISSING when one of the numbers as many volumes should carry is carried by none. |
| VolumeFindings.FindingsSayTheirStems | src/foliotone/archive/signatures.py:490-576 | The findings of a partition are sorted by their values and list each finding once for every stem that comes to it, and NAME_COLLISION once for every folding that several names share. |
| VolumeGroups.RaisesExactlyOnSharedVolume | src/foliotone/archive/signatures.py:245-249 | Given basenames, partitioning raises exactly when a volume of one complete `.partN.rar` set is also the entry of the complete `.rNN` set of another stem. |
| VolumePartition.GroupsAreDrawnFromInputs | src/foliotone/archive/signatures.py:490-576 | The groups of a partition are disjoint and drawn from the names given. |
| VolumePartition.GroupHoldsItsSources | src/foliotone/archive/signatures.py:206-230 | A LISTED or unsupported group has exactly its sources as members and passes its constructor. |
| Volumes.PatternsExclude | src/foliotone/archive/signatures.py:273-276 | No name matches two of the four volume patterns. |
| VolumeNames.MatchIsTheGrammar | src/foliotone/archive/signatures.py:273-276 | A pattern takes a name with a stem and a number exactly when the name is a non-empty stem, the letters of the marker in either case, digits (1 to 6, 2, 3 to 6, 2) and the tail in either case. |
| VolumeNames.NameSays | src/foliotone/archive/signatures.py:273-276 | What a pattern knows of a name is the stem, the width and the number it is made of. |
| VolumeOverlap.PartitionCanRaise | src/foliotone/archive/signatures.py:490-576 | The two names `x.part1.rar` and `x.part1.r00` alone make the partition raise. |
| VolumeScan.CollectBuckets | src/foliotone/archive/signatures.py:509-523 | The bucket dictionaries hold, per folded stem, exactly the available names of each pattern in order. |
| VolumeScan.DecideStems | src/foliotone/archive/signatures.py:542-568 | The loop over the sorted stems collects the groups, findings and consumed names of the stem-by-stem decision. |
| VolumeScan.PartitionNames | src/foliotone/archive/signatures.py:490-576 | The loops over dictionaries, consumed set and lists compute the partition function the other results are about. |
| WorkspaceShape.ValidateShape | src/foliotone/archive/extraction.py:398-475 | Accepts exactly when the observed files are the listed files in order and spelling, the observed directories are the listed directories and all ancestors, each under one spelling, and the count is within bounds. |
| WorkspaceShape.ExpectMembers | src/foliotone/archive/extraction.py:405-417 | The first loop refuses exactly a repeated key or an ancestor under two spellings. |
| WorkspaceShape.AllowDirectories | src/foliotone/archive/extraction.py:418-423 | The second loop refuses exactly a directory, listed or implied, under two spellings. |
| WorkspaceShape.PlaceObserved | src/foliotone/archive/extraction.py:424-440 | The third loop accepts exactly distinct members each where the dictionaries put them. |
| Extraction.DeadlineGuard.Check | src/foliotone/archive/extraction.py:521-531 | A reading is taken exactly when it is finite, not below the last one and within the deadline. |
| Extraction.ReadingsAscend | src/foliotone/archive/extraction.py:521-531 | Accepted clock readings ascend from the start and never pass the deadline. |
| Extraction.StreamMember | src/foliotone/archive/extraction.py:478-510 | Succeeds exactly for bounded non-empty chunks within all three byte limits under good readings, with size, digest and CRC of exactly the bytes streamed. |
| Extraction.ValidateFile | src/foliotone/archive/extraction.py:242-285 | One file yields evidence exactly when size, limits, stream, identity and listed CRC all fit; the evidence names its ordinal, identity and size, the digest of the bytes streamed, and whether a CRC was compared. |
| Extraction.ValidateWorkspace | src/foliotone/archive/extraction.py:211-300 | Evidence is returned exactly when shape, every file, all running limits and all clock readings are good, and is one piece per listed file in order. |
| Extraction.EvidenceIsOnePerFile | src/foliotone/archive/extraction.py:190-208 | Evidence has one constructible piece per regular file of the handoff, in strictly ascending ordinal order, each attesting the identity and size of its file, the digest of the bytes streamed for it, and whether a CRC was compared. |
| Extraction.SizesFitIffTotals | src/foliotone/archive/extraction.py:254-260 | The checks with the running total let all files pass exactly when no file is too big and the total fits both the total limit and the workspace. |
| Extraction.NoFileIsAnAncestor | src/foliotone/archive/extraction.py:398-475 | In a workspace of the right shape no listed file is an ancestor of another member. |
| JsonScan.ScanObject | src/foliotone/archive/sevenzip.py:1184-1203 | The brace-matching loop finds exactly the closing brace of the scan function. |
| JsonScan.ExtractMember | src/foliotone/archive/sevenzip.py:1168-1204 | The whole extraction equals its specification, None where the source raises. |
| JsonScan.ObjectCloses | src/foliotone/archive/sevenzip.py:1184-1203 | Whatever follows, the scan of a printed JSON object (RFC 8259, sections 4 and 7) stops exactly at its end, for any nesting, braces in strings and escapes. |
| JsonScan.ExtractsExactlyTheObject | src/foliotone/archive/sevenzip.py:1168-1204 | If the quoted name occurs once, as a key followed by a printed object, exactly the text of that object is returned. |
| Projection.ReduceDimensions | src/foliotone/classification/projection.py:280-284 | The loop over the dimensions collects each facet and its links in order. |
| Projection.Reduce | src/foliotone/classification/projection.py:265-304 | The reduction equals the projection function, None where the source raises. |
| Projection.FacetSaysTheHighestTier | src/foliotone/classification/projection.py:307-398 | A facet is empty without assertions, holds exactly the distinct values of the highest tier when within its limit, and is a conflict otherwise; always constructible. |
| Projection.AutomatedLeaveConfirmedAlone | src/foliotone/classification/projection.py:307-398 | A facet with a confirmed assertion is the same whatever automated assertions are added anywhere. |
| Projection.ProjectionIgnoresOrder | src/foliotone/classification/projection.py:265-424 | The projection, or the refusal, is the same for every order of the assertions. |
| Projection.EveryAssertionIsLinkedOnce | src/foliotone/classification/projection.py:276-304 | The sorted links are exactly one link per assertion, in key order. |
| ProjectionLinks.LinkSaysItsFacet | src/foliotone/classification/projection.py:307-378 | Every assertion has one link; under a projected facet it is SELECTED exactly when nothing of its dimension outranks it, else CONSIDERED; under a conflict it is CONFLICTING with the code of the facet unless the dimension is DOMAIN and something outranks it; the code is CONFIRMED_CONTRADICTION, MULTIPLE_EXCLUSIVE_VALUES or CARDINALITY_EXCEEDED by dimension and confirmation. |
| ProjectionLinks.FacetSaysItsValues | src/foliotone/classification/projection.py:307-398 | The facet of a dimension is empty without assertions of it, projects exactly the values that nothing outranks when they are within the limit, and is otherwise in conflict with the code the tiers present call for. |
| ProjectionLinks.IdentitySaysTheKeys | src/foliotone/classification/projection.py:275-304 | The identity of a projection is made of its target and the fingerprint of target and keys: the keys of exactly the given assertions, in ascending order. |
| Projection.ProjectionIsConstructible | src/foliotone/classification/projection.py:84-214 | Whatever the reduction returns passes the projection, facet and link constructors. |

## Left out

- Operating-system effects: processes, file copying, permissions, locks and fsync are reduced to the result of each call.
- Docker and OCI projection checks and the supply-chain tooling under `packaging/`: fixed-value comparisons and network work.
- The equality chains of `_validate_sealed_handoff` and of the lineage dataclasses: each is settled by reading it; `Extraction.Sealed` keeps the one consequence used, that ordinals count positions.
- Run-time type checks (`isinstance`, non-bytes chunks, booleans as numbers): the model is statically typed. A consumer that raises is the same step as one that refuses.
- The platform test before a run takes its lock, which answers TOOL_UNAVAILABLE without touching anything.
- Validation of argument vectors, environments and numeric parameters in `process_runner.py`.
- Liveness and scheduling fairness: the transition systems prove safety for all interleavings; sequential loops terminate.
- Time is a real number; a reading that is not finite is one that fails. One read of a pipe returns at most 65,536 bytes, as it is asked to.
- The four parser classes are one class with a form, since only the overridden steps differ; likewise the four volume group functions are two with parameters.
- The field names of the locked form are written as those of the member form without "Anti" and with 13 more, which is the same set.
- The dictionary of dictionaries of volume families is modelled by the four bucket maps and the lookup it is built from; folding a stem that is already folded a second time is left out, as folding is idempotent.
- Suffix recognition (`_suffix_kind`) and the basename check are parameters of the partition, and signature observation is not modelled.
- The contents of the locked case table and of its member shapes: every statement holds for any table.
- `_inspect` and the orchestration around the two listings, `workflow.py`, application services and enums: wiring.
- The container lifecycle and the queue do not interleave: in the queue system a runner answers anything `Lifecycle.RunAnswers` or `Lifecycle.WrapperAnswers` allows for the way its process ended, which the contracts of `Lifecycle.RunLocked` and `Lifecycle.RunWrapperLocked` keep to.
- QuotaSlots.RunRequests: concurrent callers are not modelled, as every call holds the coordinator's lock from beginning to end.
- Volumes.GroupIgnoresOrder: takes names that passed the basename check, which the callers make first.

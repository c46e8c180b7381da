# Verified models of the Kimi Code core

Seven pieces of the repository whose behaviour is hard to see from any one function, each modelled in
Dafny in the shape of its source and proved against an independent statement of what it is for.
`dafny verify dfyconfig.toml` checks everything.

**Checksums** (`Crc32`, `CrcPolynomial`). The table-driven CRC-32 equals bit-serial division as in
section 8 of RFC 1952, and the register it leaves is the one remainder of the message polynomial over
GF(2). Checksums compose over any split, every burst of at most 32 bits is detected, and the four-byte
continuations of any checksum reach every checksum exactly once.

**Streamed messages** (`StreamAssembly`, `StreamProjection`, `StreamContent`, `StreamReordering`,
`StreamGenerate`). The pending slot, the in-place merge and the index map of `generate` compute, for
every stream whatsoever, a message that can be said without them: the calls are the headers, each with
the deltas it owns, and the content is the maximal joinable runs of the rest. From this follow
conservation of text, thinking and signatures, and the exact condition under which deltas may be
reordered.

**Text** (`Utf8`, `Utf8Decoder`, `Utf8Validator`, `Utf16Decoder`, `Lines`, `TextFile`, `TextTail`,
`LossyLines`, `TextScan`). One definition of lines and one of UTF-8 (sections 3 and 4 of RFC 3629) that
the chunked line reader, the backward tail reader, the one-pass scanner, the streaming validator and the
lossy decoders all agree on, for every file and every way of cutting it into reads (for the tail reader:
into whole blocks).

**Glob** (`GlobWalk`, `GlobEnds`, `GlobLoops`, `GlobMeaning`, `GlobRoutes`, `GlobOrder`, `GlobTree`,
`GlobRegex`, `GlobClass`, `GlobRegexMeaning`, `GlobNames`). The walker ends on every finite directory
graph whose directories have identities, cycles included, and in general exactly when the directories
without one form no cycle; how often it yields a path is counted exactly; with links and cycles it
yields the matching paths that enter no directory twice; on a tree it yields the matching paths, and the
SFTP walker yields the same list. The regular expression compiled from a segment, read back under the
regular expression grammar, classes included, means what the segment says exactly when the segment
quotes no wildcard and has no range that runs backwards, apart from segments that accept nothing; put
together, a whole pattern yields what its wildcards say.

**ACP turns** (`AcpWire`, `AcpTurn`, `AcpTurnSafety`, `AcpTurnTexts`, `AcpTurnCards`, `AcpTurnContent`,
`AcpReplay`, `AcpReplayContent`, `AcpLostCards`). The event listener of one prompt and the replay of a
stored history, over every sequence of events and every pattern of failing pushes: everything said
is sent in order and as what it is, cards are created once and before they are updated, the promise
settles once, and exact conditions say when a card can show another call's text, when an id can be
created twice, and when a client can be left without the card of an update or a result.

**Processes** (`LockFile`, `LockHandle`, `LockInRun`, `LockAlone`, `InstanceRegistry`,
`InstanceRelease`, `InstanceSweep`, `InstanceHandle`). The lock file and the instance registry as any
number of processes that interleave and die anywhere. The lock is modelled one system call at a time,
with open descriptors that outlive a removed file; it excludes if and only if three named pairs of calls
are not interrupted. The registry needs no such assumption: while its process lives, an instance is what
its own steps make of it.

**Shell** (`ShellWords`, `ShellCommand`). The quoting of a remote command against the tokenizer and
quote removal of sections 2.2 and 2.3 of the POSIX Shell Command Language, and when the first argument
is the command that runs (sections 2.4, 2.9.1 and 2.10.2).

Loops and objects that the source updates in place are methods and classes here, each tied to a
function of its inputs or its old state; the theorems are about those functions. Time, I/O results,
other processes and the provider's stream are inputs, quantified over. Strings decoded from bytes are
sequences of code points; other strings are sequences of characters.

Where code and comments differ, the code is followed:

- `packages/acp-adapter/src/session.ts` grants that a provider may reuse a call id in a later turn and
  gives each turn its own card. The argument accumulators, keyed by the SDK's id alone, do not keep the
  two texts apart (`AcpTurnTexts.WholeTextsIff`).
- `packages/kap-server/src/lock.ts` says that racing servers cannot both win. They can, in three ways
  (`LockFile.ExclusiveIff`).
- `packages/kap-server/src/instanceRegistry.ts` calls updates of a single-writer file race-free. An
  update can be overwritten by an older heartbeat of the same process
  (`InstanceRegistry.UpdateSticksIff`).
- The same file describes `release` as removing the instance file, idempotently. A second call resolves
  at once, while the first may still be waiting and the file still be there
  (`InstanceRelease.ReleaseMeansGoneIff`).
- `packages/kaos/src/internal.ts` keeps a backslash out of the text of an escaped `*` or `?`, so the
  compiled expression reads it as a quantifier (`GlobRegexMeaning.FaithfulIffNothingQuoted`).
- `packages/kaos/src/local.ts` returns one line for a line limit below 1 (`TextFile.LimitHolds`), and
  does not look at how much of a tail block was read (`TextTail.TailSurvivesIff`,
  `TextTail.ShortReadExample`).
- Both pushing paths of `packages/acp-adapter/src/session.ts` record a card before its push is known to
  have succeeded, so a client can be sent updates of a card it never got
  (`AcpTurnCards.ClientHasCardsIff`, `AcpLostCards.ClientHasCardsIff`); a result or progress report of a
  call that was never announced is passed on without one (`AcpTurnCards.LandedCardsSufficeIff`); and a
  replayed result can go to the card of an earlier turn (`AcpReplayContent.AllBeginIff`).

## Model

| member | source | states |
|---|---|---|
| Crc32.Checksum.BuildTable | packages/minidb/src/crc32.ts:13-23 | the fresh 256-entry table holds, for every byte, that byte after eight reflected division steps |
| Crc32.Checksum.Crc32 | packages/minidb/src/crc32.ts:32-39 | for every buffer and previous value the result is the bit-serial checksum of section 8 of RFC 1952; the table is built once and kept |
| Crc32.ShiftIsReversible | packages/minidb/src/crc32.ts:18 | one division step is a bijection of the register: it has a two-sided inverse |
| Crc32.FeedByte | packages/minidb/src/crc32.ts:17-19 | feeding a byte's bits one by one, low bit first, is xoring the byte in and taking eight steps |
| Crc32.TableStep | packages/minidb/src/crc32.ts:36 | a table over one byte suffices: the other three bytes pass through a byte step eight places lower and otherwise unchanged |
| Crc32.StreamingComposes | packages/minidb/src/crc32.ts:32-39 | continuing from the checksum of a prefix gives the checksum of the whole, for every split and every `prev` |
| Crc32.FeedInjective | packages/minidb/src/crc32.ts:34-37 | two registers that differ still differ after any common suffix |
| Crc32.FeedDeterminesBits | packages/minidb/src/crc32.ts:34-37 | the register determines the last 32 or fewer bits fed into a known register |
| Crc32.CheckValue | packages/minidb/src/crc32.ts:32-39 | the checksum of the nine digits is 0xCBF43926, the check value of this CRC |
| Crc32.BurstDetected | packages/minidb/src/crc32.ts:32-39 | equal-length messages that differ only inside one window of 32 bits, at any bit offset, have equal checksums if and only if they are equal |
| Crc32.WindowDetected | packages/minidb/src/crc32.ts:32-39 | the same for a window of at most four bytes, for every prefix, suffix and `prev` |
| Crc32.FourBytesReachEveryCrcOnce | packages/minidb/src/crc32.ts:32-39 | from every `prev`, each checksum is reached by exactly one four-byte continuation |
| CrcPolynomial.GeneratorBit | packages/minidb/src/crc32.ts:10 | the constant is the IEEE 802.3 generator without its leading term, in reflected bit order |
| CrcPolynomial.FeedBitDivides | packages/minidb/src/crc32.ts:18 | one step is multiplication by x, plus the incoming bit at x^32, minus the generator when that leaves degree 32 |
| CrcPolynomial.RemainderUnique | packages/minidb/src/crc32.ts:32-39 | a polynomial has at most one remainder of degree below 32 |
| CrcPolynomial.CrcIsRemainder | packages/minidb/src/crc32.ts:32-39 | a polynomial is the remainder of the message polynomial (initial register in front) by the generator if and only if it is the register behind the checksum |
| StreamAssembly.MergeInPlace | packages/kosong/src/message.ts:171-202 | reports whether the two parts can be joined, and leaves the target joined or untouched |
| StreamAssembly.Assembler.FlushPart | packages/kosong/src/generate.ts:317-342 | content goes to the content, a header to the calls and the index map, an orphan delta nowhere |
| StreamAssembly.Assembler.Consume | packages/kosong/src/generate.ts:162-195 | the in-place loop body, pending cell included, is the step function on the abstract state |
| StreamGenerate.Generate | packages/kosong/src/generate.ts:145-262 | for every stream: rejected as empty exactly when it holds nothing but deltas, as think-only exactly when it has thinking, no call and only blank text; otherwise the message has one call for each header with the deltas it owns, and as content the joined maximal runs of the rest |
| StreamProjection.ToolCallsAreProjections | packages/kosong/src/generate.ts:167-195 | for every stream, the calls are the headers in order, each with its own text followed by exactly the deltas it owns: those routed to the latest header with their index, or following it without one |
| StreamContent.MergingConserves | packages/kosong/src/message.ts:171-202 | all text, all thinking, the sequence of signatures and the media of the stream are those of the message, in order |
| StreamContent.ContentIsMaximalRuns | packages/kosong/src/generate.ts:175-214 | the content is what the maximal joinable runs of the parts that are not owned deltas join into; a signed thinking part ends its run, so nothing is appended to one |
| StreamContent.MaximalRunsUnique | packages/kosong/src/message.ts:171-202 | a stream has only one cut into maximal runs, so the previous row determines the content |
| StreamContent.MessageDependsOnProjections | packages/kosong/src/generate.ts:145-214 | for every stream, the message depends only on the parts that are not owned deltas and on each call's own deltas, not on how those interleave |
| StreamContent.ReorderingDeltas | packages/kosong/src/generate.ts:145-214 | when every delta carries the index of an earlier header and no index is reused, any reordering that keeps each index's deltas in order and behind their header gives the same message |
| StreamReordering.OrderFreeIff | packages/kosong/src/generate.ts:167-195 | given the other parts, deltas may be reordered in that way without changing the message if and only if no two calls share an index |
| StreamContent.VerdictOfStream | packages/kosong/src/generate.ts:215-245 | rejected as empty exactly when the stream holds nothing but orphan deltas; as think-only exactly when it has thinking, no call, and no text but blanks |
| Utf8.EncodedExamples | packages/kaos/src/internal.ts:7-82 | two of the examples of section 7 of RFC 3629 |
| Utf8Decoder.DecodeUtf8Ignore | packages/kaos/src/internal.ts:7-82 | the index loop keeps every character of the RFC 3629 grammar and skips every byte that starts none |
| Utf8Decoder.DecodeUndoesEncode | packages/kaos/src/internal.ts:7-82 | decoding undoes encoding (section 3 of RFC 3629) for every sequence of scalar values |
| Utf8Decoder.LosslessIffWellFormed | packages/kaos/src/internal.ts:7-82 | re-encoding gives the input back if and only if the grammar of section 4 of RFC 3629 accepts it |
| Utf8Decoder.DecodeOnlyDeletes | packages/kaos/src/internal.ts:7-82 | on arbitrary bytes the re-encoded output is a subsequence of the input |
| Utf8Decoder.DecodeIsIdempotent | packages/kaos/src/internal.ts:7-82 | the re-encoded output is well-formed and decodes to itself |
| Utf8Decoder.DecodeCut | packages/kaos/src/internal.ts:7-82 | decoding commutes with cutting the input after an ASCII byte or before a byte that continues nothing |
| Utf16Decoder.DecodeUtf16LeIgnore | packages/kaos/src/internal.ts:84-118 | the loop keeps every character whose UTF-16LE encoding is next, skips a code unit that starts none, and drops an odd last octet |
| Utf16Decoder.SurrogateExample | packages/kaos/src/internal.ts:84-118 | the example of section 5 of RFC 2781 |
| Utf16Decoder.Decode16UndoesEncode | packages/kaos/src/internal.ts:84-118 | decoding undoes the encoding of section 2.1 of RFC 2781 for every sequence of scalar values |
| Utf16Decoder.Decode16OnlyDeletes | packages/kaos/src/internal.ts:84-118 | on arbitrary bytes the re-encoded output is a subsequence of the input |
| Utf16Decoder.Lossless16IffEncoded | packages/kaos/src/internal.ts:84-118 | nothing is dropped if and only if the input encodes some text |
| Utf8Validator.Validator.Write | packages/kaos/src/local.ts:816-867 | a chunk is refused exactly when no continuation could make what has been written so far well-formed |
| Utf8Validator.Validator.End | packages/kaos/src/local.ts:816-867 | the end is accepted exactly when everything written, in whatever chunks, is well-formed |
| Utf8Validator.AcceptsIffWellFormed | packages/kaos/src/local.ts:816-867 | the byte automaton returns to its start if and only if the grammar of section 4 of RFC 3629 accepts |
| Utf8Validator.Viable | packages/kaos/src/local.ts:816-867 | input not refused yet can always be completed |
| Utf8Validator.DeadEnd | packages/kaos/src/local.ts:816-867 | refused input can never be completed |
| Utf8Validator.ValidatorAgreesWithDecoder | packages/kaos/src/local.ts:816-867 | the validator accepts exactly what the lossy decoder keeps whole |
| Lines.SplitIsUnique | packages/kaos/src/local.ts:776-788 | the split after each 0x0a is the only cut into lines of which all but the last are terminated |
| Lines.SplitConcat | packages/kaos/src/local.ts:776-788 | splitting commutes with cutting after a terminator |
| Lines.LineCount | packages/kaos/src/local.ts:495-531 | the number of lines is the number of terminators, plus one for an unterminated rest |
| TextFile.FileHandle.Read | packages/kaos/src/local.ts:593-648 | a read returns some next bytes of the file, none only at its end; how many is not determined |
| TextFile.ReadUtf8Lines | packages/kaos/src/local.ts:593-648 | for every file and every chunking, line by line: those from `startLine` on, `maxLines` of them and at least one, each with its bytes, its terminator, and a byte order mark kept except in the first line of the file |
| TextFile.LimitHolds | packages/kaos/src/local.ts:593-648 | for every integer limit, a negative one allowing no line: the reader stays within it if and only if it is at least 1 or there is nothing to emit |
| TextFile.LimitExample | packages/kaos/src/local.ts:593-648 | a limit of 0 and one line to read: it comes |
| TextTail.FindTail | packages/kaos/src/local.ts:557-584 | for every count, block size and number of bytes, one at least, that each block read returns, the backward scan stops where the last lines of what it saw begin; that is where the file's last lines begin if and only if every terminator from there on but the last byte was read; with whole reads it always is |
| TextTail.TailSplit | packages/kaos/src/local.ts:557-584 | the offset behind the right terminator, counted from the end, is where those lines begin, whether or not the file ends in one |
| TextTail.TailStartIs | packages/kaos/src/local.ts:557-584 | that offset is the only one from which the file splits into its last `tailCount` lines |
| TextTail.TailSurvivesIff | packages/kaos/src/local.ts:566-568 | zeros in place of unread bytes leave the offset right if and only if they hide no terminator at or behind the one before the tail, the last byte aside |
| TextTail.ShortReadExample | packages/kaos/src/local.ts:566-568 | three bytes of which a read returns one: the scan stops at 0, the last line begins at 2 |
| LossyLines.ReadRange | packages/kaos/src/local.ts:869-882 | the requested bytes, gathered over short reads |
| LossyLines.SplitLinesKeepingTerminator | packages/kaos/src/local.ts:776-788 | the text loop computes the split after each line feed |
| LossyLines.ReadTailLines | packages/kaos/src/local.ts:545-591 | for every decoder, strict, replacing or ignoring: the lines of the decoded tail, or what the decoder throws; nothing for a count below 1 or an empty file |
| LossyLines.IgnoredTail | packages/kaos/src/local.ts:545-591 | in `ignore` mode those are the decodings of the file's last lines, without a last one that decodes to nothing |
| LossyLines.LinesReadJoin | packages/kaos/src/local.ts:593-648 | the texts the line reader yields for a file in `ignore` mode, joined, are the decoding of the file |
| LossyLines.DecodedLinesJoin | packages/kaos/src/internal.ts:7-82 | the decodings of a file's lines, joined, are the decoding of the file |
| LossyLines.SplitOfDecoded | packages/kaos/src/local.ts:545-591 | splitting the decoded file gives the decoded lines, except those that decode to nothing |
| LossyLines.SameLinesIff | packages/kaos/src/local.ts:545-591 | decoding before or after splitting gives the same lines if and only if the last line does not decode to nothing |
| TextScan.UpdateLineEndingFlags | packages/kaos/src/local.ts:790-814 | carrying one bit over the chunk boundary keeps the flags true of everything seen |
| TextScan.CountBytes | packages/kaos/src/local.ts:513-518 | the running counts are those of everything seen |
| TextScan.ScanTextFile | packages/kaos/src/local.ts:495-531 | for every chunking: fails if and only if the file is not well-formed UTF-8; otherwise counts the lines that the line reader emits, and the flags hold exactly when the whole file has a CR LF pair, an LF not after CR, a CR not before LF, a NUL, a final terminator |
| GlobLoops.GlobWalkFrom | packages/kaos/src/local.ts:344-450 | on any directory graph, cycles and missing identities included: every walk that ends yields, in order, what the walk cut off at a sufficient depth says |
| GlobLoops.Glob | packages/kaos/src/local.ts:299-322 | the same from a root that counts as visited, whichever sufficient depth is taken; with identities throughout, links and cycles included, a path comes out if and only if it exists and matches and no directory is entered twice on it, the starting directory included |
| GlobWalk.DescentShrinks | packages/kaos/src/local.ts:396-403 | every descent the cycle check allows uses up an identity, so links can be followed only finitely often |
| GlobMeaning.CountWalk | packages/kaos/src/local.ts:356-448 | on any keyed graph, cycles included, a path is yielded once for each way to lay the pattern parts over it |
| GlobMeaning.WaysIffMatches | packages/kaos/src/local.ts:356-448 | there is a way exactly when the path matches, `**` standing for zero or more directories, and a trailing `**` is not turned away from its last directory by the cycle check |
| GlobMeaning.OneStarOneWay | packages/kaos/src/local.ts:356-448 | with at most one `**` there is at most one way |
| GlobRoutes.WalkReaches | packages/kaos/src/local.ts:299-448 | said of the walk: yielded exactly when each name is listed where the one before it leads, the pattern matches, and the directories entered, the first one included, have distinct identities |
| GlobRoutes.SelfLinkExample | packages/kaos/src/local.ts:308-321 | in a directory that only links to itself `**` yields that directory and nothing else |
| GlobOrder.GlobInOrder | packages/kaos/src/local.ts:356-448 | with `**` in the last place only, if at all: no path twice, a directory before what is below it, and otherwise the order of the listings |
| GlobTree.GlobYieldsMatches | packages/kaos/src/local.ts:356-448 | on a directory tree the walk yields exactly the existing paths that match, each once when the pattern has at most one `**` |
| GlobTree.DotsAreGone | packages/kaos/src/ssh.ts:673 | of an SFTP listing, `.` and `..` are dropped and nothing else |
| GlobTree.SshGlob | packages/kaos/src/ssh.ts:618-705 | for the same listing order the walker without a cycle check yields, on a tree and from any starting point, the same list |
| GlobEnds.WithinIsWalk | packages/kaos/src/local.ts:344-450 | the walk cut off at a depth is, where it is not cut off and directories have identities, the walk |
| GlobEnds.EndsWithoutBareCycle | packages/kaos/src/local.ts:344-450 | whatever has been visited, a walk ends on every graph whose readable directories without an identity form no cycle |
| GlobEnds.NoIdentityNoEnd | packages/kaos/src/local.ts:43-55 | in a directory without an identity that contains itself, `**` goes on at every depth |
| GlobEnds.GlobEndsIff | packages/kaos/src/local.ts:43-55 | on any graph, glob ends from every starting point and for every pattern if and only if the readable directories without an identity form no cycle |
| GlobEnds.KeyedWalkEnds | packages/kaos/src/local.ts:344-450 | with identities throughout, the cut-off walk is the walk from some depth |
| GlobNames.GlobYieldsWildcardMatches | packages/kaos/src/local.ts:356-448 | on a tree, with the compiled expressions in place, a pattern that quotes no wildcard and has no backward range yields exactly the existing paths whose components its wildcards and classes accept |
| GlobRegex.GlobPatternToRegex | packages/kaos/src/internal.ts:186-238 | the index loop writes the text of the compiled pattern, brackets included |
| GlobClass.ClassTextIs | packages/kaos/src/internal.ts:199-213 | the text in brackets: negated by a leading `!` only, a leading `^` and every backslash escaped |
| GlobClass.ClassReadsBack | packages/kaos/src/internal.ts:199-213 | read as a class of a regular expression, it has the same members and the same negation as the segment's class |
| GlobRegexMeaning.BodyIsText | packages/kaos/src/internal.ts:186-238 | that text is the text of the segment's tokens, classes included |
| GlobRegexMeaning.PlainReadsBack | packages/kaos/src/internal.ts:186-238 | with no wildcard quoted and no range that runs backwards, the text parses back to one item for each token |
| GlobRegexMeaning.PlainItemsMean | packages/kaos/src/internal.ts:186-238 | those items accept exactly the slash-free names that the wildcards accept |
| GlobRegexMeaning.QuotedShortens | packages/kaos/src/internal.ts:219-230 | each quoted wildcard is swallowed as a quantifier, so the expression accepts a name too short for the segment |
| GlobRegexMeaning.UnorderedFails | packages/kaos/src/internal.ts:199-213 | with a range that runs backwards it is no regular expression |
| GlobRegexMeaning.FaithfulIff | packages/kaos/src/internal.ts:186-238 | for every segment: the compiled expression means what the segment says if and only if no range runs backwards and no `*` or `?` is escaped, or else both accept nothing because a class that must take a character has none |
| GlobRegexMeaning.FaithfulIffNothingQuoted | packages/kaos/src/internal.ts:186-238 | where every class accepts something, if and only if no range runs backwards and no `*` or `?` is escaped |
| GlobRegexMeaning.QuotedStarExample | packages/kaos/src/internal.ts:219-230 | a segment with an escaped star compiles to an expression that accepts a name it should not |
| GlobRegexMeaning.NegatedExample | packages/kaos/src/internal.ts:207-208 | `[!a-c]` is a negated class of three characters |
| GlobRegexMeaning.CaretExample | packages/kaos/src/internal.ts:209-211 | `[^a]` is a class of two characters |
| AcpWire.WireIdInjective | packages/acp-adapter/src/events-map.ts:93-95 | wire ids are equal if and only if turn and call id are, whatever characters the call ids contain |
| AcpTurn.TurnListener.OnEvent | packages/acp-adapter/src/session.ts:957-1207 | the listener, branch by branch on its five fields, is the step function |
| AcpTurn.TurnListener.OnToolCallStarted | packages/acp-adapter/src/session.ts:1033-1091 | a start replaces the accumulated text and pushes a create or, for an id created before, an upgrade, then a plan if there is one |
| AcpTurn.TurnListener.OnToolCallDelta | packages/acp-adapter/src/session.ts:1092-1134 | the first delta of an id creates its card; a later one pushes all the text accumulated under the call id |
| AcpTurn.TurnListener.OnKickFailed | packages/acp-adapter/src/session.ts:1209-1214 | a rejected kick-off settles an open turn and leaves a settled one alone |
| AcpTurnContent.RunTurnBody | packages/acp-adapter/src/session.ts:920-1216 | what a prompt sends and how it is answered, for every sequence of events: everything of `WireTellsAll` and `RunIsAnswered` |
| AcpTurnContent.WireTellsAll | packages/acp-adapter/src/session.ts:957-1165 | kind by kind and in order, the wire holds what the main agent brings while the prompt is open: its texts as message chunks, its thinking as thought chunks, every result with its call, status and content, every shown progress report as a title, every todo list as a plan, every start as a card in progress, every delta as a card being written; and no user chunk |
| AcpTurnContent.FirstDeltaCard | packages/acp-adapter/src/events-map.ts:229-271 | the first delta of a call makes a pending card, under the name it brings or `tool`, with its text |
| AcpTurnContent.RunIsAnswered | packages/acp-adapter/src/session.ts:973-1214 | no answer while the prompt is open, and then one: the stop reason or the error that the settling input calls for |
| AcpTurnContent.CurrentTurnIsSeen | packages/acp-adapter/src/session.ts:966-985 | while the prompt is open the current turn is that of the main agent's last event with a turn |
| AcpWire.PlanFromDisplay | packages/acp-adapter/src/events-map.ts:401-476 | the items of a todo list in order, in progress or completed where it says so; no plan for an empty list or another display |
| AcpTurnSafety.CreateBeforeUpdate | packages/acp-adapter/src/session.ts:957-1207 | no id is created twice, and every delta and start-upgrade update follows the create of its id |
| AcpTurnSafety.CardsAreAnnounced | packages/acp-adapter/src/session.ts:957-1207 | while the turn runs, the ids created are exactly those of the deltas and starts of the main agent so far |
| AcpTurnSafety.ResultsFollowCards | packages/acp-adapter/src/session.ts:957-1207 | a result or progress update finds its card exactly when a delta or a start came first |
| AcpTurnCards.SubscribedIff | packages/acp-adapter/src/session.ts:957-1214 | the listener is subscribed exactly until the kick-off fails, the main agent's turn ends, or it reports being busy before a turn of this prompt has started |
| AcpTurnCards.ChangeIsSent | packages/acp-adapter/src/session.ts:1033-1165 | a result, a shown progress report, and a delta or start of a call announced before, each sends an update of its card there and then |
| AcpTurnCards.SentByChange | packages/acp-adapter/src/session.ts:1033-1165 | every update of a card comes from such an input |
| AcpTurnCards.OneFailureIsEnough | packages/acp-adapter/src/session.ts:1061-1124 | for each such input, one failing push at most leaves the client with an update and no card: a failed create is not repeated |
| AcpTurnCards.ClientHasCardsIff | packages/acp-adapter/src/session.ts:957-1207 | whatever pushes fail, every delta, upgrade, progress report and result that reaches the client finds a card that reached it, if and only if no input changes a card while the prompt is open |
| AcpTurnCards.LandedCardsSuffice | packages/acp-adapter/src/session.ts:957-1207 | when no push of a create fails, every delta and upgrade finds a card that reached the client, and so does everything else if no result or progress report is for an unannounced call |
| AcpTurnCards.LandedCardsSufficeIff | packages/acp-adapter/src/session.ts:1135-1165 | over all failures that spare the creates, the client has every card it is sent updates of, if and only if no result or progress report comes for a call that no delta or start has announced |
| AcpTurnCards.LostCreateExample | packages/acp-adapter/src/session.ts:1092-1134 | two deltas of one call, the first push lost |
| AcpTurnCards.OrphanExample | packages/acp-adapter/src/session.ts:1148-1165 | a result with nothing before it and nothing lost |
| AcpTurnSafety.SettlesOnce | packages/acp-adapter/src/session.ts:920-1216 | the promise settles at most once and nothing changes after that |
| AcpTurnSafety.CardsShowTheWholeText | packages/acp-adapter/src/events-map.ts:203-322 | unless ids are reused across turns, each delta and start carries all the argument text of its call so far |
| AcpTurnSafety.StaleDeltaExample | packages/acp-adapter/src/session.ts:957-1207 | a delta for an earlier turn's call shows the text of the later call with the same SDK id |
| AcpTurnTexts.WholeTextsIff | packages/acp-adapter/src/session.ts:957-1207 | whatever the texts are, every delta and start shows the whole text of its call, if and only if no delta comes for a call whose id a later turn has used since |
| AcpReplay.Replayer.SessionUpdate | packages/acp-adapter/src/session.ts:590-605 | every push is attempted and recorded, and may fail |
| AcpReplay.ToolMessageContent | packages/acp-adapter/src/session.ts:1636-1657 | the loop makes one entry of every part that is not an empty text, a placeholder of every part that is no text |
| AcpReplay.Replayer.ReplayMessage | packages/acp-adapter/src/session.ts:580-650 | one message: its chunks and cards in order up to the first failing push |
| AcpReplayContent.ReplayHistory | packages/acp-adapter/src/session.ts:526-570 | a failure ends its message only; with none, the user chunks are the texts of the user messages, the message chunks those of the assistant messages, the thought chunks their thinking, empty ones left out, with one result for each answered tool message, failed exactly if it is an error, all in order |
| AcpReplayContent.ReplayConveys | packages/acp-adapter/src/session.ts:526-695 | with no failure, the pushes are what the messages convey, one after the other, and nothing else |
| AcpReplayContent.ToolContentLaws | packages/acp-adapter/src/session.ts:1636-1657 | the content of a result is that of its parts in order: nothing for an empty text, a text as it is, a placeholder for what is no text |
| AcpReplayContent.AllBeginIff | packages/acp-adapter/src/session.ts:580-650 | whatever pushes fail, every message sends a beginning of what it conveys, if and only if no tool message answers a call made before and made again in a message that pushes something before it comes to that call |
| AcpReplayContent.AnsweredLateGoesWrong | packages/acp-adapter/src/session.ts:606-645 | for every other history one failing push sends a result to the card of an earlier turn |
| AcpReplayContent.AnsweredLateExample | packages/acp-adapter/src/session.ts:606-645 | a call made, made again behind a text, and answered |
| AcpReplay.ResultsFollowCards | packages/acp-adapter/src/session.ts:526-650 | whatever pushes fail, an update of a card is pushed only for an id whose card was pushed before |
| AcpReplay.CardsOnceIffIdsDistinct | packages/acp-adapter/src/session.ts:526-650 | with no failures, no id is created twice if and only if no assistant message repeats a call id; failures cannot add a duplicate |
| AcpReplay.RepeatedCallExample | packages/acp-adapter/src/session.ts:606-616 | one message with two calls of one id creates the card twice |
| AcpReplay.LostCardExample | packages/acp-adapter/src/session.ts:526-650 | when the push of a card fails, its result can still be sent |
| AcpLostCards.CardsSuffice | packages/acp-adapter/src/session.ts:526-650 | for every pattern of failures that spares the cards, every update of a card that reaches the client finds a card that reached it |
| AcpLostCards.AnsweredCanBeLost | packages/acp-adapter/src/session.ts:610-640 | for every history with an answered call, some failing push leaves the client with a result and no card |
| AcpLostCards.ClientHasCardsIff | packages/acp-adapter/src/session.ts:526-650 | whatever pushes fail, every update of a card that reaches the client finds a card that reached it, if and only if no tool message answers a call of an earlier assistant message |
| LockFile.AtMostOneHolder | packages/kap-server/src/lock.ts:193-279 | in every run in which no process makes a call inside another's window, with crashes anywhere, at most one living process holds the lock, and the file names it unless it is just rewriting its port |
| LockFile.OthersLeaveItAlone | packages/kap-server/src/lock.ts:248-279 | in such a run no acquisition, release or port update of another process changes the file of a living holder |
| LockFile.StaleLockIsTakenOver | packages/kap-server/src/lock.ts:206-243 | a process that finds a lock unreadable or naming a dead pid holds it after five calls of its own |
| LockFile.CreatingMatters | packages/kap-server/src/lock.ts:164-186 | two processes can both hold the lock when another runs between exclusive create and write |
| LockFile.TakingOverMatters | packages/kap-server/src/lock.ts:213-236 | likewise between reading a stale lock and removing it |
| LockFile.RewritingMatters | packages/kap-server/src/lock.ts:267-277 | likewise between the truncation and the write of a port update |
| LockFile.ExclusiveIff | packages/kap-server/src/lock.ts:193-279 | at most one process holds the lock in every run, if and only if all three windows are left undisturbed |
| LockHandle.Path.TryExclusiveCreate | packages/kap-server/src/lock.ts:164-186 | create-exclusive and write, with anything happening in between; the write goes to the file that was created |
| LockAlone.ReleaseAlone | packages/kap-server/src/lock.ts:252-266 | undisturbed, a first release removes the file exactly if it is no lock or names the process, and gives the handle up |
| LockAlone.ReleasedLockIsFree | packages/kap-server/src/lock.ts:193-266 | once the owner has released its lock, another process acquires it with its next two calls |
| LockAlone.AcquireFree | packages/kap-server/src/lock.ts:164-206 | with no file there, two calls make one that names the process |
| LockAlone.AcquireHeld | packages/kap-server/src/lock.ts:206-212 | a lock of a living process is left alone and its contents go into the error |
| LockAlone.UpdateAlone | packages/kap-server/src/lock.ts:267-277 | a port update changes the port of the process's own lock and no other field, and no other lock |
| LockHandle.AcquireLock | packages/kap-server/src/lock.ts:193-246 | the straight-line code, others interleaved before each call, is the acquiring process of `LockFile`; with nothing there it has the lock, a living owner refuses it with what was read, anything else is removed and the first to create then has the lock |
| LockHandle.ReleaseHandle.Release | packages/kap-server/src/lock.ts:252-266 | the first release removes the entry if and only if it was there at the first look and what is then read is no lock or names the owner; a second one makes no call |
| LockHandle.ReleaseHandle.UpdatePort | packages/kap-server/src/lock.ts:267-277 | rewrites exactly a lock that names the owner with another port, with everything else as it was read; also after a release |
| LockInRun.OperationInRun | packages/kap-server/src/lock.ts:193-279 | in every run, whatever others do in between, the operation of a process from its call to its end is that operation in the world of the states in which it makes its calls |
| LockInRun.AcquireInRun | packages/kap-server/src/lock.ts:193-246 | so an acquisition in a run is `AcquireLock` there: the same number of calls, the same file after the last, the same handle or error |
| LockInRun.ReleaseInRun | packages/kap-server/src/lock.ts:252-266 | and a first release is `Release`, whatever other handles the process has |
| LockInRun.UpdateInRun | packages/kap-server/src/lock.ts:267-277 | and a port update, through any handle, is `UpdatePort` |
| InstanceHandle.Registration.StartWrite | packages/kap-server/src/instanceRegistry.ts:255-269 | keeps the counter equal to the number of writes under way; adds a write with the port of this moment exactly when release has not been called |
| InstanceHandle.Registration.RenameLands | packages/kap-server/src/instanceRegistry.ts:151-172 | the file gets what the write was begun with, under the instance's own pid |
| InstanceHandle.Registration.FinishWrite | packages/kap-server/src/instanceRegistry.ts:270-273 | wakes a release exactly when it was waiting and this was the last write under way |
| InstanceHandle.Registration.UpdatePort | packages/kap-server/src/instanceRegistry.ts:287-291 | before release, the port changes and a write that carries it is under way; after release, nothing changes |
| InstanceHandle.Registration.Release | packages/kap-server/src/instanceRegistry.ts:292-302 | the first call waits exactly when writes are under way, and no write can start after it; a second call does nothing |
| InstanceHandle.RunInstance | packages/kap-server/src/instanceRegistry.ts:246-309 | the closure driven through any sequence of its own steps ends with the registration and the file that the step functions give |
| InstanceHandle.OnlyOwnStepsMatter | packages/kap-server/src/instanceRegistry.ts:175-309 | in every run, while its process lives, an instance's registration and file are what its own steps alone make of them |
| InstanceHandle.InstanceInRun | packages/kap-server/src/instanceRegistry.ts:238-309 | from its registration on, an instance among any peers is the closure driven by its own steps |
| InstanceRegistry.NextKeepsInv | packages/kap-server/src/instanceRegistry.ts:175-309 | every step of any process keeps: the counter is the number of writes under way, a file has its owner's pid, a resolved release has no file and no writes, no living instance is condemned by a sweep |
| InstanceRegistry.ReleasedStaysGone | packages/kap-server/src/instanceRegistry.ts:294-307 | in every run, once the first call of release has resolved, the file is absent for good and no write is under way that could bring it back |
| InstanceRelease.SecondReleaseReturnsAtOnce | packages/kap-server/src/instanceRegistry.ts:293 | a later call changes nothing and waits for nothing |
| InstanceRelease.GoneForGoodIff | packages/kap-server/src/instanceRegistry.ts:255-307 | after any call of release, the file is gone for good if and only if it is not there and, while its process lives, no write is still to be renamed |
| InstanceRelease.ReleaseMeansGoneIff | packages/kap-server/src/instanceRegistry.ts:292-307 | that a release has been called and has come so far means, in every run, that the file is gone for good, if and only if the first call has resolved; for every other stage there is a run with the file on disk |
| InstanceRegistry.DrainsWhenWritesEnd | packages/kap-server/src/instanceRegistry.ts:270-301 | after any further run, with anything in between, a called release is still waiting if and only if fewer writes have ended than were under way |
| InstanceSweep.DeadAreSwept | packages/kap-server/src/instanceRegistry.ts:175-196 | an undisturbed sweep removes, of the files listed, exactly those that decode and name a dead process |
| InstanceSweep.CondemnedIsRemoved | packages/kap-server/src/instanceRegistry.ts:188-196 | whatever comes between, a sweep that has found the process gone removes the file |
| InstanceRegistry.NoPeerTouchesIt | packages/kap-server/src/instanceRegistry.ts:175-226 | in every run, until its release or its process's end, only an instance's own renames change its file; no sweep does, however long ago it read |
| InstanceRegistry.ListedWhileInService | packages/kap-server/src/instanceRegistry.ts:204-226 | and once on disk it stays there, with a living pid, for every peer to list |
| InstanceRegistry.StaleWriteWins | packages/kap-server/src/instanceRegistry.ts:255-291 | whenever a write with another port is still on its way at an update, it can land last |
| InstanceRegistry.StaleHeartbeatExample | packages/kap-server/src/instanceRegistry.ts:278-291 | from an empty directory, one heartbeat under way is enough for an update not to stick |
| InstanceRegistry.UpdateSticksIff | packages/kap-server/src/instanceRegistry.ts:287-291 | an updated port, once landed, stays on disk until the next update or release in every continuation, if and only if no write with another port was on its way at the update |
| ShellCommand.QuoteReadsBack | packages/kaos/src/ssh.ts:114-120 | the shell reads a quoted argument, wherever in a word it stands, as exactly that argument |
| ShellCommand.BuildExecCommand | packages/kaos/src/ssh.ts:894-923 | fails with the first name that is not a shell variable name, and otherwise builds a command that the shell splits into `cd`, the directory and `&&` (if there is one), each `KEY=value`, and each argument, all unchanged |
| ShellCommand.CommandDetermines | packages/kaos/src/ssh.ts:894-923 | two calls that build the same command have the same directory and the same words |
| ShellCommand.FirstArgumentRunsIff | packages/kaos/src/ssh.ts:894-923 | the shell takes the first argument for the command's name, behind the environment's assignments, if and only if it is not `NAME=value` without characters that need quotes and not, with no assignment before it, a reserved word |
| ShellCommand.AssignmentExample | packages/kaos/src/ssh.ts:894-923 | with no environment the argument `A=b` names no command |

## Left out

- StreamAssembly: callbacks, abort signals, timing, finish reasons, usage and trace ids; stream parts other than the pending one are values, so aliasing between a provider's part objects and the message is not modelled.
- Crc32: a `prev` that is not an unsigned 32-bit number, which JavaScript would first reduce to 32 bits.
- `TextDecoder` in strict and replace modes, and every encoding other than UTF-8 and UTF-16LE, belong to the platform.
- TextFile: the file does not change while it is read.
- GlobWalk: directories do not change during a walk.
- GlobLoops.GlobWalkFrom: a walk that does not end has no list of yields here; `GlobEnds.GlobEndsIff` says when there is one.
- GlobTree.SshGlob: the source's two loops over one listing are one loop with a branch.
- GlobRegex: `caseSensitive` false, UTF-16 code units, and the error that an expression with a backward range throws.
- AcpTurn: prompt conversion, slash commands, approval and question requests, logging and telemetry. A failed push changes nothing in the listener; what it means for the client is `AcpTurnCards.ClientHasCardsIff`. A tool's output is its text, or None where there is none or a marker hides it.
- AcpTurnSafety.CardsShowTheWholeText: one direction only, because texts may coincide; `AcpTurnTexts.WholeTextsIff` has both, over all texts.
- AcpReplay: lookup of the stored agent state and the warnings for missing ids.
- LockFile: the JSON text of a lock (a file either parses to contents or does not), pid reuse, and file errors other than EEXIST and ENOENT; the read that words a lost race is taken together with the failed create.
- InstanceRegistry: temporary files, JSON decoding beyond a file decoding or not, timer cadence, the order of the list of live instances, colliding server ids, and pid reuse.
- ShellCommand: aliases, shell functions and built-ins, and what the shell does with its words beyond telling assignments and reserved words from the command's name.
- The write-ahead log, snapshots, indexes and clustering of minidb are not part of this model.
- `packages/agent-core-v2/src/hooks.ts`, user interfaces, server wiring, configuration, migrations, image compression, SSH authentication and shell probing would add only plumbing or one-branch facts.

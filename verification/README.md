# Verified model of the ErmyaGraph query service

This project models, in Dafny 4.11, the parts of the ErmyaGraph server and its
tools in which a mistake is easy to make and hard to see, and proves what they
promise: the Bolt session state machine and the client that pipelines requests to
it, the Cypher preprocessor, the importer's statement splitter, the audit
pipeline, chunked framing, and the parse cascade with its cache.
`dafny verify dfyconfig.toml` checks the whole project.

## How it is laid out

| file | models |
|---|---|
| `Texts.dfy`, `Slicing.dfy` | texts as UTF-8 code units, trimming, the word searches, slices at character boundaries |
| `Lexer.dfy` | string literals in queries and the mask that blanks them |
| `Comments.dfy`, `Clauses.dfy`, `Preprocessor.dfy` | the rewrite passes and the fast path |
| `Removal.dfy`, `Boundaries.dfy`, `Samples.dfy` | what the REMOVE pass leaves behind; well-formed texts stay well formed; one text for each pass and each error |
| `Strict.dfy`, `Sightings.dfy`, `Statements.dfy` | the scan of strict mode and what it sees, the parse cascade and the parse cache |
| `Framing.dfy` | chunked messages |
| `BoltSession.dfy` | one session as a function of request and environment, its invariants and its runs |
| `Handler.dfy` | the handler as an object that updates its fields, proved to take those steps |
| `Admission.dfy`, `Answers.dfy` | who is let in, and which error a RUN is answered with |
| `Traces.dfy`, `Transactions.dfy`, `Fetching.dfy` | the calls of a run and its observers; transactions; results |
| `Batching.dfy`, `BatchAge.dfy`, `Flushing.dfy`, `Sharing.dfy`, `OwnWrites.dfy` | implicit batches: accounts, flushes, sessions that share a database, reading what was written |
| `Pipeline.dfy`, `PipelinedRuns.dfy` | the client, two queues, and client and session composed |
| `Importing.dfy`, `Executions.dfy`, `Adrift.dfy` | whole imports, what they executed, and connections out of step |
| `Splitter.dfy`, `Printing.dfy`, `Trailing.dfy`, `Quoting.dfy` | the importer: splitting files, printing them, quoting strings |
| `SlowGate.dfy`, `Rotation.dfy`, `Backpressure.dfy` | the audit pipeline: rate gate, log rotation, bounded channel |

Code that changes state step by step is a class or a method with loops, proved
against a specification function; the theorems are about those functions.
`World` (in `BoltSession`) carries the answers of everything outside the session:
engine, registry, authentication, rate limiter, clock. The theorems hold for all
of them. Automatic induction is off throughout: every inductive step is written
out.

## Where the code does not do what it says

Each of these is a theorem, with the exact condition under which the promise does
hold and an input on which it does not.

- A session that names another database lets go of the old one first. If the new
  one cannot be had while mutations are unflushed, the batch is stranded: the
  handler panics at the next RESET or at the end of the connection, whatever
  happens in between (`PanicsExactly`, `StrandsExactly`, `StrandedBatchIsLost`,
  `StrandingHappens`).
- A session is to read its own writes. A read runs ahead of them if and only if it is
  a procedure call, for which nothing is flushed, or the batch is clean, on a database
  with a mutation unflushed (`StepReadsExactly`, `ReadsSeeOwnWritesExactly`,
  `CallsRunAhead`). The latter comes of moving between databases: the flush goes to
  the database that is bound by then, and a mutation on another one is lost to the
  session if and only if it is flushed in its stead (`StepLosesExactly`,
  `WritesAreFlushedOrPassedOver`, `MovingHidesWrites`, `MovingLeaks`). A client that
  neither moves nor calls with a dirty batch reads what it wrote
  (`CarefulClientsReadTheirWrites`).
- A query that names another database inside a transaction carries the
  transaction's id there (`StepInOrder`, `SwitchingBreaksOrder`).
- An auto-flush, or a mutation that fails on a clean batch, leaves one batch open
  too many. From then on no flush of that session reaches depth zero, so none
  syncs the log: each leaves the engine at as many levels as there were such
  slips before it (`RunsBalance`, `DepthIsExact`, `FlushSyncsExactly`,
  `EveryFlushExactly`, `NoFlushSyncsAfterSlip`, `LeakHappens`). Nor does any flush of
  another session on that database (`SharedFlushSyncsExactly`,
  `NoSessionSyncsAfterSlip`). A flush that has moved may find nothing to end
  (`DepthOnRuns`, `MovedFlushIsMissed`).
- `drain_pipeline` says it recovers from a failure. It does only if the last
  statement but one is the first to fail. After an earlier failure it returns an
  error with replies unread although the server has recovered. No sequence of
  queries, RESETs and further batches brings client and server back into step: the
  next statement is executed while its caller is told that it was ignored, and once
  the IGNOREDs have run out a query returns an empty result whatever it asked for
  (`PipelineOutcome`, `RefusedMeansAdrift`, `NothingBringsBack`, `ExecutedUnseen`,
  `SilentWrongAnswer`, `SilentWrongAnswerHappens`).
- An import that ends without an error counts as good the statements that were
  answered with SUCCESS twice (`ImportIsHonest`). These are the statements executed if
  and only if no batch first failed at a PULL; a mutation whose PULL meets the rate
  limit is applied and counted as failed (`CountsExecutionsExactly`,
  `AppliedAndReportedFailed`).
- The splitter gives back a statement exactly as printed if and only if it is
  canonical (`ComesBackExactly`, `NotEveryStatementComesBack`).
- The importer writes a backslash as it is, and its own scanner and the
  preprocessor's take it for an escape. Each finds the end of the literal if and
  only if no such escape stands before a quote or at the end
  (`ScanFindsLiteralExactly`, `ImporterSeesEndExactly`, `BackslashLeavesOpen`).
- The fast path skips the check for a projecting WITH
  (`FastPathDiffersExactlyOnProjection`, `ProjectionGoesUnnoticed`).
- The cache key has no language mode. Sharing it is harmless for texts on which
  the modes agree, which is decided by the prefix parsers, the strict scan and the
  test for Cypher constructs; elsewhere strict mode can be bypassed
  (`StrictDiffersExactly`, `CompatDiffersExactly`,
  `CacheIsTransparentAcrossModes`, `StrictModeIsBypassedExactly`,
  `StrictModeIsBypassedOnce`).
- Strict mode is to refuse Cypher constructs. Of those that compatibility mode knows it
  lets through an OPTIONAL before no MATCH, and a `WITH *` behind a WITH that merely
  looks like the end of STARTS WITH, and no others (`LetThroughExactly`, `HiddenBehind`,
  `OptionalIsLetThrough`, `StarIsLetThrough`).
- The loop that should rewrite every REMOVE stops after the first. None is left if
  and only if there was at most one (`RemoveTakesOne`,
  `EveryRemoveIsRewrittenExactly`, `SecondRemoveSurvives`).
- A clause that follows the rewritten REMOVE is glued to `null`, the blank before it
  having been trimmed away, unless a semicolon or the end comes first
  (`NextClauseIsGlued`, `ReturnIsGlued`).
- The gate called a sliding window lets `2 cap - 1` events pass within one minute,
  and no more (`AtMostTwiceTheCap`, `BoundIsTight`).
- Events that the audit channel turns away are to be reported. All are if and only
  if each was counted before the writer last took the counter, which it does not do
  after shutdown (`AllDropsReportedExactly`, `DropsAfterShutdownStayUnreported`,
  `DropIsLost`). Before that each is reported by the time the writer rests behind the
  next event it writes (`DropsAreReportedInTime`, `DropIsReported`).
- A truncated stream counts as a clean end if and only if at most one byte follows
  the last whole message (`TruncationIsSilentExactly`, `OneByteCutIsSilent`).

## Model

| member | source | states |
|---|---|---|
| `Texts.FindWord` | crates/ermya-graph-cypher/src/preprocessor.rs:359-375 | hopping from one occurrence to the next finds the first whole-word occurrence, and none if there is none |
| `Texts.FindCypherOperator` | crates/ermya-graph-cypher/src/preprocessor.rs:305-344 | finds the first pair of whole words separated by blanks, and none if there is none |
| `Lexer.ScanStringLiteral` | crates/ermya-graph-cypher/src/preprocessor.rs:224-274 | the character loop stops just after the literal that a four-state automaton over bytes recognises, and pushes that literal, blanked or verbatim |
| `Lexer.BlankStringLiterals` | crates/ermya-graph-cypher/src/preprocessor.rs:276-297 | the loop computes the mask defined byte by byte from the automaton |
| `Lexer.MaskIsIsomorphic` | crates/ermya-graph-cypher/src/preprocessor.rs:276-297 | the mask has the text's length, agrees with it at every byte outside literals, and holds only blanks and the two delimiters inside |
| `Lexer.MaskIsIdempotent` | crates/ermya-graph-cypher/src/preprocessor.rs:276-297 | masking a mask changes nothing, although escapes and doubled quotes have become blanks |
| `Lexer.KeywordIsCode` | crates/ermya-graph-cypher/src/preprocessor.rs:561-575 | a keyword found in the upper-cased mask lies outside every literal of the original, spelt there in some case |
| `Lexer.KeywordOffsetsAreBoundaries` | crates/ermya-graph-cypher/src/preprocessor.rs:643-672 | offsets of keywords found in the mask are character boundaries of the well-formed text it masks, so slicing there cannot panic |
| `Clauses.DropOptionalStep` | crates/ermya-graph-cypher/src/preprocessor.rs:643-672 | cutting OPTIONAL out of text and mask alike gives the mask of the new text, and leaves every literal as it was |
| `Clauses.DropOptionalSlices` | crates/ermya-graph-cypher/src/preprocessor.rs:643-672 | both offsets of the cut are character boundaries, and what is put together is well formed |
| `Clauses.OptionalIsGone` | crates/ermya-graph-cypher/src/preprocessor.rs:643-672 | after the pass no OPTIONAL MATCH stands outside a literal and every literal is unchanged |
| `Clauses.RewriteOptionalIsIdempotent` | crates/ermya-graph-cypher/src/preprocessor.rs:643-672 | a second pass changes nothing |
| `Clauses.RewriteOptionalMatch` | crates/ermya-graph-cypher/src/preprocessor.rs:643-672 | the loop, which never recomputes the mask, keeps it equal to the recomputed one, slices at character boundaries in every turn, ends, and leaves no OPTIONAL MATCH |
| `Clauses.OnlySpansChange` | crates/ermya-graph-cypher/src/preprocessor.rs:678-730 | a byte changed by the `WITH *` pass becomes a space and lay in a standalone `WITH … *` of the input, earlier blanking notwithstanding |
| `Clauses.StarBlanksSpans` | crates/ermya-graph-cypher/src/preprocessor.rs:678-730 | the pass keeps length and literals and changes nothing but such spans |
| `Clauses.BlankedExactly` | crates/ermya-graph-cypher/src/preprocessor.rs:678-730 | a byte of the result is a space if it lies in a standalone `WITH … *` of the input, and what it was if it does not |
| `Clauses.NoStarNoChange` | crates/ermya-graph-cypher/src/preprocessor.rs:678-730 | without a starred WITH the pass is the identity |
| `Clauses.BlankSpanSlices` | crates/ermya-graph-cypher/src/preprocessor.rs:678-730 | both ends of a blanked span are character boundaries, and what is put together is well formed |
| `Clauses.RewriteWithStar` | crates/ermya-graph-cypher/src/preprocessor.rs:678-730 | the loop computes the pass, keeps its mask equal to the mask of its result, slices at character boundaries in every turn, ends, and keeps length and literals |
| `Comments.StripIsSafe` | crates/ermya-graph-cypher/src/preprocessor.rs:423-469 | on success the length is kept, exactly the comments are blanked, the literals outside comments survive, and no comment mark is left outside literals |
| `Comments.StripIsIdentityOnCommentFree` | crates/ermya-graph-cypher/src/preprocessor.rs:423-469 | a text without comment marks outside literals is left alone, so stripping is idempotent |
| `Comments.StripBlockComments` | crates/ermya-graph-cypher/src/preprocessor.rs:423-469 | the scanner computes that, and fails exactly on a comment that never closes |
| `Preprocessor.ConvertBacktickIdents` | crates/ermya-graph-cypher/src/preprocessor.rs:477-531 | the loop computes the conversion of backtick identifiers, with the errors for empty and unclosed ones |
| `Preprocessor.NoBackticksNoChange` | crates/ermya-graph-cypher/src/preprocessor.rs:477-531 | a text without backticks outside literals is unchanged, literals included |
| `Preprocessor.IdentifierIsOneToken` | crates/ermya-graph-cypher/src/preprocessor.rs:513-524 | a converted identifier is found again as one closed token by the scanner, wherever it stands, at the end of the text too, and unless a double quote follows, if and only if no backslash in it escapes its end |
| `Preprocessor.EveryPropertyIsNulled` | crates/ermya-graph-cypher/src/preprocessor.rs:603-627 | for every list of properties each one is set to null, in order, and nothing else |
| `Preprocessor.RemoveSlices` | crates/ermya-graph-cypher/src/preprocessor.rs:576-607 | the offsets of the keyword and of the end of the list, found in text or mask, are character boundaries of the text |
| `Preprocessor.NothingBeforeFirst` | crates/ermya-graph-cypher/src/preprocessor.rs:561-583 | cut at its first REMOVE a text has no REMOVE left, so the loop makes one turn |
| `Preprocessor.RewriteRemoveClauses` | crates/ermya-graph-cypher/src/preprocessor.rs:561-637 | the loop rewrites the first REMOVE and only that, or reports its empty list; the result of a well-formed text is well formed |
| `Removal.TotalIsCount` | crates/ermya-graph-cypher/src/preprocessor.rs:359-375 | a one-pass automaton over the bytes counts the whole-word REMOVEs outside literals, wherever the text is cut in two |
| `Removal.RemoveTakesOne` | crates/ermya-graph-cypher/src/preprocessor.rs:561-627 | on every text with a REMOVE the pass takes exactly one out, whatever list, literals and clauses follow |
| `Removal.EveryRemoveIsRewrittenExactly` | crates/ermya-graph-cypher/src/preprocessor.rs:561-627 | no REMOVE is left outside literals if and only if the text had no second one |
| `Removal.SecondRemoveSurvives` | crates/ermya-graph-cypher/src/preprocessor.rs:566-575 | a text whose second REMOVE stays |
| `Removal.NextClauseIsGlued` | crates/ermya-graph-cypher/src/preprocessor.rs:602-623 | what follows the list is the end, a semicolon, or a clause word that stands directly behind `null` and is no word any more |
| `Removal.ReturnIsGlued` | crates/ermya-graph-cypher/src/preprocessor.rs:602-623 | a text whose RETURN becomes `nullRETURN` |
| `Preprocessor.Preprocess` | crates/ermya-graph-cypher/src/preprocessor.rs:44-66 | the five passes in order, each error at its place, then the check for a projecting WITH |
| `Samples.CommentGoes` | crates/ermya-graph-cypher/src/preprocessor.rs:44-66 | a comment, through all passes |
| `Samples.IdentifierIsQuoted` | crates/ermya-graph-cypher/src/preprocessor.rs:44-66 | a backtick identifier |
| `Samples.OptionalGoes` | crates/ermya-graph-cypher/src/preprocessor.rs:44-66 | an OPTIONAL MATCH |
| `Samples.RemoveBecomesSet` | crates/ermya-graph-cypher/src/preprocessor.rs:44-66 | a REMOVE |
| `Samples.StarGoes` | crates/ermya-graph-cypher/src/preprocessor.rs:44-66 | a WITH * that is blanked |
| `Samples.OpenComment` | crates/ermya-graph-cypher/src/preprocessor.rs:423-469 | a comment that is not closed is refused |
| `Samples.OpenBacktick` | crates/ermya-graph-cypher/src/preprocessor.rs:477-531 | and an identifier that is not |
| `Samples.EmptyBackticks` | crates/ermya-graph-cypher/src/preprocessor.rs:477-531 | and one that is empty |
| `Samples.RemoveOfNothing` | crates/ermya-graph-cypher/src/preprocessor.rs:589-600 | and a REMOVE of nothing |
| `Samples.TickInComment` | crates/ermya-graph-cypher/src/preprocessor.rs:44-66 | comments go before identifiers are looked for: a backtick inside a comment opens nothing |
| `Samples.RemoveHidesStar` | crates/ermya-graph-cypher/src/preprocessor.rs:44-66 | REMOVE goes before WITH *: the WITH glued to `null` is no clause any more, so it is neither blanked nor refused |
| `Boundaries.StripKeepsWellFormed` | crates/ermya-graph-cypher/src/preprocessor.rs:423-469 | comments begin and end between characters, so blanking them keeps a text well formed |
| `Boundaries.BackticksKeepWellFormed` | crates/ermya-graph-cypher/src/preprocessor.rs:477-531 | so does the conversion of identifiers, multi-byte ones included |
| `Boundaries.PreprocessingKeepsWellFormed` | crates/ermya-graph-cypher/src/preprocessor.rs:44-66 | all five passes turn well-formed UTF-8 into well-formed UTF-8, for every text that is not refused |
| `Preprocessor.FastPathRefinesSlowPath` | crates/ermya-graph-cypher/src/preprocessor.rs:739-822 | on every text without Cypher constructs each of the five passes is the identity, so the slow path gives the text back or reports a projection, the latter exactly when the first WITH outside literals is standalone |
| `Preprocessor.ContainsWithStar` | crates/ermya-graph-cypher/src/preprocessor.rs:794-822 | the loop tells whether some standalone WITH is followed by a star |
| `Preprocessor.ContainsCypherConstructs` | crates/ermya-graph-cypher/src/preprocessor.rs:776-788 | the test used by the fast path is exactly the hypothesis of that theorem |
| `Statements.ClaimsAreDisjoint` | crates/ermya-graph-cypher/src/lib.rs:40-54 | no text is claimed by two of the CALL, DDL and admin parsers, so their order does not matter |
| `Statements.AdminStaysAdmin` | crates/ermya-graph-server/src/handler.rs:1040-1052 | what the handler's early admin test accepts is an admin statement for the full parse in every mode |
| `Statements.ParseWithMode` | crates/ermya-graph-cypher/src/lib.rs:40-71 | the cascade of parsers and the three language modes |
| `Strict.FindInList` | crates/ermya-graph-cypher/src/preprocessor.rs:377-403 | the hopping loop decides whether a whole-word IN is followed by blanks and a bracket |
| `Strict.FindFunction` | crates/ermya-graph-cypher/src/preprocessor.rs:405-422 | the loop decides whether the pattern stands behind no letter or digit |
| `Strict.RejectCypherConstructs` | crates/ermya-graph-cypher/src/preprocessor.rs:72-205 | the scan rejects a text exactly if its mask shows one of the listed constructs |
| `Sightings.RefusesExactly` | crates/ermya-graph-cypher/src/preprocessor.rs:72-205 | the scan refuses a text if and only if one of the constructs stands in its code: comment mark, backtick, STARTS WITH, ENDS WITH, CONTAINS, IN with a bracket, one of three functions, REMOVE, OPTIONAL MATCH, a first WITH that projects, UNWIND; told of the text without the mask |
| `Strict.LetThroughExactly` | crates/ermya-graph-cypher/src/preprocessor.rs:72-205 | a text that the scan does not reject has Cypher constructs if and only if it has OPTIONAL as a word or a starred WITH hidden behind a first WITH that is not standalone and no operator |
| `Strict.HiddenBehind` | crates/ermya-graph-cypher/src/preprocessor.rs:346-357 | then the word before that first WITH is longer than STARTS or ENDS, or a blank other than ASCII whitespace stands between |
| `Strict.OptionalIsLetThrough` | crates/ermya-graph-cypher/src/preprocessor.rs:170-179 | a text of the first kind |
| `Strict.StarIsLetThrough` | crates/ermya-graph-cypher/src/preprocessor.rs:180-191 | and one of the second |
| `Statements.FastPathDiffersExactlyOnProjection` | crates/ermya-graph-cypher/src/lib.rs:55-64 | skipping the preprocessor changes the answer exactly on texts without Cypher constructs whose first WITH projects and which the core parser accepts |
| `Statements.ProjectionGoesUnnoticed` | crates/ermya-graph-cypher/src/lib.rs:55-64 | a text and a grammar for which it does |
| `Statements.QueryCache.Parse` | crates/ermya-graph-cypher/src/lib.rs:86-102 | a cached parse on a cache filled in one mode returns what the parser returns, stores no error, and keeps the cache sound |
| `Statements.CacheIsTransparent` | crates/ermya-graph-cypher/src/cache.rs:128-158 | for every sequence of lookups in one mode, any signatures, colliding or not, and any evictions, the answers are those of the parser alone |
| `Statements.ClaimedInEveryMode` | crates/ermya-graph-cypher/src/lib.rs:40-54 | what a CALL, DDL or admin parser claims is parsed alike in every mode |
| `Statements.StrictDiffersExactly` | crates/ermya-graph-cypher/src/lib.rs:65-71 | strict and plain GQL differ exactly on unclaimed texts that the scan rejects and the core parser accepts |
| `Statements.CompatDiffersExactly` | crates/ermya-graph-cypher/src/lib.rs:55-64 | compatibility mode and plain GQL differ exactly on unclaimed texts with Cypher constructs whose preprocessed form the core parser tells from the text |
| `Statements.CacheIsTransparentAcrossModes` | crates/ermya-graph-cypher/src/lib.rs:86-102 | for every sequence of lookups in any modes over texts that are claimed, or neither rejected by the scan nor with Cypher constructs, each gets the answer of its own mode |
| `Statements.StrictModeIsBypassedExactly` | crates/ermya-graph-cypher/src/lib.rs:92-95 | once plain GQL has cached an unclaimed text, strict mode answers as it should if and only if its scan does not reject the text |
| `Statements.StrictModeIsBypassedOnce` | crates/ermya-graph-cypher/src/lib.rs:92-95 | a text with STARTS WITH, which the scan rejects, and a grammar for which it does not |
| `Framing.BoltChunkedWriter.WriteMessageNoFlush` | crates/ermya-graph-protocol/src/bolt_frame.rs:85-105 | the chunking loop appends the frame of the message to the buffer and sends nothing |
| `Framing.BoltChunkedWriter.WriteMessage` | crates/ermya-graph-protocol/src/bolt_frame.rs:49-75 | sends what was buffered and then the frame of the message |
| `Framing.FrameOfShort` | crates/ermya-graph-protocol/src/bolt_frame.rs:49-75 | a message of one chunk is its length, high byte first, its bytes and two zeros, an empty one two zeros |
| `Framing.HighByteFirst` | crates/ermya-graph-protocol/src/bolt_frame.rs:62-62 | the frame of 258 bytes begins with 1 and 2 |
| `Framing.FrameLength` | crates/ermya-graph-protocol/src/bolt_frame.rs:49-75 | every message costs two bytes for each chunk, as few chunks as can be, and two at the end |
| `Framing.BoltChunkedReader.Next` | crates/ermya-graph-protocol/src/bolt_frame.rs:156-205 | the reading loop computes the specification, and neither its buffer at any time nor a delivered message exceeds the limit |
| `Framing.ReadIgnoresChunking` | crates/ermya-graph-protocol/src/bolt_frame.rs:156-205 | the reader's answer depends on the concatenation of the chunks alone: delivered if it fits, else refused |
| `Framing.ReadAfterWrite` | crates/ermya-graph-protocol/src/bolt_frame.rs:49-205 | what either writer wrote is read back, or refused exactly if too large |
| `Framing.StreamRoundTrip` | crates/ermya-graph-protocol/src/bolt_frame.rs:49-205 | every list of messages within the limit is read back as that list, then end of stream |
| `Framing.ReadIsStable` | crates/ermya-graph-protocol/src/bolt_frame.rs:156-205 | an answer that did not come from the end of the input stays the same however the input goes on |
| `Framing.TruncationGivesPrefix` | crates/ermya-graph-protocol/src/bolt_frame.rs:156-205 | any truncation gives a prefix of the messages and then an end, never another message |
| `Framing.TruncationIsSilentExactly` | crates/ermya-graph-protocol/src/bolt_frame.rs:156-205 | exactly the messages whose frames arrived whole are delivered, and the cut is taken for the end of the stream if and only if fewer than two bytes follow them |
| `Framing.OneByteCutIsSilent` | crates/ermya-graph-protocol/src/bolt_frame.rs:160-168 | a cut after one byte of a frame is silent, a cut after two is an error |
| `Framing.CleanEndIsShort` | crates/ermya-graph-protocol/src/bolt_frame.rs:160-168 | on arbitrary bytes a clean end means that fewer than two were left before any chunk was read |
| `Framing.DeliveredWasSent` | crates/ermya-graph-protocol/src/bolt_frame.rs:156-205 | on arbitrary bytes a delivered message was really there, chunk by chunk, and fits the limit |
| `BoltSession.RunsAreClassified` | crates/ermya-graph-server/src/handler.rs:1040-1052 | a RUN that skips binding parses as an admin statement, whatever its text |
| `BoltSession.BindKeepsInv` | crates/ermya-graph-server/src/handler.rs:863-985 | binding keeps the invariant, a refused rebind only once the session is FAILED |
| `BoltSession.SubmitKeepsInv` | crates/ermya-graph-server/src/handler.rs:1057-1278 | a bound RUN never reaches for a missing accessor and keeps the invariant |
| `BoltSession.StepKeepsInv` | crates/ermya-graph-server/src/handler.rs:600-679 | every request keeps: handle and accessor bound together, to one database, after authentication only; an open transaction or dirty batch has an accessor unless FAILED; the cursor within the result |
| `BoltSession.PanicsExactly` | crates/ermya-graph-server/src/handler.rs:2068-2077 | the handler reaches for a missing accessor in one case only, RESET or close with a stranded batch; no executor, COMMIT or ROLLBACK does |
| `BoltSession.StrandsExactly` | crates/ermya-graph-server/src/handler.rs:887-889 | a batch is stranded by a refused rebind with mutations unflushed and by nothing else |
| `BoltSession.EveryRequestIsAnsweredOnce` | crates/ermya-graph-server/src/handler.rs:600-679 | each request but GOODBYE gets exactly one SUCCESS, FAILURE or IGNORED, last, with records only before the SUCCESS of a PULL |
| `BoltSession.RunsAnswerEveryRequest` | crates/ermya-graph-server/src/handler.rs:558-585 | over every run that goes on, as many summaries are sent as requests were served |
| `BoltSession.FailedStateDiscipline` | crates/ermya-graph-server/src/handler.rs:641-652 | FAILED is entered with a FAILURE only, every FAILURE leaves it set, RESET alone clears it, and requests are ignored exactly in it, without effect |
| `BoltSession.CallsStayOnDatabase` | crates/ermya-graph-server/src/handler.rs:999-1052 | no call leaves the session before authentication, and every accessor call goes to the database that is bound |
| `BoltSession.ReadOnlyRefusesWrites` | crates/ermya-graph-server/src/handler.rs:1280-1310 | through a read-only handle no mutation reaches the engine, and the session fails |
| `Admission.StepAdmitsExactly` | crates/ermya-graph-server/src/handler.rs:689-861 | a request authenticates the session if and only if it is a HELLO that is served, from an address that is not blocked and with credentials that are accepted; the session is then in that user's name, and no request takes it back |
| `Admission.HelloIsAnswered` | crates/ermya-graph-server/src/handler.rs:689-762 | such a HELLO succeeds, and any other fails with the code for its reason |
| `Admission.RunAdmitsExactly` | crates/ermya-graph-server/src/handler.rs:689-861 | over every run the session is authenticated if and only if some HELLO was admitted, and in the name of the last |
| `Admission.CallsNeedAdmission` | crates/ermya-graph-server/src/handler.rs:999-1052 | from a fresh connection no call leaves the session before a HELLO has been admitted |
| `Answers.RunIsAnswered` | crates/ermya-graph-server/src/handler.rs:999-1310 | a RUN is answered with the code of the first of thirteen checks it fails, and with SUCCESS if it fails none |
| `Answers.BeginIsAnswered` | crates/ermya-graph-server/src/handler.rs:1810-1845 | BEGIN succeeds if and only if none is open, a database is bound and the engine begins one, which is then the session's |
| `Answers.FetchIsAnswered` | crates/ermya-graph-server/src/handler.rs:1618-1801 | PULL and DISCARD are refused exactly if the limiter refuses them, the result being kept, and has_more tells whether any of it is left; DISCARD sends no record |
| `Answers.FormalitiesAreAnswered` | crates/ermya-graph-server/src/handler.rs:600-671 | LOGON changes nothing; an undecodable message fails the session in every state |
| `Answers.NameSamples` | crates/ermya-graph-server/src/handler.rs:2281-2294 | reserved, over-long and ill-formed database names, and two good ones |
| `Answers.OnlyLastIsFetched` | crates/ermya-graph-server/src/handler.rs:1618-1801 | over every run what can be fetched belongs to the last RUN that succeeded, and nothing can once a RESET has come |
| `Answers.StatsAreKept` | crates/ermya-graph-server/src/handler.rs:1316-1460 | statistics go with the result of a mutation, and of a pipeline without rows, and of nothing else |
| `BoltSession.RunsDoNotPanic` | crates/ermya-graph-server/src/handler.rs:541-585 | a run that strands no batch never panics, closing included |
| `BoltSession.StrandedBatchIsLost` | crates/ermya-graph-server/src/handler.rs:2185-2192 | once a batch is stranded every continuation panics, at a RESET or at the close |
| `Traces.StrandingHappens` | crates/ermya-graph-server/src/handler.rs:887-889 | a run of four requests that gets there |
| `Handler.BoltHandler.AcquireAndBind` | crates/ermya-graph-server/src/handler.rs:918-985 | sets handle and accessor as the step says, or names the refusal |
| `Handler.BoltHandler.TryBindDatabase` | crates/ermya-graph-server/src/handler.rs:863-916 | lets go of the old database before it asks for the new one |
| `Handler.BoltHandler.RunRead` | crates/ermya-graph-server/src/handler.rs:1316-1327 | flushes a dirty batch, executes, keeps the result or fails |
| `Handler.BoltHandler.RunMutation` | crates/ermya-graph-server/src/handler.rs:1328-1393 | opens a batch, executes, marks dirty, flushes, each under its condition |
| `Handler.BoltHandler.AutoFlush` | crates/ermya-graph-server/src/handler.rs:1367-1390 | ends and reopens the batch, clean only if the end succeeded |
| `Handler.BoltHandler.PerformStatement` | crates/ermya-graph-server/src/handler.rs:1228-1316 | the guards before execution in their order, then the executor |
| `Handler.BoltHandler.SubmitQuery` | crates/ermya-graph-server/src/handler.rs:1057-1226 | rate limit, parameters, parse through the shared cache, substitution, each failure at its place; the cache stays sound |
| `Handler.BoltHandler.HandleRun` | crates/ermya-graph-server/src/handler.rs:999-1610 | the handler takes exactly the step of the RUN with this text: new state, replies and accessor calls |
| `Handler.BoltHandler.HandleFetch` | crates/ermya-graph-server/src/handler.rs:1618-1777 | PULL and DISCARD take exactly the step of the model |
| `Handler.BoltHandler.HandleHello` | crates/ermya-graph-server/src/handler.rs:689-861 | authentication outcome and normalised user name, without touching the binding |
| `Handler.BoltHandler.HandleReset` | crates/ermya-graph-server/src/handler.rs:1780-1801 | clears, rolls back, flushes, and replies unless the flush panics |
| `Handler.BoltHandler.HandleBegin` | crates/ermya-graph-server/src/handler.rs:1810-1845 | one transaction at a time, on a bound database only |
| `Handler.BoltHandler.FinishTxn` | crates/ermya-graph-server/src/handler.rs:1861-1906 | the transaction is gone whatever the engine answers |
| `Handler.BoltHandler.FlushPendingBatch` | crates/ermya-graph-server/src/handler.rs:2185-2192 | ends a dirty batch, or panics without an accessor |
| `Handler.BoltHandler.DispatchRequest` | crates/ermya-graph-server/src/handler.rs:641-679 | every request but RUN takes the step of the model |
| `Handler.BoltHandler.DispatchRun` | crates/ermya-graph-server/src/handler.rs:641-679 | and so does RUN, ignored in the FAILED state |
| `Handler.BoltHandler.Dispatched` | crates/ermya-graph-server/src/handler.rs:600-679 | any request keeps the invariant of the object unless it panics |
| `Handler.BoltHandler.ServeRequests` | crates/ermya-graph-server/src/handler.rs:558-585 | the loop makes the run of the session: state, replies, calls and exit |
| `Handler.BoltHandler.Serve` | crates/ermya-graph-server/src/handler.rs:541-556 | the connection as a whole, flush included: it panics if and only if the run does or ends stranded, never if no request strands a batch; otherwise nothing stays dirty, and each request has one summary |
| `Transactions.StepInOrder` | crates/ermya-graph-server/src/handler.rs:1780-1895 | a step keeps session and accessor trace in agreement if and only if it does not switch databases under an open transaction |
| `Transactions.RunsAreInOrder` | crates/ermya-graph-server/src/handler.rs:1232-1246 | every run that does not switch keeps the trace in order |
| `Transactions.EveryTransactionLivesOnce` | crates/ermya-graph-server/src/handler.rs:2083-2174 | in such a trace each transaction is begun once, executes only its own statements with nothing else in between, is committed or rolled back at most once, and is never seen again |
| `Transactions.TransactionsLiveOnce` | crates/ermya-graph-server/src/handler.rs:1810-1906 | the same for every run from a fresh connection and every transaction id |
| `Transactions.EndsAsTold` | crates/ermya-graph-server/src/handler.rs:1847-1906 | over every such run a transaction is committed if and only if a COMMIT is the first of COMMIT, ROLLBACK and RESET to be served while the session holds it, and rolled back if and only if it is one of the others |
| `Transactions.RunEndsExactly` | crates/ermya-graph-server/src/handler.rs:1861-1906 | over every run, one that switches databases included, the engine is asked to commit a transaction on a database if and only if a COMMIT is served while the session holds it there, and to roll it back if and only if a ROLLBACK or RESET is |
| `Transactions.EndIsAnswered` | crates/ermya-graph-server/src/handler.rs:1883-1906 | a COMMIT or ROLLBACK is answered with SUCCESS if and only if one is open and the engine has finished it, and leaves none open |
| `Transactions.SwitchingBreaksOrder` | crates/ermya-graph-server/src/handler.rs:887-889 | otherwise a transaction's id is sent to another database |
| `Batching.StepBalances` | crates/ermya-graph-server/src/handler.rs:1336-1392 | begin_batch minus end_batch calls of a step are the change of "batch is dirty" plus what the step leaks |
| `Batching.RunsBalance` | crates/ermya-graph-server/src/handler.rs:1319-1392 | over every run, transactions and all engine answers included, begins minus ends are the dirty batch plus mutations failed first plus auto-flushes less batches never opened |
| `Batching.BatchesStaySmall` | crates/ermya-graph-server/src/handler.rs:44-82 | with succeeding flushes dirty_count stays below 500 between requests |
| `BatchAge.RunsKeepAge` | crates/ermya-graph-server/src/handler.rs:44-82 | over every run first_dirty_at is the time of the mutation with which the batch last became dirty |
| `BatchAge.BatchesStayYoung` | crates/ermya-graph-server/src/handler.rs:44-82 | behind a mutation, flushes succeeding, a batch that is still dirty has fewer than 500 mutations and is younger than 5000 ms |
| `BatchAge.NoFlushTooSoon` | crates/ermya-graph-server/src/handler.rs:44-82 | and no batch below both limits is flushed by a mutation |
| `Batching.RunsAreNested` | crates/ermya-graph-server/src/handler.rs:2176-2192 | on one database and without BEGIN no end_batch ever meets depth zero |
| `Batching.DepthIsExact` | crates/ermya-graph/src/graph.rs:3168-3256 | the engine's depth after any such run is the dirty batch plus one for every mutation failed first and every auto-flush |
| `Batching.FlushSyncsExactly` | crates/ermya-graph/src/graph.rs:3172-3176 | the flush at the end brings the depth to zero, which syncs the log, if and only if there was neither |
| `Flushing.LedgerGrows` | crates/ermya-graph-server/src/handler.rs:1336-1392 | slips are never taken off the books, however a run goes on |
| `Flushing.EveryFlushExactly` | crates/ermya-graph/src/graph.rs:3172-3176 | each single end_batch of a run leaves the engine at the depth that is the number of slips before it, so it syncs if and only if there was none |
| `Flushing.NoFlushSyncsAfterSlip` | crates/ermya-graph/src/graph.rs:3172-3176 | after a slip no later flush of the session syncs |
| `Flushing.LeakHappens` | crates/ermya-graph-server/src/handler.rs:1336-1392 | a failing mutation, RESET, another mutation and the close: two batches begun, one ended, depth one |
| `Flushing.RunsBalanceOn` | crates/ermya-graph-server/src/handler.rs:1319-1392 | the accounts for each database apart, over every run between any number of them |
| `Flushing.MovingLeaks` | crates/ermya-graph-server/src/handler.rs:887-889 | moving away leaves the batch of the old database open by one |
| `Flushing.DepthOnRuns` | crates/ermya-graph/src/graph.rs:3210-3256 | the depth of every database after every run, wherever the session moves, is what the session holds there, what it left there and the flushes that found nothing to end; the last are the lowest point of the balance |
| `Flushing.MovedFlushIsMissed` | crates/ermya-graph/src/graph.rs:3210-3256 | a run whose flush does so |
| `Sharing.SharedDepth` | crates/ermya-graph/src/graph.rs:3168-3256 | however the calls of any number of sessions interleave, the depth is the sum of their balances, none of them negative |
| `Sharing.SharedFlushSyncsExactly` | crates/ermya-graph/src/graph.rs:3172-3176 | a flush syncs if and only if it leaves no session on the database with anything open |
| `Sharing.NoSessionSyncsAfterSlip` | crates/ermya-graph/src/graph.rs:3172-3176 | after one session has slipped the depth never reaches zero again, so no flush of any session syncs |
| `OwnWrites.StepReadsExactly` | crates/ermya-graph-server/src/handler.rs:1265-1327 | a request reads behind unflushed mutations if and only if it gets as far as a procedure call, or a read with a clean batch, on a database that has some |
| `OwnWrites.ReadsSeeOwnWritesExactly` | crates/ermya-graph-server/src/handler.rs:1265-1327 | in every run from a fresh connection each query, pipeline or procedure is preceded by the end of the batch with the writes before it on that database, if and only if no request does so |
| `OwnWrites.CallsRunAhead` | crates/ermya-graph-server/src/handler.rs:2004-2055 | a mutation and a procedure call: the graph is read with the batch open |
| `OwnWrites.MovingHidesWrites` | crates/ermya-graph-server/src/handler.rs:887-889 | a mutation, a read elsewhere and a read: the second read is not preceded by a flush |
| `OwnWrites.StepHoldsExactly` | crates/ermya-graph-server/src/handler.rs:887-889 | with a mutation unflushed on the bound database a step keeps it in the session's hands if and only if it does not move to another database |
| `OwnWrites.CarefulClientsReadTheirWrites` | crates/ermya-graph-server/src/handler.rs:1316-1324 | a client that neither moves away from a dirty batch nor calls a procedure with one reads its own writes, over every run |
| `OwnWrites.StepLosesExactly` | crates/ermya-graph-server/src/handler.rs:1319-1392 | a request makes the session forget mutations on a database if and only if it flushes another one in their stead |
| `OwnWrites.WritesAreFlushedOrPassedOver` | crates/ermya-graph-server/src/handler.rs:1319-1392 | over every run, whenever the batch is clean, each mutation so far has been flushed on its database or been passed over by a flush elsewhere |
| `OwnWrites.ClosedConnectionsAccountForWrites` | crates/ermya-graph-server/src/handler.rs:541-556 | the same once the connection is closed |
| `Fetching.FetchesPartition` | crates/ermya-graph-server/src/handler.rs:1659-1777 | for every sequence of PULL and DISCARD sizes each ask takes the rows from where the one before stopped, a PULL serves exactly those, has_more is true exactly while rows remain, and statistics come with the ask that ends the result |
| `Fetching.PiecesJoin` | crates/ermya-graph-server/src/handler.rs:1659-1777 | the pieces taken concatenate to the result up to the cursor, without gap or repeat |
| `Fetching.ResultEndsOnce` | crates/ermya-graph-server/src/handler.rs:1690-1702 | exactly one ask ends the result, so statistics are sent exactly once |
| `Fetching.FetchesProgress` | crates/ermya-graph-server/src/handler.rs:2546-2555 | sized asks advance by their sum until the rows run out, an absent or negative size takes all |
| `Pipeline.Connection.Turn` | crates/ermya-graph-server/src/handler.rs:558-585 | the server may serve at any moment: what the client will read does not change |
| `Pipeline.Connection.Turns` | crates/ermya-graph-server/src/handler.rs:558-585 | any number of times, queued requests included |
| `Pipeline.Connection.Receive` | crates/ermya-graph-protocol/src/bolt_client.rs:139-147 | gives the next reply in the order of the requests, or none if none will come |
| `Pipeline.Connection.Send` | crates/ermya-graph-protocol/src/bolt_client.rs:124-130 | sends what is buffered and then the request, whose replies come behind all others |
| `Pipeline.Connection.PipelineRun` | crates/ermya-graph-protocol/src/bolt_client.rs:303-321 | queues RUN and PULL behind what is buffered and sends nothing |
| `Pipeline.Connection.Flush` | crates/ermya-graph-protocol/src/bolt_client.rs:328-330 | sends what is buffered, in order |
| `Pipeline.Connection.DrainPipeline` | crates/ermya-graph-protocol/src/bolt_client.rs:346-419 | the loop computes the drain of the reply stream, RESETs it sends included |
| `Pipeline.DrainCounts` | crates/ermya-graph-protocol/src/bolt_client.rs:346-419 | for any reply stream whatever, a drain that returns Ok counts every pair once |
| `Pipeline.Connection.RunQuery` | crates/ermya-graph-protocol/src/bolt_client.rs:216-258 | sends RUN, then PULL if it succeeded, and returns rows or the error of the first bad reply |
| `Pipeline.Connection.Recover` | crates/ermya-graph-protocol/src/bolt_client.rs:272-288 | RESET succeeds exactly if the next reply read is a SUCCESS |
| `PipelinedRuns.FailedIgnoresAll` | crates/ermya-graph-server/src/handler.rs:641-652 | a FAILED session answers every pipelined pair with two IGNORED and does not change |
| `PipelinedRuns.DrainIsForeseen` | crates/ermya-graph-protocol/src/bolt_client.rs:346-419 | client and session composed, for every batch and every environment: outcome, replies left unread and session state as a function of the first failing statement |
| `PipelinedRuns.PipelineOutcome` | crates/ermya-graph-protocol/src/bolt_client.rs:346-419 | (N,0) exactly if nothing fails; (N-1,1) with the session FAILED; (N-2,2) with the session recovered; the reset error exactly if an earlier statement fails first, with IGNORED replies left unread |
| `PipelinedRuns.NextBatchAfterFailure` | crates/ermya-graph-cli/src/main.rs:314-408 | the batch after one that left the session FAILED fails from its first statement on |
| `PipelinedRuns.ImportBatch` | crates/ermya-graph-cli/src/main.rs:327-393 | queueing, flushing and draining a batch gives that outcome, with the server taking any number of turns after each statement |
| `PipelinedRuns.QueryKeepsStep` | crates/ermya-graph-protocol/src/bolt_client.rs:216-258 | without pipelining the rows returned are those of the statement sent, errors tell the session's state, and nothing is left in flight |
| `Importing.RunImport` | crates/ermya-graph-cli/src/main.rs:314-408 | the loop over batches computes the tally of the import at every pace of the server |
| `Importing.BatchIsHonest` | crates/ermya-graph-cli/src/main.rs:314-408 | a drained batch leaves client and session in step and counts as good exactly the statements whose RUN and PULL were answered with SUCCESS |
| `Importing.ImportIsHonest` | crates/ermya-graph-cli/src/main.rs:314-408 | for every list of batches an import that ends without an error has counted every statement once, as good exactly those answered with SUCCESS twice, with nothing in flight |
| `Importing.FailedSessionEndsImport` | crates/ermya-graph-cli/src/main.rs:314-408 | a batch of more than two statements sent to a FAILED session ends the import with the reset error |
| `Traces.RunSucceedsOnce` | crates/ermya-graph-server/src/handler.rs:999-1610 | a RUN leaves exactly one executor call that succeeded if it is answered with SUCCESS, and none otherwise |
| `Executions.HealthyDoes` | crates/ermya-graph-server/src/handler.rs:1618-1652 | the executor calls of a batch that succeed are those of the statements before the first that fails, and one more if that one failed at its PULL |
| `Executions.PullFailsExactly` | crates/ermya-graph-server/src/handler.rs:1618-1652 | which it does exactly by the rate limit |
| `Executions.DrainedExecutions` | crates/ermya-graph-protocol/src/bolt_client.rs:346-419 | so a drained batch has executed what it counts as good and, in that case, one more |
| `Executions.CountsExecutionsExactly` | crates/ermya-graph-cli/src/main.rs:314-408 | over every list of batches the statements executed are those counted as good and one for each batch that first failed at a PULL |
| `Executions.AppliedAndReportedFailed` | crates/ermya-graph-server/src/handler.rs:1618-1652 | a mutation that is applied and counted as failed |
| `Adrift.RefusedMeansAdrift` | crates/ermya-graph-protocol/src/bolt_client.rs:365-373 | after the reset error the session is up and no longer FAILED, and the replies unread are IGNOREDs and the SUCCESS of that RESET, unless a stranded batch took the server down |
| `Adrift.NeverBackInStep` | crates/ermya-graph-protocol/src/bolt_client.rs:216-258 | from there no sequence of queries brings client and server back into step, nor takes the server down |
| `Adrift.NothingBringsBack` | crates/ermya-graph-protocol/src/bolt_client.rs:208-288 | nor does any sequence of queries, RESETs and drained batches: the two stay out of step unless the server goes down |
| `Adrift.ExecutedUnseen` | crates/ermya-graph-protocol/src/bolt_client.rs:216-258 | with an IGNORED unread the next statement makes its step on the session and its caller is told that it was ignored |
| `Adrift.SilentWrongAnswer` | crates/ermya-graph-protocol/src/bolt_client.rs:216-258 | once as many statements have succeeded as IGNOREDs were unread, the next query returns an empty result, whatever it is and whatever the server answers |
| `Adrift.SilentWrongAnswerHappens` | crates/ermya-graph-protocol/src/bolt_client.rs:346-419 | three statements that do not parse and two queries with a row each: the second returns no row |
| `Splitter.NewlineReenters` | crates/ermya-graph-cli/src/import.rs:94-114 | the scanner state after a text, a newline and another text is that of the second started inside or outside a literal |
| `Splitter.TrimEndKeepsOpen` | crates/ermya-graph-cli/src/import.rs:196-204 | trailing blanks do not change whether a literal is open |
| `Splitter.ScanQuotes` | crates/ermya-graph-cli/src/import.rs:145-194 | the index loops compute a four-state automaton, a backslash at the very end included |
| `Splitter.EndsWithSemicolonOutsideQuotes` | crates/ermya-graph-cli/src/import.rs:196-204 | tells whether the trimmed text ends in a semicolon outside literals |
| `Splitter.IsCommentLine` | crates/ermya-graph-cli/src/import.rs:12-37 | on a trimmed line the walk through quotes comes down to the first two characters |
| `Splitter.FeedLine` | crates/ermya-graph-cli/src/import.rs:84-127 | one line changes the gathered text and the output as specified, and in_string equals "the gathered text leaves a literal open" |
| `Splitter.StreamGqlImport` | crates/ermya-graph-cli/src/import.rs:73-140 | the loop over lines computes the statements of the text and their number |
| `Printing.SplitUndoesPrint` | crates/ermya-graph-cli/src/import.rs:73-140 | for every list of canonical statements, printing each with a semicolon and a newline and splitting gives the list back |
| `Printing.ComesBackExactly` | crates/ermya-graph-cli/src/import.rs:73-140 | a statement comes back as printed, with the splitter back at its start, if and only if it is canonical |
| `Printing.NotEveryStatementComesBack` | crates/ermya-graph-cli/src/import.rs:106-114 | a statement with a blank at the end of an inner line does not |
| `Trailing.TrailingComesBackExactly` | crates/ermya-graph-cli/src/import.rs:129-140 | behind any list of canonical statements a last one without semicolon comes back if and only if it does not itself end in one, and those in front of it do in any case |
| `Quoting.WriteString` | crates/ermya-graph-cli/src/import.rs:705-715 | appends the string with its quotes doubled, between quotes |
| `Quoting.TakeStringLiteral` | crates/ermya-graph-cypher/src/admin.rs:436-468 | the loop computes the literal's value or the error |
| `Quoting.TakeUndoesQuote` | crates/ermya-graph-cypher/src/admin.rs:436-468 | for every string the literal written by the importer is read back, blanks after it allowed and other text refused |
| `Quoting.TakeUndoesQuoteAlone` | crates/ermya-graph-cypher/src/admin.rs:436-468 | in particular for the literal alone, whatever the string |
| `Quoting.TakenWasQuoted` | crates/ermya-graph-cypher/src/admin.rs:436-468 | whatever is read was the quoted form of its value followed by blanks |
| `Quoting.ScanFindsLiteralExactly` | crates/ermya-graph-cypher/src/preprocessor.rs:224-274 | the preprocessor's scanner takes exactly the written literal, between single or double quotes, anywhere in a text and at its end, and finds it closed, if and only if no unescaped backslash of its contents stands before such a quote or at the end |
| `Quoting.NoBackslashIsSafe` | crates/ermya-graph-cli/src/import.rs:705-715 | every string without a backslash meets that condition |
| `Quoting.ImporterSeesEndExactly` | crates/ermya-graph-cli/src/import.rs:145-165 | the importer's scanner is closed after the literal of a string if and only if the string meets that condition |
| `Quoting.BackslashLeavesOpen` | crates/ermya-graph-cli/src/import.rs:145-165 | two strings that do not: a lone backslash, and a backslash before a quote |
| `SlowGate.SlowQueryGate.Allow` | crates/ermya-graph-server/src/audit.rs:352-377 | the update and answer of the gate, cap 0 passing everything |
| `SlowGate.SlowQueryGate.ClosedWindowDrops` | crates/ermya-graph-server/src/audit.rs:379-397 | reports the drops of a closed window once |
| `SlowGate.SlowQueryGate.AuditStatement` | crates/ermya-graph-server/src/handler.rs:1487-1517 | polls, then asks if the statement was slow |
| `SlowGate.SlowFrom` | crates/ermya-graph-server/src/handler.rs:1487-1517 | the threshold itself is slow, whatever is slower is, and nothing is without a threshold |
| `SlowGate.AtMostCapPerWindow` | crates/ermya-graph-server/src/audit.rs:352-377 | over every run no window lets more than cap events pass |
| `SlowGate.AtMostTwiceTheCap` | crates/ermya-graph-server/src/audit.rs:323-341 | and no minute, wherever it starts, more than 2 cap - 1 |
| `SlowGate.BoundIsTight` | crates/ermya-graph-server/src/audit.rs:323-341 | which is reached for every cap |
| `SlowGate.RefusalsAreHeld` | crates/ermya-graph-server/src/audit.rs:379-397 | under poll-then-ask, events refused always equal drops reported plus drops held |
| `SlowGate.NothingStaysUnreported` | crates/ermya-graph-server/src/handler.rs:2250-2251 | after the final poll everything refused has been reported |
| `SlowGate.ReportsAreTimely` | crates/ermya-graph-server/src/audit.rs:379-397 | over every run warnings come when their window has closed, with a positive count, and at most one for a window |
| `SlowGate.ReportsAddUp` | crates/ermya-graph-server/src/audit.rs:379-397 | and their counts are all the drops reported |
| `SlowGate.RefusedWhenFull` | crates/ermya-graph-server/src/audit.rs:352-377 | an event is refused only when cap have passed in its window |
| `SlowGate.NoCapNoRefusal` | crates/ermya-graph-server/src/audit.rs:356-359 | without a cap nothing is refused |
| `Rotation.RotateFiles` | crates/ermya-graph-server/src/audit.rs:1321-1343 | the rename loop moves every file one place up, drops the oldest and starts base afresh, for every keep, 0 included, and whatever files are missing |
| `Rotation.RotationDropsOldest` | crates/ermya-graph-server/src/audit.rs:1321-1343 | the files from oldest to newest lose exactly the oldest one |
| `Rotation.RotationIsSound` | crates/ermya-graph-server/src/audit.rs:1321-1343 | a rotation keeps: whole lines only, a suffix of all ever written, at most max(keep,1) rotated files, oversize only for single lines |
| `Rotation.AppendIsSound` | crates/ermya-graph-server/src/audit.rs:1388-1412 | and so does appending a line that fits or starts a file |
| `Rotation.AuditFile.Rotate` | crates/ermya-graph-server/src/audit.rs:1321-1343 | flushes the buffer before the files move, so that no line is torn |
| `Rotation.AuditFile.HandleOne` | crates/ermya-graph-server/src/audit.rs:1388-1412 | the line ends up whole and last in the newest file; a new file is begun for it, the others moving up by one, if and only if it would make the old one too long, and otherwise no other file is touched; fewer than fsync_every of all lines written are not yet synced, and no sync is made before it is due |
| `Rotation.HandledIsPacked` | crates/ermya-graph-server/src/audit.rs:1388-1412 | over every sequence of lines each kept file that the process has moved had no room for the first line of the next |
| `Rotation.AuditFile.BufferIsAtRisk` | crates/ermya-graph-server/src/audit.rs:1310-1314 | what is buffered is the end of the lines not yet synced |
| `Rotation.AuditFile.Spill` | crates/ermya-graph-server/src/audit.rs:1288-1308 | the buffered writer may write through any part of its buffer at any time |
| `Rotation.AuditFile.WriteAll` | crates/ermya-graph-server/src/audit.rs:1346-1386 | after any sequence of lines the retained files are a suffix of what was there plus all lines written, moved only when full, and all of them are synced |
| `Backpressure.StepKeepsInv` | crates/ermya-graph-server/src/audit.rs:811-818 | every atomic action of a sender or the writer keeps the accounts, the order and the capacity |
| `Backpressure.EveryEventIsAccountedFor` | crates/ermya-graph-server/src/audit.rs:1414-1442 | under every interleaving events offered = written + in hand + queued + abandoned + turned away but not yet counted + counter + being reported + reported, and events are written in the order accepted |
| `Backpressure.AtRestNothingIsMissing` | crates/ermya-graph-server/src/audit.rs:1346-1374 | at rest, events written plus drops reported are all events offered |
| `Backpressure.CountersAreHistory` | crates/ermya-graph-server/src/audit.rs:1414-1442 | at every point the counter holds the drops counted since the writer last took it |
| `Backpressure.AllDropsReportedExactly` | crates/ermya-graph-server/src/audit.rs:1374-1386 | once the writer has gone, all events turned away have been reported if and only if each was counted and none after the writer last took the counter |
| `Backpressure.DropIsLost` | crates/ermya-graph-server/src/audit.rs:1374-1386 | a run in which one is neither written nor reported |
| `Backpressure.DropsAreReportedInTime` | crates/ermya-graph-server/src/audit.rs:1365-1374 | once the writer rests behind an event, every drop counted before it wrote that event has been reported |
| `Backpressure.DropIsReported` | crates/ermya-graph-server/src/audit.rs:1414-1442 | a run with a report of one |
| `Backpressure.ShutdownWritesTheQueue` | crates/ermya-graph-server/src/audit.rs:1374-1386 | only events offered after the writer's last look are abandoned, so shutdown loses none queued before |
| `Backpressure.RoomIsUsed` | crates/ermya-graph-server/src/audit.rs:811-818 | nothing is turned away while no more has been offered than the channel holds |
| `Backpressure.DropsAfterShutdownStayUnreported` | crates/ermya-graph-server/src/audit.rs:1374-1386 | the final drain takes no drop off the counter and reports none |

## Left out

- `Preprocessor.ConvertBacktickIdents`: nothing is claimed about an identifier that is followed directly by another or by a double-quoted literal; the two run into each other.
- `Preprocessor.RewriteRemoveClauses`: nothing is claimed about commas inside literals of a property list.
- `Boundaries.PreprocessingKeepsWellFormed`: overlong forms and surrogates are not told from other characters, because slicing does not ask.
- `Clauses.RewriteWithStar`: does not claim that no `WITH *` is left, because blanking one can form another.
- `Batching.DepthIsExact`: counts the batches of one session; other sessions on the same database share the engine's depth.
- `Flushing.EveryFlushExactly`: likewise, and for runs on one database without BEGIN; `Sharing` treats the others, closing flushes apart.
- `OwnWrites.ReadsSeeOwnWritesExactly`: a batch counts as flushed once it has been ended, whether or not the engine reports an error.
- `Rotation.AuditFile.HandleOne`: byte counts are unbounded, apart from the saturating comparison; a file of more than 2^64 bytes is not considered, nor 2^32 lines without a sync.
- `Handler.BoltHandler.HandleHello`: the look-up of the admin role and the name given to a missing principal are not modelled.
- `SlowGate.SlowQueryGate.Allow`: counters are unbounded instead of 32 bits wide.
- `Splitter.StreamGqlImport`: the callback is taken to succeed and the input to be readable.
- Line and column numbers in error messages, and the wording of messages.
- The grammars behind the CALL, DDL, admin and core parsers, which are parameters of `Statements`.
- The engine, the registry, the authentication store and the rate limiter: oracles in `World`. The different failures of an executor are one code.
- Audit events, metrics and tracing of the handler, time limits and row caps on queries.
- I/O failures of sockets and files, timeouts, TLS, PackStream encoding of messages.
- How the importer cuts batches from its channel: `Importing.RunImport` takes the list of batches as given.
- The hashing of query parameters: signatures are arbitrary numbers.
- Numbers, arrays and objects in the importer's literals, CSV and JSON import, export, the REPL and the Python bindings.

# Verified model of the answering system

This project models the parts of the repository where an error would be silent, and proves
what they promise for every input, every run and every interleaving:

- **the fact contract for AI text**: citation tokens are found, grouped, masked and stripped
  (`Text`, `References`, `CitationExact`, `Stripping`, `StrippingExact`); Chinese numerals are
  rewritten in place (`Numerals`, `NumeralExact`); claims are tokenized (`Claims`, `Locality`, `Reading`); facts are
  taken from inputs, tables and text (`Ledger`, `LedgerExact`, `Clauses`, `TextFacts`, `TextExact`); a
  text is shown only if a fact cited right after each claim backs it (`Facts`, `Contract`,
  `Acceptance`, `Backing`, `Grounds`). Text is a sequence of bytes, each the start of a character or
  a continuation, so an index is a byte offset, as in the source;
- **the document chunker** (`PyText`, `Chunker`, `ChunkProperties`, `ChunkOverlap`,
  `ChunkConservation`, `ChunkHeader`, `ChunkTables`, `ChunkPacking`): blocks are split, packed into
  overlapping windows, tables keep their header; and **the vector back-fill** (`Revec`,
  `RevecExact`), a cursor loop over a database with guarded updates;
- **the incremental parser of server-sent events** (`Sse`), which follows part of sections 9.2.5
  and 9.2.6 of the WHATWG HTML Living Standard;
- **two-arm answering** (`Fusion`, `FusionExact`, `RaceArms`): the routing plan, the race of a data
  and a document answer under a budget, and their fusion; **the session-expiry guard**
  (`ExpiryGuard`, `ExpiryKeys`), modelled by the turns of the event loop;
- **the longest shared run of Han characters** (`SharedRun`), a one-row dynamic programme;
- **the judge tools** (`SqlLexer`, `ResultCompare`, `CompareExact`, `Closure`, `DockerArgv`): a lexer
  that blanks literals and comments, a row-set comparison, two graph closures, two argument scanners.

A module named `...Exact`, and `Backing`, `Grounds`, `Reading`, `ChunkTables` and `ChunkPacking`, says
what an operation does in terms of the bytes, characters, rows or fields alone, without the
functions it is made of, and proves that this is what they compute.

Objects whose methods update fields are classes (`Contract.AnswerContract`, `Sse.SseParser`,
`Chunker.Packer`, `Revec.KnowledgeBase`, `ExpiryGuard.SessionGuard`, `RaceArms.Race`), scanners that
advance an index are methods with loops, and the dynamic programme works on an array; each is
proved equal to a function of its input or old state, and the properties are lemmas about that
function.

`dafny verify dfyconfig.toml` checks everything.

## Findings

Places where the code does not do what its comments, documentation or name promise. Each is a
lemma with a concrete case or an exact condition.

- `push_text` adds an offset found in a trimmed clause to the start of the untrimmed clause, and so
  can slice inside a character and panic. It does exactly if one of the cue words it reaches before
  the contract is full cannot be sliced out (`TextFacts.TextPanicsExactly`), which the bytes around
  the word decide (`TextFacts.SliceableExactly`): always with an indent of one or two bytes
  (`TextFacts.IndentedTextPanics`, `TextFacts.IndentedText`), never if no clause is indented
  (`TextFacts.UnindentedTextIsSafe`).
- A back-fill interrupted before its last step leaves documents complete but not advanced, and no
  later run advances them, while the comment says a rerun resumes (`Revec.CompleteButStuck`); a missing
  row with an outdated recipe is counted but never selected, so every run exits 1 (`Revec.NeverSelected`).
- The guard can run the handler twice for one waiting key, when a run ends before an earlier
  run's promise has settled: two waiting keys, three runs (`ExpiryGuard.TwoKeysThreeRuns`). The bound that
  always holds counts pairs of a run and a key (`ExpiryGuard.FurtherRuns`). The number of waiting keys is a
  bound exactly if no key waits for two runs, the only waiting key and the one handled last of
  two aside (`ExpiryKeys.FurtherRunsByKeyExactly`).
- A plan marked `deterministic` is documented to be independent of the model's sample. Rule R2
  reads the contract, so its plans are not (`Fusion.ModelFreeExactly`, `Fusion.DeterministicByName`).
- The overlap slice index goes negative for some document exactly if the overlap has more
  characters than the target, or just as many and an even number (`ChunkOverlap.SliceIndexExact`); the
  chunk bound holds all the same.
- A chunk of a table can be its header alone, when an overlong row is cut into a blank stretch
  (`ChunkConservation.HeaderOnEveryChunk`; `ChunkHeader.HeaderAlone` has such a table).
- Event data whose lines end in CR do not survive the wire: `Sse.RoundTrip` gives the exact condition.
- A one-to-one pairing of rows within tolerance does not imply a positive comparison
  (`ResultCompare.PairedButDifferent`); one that takes both sides in the order of their texts does, and
  only that (`ResultCompare.EqualExactly`).
- `_ensure_stdin_flag` takes a short option with its value attached, such as `-uadmin`, for a stdin
  flag (`DockerArgv.AttachedValueMistaken`); `DockerArgv.EnsureOpensExactly` is the exact condition.

## Model

| member | source | states |
|---|---|---|
| References.ReferenceTokens | crates/agent/src/answer_contract.rs:559-579 | the scanning loop finds exactly the tokens of the recursive reading: the first `]` after a `[` closes it, and only a fact id between them counts |
| References.TokensOrdered | crates/agent/src/answer_contract.rs:559-584 | tokens follow one another without overlap and each reads literally `[id]` with `id` a fact id |
| CitationExact.TokensExact | crates/agent/src/answer_contract.rs:559-584 | the tokens are the bracket pairs, each `[` with the first `]` behind it, that hold a fact id: ASCII letters, digits and `:_-.`, with `F` in front or `:F` somewhere |
| References.ReferenceGroups | crates/agent/src/answer_contract.rs:586-603 | the loop computes the groups |
| References.GroupsAreMaximalRuns | crates/agent/src/answer_contract.rs:586-603 | groups partition the tokens, in order, into the maximal runs with only white space between neighbours |
| CitationExact.GroupsExact | crates/agent/src/answer_contract.rs:586-603 | a group has its tokens' ids and reaches from the first's start to the last's end; neighbours share one exactly if only white space stands between them |
| References.GroupsOfOrdered | crates/agent/src/answer_contract.rs:586-603 | groups follow one another, hold at least one token and start and end with a token |
| References.MaskReferences | crates/agent/src/answer_contract.rs:605-614 | the in-place masking blanks exactly the bytes of the tokens |
| References.MaskedUtf8 | crates/agent/src/answer_contract.rs:605-614 | the masked bytes are valid UTF-8 with the same character boundaries, so the conversion back cannot fail |
| Stripping.StripReferences | crates/agent/src/answer_contract.rs:616-630 | the displayed text is the text outside the tokens, tidied |
| StrippingExact.ShownExact | crates/agent/src/answer_contract.rs:616-630 | the displayed text is every byte outside the citations, without the blanks right before 。，；： and without the white space at its ends |
| Stripping.StrippedHasNoToken | crates/agent/src/answer_contract.rs:559-630 | scanning the displayed text again finds no token, with nested and unbalanced brackets too |
| Stripping.StrippingKeepsVisible | crates/agent/src/answer_contract.rs:616-630 | stripping loses no visible character outside the tokens |
| Numerals.ExtractChineseNumberClaims | crates/agent/src/answer_contract.rs:775-817 | the loop finds exactly the runs of numerals the context test keeps |
| Numerals.RunsOrdered | crates/agent/src/answer_contract.rs:775-817 | runs are ordered, apart from each other and made of whole numeral characters |
| NumeralExact.RunsExact | crates/agent/src/answer_contract.rs:775-817 | the runs are the longest stretches of the fourteen numerals, where the context counts them |
| Numerals.NormalizeChineseNumerals | crates/agent/src/answer_contract.rs:737-771 | the rewrite, last run first, gives the specified text and reports exactly the runs without a replacement; the length guard cannot fire |
| Numerals.OffsetsStable | crates/agent/src/answer_contract.rs:737-817 | whatever the numeral reader answers: same length, valid UTF-8, only numeral bytes change, boundaries stay |
| Numerals.RunReads | crates/agent/src/answer_contract.rs:737-771 | each run reads as its right-aligned digits, or as before |
| NumeralExact.RunsBecome | crates/agent/src/answer_contract.rs:737-771 | each run becomes blanks and the decimal digits of its worth, 〇 read as 零, or stays if it has none or they do not fit |
| Claims.ExtractNumericClaims | crates/agent/src/answer_contract.rs:1105-1188 | the index-driven tokenizer computes the claims of the recursive reading |
| Claims.DigitsCovered | crates/agent/src/answer_contract.rs:1105-1188 | no digit escapes: each lies in a claim, or in a list marker or a token touching a letter |
| Reading.ClaimReads | crates/agent/src/answer_contract.rs:1105-1188 | every claim is a printed number of the text that goes on neither way, is no list marker or part of a name, is worth what its sign, commas and point say, and has the unit the characters around it give, dates included |
| Reading.PrintedIsRead | crates/agent/src/answer_contract.rs:1105-1188 | every printed number that stands apart and is not passed over is a claim, with that value and unit |
| Reading.ValueReads | crates/agent/src/answer_contract.rs:1163-1166 | the value of a printed number: sign, figures by their places, commas for nothing, figures behind the point as a fraction |
| Reading.EveryDigitRead | crates/agent/src/answer_contract.rs:1105-1188 | every digit of a text is part of a claim so read, or of a number passed over |
| Locality.NumbersLocal | crates/agent/src/answer_contract.rs:345-369 | the claims of a segment alone are exactly the whole text's claims in its range, with span, value and unit |
| Locality.CuesLocal | crates/agent/src/answer_contract.rs:370-379 | the same for cue words |
| Facts.NoRawFallback | crates/agent/src/answer_contract.rs:1022-1060 | the same figure in two different amount scales, whichever side has which, never matches, except for zero up to rounding noise |
| Backing.AgreeIs | crates/agent/src/answer_contract.rs:1022-1060 | when two amounts match: ten-thousands and hundred-millions in full, percentages as such or as ratios, counts, multipliers and dates only among their own, up to rounding noise |
| Backing.CompatibleIs | crates/agent/src/answer_contract.rs:883-910 | two labels are of one scope exactly if names of theirs, with or without a suffix, are alike or one stands in the other, case aside |
| Backing.MentionsAre | crates/agent/src/answer_contract.rs:848-881 | the labels a segment names: a name of theirs stands there and no longer label that holds them does |
| Backing.CuesAreWords | crates/agent/src/answer_contract.rs:688-720 | the cue words found are the eleven words wherever they stand |
| Ledger.AddAllSequential | crates/agent/src/answer_contract.rs:98-115 | facts stay numbered in sequence within their namespaces |
| Ledger.AddAllFromDrafts | crates/agent/src/answer_contract.rs:98-115 | every draft becomes one fact, in order, behind the facts there were |
| LedgerExact.GivenInFull | crates/agent/src/answer_contract.rs:98-115 | a contract made of given facts holds exactly those with a number, in order, each with its own fields and numbers |
| Ledger.IdInjective | crates/agent/src/answer_contract.rs:256-258 | an id determines its namespace and ordinal |
| LedgerExact.IdExact | crates/agent/src/answer_contract.rs:256-258 | an id is the namespace, `:F` and the ordinal in at least three digits |
| Ledger.IdsUnique | crates/agent/src/answer_contract.rs:247-266 | no two facts of a contract share an id |
| Ledger.CitationRoundTrip | crates/agent/src/answer_contract.rs:256-258 | a citation written for a generated id is read back as that id |
| Ledger.TableKeepsSequence | crates/agent/src/answer_contract.rs:123-183 | a table keeps the ids in sequence |
| Ledger.TableGrown | crates/agent/src/answer_contract.rs:123-183 | a table adds one fact per measuring cell while there is room, each made of one cell; old facts stay |
| LedgerExact.TableInFull | crates/agent/src/answer_contract.rs:123-183 | behind the old facts one for each measuring cell in reading order, as far as there is room for 128, with the row's naming cells as subjects, the heading as metric, and the cell's numbers in the heading's scale |
| Contract.AnswerContract.FromFacts | crates/agent/src/answer_contract.rs:98-115 | a new contract holds one numbered fact for each of the first inputs that has a number, in order |
| Contract.AnswerContract.PushFact | crates/agent/src/answer_contract.rs:247-266 | appends the numbered fact, keeping ids in sequence |
| Contract.AnswerContract.PushTable | crates/agent/src/answer_contract.rs:123-183 | the facts become those of the specified walk over the first `limit` rows |
| Contract.AnswerContract.PushText | crates/agent/src/answer_contract.rs:187-245 | the facts become those of the numbers and cue words in order, up to the end or the panic |
| Clauses.LocalClauses | crates/agent/src/answer_contract.rs:651-667 | the loop cuts the text at stops |
| Clauses.ClausesExact | crates/agent/src/answer_contract.rs:651-667 | clauses are in order and apart, each holds at most the stop it ends with, and together they hold every character that is no white space |
| TextFacts.OneNumberEach | crates/agent/src/answer_contract.rs:187-205 | one fact per number, in order, while there is room, each vouching for that number alone and holding its clause |
| TextExact.TextInFull | crates/agent/src/answer_contract.rs:187-245 | one fact for each number, then one for each cue word, in order, as far as there is room or up to the first that cannot be sliced; each with its label and its excerpt between stops or pauses |
| TextFacts.TextKeepsSequence | crates/agent/src/answer_contract.rs:187-245 | ids stay in sequence |
| TextFacts.TextPanicsExactly | crates/agent/src/answer_contract.rs:187-245 | the call panics if and only if, of the cue words of all clauses in order, one of those reached while there is room cannot be sliced out |
| TextFacts.SliceableExactly | crates/agent/src/answer_contract.rs:217-230 | a cue word can be sliced out exactly if the bytes as far before its ends as the clause is indented are character boundaries |
| TextFacts.IndentedPanics | crates/agent/src/answer_contract.rs:217-230 | with an indent of one or two bytes no cue word of a clause can |
| TextFacts.IndentedTextPanics | crates/agent/src/answer_contract.rs:208-245 | it panics when it reaches any cue word of such a clause |
| TextFacts.UnindentedTextIsSafe | crates/agent/src/answer_contract.rs:208-245 | a text without indented clauses never panics |
| TextFacts.IndentedText | crates/agent/src/answer_contract.rs:217-230 | a concrete text that panics |
| Contract.SegmentIsCut | crates/agent/src/answer_contract.rs:347-360 | every segment the loop can choose, the fallback past a stop included, is a cut the tokenizer is local to |
| Grounds.SegmentOpensIs | crates/agent/src/answer_contract.rs:347-360 | a segment is the clause before the citation, or the one before if only white space follows its stop, and never reaches over the citation before |
| Contract.SegmentsApart | crates/agent/src/answer_contract.rs:347-360 | segments are ordered and disjoint |
| Contract.OneSegment | crates/agent/src/answer_contract.rs:347-360 | a claim lies in at most one segment |
| Contract.SpansWithin | crates/agent/src/answer_contract.rs:504-520 | matching by span identifies exactly the claims of the segment |
| Contract.ReadablePrepared | crates/agent/src/answer_contract.rs:324-341 | masking and rewriting leave every citation group blank and in place |
| Contract.CheckGroup | crates/agent/src/answer_contract.rs:361-492 | one turn of the loop reports nothing exactly if every claim of the segment is backed and the group fits |
| Contract.CheckGroups | crates/agent/src/answer_contract.rs:345-502 | the loop over groups reports nothing exactly if every group passes |
| Contract.AnswerContract.Validate | crates/agent/src/answer_contract.rs:315-524 | accepts exactly the texts of the declarative condition, and then shows the stripped text |
| Contract.AcceptsExactly | crates/agent/src/answer_contract.rs:315-524 | soundness and completeness: accepted if and only if every reference is known, every numeral readable, every group fits and every number and cue word of the whole text lies in a segment whose group cites a fact that supports it |
| Acceptance.CitedExactly | crates/agent/src/answer_contract.rs:381-386 | in a numbered contract the cited facts are exactly the facts whose ids the group names |
| Grounds.AcceptsOnGrounds | crates/agent/src/answer_contract.rs:315-524 | acceptance with nothing left to the checker's predicates: every id names a fact; every number and cue word lies in the segment of a group with a cited fact whose numbers or words agree, all of whose subjects stand in the segment by name, with no other named, and whose metric stands there, is proved by the unit, or is carried over; sides, scopes and labels of every group agree |
| Grounds.ShownDigitsStand | crates/agent/src/answer_contract.rs:315-524 | of an accepted text, the digits displayed are, in order, digits outside the citations, each in a number that a cited fact backs, or in a list marker or a name |
| Reading.NumeralReads | crates/agent/src/answer_contract.rs:737-771 | a Chinese numeral worth w, with room for its digits and a unit behind, is checked as w of that unit: so many ten-thousands, hundred-millions, per cent or pieces |
| Grounds.CarriedIs | crates/agent/src/answer_contract.rs:345-502 | the metric a group may refer back to is that of the last group before whose facts have one |
| Grounds.ScopeKeyExact | crates/agent/src/answer_contract.rs:1018-1020 | facts share a scope exactly if namespace, subjects and metric are the same, separators in labels aside |
| Sse.SseParser.Feed | web/src/kb-stream.ts:26-42 | emits and keeps what scanning buffer and chunk gives |
| Sse.SseParser.End | web/src/kb-stream.ts:45-60 | closes the stream: half line, then frame |
| Sse.SseParser.FieldLine | web/src/kb-stream.ts:62-72 | a frame that described the lines since the last blank one describes them and this line |
| Sse.SseParser.Dispatch | web/src/kb-stream.ts:74-83 | gives the event of the lines since the last blank one, or none if they hold no data, and starts with no line again |
| Sse.FeedAnyCut | web/src/kb-stream.ts:26-42 | any way of cutting the stream gives the same events, frame and leftover |
| Sse.EndIsTwoLineFeeds | web/src/kb-stream.ts:45-60 | ending is feeding two line feeds |
| Sse.ParseMeaning | web/src/kb-stream.ts:21-84 | the events are those of the blocks between blank lines: joined data, last event name |
| Sse.ChunksDoNotMatter | web/src/kb-stream.ts:21-84 | feeding pieces, then ending, parses the whole |
| Sse.RoundTrip | web/src/kb-stream.ts:21-84 | printed events parse back to themselves if and only if each is printable |
| Sse.RoundTripAnyCut | web/src/kb-stream.ts:21-84 | the same under every cut |
| Chunker.SplitLongText | tools/embed_service.py:1113-1126 | the splitting loops compute the specified parts |
| Chunker.SplitLongFits | tools/embed_service.py:1113-1126 | parts are never empty and never longer than the cap |
| ChunkPacking.SplitLongCuts | tools/embed_service.py:1113-1126 | long text is cut behind a sentence end when the next sentence does not fit, or at the cap; the parts are the text but for white space at its end |
| Chunker.Packer.Fill | tools/embed_service.py:1137-1165 | filling emits exactly the specified windows |
| Chunker.Packer.FillTable | tools/embed_service.py:1204-1228 | table packing emits exactly the specified bodies under the header |
| Chunker.Packer.ChunkBlocks | tools/embed_service.py:1230-1251 | the whole loop computes the specified chunks or the exception |
| ChunkProperties.WindowsAreBounded | tools/embed_service.py:1155-1165 | no buffer exceeds the larger of target and overlap plus one plus unit cap |
| ChunkProperties.NeverTooLong | tools/embed_service.py:1128-1251 | for every block list and every requested sizes, no text handed to `_emit` exceeds max(tc, oc+2), so it never raises |
| ChunkProperties.ChunksFitTheWindow | tools/embed_service.py:1096-1251 | every chunk is non-empty and at most 480 tokens |
| ChunkPacking.SizesExact | tools/embed_service.py:1230-1233 | target and overlap in characters, for every request |
| ChunkPacking.RunPacked | tools/embed_service.py:1137-1165 | a run of units is packed window by window, as many units as fit, each window starting with the end of the one before, of the overlap's length |
| ChunkPacking.TableGrouped | tools/embed_service.py:1204-1228 | a table's rows are packed in order, as many to a chunk as fit; a row too long is cut by itself |
| ChunkPacking.ProseRun | tools/embed_service.py:1234-1251 | blocks under one heading that are no tables are packed together, whatever follows |
| ChunkPacking.TableRun | tools/embed_service.py:1234-1251 | a table is packed by itself |
| ChunkTables.TableExactly | tools/embed_service.py:1186-1202 | a block is a table exactly if one of its second to sixth lines is a separator row under a bar row, and the lines up to the first leave room for fifty characters; they are the header, the later lines that are not blank the rows |
| ChunkTables.ChunksRepeatHeader | tools/embed_service.py:1186-1228 | every chunk of such a block starts with those lines |
| ChunkOverlap.SliceIndexExact | tools/embed_service.py:1137-1165 | for every requested sizes: some document makes the packer slice its buffer at a negative index if and only if the overlap has more characters than the target, or as many and an even number |
| ChunkOverlap.WalkNeverShort | tools/embed_service.py:1155-1160 | otherwise every buffer that is flushed is at least as long as the overlap |
| ChunkOverlap.CopiesGoNegative | tools/embed_service.py:1155-1160 | under the condition, a document of one-character blocks flushes a shorter one |
| ChunkProperties.SliceIndexOk | tools/embed_service.py:1160 | it never is when the target exceeds the overlap by more than one character, and the overlap is then the buffer's end |
| ChunkConservation.ChunksSpellTheDocument | tools/embed_service.py:1113-1251 | conservation: new text of the chunks, in order, is every visible character of the document once, under its heading, and on the chunk's page or none |
| ChunkConservation.OnePageExact | tools/embed_service.py:1150-1152 | a chunk carries page p exactly if some absorbed unit is on it and no other is on another page |
| ChunkConservation.OnlyNeighboursRepeat | tools/embed_service.py:1159-1228 | repeated text is the end of the text before, at most the overlap long, or a header it starts with |
| ChunkConservation.HeaderOnEveryChunk | tools/embed_service.py:1193-1228 | every chunk of a table starts with its header, and is the header alone exactly if its body is blank, which, if there are rows, is a piece cut from a row too long for the budget |
| ChunkConservation.BlankBodyIsCut | tools/embed_service.py:1204-1228 | a blank body is such a piece |
| ChunkHeader.HeaderAlone | tools/embed_service.py:1193-1228 | a table of one row whose second chunk is its header alone |
| ChunkConservation.RowsStayWhole | tools/embed_service.py:1204-1228 | a row that fits the budget is never cut |
| ChunkConservation.WindowsSpell | tools/embed_service.py:1154-1165 | packing keeps every unit once, in order |
| Revec.KnowledgeBase.RevecChunks | tools/embed_service.py:1423-1462 | terminates; reads each waiting row once, in key order; ends in the specified state with the specified report |
| Revec.KnowledgeBase.WriteBatch | tools/embed_service.py:1450-1454 | one guarded update a row |
| Revec.KnowledgeBase.Promote | tools/embed_service.py:1465-1474 | advances exactly the complete touched documents and counts them |
| Revec.CursorPasses | tools/embed_service.py:1433-1440 | after any batch, failed or not, the cursor has moved up and the rows beyond it are the unread ones, untouched |
| Revec.UpdateHits | tools/embed_service.py:1387-1391 | the guarded update writes the row read, it alone |
| Revec.PlanExact | tools/embed_service.py:1441-1454 | a row is written exactly if its batch was answered in full, with its own text and that text's vector |
| Revec.EveryRow | tools/embed_service.py:1423-1462 | the fate of every row of the table |
| RevecExact.RowInFull | tools/embed_service.py:1369-1454 | the m-th row of the k-th request gets its text, spelt out of name, folder, heading and body, the recipe and the m-th vector, if as many vectors came as texts; else it stays |
| RevecExact.OthersStay | tools/embed_service.py:1369-1454 | a row with a vector, an outdated recipe, a key not positive, or of a document not in use stays as it was |
| RevecExact.DocumentInFull | tools/embed_service.py:1396-1474 | a document is marked embedded exactly if it is in use, a row of it changed, and every row of it has its vector |
| RevecExact.ExitInFull | tools/embed_service.py:1417-1420 | exit 0 exactly if every row of the documents in use has its vector |
| Revec.NothingGoesMissing | tools/embed_service.py:1456-1461 | accounting: missing before is filled plus still missing; advancing documents hides nothing |
| Revec.ExitZeroExactly | tools/embed_service.py:1417-1420 | exit 0 if and only if no missing row of an open document was left unfilled |
| Revec.NeverSelected | tools/embed_service.py:1378-1395 | with a service that never fails, what is left is exactly the rows with an outdated recipe or a key that is not positive |
| Revec.AdvancesExactly | tools/embed_service.py:1396-1474 | a document advances if and only if it was open, the run filled one of its chunks and none is left missing |
| Revec.CompleteStays | tools/embed_service.py:1455-1474 | a document without a missing row is left as it is, and no row of it makes a run fail |
| Revec.CompleteButStuck | tools/embed_service.py:1455-1474 | a document that a run interrupted before its last step was about to advance is open, complete, and never advanced by a later run |
| ExpiryGuard.SessionGuard.Expire | web/src/ask-transport.ts:32-41 | keeps the invariant; the promise belongs to a run for the caller's key, or to the wait for another key's run; a run is started only if none is in flight |
| ExpiryGuard.SessionGuard.Play | web/src/ask-transport.ts:29-43 | any interleaving of turns ends in the specified state and keeps the invariant |
| ExpiryGuard.SessionGuard.SettleAndWake | web/src/ask-transport.ts:34 | a promise settles and its waiting callers ask again in the order they came, however the run ended |
| ExpiryGuard.SessionGuard.Quiesce | web/src/ask-transport.ts:29-43 | driven until nothing is left, every caller is finished, and the further runs are at most the waiting pairs |
| ExpiryGuard.AlwaysSound | web/src/ask-transport.ts:29-43 | every interleaving keeps the invariant |
| ExpiryGuard.RunsNeverOverlap | web/src/ask-transport.ts:29-43 | handler runs never overlap and consecutive runs have different keys |
| ExpiryGuard.OneKeyOneRun | web/src/ask-transport.ts:33-39 | any number of calls with one key start at most one run |
| ExpiryGuard.WakingIsPaidFor | web/src/ask-transport.ts:34 | settling a run starts at most one run and uses up a waiting pair |
| ExpiryGuard.FurtherRuns | web/src/ask-transport.ts:29-43 | with no new arrivals, further runs are bounded by the waiting pairs and the turns are finite, whether handlers resolve or reject |
| ExpiryKeys.FurtherRunsByKeyExactly | web/src/ask-transport.ts:29-43 | exactly when the number of waiting keys bounds the further runs of every run of the guard |
| ExpiryKeys.UnrepeatedBound | web/src/ask-transport.ts:29-43 | the bound, when no key waits for two runs, the only key and the one handled last of two aside |
| ExpiryKeys.RepeatedExceeds | web/src/ask-transport.ts:34-38 | otherwise some turns take more runs than there are waiting keys |
| ExpiryKeys.EveryKeyRuns | web/src/ask-transport.ts:34-38 | from every state without a run in flight, turns exist that give each waiting key a run, the one handled last too if there is another |
| ExpiryGuard.NobodyHangs | web/src/ask-transport.ts:29-43 | when no turn is left every call is finished |
| ExpiryGuard.OutcomeArrives | web/src/ask-transport.ts:34-41 | in every interleaving a caller whose promise is a run's is told how that run ended, or not yet told |
| ExpiryGuard.CrossedIsReachable | web/src/ask-transport.ts:29-43 | a reachable state with callers waiting for two runs |
| ExpiryGuard.TwoKeysThreeRuns | web/src/ask-transport.ts:34-38 | from it two waiting keys take three runs |
| RaceArms.Race.Run | crates/agent/src/hybrid.rs:254-295 | driven to its end with any polling order: the data unchanged; the documents exactly if they are ready within 8 seconds of an answer to a question not mainly about documents, else within 45; and no later than the data arm, the documents or that time |
| RaceArms.RaceOutcome | crates/agent/src/hybrid.rs:254-295 | the same in every interleaving that returns |
| RaceArms.NeverPolledAgain | crates/agent/src/hybrid.rs:263-293 | a document future that has completed is never polled again |
| RaceArms.WaitIsBounded | crates/agent/src/hybrid.rs:283-293 | in every interleaving that returns: the bounds on the wait after the data arm, none for documents already there, the short one for a substantive data answer, and the whole budget before documents are given up |
| RaceArms.UsefulBounded | crates/agent/src/hybrid.rs:254-295 | finitely many useful steps |
| RaceArms.NeverStuck | crates/agent/src/hybrid.rs:254-295 | a step is always possible until it returns |
| RaceArms.DualIsDetermined | crates/agent/src/hybrid.rs:303-352 | the fused answer depends only on the arms and on whether the documents are in time by that measure |
| Fusion.DocumentExactly | crates/agent/src/ask.rs:264-274 | a file is delivered exactly under the document-request rule, free of the model |
| Fusion.ModelFreeExactly | crates/agent/src/ask.rs:259-330 | exactly when the plan does not depend on the model's contract |
| Fusion.NumberIsLookedUp | crates/agent/src/ask.rs:275-288 | a question with a document number is a data question, free of the model |
| Fusion.DeterministicByName | crates/agent/src/ask.rs:318-323 | a plan called deterministic that another contract changes |
| FusionExact.DecideExactly | crates/agent/src/ask.rs:259-330 | which rule decides, by the question's and the contract's marks alone, and the route, product and label it gives |
| Fusion.AnswerOrError | crates/agent/src/hybrid.rs:353-472 | at least one arm's own answer, or the data arm's error, and exactly when which |
| Fusion.PermissionPropagates | crates/agent/src/hybrid.rs:363-376 | a permission error reaches the caller |
| Fusion.DestructiveHasNoDocuments | crates/agent/src/hybrid.rs:317-325 | a destructive question gets the data arm's result unchanged |
| Fusion.SubstanceIsKept | crates/agent/src/hybrid.rs:210-472 | a substantive data answer keeps everything but the panel and a missing insight, unless a file was asked for and the documents have substance |
| Fusion.RefusalsExplained | crates/agent/src/hybrid.rs:389-430 | a refusal of a data question stays; of another it yields to documents, with its note in front |
| Fusion.PanelsAreEarned | crates/agent/src/hybrid.rs:400-472 | no document panel on a data question that neither asked for documents nor used them |
| FusionExact.AnsweredExactly | crates/agent/src/hybrid.rs:210-545 | the one answer when the data arm has answered: documents in time replace it where a file was asked for, and stand beside it exactly if the question names documents or a summary used them |
| FusionExact.RefusedExactly | crates/agent/src/hybrid.rs:389-430 | the one answer when it has not: a data question keeps its card, with documents beside it exactly if it names them; another gets the documents under the excuse |
| FusionExact.FailedExactly | crates/agent/src/hybrid.rs:353-388 | the one answer when it failed: the documents, but for a failure of permission |
| Fusion.SplitTakesAll | crates/agent/src/hybrid.rs:57-70 | a question splits exactly if it has several parts, every one owned by a side, and just one for the documents; the data questions are then all the others, in order |
| Fusion.MixedPartsAreDropped | crates/agent/src/hybrid.rs:57-70 | a mixed part among others, which no contract proposes, would be asked of neither side |
| Fusion.SplitAnswersShown | crates/agent/src/hybrid.rs:521-592 | every data answer is shown once, in order, under its own question, one level deep |
| FusionExact.SplitInFull | crates/agent/src/hybrid.rs:521-592 | what the container of a split question shows beside its parts |
| FusionExact.DigestExact | crates/agent/src/hybrid.rs:521-560 | the note on documents: their first four hundred characters and the number of citations |
| Fusion.ArmsFailApart | crates/agent/src/hybrid.rs:87-156 | one arm failing does not take the other with it |
| SharedRun.LongestSharedHanziRun | crates/agent/src/ask.rs:1051-1068 | the result is the length of a shared run of Han characters and no shared run is longer |
| SharedRun.SharedIsSubstring | crates/agent/src/ask.rs:1049-1050 | a shared run is an equal slice of both texts made of Han characters |
| SharedRun.NextRow | crates/agent/src/ask.rs:1058-1065 | the inner loop turns one row of the table into the next, in place |
| SqlLexer.SqlTokens | tools/regression.py:576-607 | terminates with the words of the blanked text |
| SqlLexer.WordsAreMaximalRuns | tools/regression.py:604-606 | words are exactly the maximal identifier runs |
| SqlLexer.BlankingExact | tools/regression.py:583-603 | of a text printed from segments, code stays, literals and block comments become one blank, line comments vanish |
| SqlLexer.EveryTextHasSegments | tools/regression.py:583-603 | every text is so printed, unclosed literals and comments included |
| SqlLexer.LiteralBodiesDoNotMatter | tools/regression.py:585-595 | replacing a literal's body by another escaped one changes no token |
| SqlLexer.RedlineVerdict | tools/regression.py:856-874 | the verdict on the words |
| SqlLexer.RedlineExactly | tools/regression.py:856-874 | true if and only if the code's first word is `select` or `with` and no word of the code is a word of change |
| SqlLexer.RedlineInFull | tools/regression.py:856-874 | the same letter by letter: the first word spells `select` or `with` and none of the ten words of change is a word of the code |
| SqlLexer.NoVerdictExactly | tools/regression.py:869-871 | no verdict exactly if the code has no identifier |
| ResultCompare.Compare | tools/evaluation.py:398-425 | the nested loops compute the verdict |
| ResultCompare.EqualMeansPaired | tools/evaluation.py:367-425 | a positive verdict gives a one-to-one pairing with every cell within tolerance |
| ResultCompare.EqualExactly | tools/evaluation.py:384-425 | equal if and only if there is an expected row, widths agree, and a pairing within tolerance takes both sides in the order of their texts |
| CompareExact.CloseIsSame | tools/evaluation.py:367-395 | values are the same exactly if both are null, or read as numbers within half a per cent, percent signs, commas and currency aside, or are the same text, white space at the ends aside |
| CompareExact.EqualInFull | tools/evaluation.py:367-425 | equal if and only if both sides, listed in the order of their texts, have the same values in this sense at every place |
| ResultCompare.OrderOfRowsIsNothing | tools/evaluation.py:384-425 | permuting either side's rows changes no verdict |
| ResultCompare.SameRowsAreEqual | tools/evaluation.py:398-425 | sides with the same rows are equal, if there is a row and all are equally wide |
| ResultCompare.PairedButDifferent | tools/evaluation.py:384-425 | a pairing within tolerance with a negative verdict |
| Closure.DeptChildren | tools/judge_scope.py:180-191 | terminates on every relation, cycles included, with exactly what lies at or below the roots; without duplicates if rows are unique |
| Closure.Subordinates | tools/judge_scope.py:200-207 | exactly the employee and everybody below |
| Closure.ClosureIsLeast | tools/judge_scope.py:180-207 | the closure is the least closed set that holds the roots |
| Closure.TwiceGivenTwiceFound | tools/judge_scope.py:188 | a row given twice is found twice |
| DockerArgv.DockerExecAt | tools/cli.py:47-65 | finds `exec` behind the global options |
| DockerArgv.DropStdinFlag | tools/cli.py:68-94 | the loop computes the list without stdin flags |
| DockerArgv.EnsureStdinFlag | tools/cli.py:97-121 | the loop decides whether a flag is put in |
| DockerArgv.DropsExactly | tools/cli.py:81-94 | exactly the stdin flags among the options go; values that look like one, and the container, stay |
| DockerArgv.ExecByName | tools/cli.py:47-65 | `exec` is found exactly if only Docker's global options, by name and with their values, stand before it |
| DockerArgv.DropsByName | tools/cli.py:81-94 | dropping leaves every option but `-i` and `--interactive` |
| DockerArgv.EnsuresByName | tools/cli.py:97-121 | the list is left alone exactly if some option is taken for a stdin flag, by name or for a letter `i` behind one dash |
| DockerArgv.OptionsThenContainer | tools/cli.py:81-94 | options and container are all there is |
| DockerArgv.DropUndoesEnsure | tools/cli.py:68-121 | drop(ensure(x)) = drop(x), and both are idempotent |
| DockerArgv.OnlyStdinChanges | tools/cli.py:47-121 | nothing else changes, and any other prefix is returned as it is |
| DockerArgv.EnsureOpensExactly | tools/cli.py:97-121 | stdin is open after ensuring exactly if the last option about it says so, or none says anything and no option was taken for a stdin flag |
| DockerArgv.AttachedValueMistaken | tools/cli.py:115-116 | a list for which it is not |

## Left out

- `fact_ids`, `render`, `instruction`, `retry_note`, `cites_namespace`: one filter or string building.
- Word lists and alias suffixes, the residue test of `only_scope_and_number`, the context test and the value of a Chinese numeral, and `label_before` are parameters; every result holds for every choice of them.
- Error messages of `validate` are tags, and the final sort and removal of duplicates is left out; whether there are errors is not affected.
- Numbers are exact where the source uses `f64`; its rounding is not modelled. The 1.6 characters per token are the fraction 8/5.
- Integer widths are not modelled; no property here depends on overflow.
- The regular expressions `_SENT` and `\r$` are predicates on characters; `_MD_SEP` is a parameter on lines.
- JavaScript strings are sequences of characters, not of UTF-16 units; the parser only looks at ASCII characters.
- The set of pages in `_fill` is a list, which `one_page` cannot tell from a set.
- Database: one writer, no SQL error, the date constant during a run; rows are kept in key order. Vectors are not rounded to six decimals as `_vlit` does.
- The executor's scheduling: ready futures are polled before time moves on. The handler of the expiry guard returns its promise before it calls the guard.
- What the arms compute, the model calls and the summary are inputs of the fusion; `has_measurable_slots` and `doc_noun_claimed` are facts of the contract, the clarification card of an unsplittable question is not built.
- ResultCompare.Judged: leaves out the message that goes with the verdict; the order of rows is any total order, as the JSON texts give.
- Numerals.ExtractChineseNumberClaims: the unit and context tests that decide whether a run counts are the parameter `keep`; the results hold for every one.
- Reading.NumeralReads: covers runs with more bytes than the digits of their value, so that a blank stands before them; digits that fill the run join what stands before.
- Fusion.SplitTakesAll: about the parts a contract can propose (crates/agent/src/intent.rs:497-533), none of them mixed unless it is alone; MixedPartsAreDropped says what becomes of others.
- Docker's own reading of options, in `DockerArgv.Setting`, follows the options the source lists as taking a value; the last setting counts, explicit false values included.

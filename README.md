# Resilient decoding of model output in Aegis AI Defence

This project models, in Dafny, the core of the Aegis AI Defence front end. Each part is taken from the TypeScript source.

- **`parseJSONRobust`** (`services/geminiService.ts`). It decodes a model reply that should hold one JSON value, in layers. Each layer runs only when the previous one failed:
  1. Trim the reply and strip its code fences.
  2. Parse it directly.
  3. Close a string left open (a scan with an `inString` and an `escaped` flag), then close the `{` and `[` still open (a scan with a stack of expected closers), and parse the repaired text.
  4. Wrap the first `"iterations"` array of the cleaned text in a synthetic envelope and parse that.
  5. Otherwise fail with "Response truncated and unrecoverable.".
- **The stream loops** of `analyzeModelCode` and of `runStream`. Both accumulate `fullText` from the chunks and report progress or snapshots. The RL loop skips runs of more than 20 zeros. The analysis loop then checks for an empty reply and a non-object result.
- **The tagged-block decoder** of `runStream`. It reads closed `<EPISODE>` blocks with the `exec` loop, then the first `<FINAL_CODE>` block and the first `<STATS>` block, applying the source's defaults.
- **The two error classifiers.** These are the catch blocks of `analyzeModelCode` and `runStream`.
- **The RL panel state** of `components/AnalysisPanel.tsx`:
  - the `onChunk` salvage of partial episodes: match the array, split on `},`, normalise each piece, parse the pieces independently and keep the truthy ones;
  - the reset, stream and commit sequence of `handleRLOptimization`;
  - which episode list is displayed;
  - the dashboard derivations `vulnCounts`, `riskLabel` and the fix-time estimate.

How the model is built:

- Each JavaScript regular expression is a hand-written scanner in module `Patterns`, with its backtracking resolved by hand:
  - `MatchAt` is one anchored attempt;
  - `Search` is the leftmost match at or after an index, which is what `match` and `exec` do.
- `JSON.parse` is a foreign call. Every decoder takes it as a parameter `parse: string -> Option<Json>`, where `None` stands for the SyntaxError it throws.
- A thrown `Error` is `Failure(message)` of a `Result`.
- The scan loops are methods with loop invariants. Each is proved equal to a left-fold specification function (`StringScan`, `StackScan`, `Accumulated`, `Snapshots`, `EpisodesFrom`). The properties are proved about those functions.
- The panel's four state hooks are the fields of class `RlPanel`. The callbacks are its methods.

Files:

| file | contents |
|---|---|
| `wrappers.dfy` | `Option`, `Result` |
| `json.dfy` | parsed JSON values, truthiness, `typeof === 'object'` |
| `text.dfy` | `trim`, `indexOf`, `split`, character classes |
| `patterns.dfy` | the regex scanners |
| `json_repair.dfy` | the two repair scans |
| `robust_decoder.dfy` | `parseJSONRobust` |
| `tagged_blocks.dfy` | the tagged-block decoder |
| `errors.dfy` | the error classifiers |
| `streams.dfy` | the stream loops |
| `rl_panel.dfy` | the panel's RL state and salvage |
| `dashboard.dfy` | the dashboard derivations |

## Model

| member | source | states |
|---|---|---|
| Text.TrimStart | services/geminiService.ts:468 | Only leading white space is removed, all of it, and the result starts with a non-space. |
| Text.TrimEnd | services/geminiService.ts:468 | Only trailing white space is removed, all of it, and the result ends with a non-space. |
| Text.Trim | services/geminiService.ts:468 | The result is empty exactly when the text is all white space; otherwise it starts and ends with a non-space. |
| Text.Find | components/AnalysisPanel.tsx:97 | `indexOf`: the index found holds an occurrence and no earlier index at or after `from` does. None means there is no occurrence at all. |
| Text.FindLeftmost | components/AnalysisPanel.tsx:97 | The converse: an occurrence with none before it is the index `indexOf` returns. |
| Text.FirstOccurrenceAt | services/geminiService.ts:413-416 | A text that starts with a label, after a prefix without the label, has its first occurrence right after the prefix. |
| Text.NoOccurrenceJoin | services/geminiService.ts:413-416 | Two texts without a label, joined at a line break or where the first lacks the label's first character, still lack it. |
| Text.SkipRun | services/geminiService.ts:529 | A greedy `k*`: every character of the run is in the class, and the run stops at the end or at a character outside it. |
| Text.Split | components/AnalysisPanel.tsx:91 | `split` with a separator: one piece, the text itself, when the separator is absent, and at least two pieces when it occurs. |
| Text.SplitJoin | components/AnalysisPanel.tsx:91 | `split` loses nothing: joining the pieces with the separator gives the text back. |
| Text.SplitPiecesFree | components/AnalysisPanel.tsx:91 | No piece of a `split` contains the separator. |
| Patterns.MatchArray | services/geminiService.ts:529 | An array-field match starts with the key. Its capture lies between a `[` and a `]`. |
| Patterns.CloseArray | services/geminiService.ts:529 | After the `[`, the lazy `([\s\S]*?)\]` captures up to the first `]`, and fails exactly when no `]` follows. |
| Patterns.MatchArrayComplete | services/geminiService.ts:529 | The converse of `MatchArray`: a key, white space, `:`, white space and `[` always match once a `]` follows, capturing up to the first one. |
| Patterns.MatchArrayLazy | services/geminiService.ts:529 | The capture `([\s\S]*?)` is lazy: it holds no `]`, so it stops at the first one. |
| Patterns.SearchArrayLazy | services/geminiService.ts:529 | The leftmost array match found by `match` also has a capture without `]`. |
| Patterns.MatchField | services/geminiService.ts:413-416 | A field match's capture ends the match and lies inside the text. |
| Patterns.MatchFieldCapture | services/geminiService.ts:413-416 | A field match starts with the key, and its capture has the shape's characters. |
| Patterns.MatchFieldComplete | services/geminiService.ts:413-416 | The converse: the key, all the white space after it and a longest run of the shape's characters match with exactly that capture. |
| Patterns.SearchFieldAtFirstKey | services/geminiService.ts:413-416 | When the first occurrence of the key is followed by a capture, `match` finds the field there and nowhere earlier. |
| Patterns.SearchFieldCapture | services/geminiService.ts:413-416 | The field `match` finds starts with the key and captures the shape's characters. |
| Patterns.DigitsCapture | services/geminiService.ts:413 | The capture of `(\d+)` is a non-empty run of ASCII digits. |
| Patterns.SignedDigitsCapture | services/geminiService.ts:415 | The capture of `([+\-]?\d+)` is an optional sign followed by a non-empty run of digits. |
| Patterns.LineCapture | services/geminiService.ts:414 | The capture of `(.*)` holds no line terminator. |
| Patterns.MatchBlock | services/geminiService.ts:409 | A block match spans the open tag, the body and the close tag. |
| Patterns.MatchBlockIsBlockHit | services/geminiService.ts:409 | The body is lazy: it holds no close tag, and the first close tag after the open tag ends the match. |
| Patterns.MatchBlockComplete | services/geminiService.ts:409 | An open tag followed anywhere later by a close tag always matches. |
| Patterns.Search | services/geminiService.ts:411 | `exec` from `lastIndex`: the match found is at the leftmost index where the anchored attempt succeeds. None means no index at or after `from` matches. |
| Patterns.SearchIsLeftmost | services/geminiService.ts:411 | A match with no match before it is exactly what the search returns. |
| Patterns.BlockSearchFinds | services/geminiService.ts:409-411 | The first open tag and the first close tag after it are the block `exec` finds. |
| Patterns.BlockSearchExtend | services/geminiService.ts:409-411 | A block already closed in the text so far is found identically once more text arrives. |
| JsonRepair.StringScan | services/geminiService.ts:482-486 | The escape flag can be set only by a trailing backslash. |
| JsonRepair.EscapedIffOddBackslashes | services/geminiService.ts:482-486 | The escape flag is set exactly when the text ends with an odd run of backslashes, whatever the string flag. |
| JsonRepair.CloseString | services/geminiService.ts:476-492 | The loop's flags equal the fold over the text read so far. The result is unchanged outside a string. Inside one, the dangling escape is dropped and exactly one `"` is appended. |
| JsonRepair.CloseStringEndsOutside | services/geminiService.ts:489-492 | After the string repair, a rescan ends outside any string. |
| JsonRepair.StackScanFlags | services/geminiService.ts:500-518 | The second scan keeps the same string and escape flags as the first. |
| JsonRepair.StackHoldsClosers | services/geminiService.ts:505-506 | Only `}` and `]` are ever pushed. |
| JsonRepair.Closers | services/geminiService.ts:521-523 | Popping to empty yields the stack's elements in reverse, innermost first. |
| JsonRepair.CloseStructures | services/geminiService.ts:496-523 | The scan loop computes the fold (push, pop on equal top, ignore other closers, only outside strings). The drain loop appends the pending closers, last pushed first. |
| JsonRepair.ClosersDrain | services/geminiService.ts:521-523 | Appending the pending closers outside a string empties the stack. |
| JsonRepair.RepairIsBalanced | services/geminiService.ts:482-523 | A rescan of the repaired text ends outside a string with an empty stack. |
| JsonRepair.RepairOnlyAppends | services/geminiService.ts:489-523 | The repaired text is the cleaned text, minus at most one trailing backslash, then an optional `"`, then only `}` and `]`. The backslash goes only when the text ends in a string with a dangling escape. |
| JsonRepair.RepairKeepsClosedText | services/geminiService.ts:489-523 | A text that ends outside any string only gains closers. |
| RobustDecoder.StripOpeningFence | services/geminiService.ts:470 | Never lengthens the text, and leaves a text without an opening fence untouched. |
| RobustDecoder.StripClosingFence | services/geminiService.ts:470 | Only removes a suffix, and leaves a text without a closing fence untouched. |
| RobustDecoder.StripFences | services/geminiService.ts:468-470 | Never lengthens the text; a reply without fences is only trimmed. |
| RobustDecoder.FencedRoundTrip | services/geminiService.ts:468-470 | A JSON text fenced with ```` ``` ```` or ```` ```json ```` and cleaned comes back trimmed. |
| RobustDecoder.FencedDirectParse | services/geminiService.ts:468-473 | A fenced text whose content parses decodes to that parse; no repair runs. |
| RobustDecoder.DropTrailingComma | services/geminiService.ts:532 | Only a prefix is kept. Something is dropped exactly when a `,` followed only by white space exists, and then exactly that comma and its white space go. |
| RobustDecoder.CommaBeforeSpaceEndsTrim | services/geminiService.ts:532 | A comma followed only by white space is the last character that trimming the end keeps, so `/,\s*$/` has at most one place to match. |
| RobustDecoder.Envelope | services/geminiService.ts:533 | The envelope is the fixed head, the array content and the fixed tail, and the content can be read back from it. |
| RobustDecoder.SalvageText | services/geminiService.ts:529-533 | A salvage text exists exactly when the cleaned text has an `"iterations"` array match. |
| RobustDecoder.SalvagedContentIsUnbracketed | services/geminiService.ts:529-533 | The array content inside the envelope holds no `]`. |
| RobustDecoder.FirstParse | services/geminiService.ts:472-536 | The reference semantics: the parse of the first candidate that parses, and "unrecoverable" exactly when none does. |
| RobustDecoder.Decode | services/geminiService.ts:467-539 | A cleaned reply that parses is returned as parsed; the only failure is "Response truncated and unrecoverable.". |
| RobustDecoder.DecodeIsFirstParse | services/geminiService.ts:472-536 | The nested layers try, strictly in order, the cleaned text, the repaired text and the salvage envelope of the cleaned text, and the first that parses decides. |
| RobustDecoder.RepairLayerIsBalanced | services/geminiService.ts:476-526 | For any input, the text of the second parse is balanced: no open string and no open `{` or `[`. |
| RobustDecoder.RepairText | services/geminiService.ts:476-523 | The two scan loops in sequence produce the repaired text. |
| RobustDecoder.SalvageEnvelope | services/geminiService.ts:529-533 | The regex fallback produces the salvage text of the cleaned input. |
| RobustDecoder.TryLayers | services/geminiService.ts:472-536 | The three nested `try` blocks return the first successful parse, in order, and otherwise throw the unrecoverable error. |
| RobustDecoder.ParseJsonRobust | services/geminiService.ts:467-539 | `parseJSONRobust` returns the layered decode of its input. |
| ErrorMapping.ClassifyAnalysisError | services/geminiService.ts:314-323 | The checks run in the source's order and the first that applies decides: a missing key is rethrown as it is, then 429 or RESOURCE_EXHAUSTED, 403 or "API key not valid", 503, a SyntaxError, the error's own non-empty message, and "Unexpected error". The result is never empty. |
| ErrorMapping.ClassifyRlError | services/geminiService.ts:451-454 | The quota message is returned exactly when the error is rate limited; otherwise the failure prefix is used. |
| ErrorMapping.RlFailureKeepsMessage | services/geminiService.ts:454 | The RL failure message carries the original message after the prefix. |
| ErrorMapping.UnmarkedMessagePassesThrough | services/geminiService.ts:316-323 | A non-empty message containing none of `_`, `4`, `5` or `k` passes through the classifier verbatim. |
| Streams.ClientError | services/geminiService.ts:7-13 | `getAiClient` throws exactly when the key is missing or empty, and then with the fixed key message. |
| Streams.MissingKeyMarked | services/geminiService.ts:10 | The thrown key message holds the marker the analysis classifier rethrows. |
| Streams.KeptChunk | services/geminiService.ts:393-395 | The RL loop keeps a chunk exactly when it is non-empty and either at most 20 characters long or holds a character other than `0`. |
| Streams.SnapshotsGrow | services/geminiService.ts:390-399 | Every snapshot is a proper prefix of every later one, and the last is the final text. |
| Streams.AccumulatedPrefix | services/geminiService.ts:390-399 | The text after any number of chunks is a prefix of the final text. |
| Streams.AccumulateAnalysis | services/geminiService.ts:296-302 | The loop concatenates the non-empty chunks in order and reports the length after each. |
| Streams.ProgressIncreases | services/geminiService.ts:296-302 | Reported progress strictly increases and ends at the final length. |
| Streams.AccumulateOptimization | services/geminiService.ts:390-399 | The loop concatenates the kept chunks and hands each new text to the callback. |
| Streams.ZeroRunIgnored | services/geminiService.ts:395 | A chunk of more than 20 zeros changes neither the text nor the callbacks. |
| Streams.ShortOrMixedChunkKept | services/geminiService.ts:393-397 | Any other non-empty chunk is appended and reported. |
| Streams.AnalysisOutcome | services/geminiService.ts:304-313 | An empty text gives "No response…". Otherwise an object-like decode is returned, a non-object decode gives "Invalid response format…", and a failed decode gives "Response truncated…". |
| Streams.AnalysisResult | services/geminiService.ts:226-323 | A success needs a key and no stream failure, is object-like, and is the decode of the non-empty chunks. |
| Streams.MissingKeyAnalysis | services/geminiService.ts:314-316 | Without a key the analysis rejects with the key message itself, whatever the stream would have done. |
| Streams.InternalErrorsPassThrough | services/geminiService.ts:304-323 | The errors the analysis raises itself leave the catch block unchanged. |
| Streams.EmptyStreamFails | services/geminiService.ts:296-313 | A stream of empty chunks ends with "No response generated from Gemini API.". |
| Streams.AnalyzeModelCode | services/geminiService.ts:226-323 | Without a key nothing is streamed and no progress is reported; otherwise the progress values. The result is the classified outcome. |
| Streams.RlResult | services/geminiService.ts:370-454 | `runStream` succeeds exactly when the stream does not fail, and then its iterations are the episodes of the kept text. A failure is the quota message or carries the failure prefix. |
| Streams.RunStream | services/geminiService.ts:390-454 | `runStream` returns its snapshots, then either the classified error or the decoded report. |
| Streams.MissingKeyOptimization | services/geminiService.ts:327-332 | Without a key the RL run rejects with the raw key message, not the message `runStream`'s classifier would build, and the callback never runs. |
| Streams.OptimizeModelWithRl | services/geminiService.ts:327-463 | The client is built before the stream: the snapshots and the result are those of `OptimizationSnapshots` and `OptimizationResult`. |
| Streams.RlSnapshotsArePrefixes | services/geminiService.ts:390-399 | Every snapshot the RL callback receives is a prefix of the text finally decoded. |
| TaggedBlocks.LineField | services/geminiService.ts:414-416 | The result is the fallback or a trimmed value on one line. A missing key gives the fallback. |
| TaggedBlocks.EpisodeNumber | services/geminiService.ts:413 | A missing `Episode:` gives 0. |
| TaggedBlocks.DigitsField | services/geminiService.ts:413 | A missing key gives 0. |
| TaggedBlocks.RewardValue | services/geminiService.ts:415-422 | A missing `Reward:` gives 0. |
| TaggedBlocks.SignedField | services/geminiService.ts:415-422 | A missing key gives 0. |
| TaggedBlocks.ParseEpisode | services/geminiService.ts:412-416 | Each missing label gives its default (0, "Unknown Action", 0, "Processed"); action and outcome are the default or trimmed one-line values. |
| TaggedBlocks.Kept | services/geminiService.ts:418-425 | A record is pushed exactly when its episode is at least 1. |
| TaggedBlocks.EpisodesFrom | services/geminiService.ts:409-426 | Every emitted record has episode ≥ 1. |
| TaggedBlocks.EpisodesFromStep | services/geminiService.ts:411-426 | One `exec` step moves `lastIndex` strictly forward and pushes the block's record if kept. |
| TaggedBlocks.EpisodesStable | services/geminiService.ts:409-426 | The records read from a text are the first records of any longer text. |
| TaggedBlocks.UnterminatedTailIgnored | services/geminiService.ts:409-426 | Appended text that brings no close tag of its own changes no record. |
| TaggedBlocks.EpisodesOfPrefix | services/geminiService.ts:409-426 | The decoder's records of a prefix of the stream come first in those of the whole stream. |
| TaggedBlocks.OpenTailAddsNothing | services/geminiService.ts:409-426 | A trailing episode block whose close tag has not arrived is never emitted. |
| TaggedBlocks.CleanCode | services/geminiService.ts:431-434 | Never lengthens the block; a block without fences is only trimmed. |
| TaggedBlocks.CodeFenceRoundTrip | services/geminiService.ts:431-434 | Code fenced with any word-character language tag comes back exactly. |
| TaggedBlocks.FinalCode | services/geminiService.ts:429-437 | Without a closed `<FINAL_CODE>` block, the result is the incomplete-code placeholder. |
| TaggedBlocks.Stats | services/geminiService.ts:440-445 | Each stat is "Unknown" or a trimmed one-line value. Without a closed `<STATS>` block, both are "Unknown". |
| TaggedBlocks.ParseStructuredText | services/geminiService.ts:402-447 | The `exec` loop with its `lastIndex`, then the code and the stats, produce the decoded report. |
| TaggedRoundTrip.LineFieldReads | services/geminiService.ts:414-416 | A one-line trimmed value after the first occurrence of its label and any white space is read back exactly. |
| TaggedRoundTrip.DigitsFieldReads | services/geminiService.ts:413 | Digits after the first occurrence of the label are read back as their decimal value. |
| TaggedRoundTrip.EpisodeNumberReads | services/geminiService.ts:413 | `parseInt` of the digits after the first `Episode:` is their decimal value. |
| TaggedRoundTrip.SignedFieldReads | services/geminiService.ts:415-422 | Optionally signed digits after the first occurrence of the label are read back as their value. |
| TaggedRoundTrip.RewardValueReads | services/geminiService.ts:415-422 | `parseInt` of the signed digits after the first `Reward:` is their value. |
| TaggedRoundTrip.EpisodeNumberOfBody | services/geminiService.ts:413 | The ordinal written in an episode block is the one read back. |
| TaggedRoundTrip.ActionOfBody | services/geminiService.ts:414 | A well-formed action written in an episode block is the one read back. |
| TaggedRoundTrip.RewardOfBody | services/geminiService.ts:415-422 | Any reward, written signed as in `+10` or `-5`, is the one read back. |
| TaggedRoundTrip.OutcomeOfBody | services/geminiService.ts:416 | A well-formed outcome written in an episode block is the one read back. |
| TaggedRoundTrip.ParseEpisodeRoundTrip | services/geminiService.ts:412-422 | An episode written in the prompt's block format decodes to itself. |
| TaggedRoundTrip.StatsRoundTrip | services/geminiService.ts:440-445 | Well-formed stats written in the first `<STATS>` block decode to themselves. |
| TaggedRoundTrip.FinalCodeRoundTrip | services/geminiService.ts:429-434 | Code fenced inside the first `<FINAL_CODE>` block decodes to itself. |
| RlPanelState.LogTail | components/AnalysisPanel.tsx:86 | The log is the last min(500, length) characters of the text. |
| RlPanelState.Braced | components/AnalysisPanel.tsx:95 | The result ends with `}`, which is appended only when missing. |
| RlPanelState.FromFirstBrace | components/AnalysisPanel.tsx:93-100 | After the trim, a piece is dropped exactly when it has no `{`, so a blank piece is dropped too. A kept piece starts with `{` and ends with `}`. |
| RlPanelState.NormalizePiece | components/AnalysisPanel.tsx:93-100 | A piece is dropped exactly when its trimmed text has no `{`; a kept piece starts with `{` and ends with `}`. |
| RlPanelState.NormalizePieceCutsAtFirstBrace | components/AnalysisPanel.tsx:96-99 | A kept piece is cut at its first `{`: nothing dropped holds one. |
| RlPanelState.ParsePiece | components/AnalysisPanel.tsx:93-101 | A piece without `{` parses to null; otherwise the result is the parse of the normalised piece. |
| RlPanelState.Survives | components/AnalysisPanel.tsx:101-102 | A piece survives exactly as its own parse when that parse is truthy, and not otherwise. |
| RlPanelState.Survivors | components/AnalysisPanel.tsx:92-102 | There are at most as many survivors as pieces, and all are truthy. |
| RlPanelState.SurvivorsAppend | components/AnalysisPanel.tsx:92-102 | Pieces are parsed independently: survivors of a concatenation are those of each part, in order. |
| RlPanelState.SurvivorsKeepTruthy | components/AnalysisPanel.tsx:92-102 | `filter(Boolean)` keeps every piece whose parse is truthy. |
| RlPanelState.SalvagePartial | components/AnalysisPanel.tsx:88-104 | The previous list is kept, or replaced by a non-empty list of truthy values. Without a match it is kept. |
| RlPanelState.SalvageOfHit | components/AnalysisPanel.tsx:88-103 | With a match, the list is the survivors of the split capture when there are any, and the previous list otherwise. |
| RlPanelState.SalvageKeepsPrevious | components/AnalysisPanel.tsx:103 | The previous list is kept exactly when nothing survives; otherwise the survivors replace it. |
| RlPanelState.SalvageReplacesWhenFound | components/AnalysisPanel.tsx:88-103 | One truthy piece in the captured array is enough: the survivors replace the previous list. |
| RlPanelState.SalvageWaitsForBracket | components/AnalysisPanel.tsx:88 | Until a `]` arrives the lazy array pattern cannot match, and the previous list stays. |
| RlPanelState.SalvageEpisodes | components/AnalysisPanel.tsx:88-102 | The match, split, normalisation and parse produce the salvaged list. |
| RlPanelState.SalvagePiecesCoverCapture | components/AnalysisPanel.tsx:90-91 | The salvage reads only the captured array text: its pieces rejoin to it exactly, and none holds `},`. |
| RlPanelState.ReplayHoldsTruthy | components/AnalysisPanel.tsx:81-103 | From the cleared list, the partial list only ever holds truthy parsed values. |
| RlPanelState.RlPanel.constructor | components/AnalysisPanel.tsx:47-51 | The initial hook values. |
| RlPanelState.RlPanel.Displayed | components/AnalysisPanel.tsx:381 | The committed iterations are shown exactly when a result with at least one exists; otherwise the partial list is shown. |
| RlPanelState.RlPanel.OnChunk | components/AnalysisPanel.tsx:85-106 | The callback sets the log to the tail and the partial list to the salvage; nothing else changes. |
| RlPanelState.RlPanel.ReceiveSnapshots | components/AnalysisPanel.tsx:85-106 | After the snapshots, the log is the last one's tail and the partial list is the replayed salvage. |
| RlPanelState.RlPanel.Settle | components/AnalysisPanel.tsx:107-112 | On success the result is committed and the partial list cleared. On failure the log becomes "Critical Error: " and the message, and the list is kept. Loading ends either way. |
| RlPanelState.RlPanel.HandleRlOptimization | components/AnalysisPanel.tsx:77-114 | Nothing happens without code. A success commits the result and clears the partial list. A failure logs "Critical Error: " and the message and keeps the salvaged list. Without an API key the log shows the raw key message and no episode is salvaged. Loading always ends. |
| RlPanelState.CommittedRunDisplay | components/AnalysisPanel.tsx:107-108 | After a commit, the committed iterations are shown, or an empty list; partial episodes never outlive a result. |
| Dashboard.CountSeverity | components/AnalysisPanel.tsx:224-227 | The count is at most the total. It is 0 exactly when no finding has the severity, and the total exactly when all do. |
| Dashboard.CountSeverityAppend | components/AnalysisPanel.tsx:224-227 | Counting a concatenation adds the counts of the parts. |
| Dashboard.VulnCounts | components/AnalysisPanel.tsx:223-228 | Each of the four counts is at most the number of findings. |
| Dashboard.CountsSumToTotal | components/AnalysisPanel.tsx:223-235 | The four counts sum to at most the total, and to exactly the total when every severity is in the enum. |
| Dashboard.RiskLabel | components/AnalysisPanel.tsx:237 | The four bands: "Critical Risk" exactly below 50, "High Risk" exactly in [50, 75), "Moderate" exactly in [75, 90) and "Secure" exactly from 90. |
| Dashboard.RiskLabelMonotone | components/AnalysisPanel.tsx:237 | A higher score never yields a worse label. |
| Dashboard.RemediationHours | components/AnalysisPanel.tsx:276 | `ceil(total * 0.5)`: the fewest whole hours covering half an hour per finding. |
| Dashboard.RemediationHoursSteps | components/AnalysisPanel.tsx:276 | The estimate is monotone and grows by one hour for every two findings. |

## Left out

- The Gemini SDK and the network (`generateContentStream`):
  - a stream is given as the sequence of its chunk texts;
  - a transport or SDK error is an `ErrorInfo` raised after the chunks delivered so far.
- The environment lookup of `process.env.API_KEY` is a parameter `apiKey`; an unset key is the empty text.
- The 90-second `Promise.race` timeout of `optimizeModelWithRL`. It is wall-clock timing and promise concurrency.
- `JSON.parse` is a parameter, and what it accepts is not modelled. The decoder's properties hold for every parser.
- Text length and slicing:
  - lengths, `slice(-500)` and indices are counted in Unicode scalar values, not UTF-16 code units;
  - for text outside the Basic Multilingual Plane, `LogTail` and the progress values differ from the source.
- TaggedBlocks.EpisodeNumber: `parseInt` is exact on unbounded integers, where the source loses precision beyond 2^53.
- TaggedBlocks.RewardValue: as for `EpisodeNumber`, exact on unbounded integers, where the source loses precision beyond 2^53.
- A whole stream of rendered episode blocks is not proved to decode back record by record; each single block is (`TaggedRoundTrip.ParseEpisodeRoundTrip`), and the loop's records are tied to the blocks found by `EpisodesFromStep`.
- Dashboard.VulnCounts: the contract bounds each count; how the counts add up is stated by `Dashboard.CountsSumToTotal`.
- Dashboard.RiskLabel: the score is a `real`. A missing or `NaN` score, which in the source fails every comparison and reads "Secure", is not modelled.
- Scores and the other fields of `AnalysisResult`. Only the severities feed the counts.
- React rendering and the batching of state updates:
  - the hooks are fields updated in order;
  - the callbacks are replayed after the stream ends, in the order the stream produced them, rather than interleaved with it.
- The `try { … } catch (e) {}` around the salvage in `onChunk`. The modelled salvage cannot throw.
- Logging with `console.error`, and the other panels, video generation, chat and templates.

# mofalaya core, modelled in Dafny

This project models the deterministic core of the mofalaya components and proves what that core promises. The core is:

- **Style generator.**
  - The local remix engine (`remix.ts`) splits a text into paragraphs and sentences, gives each paragraph a narrative role (opening, development, turn, closing), and works out a style allocation per role from the four-way style mix (structure, perception, meaning, distribution). It then applies the two strongest style rules and the language "skin" to each paragraph.
  - The page's own copy of that engine (`page.tsx`), with its derived views: facts, top styles, heatmap allocations, warnings and the language hint line.
  - The style-parse route's `sanitize`, which clamps and defaults the parameters a model returned.
  - The command line's `parseArgs`, `loadStyle` and `loadFacts`.
- **Markdown preview.** The preview of `vibeme` (`escapeHtml`, `formatInline`, `renderMarkdown`).
- **Personal news.**
  - The script checker of the web app and its serverless twin (`_evaluate_script`, `_run_custom_tests`, `_resolve_readme_path`). `web/app.py` and `api/index.py` hold the same code; the model follows `web/app.py` and the same contracts hold for `api/index.py` lines 21-59 and 139-159.
  - The editor's payload shrinking (`_truncate`, `_trim_item`, `_shrink_payload`, `_load_json`).
  - The RSS helpers and feed loop.
  - The weather summary and its guards.
- **Vocal logos.** The ffmpeg concat list and the output-path checks of `concat_mp3.py`.

Modules, one per source file or concern:

- `Text`: the string toolkit shared by all the others. It covers trimming with the JavaScript/Python whitespace set, splitting, joining, search, replacement, `rstrip`, Python slicing and integer printing.
- `Segmenter`, `Rewriter`, `Allocation`, `Remix`: `remix.ts`.
- `PageAllocations`, `PageEngine`: `page.tsx`.
- `StyleParse`: `route.ts`.
- `RemixCli`: `remix-cli.mjs`.
- `MarkdownInline`, `MarkdownRender`: `vibeme/app.js`.
- `ScriptCheck`: the script checker.
- `NewsData`: the JSON values and the Python conversions shared by the news clients.
- `Editor`, `Rss`, `Weather`: the three news modules.
- `ConcatMp3`: the vocal-logo concatenator.

Where the source changes state step by step, the model is a method proved equal to a specification function; where the source loops, the method carries the loop invariants that proof needs. These methods are:

- `Allocation.AssignRoles` and `Allocation.BiasWeights`;
- `Rewriter.ApplyPerception` (in place on an array), `Rewriter.ApplyLanguageSkin` and the counted replace;
- `Remix.ApplyStyles`;
- `RemixCli.ParseArgs`;
- `MarkdownRender.RenderMarkdown`;
- `ScriptCheck.EvaluateScript` and `ScriptCheck.RunCustomTests`;
- `Editor.ShrinkPayload`;
- `Rss.FetchRssItems`;
- `Weather.BuildSummary` and `Weather.FetchWeather`;
- `ConcatMp3.FfmpegConcatList`.

The properties are then proved about the specification functions.

Where the written specification and the code disagree, the model follows the code:

- **All-zero mix.** A mix whose entries sum to zero is divided by 1 (`|| 1`), so it stays all zeros rather than becoming uniform.
- **Role weights.** The weights after the content and role bumps are divided by their own sum (or by 1), not by the sum before the bumps.
- **Long sentences.** With the sentence-length slider above 70, the first two `。` become `，`. That may include the final one.
- **Restrained emotion.** With emotion below 40, only the full-width `！` is replaced. The ASCII `!` is kept.
- **Sentence split.** The library's `splitSentences` gives no sentence when every match trims to nothing, for example a paragraph of whitespace only. A paragraph made only of terminals matches nothing and is kept whole as one sentence.
- **Source name.** `_guess_source_name` removes every `www.` from the host, not only a leading one.

## Model

| member | source | states |
|---|---|---|
| Text.Trim | components/style-generator/src/lib/remix.ts:31-32 | `trim()`: the result has no whitespace at either end, is no longer than the input, and is empty exactly when the input is all whitespace |
| Text.TrimIdempotent | components/style-generator/src/lib/remix.ts:36 | trimming a trimmed string changes nothing |
| Text.TrimSlice | components/style-generator/src/lib/remix.ts:31-32 | the trimmed text is a slice of the input with only whitespace before and after it |
| Text.CleanPiecesAppend | components/style-generator/src/lib/remix.ts:36-37 | `.map(trim).filter(Boolean)` works piece by piece in order: cleaning `a + b` is cleaning `a` then `b`, and one piece becomes its trimmed text unless it is blank |
| Text.RemoveAllAfter | components/personal-news/rss/client.py:64 | `replace(p, "")` keeps the text before the first occurrence of `p` and goes on after it |
| Text.SplitOnJoin | components/style-generator/src/app/page.tsx:211-218 | splitting a newline-joined list of newline-free lines gives the lines back |
| Text.TrimEnd | components/personal-news/editor/client.py:93 | `rstrip()`: the result is a prefix of the input, the rest is whitespace, and the result does not end in whitespace |
| Text.PyPrefix | components/personal-news/editor/client.py:93 | Python `s[:n]`, including negative `n`: its exact length, and it is a prefix of `s` |
| Segmenter.MatchEndExact | components/style-generator/src/lib/remix.ts:33-35 | the blank-line pattern `\n\s*\n` is found wherever it matches, and greedily to its longest end |
| Segmenter.FirstBlankLeftmost | components/style-generator/src/lib/remix.ts:35 | no match of the blank-line pattern starts before the one the split uses |
| Segmenter.BlankSplitRebuilds | components/style-generator/src/lib/remix.ts:35 | the split on blank lines loses nothing: pieces and separators interleave back to the text |
| Segmenter.BlankSplitSeps | components/style-generator/src/lib/remix.ts:35 | every separator the split consumed is a blank line |
| Segmenter.BlankSplitPieces | components/style-generator/src/lib/remix.ts:35 | no piece of the split still holds a blank line |
| Segmenter.SplitParagraphs | components/style-generator/src/lib/remix.ts:30-43 | no paragraph exactly when the text is blank; with a blank line, the cleaned pieces of the blank-line split of the trimmed text; otherwise the cleaned lines of the trimmed text; every paragraph is non-empty, trimmed and free of blank lines; without a blank line no paragraph spans two lines; a one-line text is its own trimmed paragraph |
| Segmenter.SentenceMatches | components/style-generator/src/lib/remix.ts:46 | every match of `[^。！？!?]+[。！？!?]?` is a run of non-terminals with at most one closing mark, and every match but the last ends in a mark (the match is maximal); there is no match exactly when every character is a terminal |
| Segmenter.SentenceMatchesCover | components/style-generator/src/lib/remix.ts:46 | the matches, concatenated, are the text without its stray terminals (a run of marks keeps only its first) |
| Segmenter.SplitSentences | components/style-generator/src/lib/remix.ts:45-48 | when nothing matches, the whole text is the one sentence; otherwise the sentences are the cleaned matches, each non-empty and trimmed |
| Segmenter.SentencesNonEmpty | components/style-generator/src/lib/remix.ts:45-48 | a paragraph whose last character is not whitespace has at least one sentence |
| Allocation.Normalize | components/style-generator/src/lib/remix.ts:107-115 | the weights divided by their sum: they sum to 1 unless the sum is 0, in which case they are left as they are (divided by 1); non-negative weights land in [0,1]; `NormalizeProportional` proves each result times the sum is the input weight |
| Allocation.NormalizeMix | components/style-generator/src/lib/remix.ts:50-58 | the mix divided by its total: the result sums to 1 when the total is not 0 and is the mix itself when it is 0; a non-negative mix gives values in [0,1]; `NormalizeMixProportional` proves each result times the total is the input entry |
| Allocation.NormalizeProportional | components/style-generator/src/lib/remix.ts:107-115 | with a non-zero sum, every normalised weight times the sum is the original weight: the weights are scaled, not replaced |
| Allocation.NormalizeMixProportional | components/style-generator/src/lib/remix.ts:50-58 | with a non-zero total, every normalised entry times the total is the original entry |
| Allocation.Bump | components/style-generator/src/lib/remix.ts:81-83 | `bump`: a score plus the delta is kept when it lies in [0,1], becomes 1 above and 0 below; every other score is unchanged |
| Allocation.RoleScoresDistribution | components/style-generator/src/lib/remix.ts:79-116 | for a non-negative mix, the role-biased scores of any content type and role lie in [0,1] and sum to 1 |
| Allocation.Insert | components/style-generator/src/lib/remix.ts:120 | one step of the stable sort: the result is a permutation of the sorted keys plus the new one |
| Allocation.SortDesc | components/style-generator/src/lib/remix.ts:120 | the stable descending sort is a permutation of its input |
| Allocation.SortDescSorted | components/style-generator/src/lib/remix.ts:120 | the sort orders by score, highest first, with ties kept in key order |
| Allocation.RankIsStableDescending | components/style-generator/src/lib/remix.ts:120 | the ranking of the four scores is a permutation of the four keys, sorted by descending score with ties in declaration order |
| Allocation.TopTwo | components/style-generator/src/lib/remix.ts:120-121 | the primary beats every other key, and the secondary beats every key but the primary |
| Allocation.Roles | components/style-generator/src/lib/remix.ts:60-69 | one role per paragraph (at least one): opening first, closing last when there are two or more, the turn exactly at `floor(count/2)` when there are three or more, development elsewhere |
| Allocation.AssignRoles | components/style-generator/src/lib/remix.ts:60-69 | the array filled with development, then the opening, closing and turn slots written, equals `Roles(count)` |
| Allocation.AllocationFor | components/style-generator/src/lib/remix.ts:118-128 | an allocation carries its role and its role-biased scores; its primary and secondary are the top two keys of the stable ranking, distinct, and each beats the keys ranked after it |
| Allocation.BiasWeights | components/style-generator/src/lib/remix.ts:79-116 | `roleBias`: the weights updated in place by the content-type and role bumps and then divided by their sum equal the specification `RoleScores` |
| Allocation.ComputeAllocations | components/style-generator/src/lib/remix.ts:71-129 | one allocation per role of `count` paragraphs, each with the role of its position and the role-biased scores of the normalised mix |
| Allocation.AllocationsAreDistributions | components/style-generator/src/lib/remix.ts:71-129 | for a non-negative mix every allocation's scores are a distribution and its primary and secondary differ |
| Allocation.NewsOpeningFavoursStructure | components/style-generator/src/lib/remix.ts:85-97 | for news content, a mix led by structure keeps structure as the opening's primary style |
| Allocation.NormalizeKeepsMax | components/style-generator/src/lib/remix.ts:107-115 | dividing non-negative weights by their sum keeps the largest entry largest |
| Rewriter.AddConnector | components/style-generator/src/lib/remix.ts:131-135 | the result ends with the trimmed sentence; it is that sentence when it already opens with a connector word, and otherwise it is exactly `connector，` followed by the trimmed sentence (prefix and length) |
| Rewriter.AddConnectorIdempotent | components/style-generator/src/lib/remix.ts:131-135 | once a connector is added, adding any connector again changes nothing |
| Rewriter.ApplyStructure | components/style-generator/src/lib/remix.ts:137-147 | same number of sentences; the first gets `首先`, and with three or more the second gets `接着` and the last `最后`, each through `AddConnector`; each rewritten one opens with a connector and keeps its trimmed text; the others are untouched |
| Rewriter.ApplyStructureIdempotent | components/style-generator/src/lib/remix.ts:137-147 | applying the structure rule twice is applying it once |
| Rewriter.Perceived | components/style-generator/src/lib/remix.ts:149-154 | only the first sentence changes: it is left as it is when it already has a scene opener, and otherwise becomes exactly `在画面上，` followed by it |
| Rewriter.PerceivedIdempotent | components/style-generator/src/lib/remix.ts:149-154 | the scene opener is never added twice |
| Rewriter.ApplyPerception | components/style-generator/src/lib/remix.ts:149-154 | the in-place update of the sentence array leaves it equal to `Perceived` of its old contents |
| Rewriter.ApplyMeaning | components/style-generator/src/lib/remix.ts:156-159 | the sentences, unchanged, followed by the reflection sentence |
| Rewriter.MeaningJoin | components/style-generator/src/lib/remix.ts:156-159 | joined without separator, the result is the joined sentences followed by the reflection |
| Rewriter.StripMarks | components/style-generator/src/lib/remix.ts:162 | removing the terminal marks never lengthens the text, leaves exactly the characters that are not marks, and leaves a text without marks as it is |
| Rewriter.StripMarksAppend | components/style-generator/src/lib/remix.ts:162 | marks are removed piece by piece in order: stripping `a + b` is stripping `a` then `b`, and one character is dropped exactly when it is a mark |
| Rewriter.PullQuote | components/style-generator/src/lib/remix.ts:162-164 | the quote is the first `min(24, n)` characters of the cleaned paragraph of length `n`: a prefix of it of exactly that length, so empty exactly when the cleaned paragraph is; it holds no terminal mark and does not start with whitespace |
| Rewriter.ApplyDistribution | components/style-generator/src/lib/remix.ts:161-166 | the paragraph is kept as a prefix; the quote line is added exactly when the quote is not empty |
| Text.Count | components/style-generator/src/lib/remix.ts:178-198 | the number of occurrences of a character is at most the length and is 0 exactly when the character is absent |
| Rewriter.ReplaceLast | components/style-generator/src/lib/remix.ts:203-205 | `replace(/。$/, "！")`: only a final `。` changes |
| Rewriter.ReplaceCounted | components/style-generator/src/lib/remix.ts:178-198 | the replace callback with its `replaced` counter equals `ReplaceFirstN` |
| Rewriter.ReplacedCount | components/style-generator/src/lib/remix.ts:178-198 | exactly the first `min(n, count)` occurrences are swapped: the counts of the two marks move by that much |
| Rewriter.ReplaceFirstNOnlySwaps | components/style-generator/src/lib/remix.ts:178-198 | only occurrences of the replaced mark change, and only into the new mark |
| Rewriter.ReplaceFirstNChanges | components/style-generator/src/lib/remix.ts:178-198 | a character changes exactly when it is an occurrence of the replaced mark with fewer than `n` occurrences before it |
| Rewriter.ApplyLanguageSkin | components/style-generator/src/lib/remix.ts:168-208 | the paragraph reassigned rule by rule equals `SkinText(paragraph, skin)` |
| Rewriter.SkinIdentityInBand | components/style-generator/src/lib/remix.ts:168-208 | with all three sliders between 40 and 70 the skin changes nothing |
| Rewriter.ShortSentences | components/style-generator/src/lib/remix.ts:178-187 | sentence length below 40, with abstraction and emotion between 40 and 70: a character changes exactly when it is a `，` with fewer than two `，` before it, and then into `。`; the length is kept and the counts of the two marks move by `min(2, count)` |
| Rewriter.LongSentences | components/style-generator/src/lib/remix.ts:189-198 | sentence length above 70, with abstraction and emotion between 40 and 70: a character changes exactly when it is a `。` with fewer than two `。` before it, and then into `，`; the final `。` is included when it is among the first two |
| Rewriter.RestrainedEmotion | components/style-generator/src/lib/remix.ts:200-202 | emotion below 40, with sentence length and abstraction between 40 and 70: every full-width `！` becomes `。`, every other character is kept |
| Rewriter.ExpressiveEmotion | components/style-generator/src/lib/remix.ts:203-205 | emotion above 70, with sentence length and abstraction between 40 and 70: only a final `。` changes, into `！` |
| Rewriter.AbstractionPrefixOnce | components/style-generator/src/lib/remix.ts:171-176 | when sentence length and emotion are between 40 and 70, the abstraction prefix is added at most once: applying the skin twice is applying it once |
| Rewriter.SkinKeepsLength | components/style-generator/src/lib/remix.ts:168-208 | the skin never shortens the text |
| Remix.ApplyStyles | components/style-generator/src/lib/remix.ts:210-235 | the paragraph rewritten by the rules of the primary and secondary styles, then skinned, equals `Styled` |
| Remix.StyledNonEmpty | components/style-generator/src/lib/remix.ts:210-235 | a paragraph that does not end in whitespace never styles to the empty string |
| Remix.Blocks | components/style-generator/src/lib/remix.ts:254-257 | one block per paragraph |
| Remix.RemixUsesOwnAllocation | components/style-generator/src/lib/remix.ts:237-260 | the remix is the styled paragraphs joined by blank lines, paragraph `i` styled by the allocation of role `i` |
| Remix.RemixEmptyIffBlank | components/style-generator/src/lib/remix.ts:237-260 | the remix is empty exactly when the text is blank |
| PageAllocations.Competing | components/style-generator/src/app/page.tsx:109-122 | there is a warning exactly when some key other than the top two scores above 0.28 |
| PageAllocations.PageAllocationFor | components/style-generator/src/app/page.tsx:109-122 | a page allocation is the shared engine's allocation under the page's constants, with a warning exactly when a third key scores above 0.28 |
| PageAllocations.ComputePageAllocations | components/style-generator/src/app/page.tsx:54-123 | one allocation per role, equal to the engine's under the page's bias table, each warned exactly when a third key is above the threshold |
| PageAllocations.WarningMeansThreeStrong | components/style-generator/src/app/page.tsx:109-122 | for a non-negative mix, a warning means the top two and a third key are above 0.28, so the fourth is below 0.16 |
| PageAllocations.PageSplitSentences | components/style-generator/src/app/page.tsx:150-153 | the page's sentence split: trimmed non-empty sentences, none when nothing matches, and none only when the text is whitespace and marks |
| PageAllocations.SentenceSplitsAgree | components/style-generator/src/app/page.tsx:150-153 | the page's split equals the library's except when nothing matches, where the library keeps the text and the page has no sentence |
| PageAllocations.HeatmapAllocations | components/style-generator/src/app/page.tsx:457-461 | one heatmap column per sentence, column `i` with the role of position `i` and exactly the shared engine's allocation `i` for that many sentences under the page's bias table |
| PageAllocations.WarningsFrom | components/style-generator/src/app/page.tsx:463-470 | no more lines than allocations, and none exactly when no allocation is warned |
| PageAllocations.WarningsFromSound | components/style-generator/src/app/page.tsx:463-470 | every line is the `S{i+1}: …` line of a warned allocation `i` |
| PageAllocations.WarningsFromComplete | components/style-generator/src/app/page.tsx:463-470 | every warned allocation has its `S{i+1}: …` line |
| PageAllocations.WarningsFromOrdered | components/style-generator/src/app/page.tsx:463-470 | of two warned allocations, the earlier one's line comes first |
| PageAllocations.WarningsExact | components/style-generator/src/app/page.tsx:463-470 | every line belongs to a warned allocation, every warned allocation has its line, and of two warned allocations the earlier one's line comes first; with `WarningsFromColumns`, each allocation's line appears exactly once |
| PageAllocations.Warnings | components/style-generator/src/app/page.tsx:463-470 | the warnings of the heatmap columns (so `WarningsExact` and `WarningsFromColumns` apply): no more lines than columns, and none exactly when no column carries a warning |
| PageAllocations.WarningsFromColumns | components/style-generator/src/app/page.tsx:463-470 | the lines are the warned allocations' lines, one each: the k-th line belongs to a warned allocation `cols[k]`, the `cols` strictly increase, so no allocation has two lines, and every warned allocation is among them |
| PageAllocations.TopStyles | components/style-generator/src/app/page.tsx:421-427 | two labels, and they differ |
| PageAllocations.TopStylesFollowMix | components/style-generator/src/app/page.tsx:421-427 | the top styles are the labels of the mix's own top two keys: normalising does not change the ranking |
| PageEngine.Facts | components/style-generator/src/app/page.tsx:412-419 | the facts are the trimmed non-blank lines of the text, in order (`CleanPieces` of the newline split), each one line long; none exactly when the text is blank |
| PageEngine.FactLock | components/style-generator/src/app/page.tsx:222-224 | the Fact Lock section is empty exactly when there are no facts |
| PageEngine.FactLockLines | components/style-generator/src/app/page.tsx:222-224 | its lines are two empty lines, the title, then exactly one `- ` line per fact |
| PageEngine.RunRemixEngine | components/style-generator/src/app/page.tsx:189-232 | at least one allocation, one per paragraph when there are paragraphs; the canonical view is empty exactly when the text is blank |
| PageEngine.FinalText | components/style-generator/src/app/page.tsx:220-229 | the final text starts with the remix, a blank line and the hint line, ends with the Fact Lock section, and is exactly as long as those four parts together |
| PageEngine.Canonical | components/style-generator/src/app/page.tsx:209 | the canonical view is empty exactly when there is no paragraph |
| PageEngine.PlanOneLinePerAllocation | components/style-generator/src/app/page.tsx:211-218 | the structure plan has exactly one line per allocation, line `i` tagged `P{i+1}: ` |
| PageEngine.CanonicalLines | components/style-generator/src/app/page.tsx:209 | without blank lines, the canonical view has one `- ` line per paragraph |
| PageEngine.FinalWithoutFacts | components/style-generator/src/app/page.tsx:220-229 | without facts, the final text is exactly the remix, a blank line and the hint line |
| PageEngine.FinalLocksFacts | components/style-generator/src/app/page.tsx:220-229 | with facts, the final text ends with the Fact Lock section listing every fact on its own line |
| PageEngine.BandOf | components/style-generator/src/app/page.tsx:166-187 | a slider is in the low band exactly when it is below 40, in the high band exactly when it is above 70, and in the middle band exactly when it lies between 40 and 70 |
| PageEngine.HintsDetermineBands | components/style-generator/src/app/page.tsx:166-187 | two skins get the same hint line exactly when each slider falls in the same band |
| StyleParse.Round | components/style-generator/src/app/api/style/parse/route.ts:27 | `Math.round`: the nearest integer, halves rounded up |
| StyleParse.Normalize | components/style-generator/src/app/api/style/parse/route.ts:27 | `normalize`: always in [0,100]; the rounded value inside the range, 0 below it and 100 above it |
| StyleParse.NormalizeFixes | components/style-generator/src/app/api/style/parse/route.ts:27 | an integer already in [0,100] is left as it is |
| StyleParse.Sanitize | components/style-generator/src/app/api/style/parse/route.ts:29-53 | each present number becomes `normalize(x)` and each missing one its own default, field by field; a given content type and goal are copied through and a missing one takes its default; the signals are the first eight of an array; a null payload gives the defaults |
| StyleParse.Signals | components/style-generator/src/app/api/style/parse/route.ts:51 | the first eight items of an array, in order, and nothing from anything else |
| StyleParse.EmptyPayloadDefaults | components/style-generator/src/app/api/style/parse/route.ts:30-50 | a null payload, or one with every field missing, gives exactly the defaults |
| StyleParse.MissingVersusZero | components/style-generator/src/app/api/style/parse/route.ts:49 | a missing audience takes the default, while an audience of 0 stays 0 |
| StyleParse.SanitizeIdempotent | components/style-generator/src/app/api/style/parse/route.ts:29-53 | sanitising sanitised parameters again changes nothing |
| RemixCli.ParseArgs | components/style-generator/scripts/remix-cli.mjs:23-33 | the loop over `argv` from index 2 equals the scan `Scan(argv, 2, {})` |
| RemixCli.OptionKeys | components/style-generator/scripts/remix-cli.mjs:25-30 | the options are exactly the keys of the `--` flags from `argv[2]` on |
| RemixCli.FlagRecorded | components/style-generator/scripts/remix-cli.mjs:25-30 | a flag is never swallowed as the value of the one before it |
| RemixCli.LastFlagWins | components/style-generator/scripts/remix-cli.mjs:25-30 | the last occurrence of a flag decides its value: the next argument when it is not a flag, the empty string otherwise |
| RemixCli.TextSourceOf | components/style-generator/scripts/remix-cli.mjs:43-47 | `--text` wins over `--input`, which wins over standard input |
| RemixCli.LoadStyle | components/style-generator/scripts/remix-cli.mjs:60-72 | without `--style` the defaults; with it each member from the file, or its default when missing |
| RemixCli.StyleMembersIndependent | components/style-generator/scripts/remix-cli.mjs:66-71 | each member of the loaded style depends only on the same member of the file |
| RemixCli.LoadFactsAsWritten | components/style-generator/scripts/remix-cli.mjs:49-58 | as called on line 102: `--facts` reads the file's lines; otherwise it looks for facts on the reduced style object |
| RemixCli.StyleFileFactsLost | components/style-generator/scripts/remix-cli.mjs:101-102 | as written, a style file with facts used without `--facts` contributes none of them |
| RemixCli.LoadFacts | components/style-generator/scripts/remix-cli.mjs:49-58 | `--facts` gives the file's non-blank trimmed lines; otherwise the style file's facts list when there is one; otherwise none |
| RemixCli.Configure | components/style-generator/scripts/remix-cli.mjs:85-102 | the corrected setup of `run`, built on `LoadFacts`: the options are the scan of `argv`; standard input is read exactly when neither `--text` nor `--input` is given; without `--style` the default style; `--facts` gives the file's lines |
| RemixCli.ConfigureAsWritten | components/style-generator/scripts/remix-cli.mjs:85-102 | the setup of `run` as written, built on `LoadFactsAsWritten`: without `--facts` there are no facts |
| RemixCli.ConfigureAsWrittenDiffers | components/style-generator/scripts/remix-cli.mjs:101-102 | the two setups share options, text source and style, and are equal exactly unless a style file lists facts and no `--facts` is given |
| RemixCli.FactsFlagReadsFile | components/style-generator/scripts/remix-cli.mjs:101-102 | with a final `--facts FILE`, the facts are the file's non-blank lines, each trimmed and one line long |
| MarkdownInline.EscapeHtmlAngles | vibeme/app.js:7-12 | escaped text holds no `<` or `>` |
| MarkdownInline.EscapeHtmlKeeps | vibeme/app.js:7-12 | escaping keeps every character other than those of the entities |
| MarkdownInline.EscapeRoundTrip | vibeme/app.js:7-12 | reading the entities back gives the original text |
| MarkdownInline.PassPlain | vibeme/app.js:16-18 | a text without the delimiter passes through an inline rule unchanged |
| MarkdownInline.FormatPlainText | vibeme/app.js:14-20 | text without backticks or asterisks is only escaped |
| MarkdownInline.FormatInlineSafe | vibeme/app.js:14-20 | whatever was typed, the only markup in the formatted text is the formatter's own code, strong and emphasis tags |
| MarkdownRender.ItemMarkerIff | vibeme/app.js:46-58 | a line is a list item exactly when its first non-blank character is a `-` followed by whitespace |
| MarkdownRender.ItemMarkerSpan | vibeme/app.js:46-51 | the stripped marker is the leading whitespace, the `-` and the whole whitespace run after it, so the item text never starts blank |
| MarkdownRender.MarkerMatch | vibeme/app.js:60-78 | a heading or quote marker is its prefix plus at least one whitespace character, and the content starts after all the whitespace |
| MarkdownRender.HeadingOne | vibeme/app.js:60-63 | `# ` opens a level-one heading |
| MarkdownRender.HeadingTwo | vibeme/app.js:60-68 | `## ` opens a level-two heading, not a level-one one |
| MarkdownRender.HeadingThree | vibeme/app.js:60-73 | `### ` opens a level-three heading |
| MarkdownRender.BlockLine | vibeme/app.js:60-85 | the heading / quote / paragraph chain gives the HTML of the line's block |
| MarkdownRender.RenderLine | vibeme/app.js:29-86 | one callback step gives the HTML of the blocks the line closes and opens, and the next list and fence state |
| MarkdownRender.RenderMarkdown | vibeme/app.js:22-97 | the whole renderer equals the HTML of the block sequence `RenderBlocks` |
| MarkdownRender.ListsBalanced | vibeme/app.js:46-58 | every `<ul>` is closed, in order: the list tags nest and end closed |
| MarkdownRender.FencedCode | vibeme/app.js:30-44 | lines between two fences become one code block holding them verbatim, and the fence state ends closed |
| MarkdownRender.UnterminatedFence | vibeme/app.js:88-94 | a fence never closed still emits its lines as one code block at the end, after closing an open list |
| MarkdownRender.RenderSafe | vibeme/app.js:22-97 | the rendered page's only markup is the renderer's own tags: user text cannot inject HTML |
| ScriptCheck.EvaluateScript | components/personal-news/web/app.py:110-137 | the three passes and the verdict equal `Evaluation` |
| ScriptCheck.CheckContains | components/personal-news/web/app.py:122-124 | the first pass appends exactly the `missing:` errors, in token order |
| ScriptCheck.CheckNotContains | components/personal-news/web/app.py:125-127 | the second pass appends exactly the `should not contain:` errors, in token order |
| ScriptCheck.CheckOrder | components/personal-news/web/app.py:128-132 | the third pass appends exactly the `order:` errors of the pairs that do not hold, in pair order |
| ScriptCheck.MissingErrorsExact | components/personal-news/web/app.py:122-124 | a `missing:` error exists exactly for each required token absent from the script |
| ScriptCheck.PresentErrorsExact | components/personal-news/web/app.py:125-127 | a `should not contain:` error exists exactly for each forbidden token present |
| ScriptCheck.OrderNone | components/personal-news/web/app.py:128-132 | no `order:` error exactly when every pair holds |
| ScriptCheck.PassedIff | components/personal-news/web/app.py:110-137 | a check passes exactly when every required token occurs, no forbidden token occurs and every pair is in order |
| ScriptCheck.OrderHoldsMeans | components/personal-news/web/app.py:128-132 | a pair that holds has both tokens present, the earlier's first occurrence before the later's |
| ScriptCheck.DetailIffPassed | components/personal-news/web/app.py:133-137 | the detail is the pass mark exactly when the check passed |
| ScriptCheck.RunCustomTests | components/personal-news/web/app.py:140-160 | one result per case, in order, each the case's verdict |
| ScriptCheck.CaseVerdictMeans | components/personal-news/web/app.py:140-160 | a result carries the case name or `unnamed`; a raised generator fails with `error: <message>`; otherwise it passes exactly when the script has no error |
| ScriptCheck.ResolveReadmePath | components/personal-news/web/app.py:228-236 | an accepted target resolves to exactly the path asked for, its directory a name of `[A-Za-z0-9_-]` |
| ScriptCheck.ResolveIff | components/personal-news/web/app.py:228-236 | the gate accepts exactly `README.md` and `<name>/README.md` |
| ScriptCheck.ResolveConfined | components/personal-news/web/app.py:228-236 | an accepted target has no `..`, is not absolute, and names at most one directory |
| NewsData.PyStr | components/personal-news/editor/client.py:90 | Python `str()` leaves a string unchanged |
| NewsData.Clip | components/personal-news/editor/client.py:93 | `text[:limit-1].rstrip()` followed by the tail: it ends with the tail, and what precedes it is the cut text without trailing whitespace |
| Editor.Truncate | components/personal-news/editor/client.py:87-93 | a false value gives `""`; a text within the limit is kept; a longer one is the clipped text with the tail |
| Editor.TruncateBound | components/personal-news/editor/client.py:87-93 | a truncated text is at most `limit - 1` characters plus the three-character tail |
| Editor.TruncateShortStable | components/personal-news/editor/client.py:87-93 | a text within the limit passes unchanged, so truncating it twice is truncating it once |
| Editor.TrimRssItem | components/personal-news/editor/client.py:68-74 | an RSS item keeps exactly title, summary, date and source name; the texts are bounded by 120 and 600 (plus the tail) and the other two are copied |
| Editor.TrimXItem | components/personal-news/editor/client.py:75-81 | a post keeps exactly author, text, engagement and time; the text is bounded by 280 (plus the tail) and a missing engagement becomes `{}` |
| Editor.TrimWeatherItem | components/personal-news/editor/client.py:82-83 | a weather item keeps only its summary, bounded by 200 (plus the tail) |
| Editor.TrimOtherItem | components/personal-news/editor/client.py:84 | an item of any other source is passed on untouched |
| Editor.ShrinkPayload | components/personal-news/editor/client.py:55-64 | the config passes through (`{}` when missing); each block, in order, keeps its source and the trimmed first three of its items |
| Editor.LoadJson | components/personal-news/editor/client.py:96-101 | a top-level list becomes `{"inputs": list}`; anything else is returned unchanged; the result is never a list |
| Editor.LoadJsonIdempotent | components/personal-news/editor/client.py:96-101 | loading an already loaded payload changes nothing |
| Rss.NodeText | components/personal-news/rss/client.py:52-55 | `_text`: the stripped text, `""` for a missing node or text, and empty exactly when the text is blank |
| Rss.GuessSourceName | components/personal-news/rss/client.py:58-64 | a channel title with text is the name |
| Rss.GuessFromHost | components/personal-news/rss/client.py:58-64 | without a title: `rss` for a missing or empty host, the host itself without `www.`, a `www.` host without the prefix, and for any host `a + "www." + b` with no `www.` in `a`, the text `a` followed by `b` with its own `www.` removed |
| Rss.CollapseWsCollapsed | components/personal-news/rss/client.py:70 | after `re.sub(r"\s+", " ", …)` every whitespace character is a single space with no whitespace after it |
| Rss.CollapseWsWords | components/personal-news/rss/client.py:70 | collapsing keeps every non-whitespace character, in order |
| Rss.CollapseWsFixed | components/personal-news/rss/client.py:70 | a collapsed string is its own collapse |
| Rss.CollapseWsJoin | components/personal-news/rss/client.py:70 | a whitespace run between two texts that do not touch it with whitespace becomes exactly one space, and each side collapses on its own |
| Rss.ParsePubDateClean | components/personal-news/rss/client.py:67-71 | a parsed date is trimmed, only single spaces inside, and keeps every other character of the input in order |
| Rss.ParsePubDateIdempotent | components/personal-news/rss/client.py:67-71 | parsing a parsed date changes nothing |
| Rss.ParsePubDateJoin | components/personal-news/rss/client.py:67-71 | two clean date parts with any whitespace run between them parse to the parts joined by one space |
| Rss.TruncateText | components/personal-news/rss/client.py:96-99 | a text within `max_len` is kept; a longer one is cut to `max_len - 1`, stripped at the end and given the tail |
| Rss.TruncateTextBound | components/personal-news/rss/client.py:96-99 | a truncated text is at most `max_len - 1` characters plus the tail |
| Rss.FetchRssItems | components/personal-news/rss/client.py:12-20 | the loop over the configured feeds equals `Gathered`: the entries in feed order, request errors skipped, any other exception propagated |
| Rss.GatheredErrSticks | components/personal-news/rss/client.py:12-20 | once an exception escapes, later feeds do not matter |
| Rss.GatheredSkips | components/personal-news/rss/client.py:16-19 | a feed that fails with a request error contributes nothing, as if it were not listed |
| Rss.GatheredOkIff | components/personal-news/rss/client.py:12-20 | the collection succeeds exactly when no feed raised anything but a request error |
| Rss.GatheredSnoc | components/personal-news/rss/client.py:15-17 | a feed's entries follow those of the feeds before it |
| Weather.BuildSummary | components/personal-news/weather/client.py:43-60 | the summary built clause by clause equals `Summary` of the readings |
| Weather.SummaryNoneIff | components/personal-news/weather/client.py:49-59 | there is no summary exactly when the description is false and all three numbers are missing |
| Weather.PartsCount | components/personal-news/weather/client.py:49-57 | one clause per present reading: a zero number counts, an empty description does not |
| Weather.PartsOrder | components/personal-news/weather/client.py:49-57 | the description opens the sentence, then the temperature; the wind speed closes it |
| Weather.SummaryText | components/personal-news/weather/client.py:60 | a summary starts with its first clause and ends with `。` |
| Weather.FetchWeather | components/personal-news/weather/client.py:15-40 | no city, or a provider other than wttr, gives no item and no request; otherwise the city is requested and there is one `summary` item exactly when there is a summary |
| ConcatMp3.FfmpegConcatList | components/vocal-logos/concat_mp3.py:15-20 | the lines built in the loop, joined and newline-terminated, equal `ConcatText` |
| ConcatMp3.UnescapeEscape | components/vocal-logos/concat_mp3.py:18 | the quote escape `'\''` is undone by reading it back |
| ConcatMp3.ParseEntryLine | components/vocal-logos/concat_mp3.py:18 | a written `file '…'` line names its path |
| ConcatMp3.ConcatRoundTrip | components/vocal-logos/concat_mp3.py:15-20 | reading the written list gives back every path, in order, when there is a path and no path holds a newline |
| ConcatMp3.NewlineCount | components/vocal-logos/concat_mp3.py:15-20 | one newline per path; an empty list is written as a single newline |
| ConcatMp3.EntryLineVerbatim | components/vocal-logos/concat_mp3.py:18 | a path without quotes is written verbatim between the quotes |
| ConcatMp3.Stem | components/vocal-logos/concat_mp3.py:56 | `PurePath.stem`: a prefix of the name, cut only at a dot that neither starts nor ends it, and only at the last dot: no dot follows the cut, and whenever there is such a last dot the stem is the name up to it |
| ConcatMp3.DefaultDiffers | components/vocal-logos/concat_mp3.py:53-60 | the default output `<stem>_mofa.mp3` is never the input itself |
| ConcatMp3.Prepare | components/vocal-logos/concat_mp3.py:37-62 | a missing ffmpeg, input or logo exits with status 1; an output equal to the input exits with 1; otherwise ffmpeg runs on the list of start logo, input and end logo; the default output always reaches ffmpeg |

## Left out

- Network, filesystem and model calls are not modelled: the LLM requests of the style route, the command line and the editor, the HTTP fetches of the feeds and the weather, and the reading of files and standard input. Each enters the model as a parameter: the file text, the fetched data, or the generator's outcome.
- The React state, effects and rendering of `page.tsx` are not modelled; only its pure helpers and derived values are.
- `_resolve_readme_path`'s filesystem step (`resolve()`, the existence check and symlinks) is not modelled; the model covers the pattern gate that decides which targets reach it.
- Python's `str()` of a list or dict is modelled as the empty string. Item fields that hold containers are therefore not rendered.
- Inputs whose shape makes the Python code raise (a `current_condition` that is not a list of objects, an `inputs` entry that is not a dict) are not modelled; the model reads them as missing.
- One whitespace set (`IsWs`) stands for both JavaScript's `\s` / `trim()` and Python's `str.split()` / `strip()` / `\s`.
- Strings are sequences of Unicode characters. JavaScript's UTF-16 code units and surrogate pairs are not modelled.
- Style mix numbers and slider values are reals. Floating-point rounding in the divisions and in `Math.round` is not modelled.
- StyleParse.Sanitize: numeric fields are modelled as finite numbers or missing, and text fields as strings or missing. JavaScript's handling of other values is not modelled: a string, boolean or object in a numeric field (coerced or turned into `NaN` by `Math.round`), a non-string `contentType` or `primaryGoal` (passed on as it is), `NaN` and the infinities, and non-string items in `signals` (kept by the slice).
- Segmenter.SplitSentences: stated for the match semantics of the sentence pattern; the JavaScript regular-expression engine itself is not modelled.
- ConcatMp3.Prepare: paths are taken as already expanded and resolved (`expanduser`, `resolve`). Running ffmpeg, its exit status and the temporary list file are not modelled.
- Weather.Parts: a description that is not a string would make Python's join raise; the model renders it with `str()`.
- RemixCli.LoadStyle: the style file is taken as already parsed into its four members, each present or missing. `JSON.parse` throwing on a malformed file, and members of the wrong type (which the source passes on as they are), are not modelled.
- Weather.FetchWeather: request errors and timeouts from the wttr call are not modelled. The fetched JSON is a parameter.
- `_fetch_feed`, `_fetch_article_summary` and `_extract_text_from_html` in the RSS client parse XML and HTML from the network and are not modelled. `Rss.TruncateText` models the truncation they feed.
- The X, calendar and Gmail clients, the HTTP handlers and the command-line entry points around the modelled functions are not part of this model.

## Findings

| source | as written | input that shows it | evidently intended | confidence | as-written member | corrected member |
|---|---|---|---|---|---|---|
| components/style-generator/scripts/remix-cli.mjs:101-102 | `loadFacts(args, style)` is given the object `loadStyle` returns, which has only `mix`, `skin`, `task` and `customPrompt`, so `style.facts` is never an array | a `--style` file holding `"facts": ["a"]` and no `--facts` flag: the facts are `[]` | the facts listed in the style file are used when no `--facts` file is given | not executed | RemixCli.StyleFileFactsLost | RemixCli.LoadFacts |

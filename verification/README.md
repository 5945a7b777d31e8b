# cookcommit core in Dafny

A model of the text logic at the heart of cookcommit, a command-line tool
that asks a Gemini model to write commit messages and pull-request messages
from a git diff, with proofs of its properties.

It models three pieces:

- **`chunk_text`**, the greedy line-based chunker. The diff is split on
  `'\n'`. Each line costs its length plus one. Lines are added to the open
  chunk while the running cost stays within the limit (`MAX_CHUNK_SIZE` =
  3000). A non-empty chunk is closed when the next line would push the cost
  over the limit. Lines are never split. Module `TextUtils`, on top of
  `Lines`, which holds `str.split('\n')`, `'\n'.join` and the line cost.
- **`AIService`**, which orchestrates the requests.
  - It chunks the diff.
  - With exactly one chunk, it uses the single-chunk template ("Git diff:").
  - Otherwise it summarises every chunk with the lite model and uses the
    multi-chunk template ("Change summaries:", one `Chunk i: summary` line per
    chunk).
  - It then makes one call on the default model and returns the stripped
    answer.
  - The Gemini client is the parameter `gen(model, prompt)`. Every call is
    returned, in order, as a trace of `Call(model, prompt)` values.
  - The six templates (commit, full PR and PR title, each in single-chunk and
    multi-chunk form) are in module `Prompts`. Each one is a list of lines
    joined by `'\n'`, with the payload as one middle line. This is exactly
    the text of the triple-quoted f-strings.
  - `str.strip()` and `str(i + 1)` are in module `Strings`, together with
    substring occurrence (`needle in hay`).
- **`extract_first_line`**, the subject line used for automatic commits.
  Module `OutputUtils`.

The chunker is proved against an independent description, `GreedyPartition`,
in both directions:

- The groups the loop forms are a greedy partition.
- Every greedy partition is those groups.

A partition is greedy when:

- its groups are non-empty and contiguous;
- every group of two or more lines fits the limit;
- no group could have taken the next group's first line.

The loop exactly as written, `ChunkTextLoop`, is proved equal to the
functional definition.

Three facts of the code are modelled as written, although a reader of the
function's description might expect otherwise:

- Empty input gives one empty chunk, `[""]`, not zero chunks: `"".split('\n')` is `[""]`.
- Ten 500-character lines at a limit of 1000 give ten chunks, not five. Two such lines cost 501 + 501 = 1002.
- A chunk of two or more lines has length at most `limit - 1`, not `limit`. Its cost counts one separator more than its text holds.

The `if text` guard of `extract_first_line` changes nothing, because
`"".split('\n')[0]` is already `""`. The model keeps the guard.

## Model

| member | source | states |
|---|---|---|
| `Lines.Split` | src/cookcommit/utils/text_utils.py:20 | `text.split('\n')` gives at least one line; no line holds a separator; the first line is a prefix of the text followed by a separator when shorter |
| `Lines.Join` | src/cookcommit/utils/text_utils.py:30 | `'\n'.join(lines)`; `JoinSplit` and `SplitJoin` make it the inverse of `Split`, and `JoinCost` gives its length |
| `Lines.JoinSplit` | src/cookcommit/utils/text_utils.py:20 | joining the lines of any text with `'\n'` gives the text back |
| `Lines.SplitJoin` | src/cookcommit/utils/text_utils.py:30 | splitting separator-free lines after joining them gives the same lines |
| `Lines.JoinCost` | src/cookcommit/utils/text_utils.py:26 | a joined run of lines is one character shorter than the sum of its `len(line) + 1` costs |
| `TextUtils.GreedyInvariant` | src/cookcommit/utils/text_utils.py:25-39 | from any loop state whose open chunk fits, the loop closes groups forming a greedy partition of the open chunk's lines followed by the unvisited lines, and the first group extends the open chunk |
| `TextUtils.ChunkText` | src/cookcommit/utils/text_utils.py:9-41 | `chunk_text(text, limit)`, the joined greedy groups of the text's lines; what it returns is stated by `GroupsArePartition`, `PartitionIsGroups`, `ChunkRoundTrip`, `ChunksKeepLines`, `ChunkSizeBound` and `ChunkMaximal` |
| `TextUtils.GroupsArePartition` | src/cookcommit/utils/text_utils.py:20-39 | the chunker's groups are a greedy partition of the text's lines: non-empty, contiguous, within the limit when holding two or more lines, and closed only when the next line does not fit |
| `TextUtils.PartitionIsGreedy` | src/cookcommit/utils/text_utils.py:25-39 | from any loop state, a greedy partition whose first group extends the open chunk is exactly what the loop produces |
| `TextUtils.PartitionIsGroups` | src/cookcommit/utils/text_utils.py:20-39 | any greedy partition of the lines equals the chunker's groups, so the description determines the output |
| `TextUtils.ChunkRoundTrip` | src/cookcommit/utils/text_utils.py:20-39 | for every text and every limit, the chunks joined with `'\n'` are the text, and there is at least one chunk |
| `TextUtils.EmptyTextOneChunk` | src/cookcommit/utils/text_utils.py:20-39 | the empty text gives exactly one empty chunk |
| `TextUtils.ChunksKeepLines` | src/cookcommit/utils/text_utils.py:28-35 | the lines of the chunks, in order, are exactly the lines of the text, so no line is split |
| `TextUtils.ChunkSizeBound` | src/cookcommit/utils/text_utils.py:26-36 | a chunk of two or more lines has length at most `limit - 1`; a chunk of length `limit` or more is a single line |
| `TextUtils.ChunkMaximal` | src/cookcommit/utils/text_utils.py:28-32 | every chunk but the last, plus the cost of the next chunk's first line, exceeds the limit |
| `TextUtils.OneChunkExactly` | src/cookcommit/utils/text_utils.py:20-39 | there is exactly one chunk if and only if `len(text) + 1` fits the limit or the text is one line, and that chunk is then the text |
| `TextUtils.OversizedLineIsChunk` | src/cookcommit/utils/text_utils.py:28-35 | a line costing more than the limit is itself one of the chunks, neither rejected nor truncated |
| `TextUtils.EveryLineOwnChunk` | src/cookcommit/utils/text_utils.py:26-32 | when no two neighbouring lines fit together, the chunks are the lines |
| `TextUtils.TenLongLines` | src/cookcommit/utils/text_utils.py:26-32 | ten lines of 500 characters at a limit of 1000 give ten one-line chunks |
| `TextUtils.ChunkTextLoop` | src/cookcommit/utils/text_utils.py:9-41 | the accumulator loop as written returns the chunks of the functional definition, at least one, and they rejoin to the text |
| `OutputUtils.ExtractFirstLine` | src/cookcommit/utils/output_utils.py:54-56 | the result has no separator, is a prefix of the text, ends where the text's first separator is, is the whole text when the text has no separator, and is empty for empty text |
| `OutputUtils.FirstLineThenRest` | src/cookcommit/utils/output_utils.py:56 | a text with a separator is its first line, `'\n'`, and the rest, and the first line holds no separator |
| `OutputUtils.FirstLineOfJoin` | src/cookcommit/utils/output_utils.py:56 | the first line of separator-free lines joined with `'\n'` is the first of them |
| `Strings.Strip` | src/cookcommit/services/ai_service.py:40 | `str.strip()` returns a trimmed middle piece of its input with only whitespace before and after it |
| `Strings.StripOfUnique` | src/cookcommit/services/ai_service.py:81 | only one piece of a text meets that description, so it pins down `strip()` |
| `Strings.Decimal` | src/cookcommit/services/ai_service.py:120 | `str(n)` is a non-empty string of decimal digits without a leading zero |
| `Strings.DecimalRoundTrip` | src/cookcommit/services/ai_service.py:120 | the digits of `str(n)` denote `n` |
| `Strings.DecimalInjective` | src/cookcommit/services/ai_service.py:120 | distinct chunk numbers are rendered differently |
| `Prompts.SummaryLineReadsBack` | src/cookcommit/services/ai_service.py:120 | two `Chunk {i+1}: {summary}` lines are equal if and only if their chunk numbers and their summaries are, so the chunk number and the summary read back from the line |
| `Prompts.Template` | src/cookcommit/services/ai_service.py:83-209 | the four `_create_*_prompt` builders at a request kind and chunk mode: the template lines around the payload, joined by `'\n'`; `PayloadAfterHeading`, `CommitPromptRules`, `TitlePromptRules`, `PrPromptSections` and `TitlePromptWithoutSections` state what every template holds |
| `Prompts.MultiChunkPrompt` | src/cookcommit/services/ai_service.py:101-123 | the multi-chunk builders once the summaries are known; `SummariesInOrder` and `MultiTitlePromptWithoutSections` state where the summaries sit and what they add |
| `Prompts.PayloadAfterHeading` | src/cookcommit/services/ai_service.py:85-99 | every template holds its payload verbatim on its own line right after its heading ("Git diff:" or "Change summaries:") |
| `Prompts.CommitPromptRules` | src/cookcommit/services/ai_service.py:85-123 | both commit templates list `feat, fix, docs, style, refactor, test, chore` and "under 50 characters" |
| `Prompts.TitlePromptRules` | src/cookcommit/services/ai_service.py:127-188 | both title-only templates ask for a title "under 72 characters" and list the commit types |
| `Prompts.PrPromptSections` | src/cookcommit/services/ai_service.py:144-208 | both full pull-request templates hold `Title:`, `Description:`, `Changes:` and `Testing:` at increasing positions |
| `Prompts.TitlePromptWithoutSections` | src/cookcommit/services/ai_service.py:127-188 | a title-only template holds `Changes:` or `Testing:` if and only if its payload does |
| `Prompts.SummaryLineSectionLabels` | src/cookcommit/services/ai_service.py:185 | a `Chunk i: summary` line holds `Changes:` or `Testing:` if and only if the summary does |
| `Prompts.MultiTitlePromptWithoutSections` | src/cookcommit/services/ai_service.py:173-188 | a multi-chunk title-only prompt holds `Changes:` or `Testing:` if and only if one of the summaries does |
| `Prompts.SummariesInOrder` | src/cookcommit/services/ai_service.py:119-120 | summary `i` appears as the line `Chunk {i+1}: {summary}` in the multi-chunk prompt, and each such line ends before the next one starts |
| `AIService.SummarizeChunk` | src/cookcommit/services/ai_service.py:67-81 | summarising a chunk is exactly one call, on the lite model, and returns that response stripped |
| `AIService.SummaryPrompt` | src/cookcommit/services/ai_service.py:69-75 | the summarising prompt of `_summarize_chunk`; `SummaryPromptEmbedsChunk` states that it holds the chunk verbatim on a line of its own |
| `AIService.SummaryPromptEmbedsChunk` | src/cookcommit/services/ai_service.py:69-75 | the summarising prompt holds its chunk verbatim on a line of its own |
| `AIService.SummarizeChunks` | src/cookcommit/services/ai_service.py:104-107 | one summary and one lite call per chunk, the calls in chunk order, each summary the stripped response to its chunk's prompt |
| `AIService.PromptAroundPayload` | src/cookcommit/services/ai_service.py:28-33 | with exactly one chunk, the prompt costs no call and holds "Git diff:", a line break, the chunk and a line break; otherwise its calls are the summarising calls, one per chunk in order, and it holds "Change summaries:", a line break, the numbered summaries and a line break |
| `AIService.Generate` | src/cookcommit/services/ai_service.py:18-65 | the trace is one lite call per chunk in chunk order, or none for a single chunk, then exactly one default-model call, which is the last; the result is that last response stripped |
| `AIService.SingleChunkPath` | src/cookcommit/services/ai_service.py:28-31 | a request makes exactly one call if and only if the diff fits one chunk, and that call then sends the single-chunk template around the whole diff |
| `AIService.SingleChunkPromptEmbedsDiff` | src/cookcommit/services/ai_service.py:95-96 | a diff that fits one chunk appears verbatim in the final prompt, on its own line right after "Git diff:" |
| `AIService.MultiChunkPath` | src/cookcommit/services/ai_service.py:101-123 | with several chunks, the trace is the lite calls, one per chunk in order, then the default-model call on the multi-chunk template around the stripped summaries |
| `AIService.CommitPromptAsks` | src/cookcommit/services/ai_service.py:85-123 | the final prompt of a commit request lists the commit types and "under 50 characters", whatever the number of chunks |
| `AIService.PrPromptAsks` | src/cookcommit/services/ai_service.py:144-208 | the final prompt of a full pull-request request holds the four section labels in order |
| `AIService.TitlePromptLimit` | src/cookcommit/services/ai_service.py:127-188 | the final prompt of a title-only request asks for a title "under 72 characters" |
| `AIService.SingleTitlePromptSections` | src/cookcommit/services/ai_service.py:127-142 | with one chunk, the final title-only prompt holds `Changes:` or `Testing:` if and only if the diff does |
| `AIService.MultiTitlePromptSections` | src/cookcommit/services/ai_service.py:173-188 | with several chunks, the final title-only prompt holds `Changes:` or `Testing:` if and only if one of the summaries does |

## Left out

- The Gemini client is left out: its construction, the API key and the network calls (`genai.Client`, `generate_content`). It is replaced by the parameter `gen`, a total function from model name and prompt to response text. Failures, retries, exceptions and a missing `response.text` are not modelled.
- `GitService` is left out. It is subprocess and filesystem probing.
- `save_to_file`, `read_from_file` and `file_exists` are left out. They are file I/O.
- The `print_*` console helpers of `output_utils.py` are left out. They only print.
- The typer commands, `cli.py`, `main_new.py` and `setup.py` are left out. They are argument parsing, printing and exit codes.
- `Strings.Strip`: whitespace is the fixed list of characters for which Python 3's `str.isspace()` holds. Unicode-database changes between Python versions are not followed.
- The prose sentences of the templates are transcribed into the model. Only the containment and order properties listed above are proved of them, not every sentence.
- `AIService.GenerateCommitMessage` and `AIService.GeneratePrMessage` carry no contract of their own. They are `Generate` with the request kind `CommitMessage` and `PrKind(title_only)`, and all properties are stated of `Generate`.

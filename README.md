# Procurement-code assistant: verified model of its deterministic core

This project models, in Dafny, the small pieces of deterministic logic in a
conversational assistant that generates procurement codes on top of an LLM
agent framework (pydantic_ai) and a vector-index library (llama_index):

- **`.env` loading and settings defaults** (`agent/src/rag/settings.py`), module
  `Settings`: the line parser that strips each line, skips blanks, comments and
  lines without `=`, splits at the first `=`, trims key and value, removes one
  layer of matching quotes and writes into the process environment (the class
  `Environment`, updated in place by the `LoadEnvFile` loop); the
  `os.getenv(X) or default` rule for the model settings; and the check that a
  loaded `.env` supplied `OPENAI_API_KEY`.
- **Citation numbering** (`agent/src/rag/citation.py`), module `Citation` over
  the stand-in library objects of module `LlamaIndex`: the node post-processor
  that gives the node at position *i* the metadata `citation_id = str(i)` and
  the text `Source i (file_name):\n…\n`, mutating each node in place; the
  synthesiser's template default; and `enable_citation`, which swaps the
  synthesiser, appends one post-processor and extends the tool description.
- **The agent's shared state** (`agent/src/agent.py`), module `Agent`: a
  `ProverbsState` object with a list of proverbs and the tools that read,
  extend and replace it, each mutating tool answering with a snapshot.
- **Query-engine keyword defaults** (`agent/src/rag/query.py`), module `Query`:
  `similarity_top_k` is set from `TOP_K` only when the caller gave none and the
  value is positive; tool name and description default only when `None`.
- **The procurement-code list of the UI** (`src/components/procurement-codes.tsx`),
  module `ProcurementCodes`: the download text (`code - description` lines
  joined by newlines, nothing for an empty list), deleting one entry by
  position, and the render conditions of the download button and the empty
  message.

Module `PyText` holds the Python string built-ins these rely on
(`str.strip`, `str.split(sep, 1)`, `str(int)`), each with its defining
properties proved; module `Wrappers` holds `Option` and `Result`.

The post-processor numbers nodes afresh on every call, so numbering restarts at 1
for each retrieval. `ProcurementState`, which `agent/src/main.py:1` imports from
`agent/src/agent.py`, is not defined in that module, whose agent is the proverbs
template.

## Model

| member | source | states |
|---|---|---|
| `PyText.StripCharsSpec` | agent/src/rag/settings.py:15 | `strip()` leaves no whitespace at either end, and gives the empty string exactly for an all-whitespace line |
| `PyText.Strip` | agent/src/rag/settings.py:15 | `str.strip()`: the result has no whitespace at either end, and is empty exactly for an all-whitespace line |
| `PyText.StripPadded` | agent/src/rag/settings.py:18-19 | `strip()` removes exactly the whitespace padding around a trimmed core: the core is what remains |
| `PyText.SplitAtFirst` | agent/src/rag/settings.py:17 | `split('=', 1)` gives the text before the first `=` and everything after it: the two parts joined by `=` are the line, and the first holds no `=` |
| `PyText.SplitAtFirstUnique` | agent/src/rag/settings.py:17 | the split is determined by the first `=`; any later `=` stays in the value |
| `PyText.NatToString` | agent/src/rag/citation.py:80 | `str(i)` of a non-negative int: non-empty, decimal digits only, no leading zero unless it is `0` |
| `PyText.NatToStringRoundTrip` | agent/src/rag/citation.py:80 | `str(i)` is the decimal form of `i`: reading its digits back gives `i` |
| `PyText.NatToStringInjective` | agent/src/rag/citation.py:80-81 | different positions get different `citation_id` strings |
| `Settings.Unquote` | agent/src/rag/settings.py:21-24 | a value starting and ending with the same quote (`"` or `'`) loses exactly that one layer; a lone quote becomes empty; any other value, mismatched quotes included, is kept |
| `Settings.UnquoteQuoted` | agent/src/rag/settings.py:21-24 | quoting any value with either quote character and loading it gives the value back |
| `Settings.ParseLine` | agent/src/rag/settings.py:15-16 | a line sets nothing exactly when, once stripped, it is empty, starts with `#` or has no `=` |
| `Settings.ParseAssignmentLine` | agent/src/rag/settings.py:17-24 | a line `a=b` (no `=` in `a`, not a comment) assigns `strip(a)` the unquoted `strip(b)`; `b` keeps its later `=` |
| `Settings.SkippedLineSetsNothing` | agent/src/rag/settings.py:16 | a blank, comment or `=`-less line leaves the environment as it was |
| `Settings.AssignLine` | agent/src/rag/settings.py:15-25 | one line changes at most the key it assigns, which then holds the parsed value; no variable is removed |
| `Settings.ApplyLines` | agent/src/rag/settings.py:14-25 | the lines applied in file order never remove a variable, and every variable they add is assigned by some line |
| `Settings.LastAssignmentWins` | agent/src/rag/settings.py:14-25 | after loading, a key holds the value of the last line that assigns it |
| `Settings.UnassignedKeyUntouched` | agent/src/rag/settings.py:14-25 | a key no line assigns keeps its presence and value |
| `Settings.LoadEnvFile` | agent/src/rag/settings.py:8-26 | missing file: `false`, environment unchanged; existing file: `true` (even if nothing is assigned) and the environment is the old one with every line applied in order |
| `Settings.ResolveSettings` | agent/src/rag/settings.py:61-75 | model, base URL, max tokens, context window and embedding model take the variable when it is set and non-empty, else `deepseek-chat`, `https://api.deepseek.com`, 8192, 128000, `BAAI/bge-large-en-v1.5`; the API key is passed as found |
| `Settings.EmptyQuotedModelFallsBack` | agent/src/rag/settings.py:62 | a `.env` whose last `OPENAI_MODEL` line is `OPENAI_MODEL=""` leaves the default model in force |
| `Settings.InitSettings` | agent/src/rag/settings.py:31-52 | the `.env` is loaded only when `OPENAI_API_KEY` is unset; a loaded file that does not set it is a `RuntimeError`; otherwise the settings are resolved from the environment |
| `Citation.FileNameOf` | agent/src/rag/citation.py:85 | the file name is the `file_name` metadata, or `Unknown Source` when absent |
| `Citation.CitedTextKeepsOriginal` | agent/src/rag/citation.py:84-86 | the new text is the label, then the original text unchanged, then one newline |
| `Citation.SourceLabelNamesOnePosition` | agent/src/rag/citation.py:80-86 | labels of different positions differ whatever the file names |
| `Citation.LabelNode` | agent/src/rag/citation.py:80-86 | one node: `citation_id` becomes `str(idx)` with the other metadata kept, and the text becomes the label with the file name read from the old metadata, the old text and a newline |
| `Citation.PostprocessNodes` | agent/src/rag/citation.py:64-88 | the same list comes back; node *i* (from 1) gets `citation_id = str(i)` with all other metadata kept, and text `Source i (file_name):\n` + original + `\n`; numbering depends only on position, so it restarts at 1 on each call |
| `Citation.NewCitationSynthesizer` | agent/src/rag/citation.py:98-102 | the citation prompt is used only when no `text_qa_template` is passed; otherwise the given one |
| `Citation.CitationEnabled` | agent/src/rag/citation.py:124-135 | fails exactly for a non-`RetrieverQueryEngine`; otherwise installs the citation synthesiser, keeps the existing post-processors in order and adds one `NodeCitationProcessor`, and appends the citation suffix to the description |
| `Citation.CitationEnabledRepeatedly` | agent/src/rag/citation.py:131-135 | `n` calls add `n` processors and `n` suffixes: the operation is not idempotent |
| `Citation.EnableCitation` | agent/src/rag/citation.py:118-136 | the tool's new state is `CitationEnabled` of the old one and the same tool is returned; on the `ValueError` path nothing changes |
| `Agent.ProverbsState.constructor` | agent/src/agent.py:22-27 | a new state holds no proverbs |
| `Agent.GetProverbs` | agent/src/agent.py:55-59 | returns the current list and changes nothing |
| `Agent.AddProverbs` | agent/src/agent.py:61-67 | the list becomes old + given (order kept, no deduplication); the snapshot equals the new state |
| `Agent.SetProverbs` | agent/src/agent.py:69-75 | the list becomes exactly the given one; the snapshot equals the new state |
| `Agent.GetWeather` | agent/src/agent.py:78-81 | the sentence is `The weather in `, the location, ` is sunny.`; no state is involved |
| `Agent.GetWeatherInjective` | agent/src/agent.py:81 | different locations give different reports |
| `Query.TopK` | agent/src/rag/query.py:17 | `TOP_K` when set, else 5 |
| `Query.CreateQueryEngine` | agent/src/rag/query.py:9-22 | a caller's `similarity_top_k` is never overwritten; when absent it is set to `TOP_K` if positive, else nothing changes; no other key is added or changed |
| `Query.GetQueryEngineTool` | agent/src/rag/query.py:25-49 | name and description default to `query_index` and the fixed text only when `None`; the engine gets the keyword arguments of `CreateQueryEngine` |
| `ProcurementCodes.JoinLines` | src/components/procurement-codes.tsx:14 | `join('\n')`: the characters of all lines plus one newline between each pair of neighbours, starting with the first line |
| `ProcurementCodes.SplitJoinLines` | src/components/procurement-codes.tsx:14 | `join('\n')` of newline-free lines splits back into the same lines: one newline between entries, none at the end |
| `ProcurementCodes.CodeLines` | src/components/procurement-codes.tsx:12-13 | one line per code, in list order, each `code - description` |
| `ProcurementCodes.DownloadContent` | src/components/procurement-codes.tsx:10-14 | there is a download exactly when the list is present and non-empty |
| `ProcurementCodes.DownloadLines` | src/components/procurement-codes.tsx:10-14 | there is a download exactly when the list is present and non-empty; when no code or description holds a newline, its lines are the formatted codes in order |
| `ProcurementCodes.WithoutIndex` | src/components/procurement-codes.tsx:60 | the filter is one shorter exactly when the index is in range, and keeps only entries of the list |
| `ProcurementCodes.WithoutIndexRemovesOne` | src/components/procurement-codes.tsx:60 | filtering out index *k* removes exactly the entry at *k* when in range, keeps the rest in order, and removes nothing otherwise |
| `ProcurementCodes.DeleteCode` | src/components/procurement-codes.tsx:58-61 | the other state fields are kept (the `...state` spread) and an undefined list stays undefined |
| `ProcurementCodes.DeleteCodeEffect` | src/components/procurement-codes.tsx:58-61 | deleting an in-range entry shortens the list by one and keeps the other entries in order |
| `ProcurementCodes.RenderConditions` | src/components/procurement-codes.tsx:32 | exactly one of download button (line 32) and empty message (line 71) renders, and the button shows exactly when there is something to download |

## Left out

- File and directory plumbing: reading the `.env` file (the model takes its lines, `None` when it does not exist), the `.env` path search in `init_settings` (`agent/src/rag/settings.py:33-46`) and the storage-directory probing and index loading of `agent/src/rag/index.py`.
- Python's `int()` on environment strings: a total function parameter `toInt` stands for it. A non-numeric value of `TOP_K`, `LLM_MAX_TOKENS` or `LLM_CONTEXT_WINDOW`, or an empty `TOP_K` (passed to `int()` as it is, `agent/src/rag/query.py:17`), makes the source raise `ValueError`; the model does not capture that. An empty `LLM_MAX_TOKENS` or `LLM_CONTEXT_WINDOW` falls back to its default, as `Settings.ResolveSettings` states.
- `Settings.LoadEnvFile`: assumes the operating system accepts every parsed entry; a line with an empty key (`=value`) or a NUL character makes `os.environ` raise in the source, which the model does not capture.
- `PyText.IsSpace` follows `str.isspace()`, whose Unicode whitespace set is written out by code point; the proofs about stripping hold for any character class.
- Environment values are strings and node metadata values are modelled as strings; metadata holding other Python values is not modelled.
- `Citation.PostprocessNodes`: requires the list to hold distinct node objects; a list holding the same node twice would be relabelled twice by the source.
- The debug metadata log to `hidden/METADATAOUTPUT.md` (`agent/src/rag/citation.py:65-77`): file I/O whose failures are swallowed.
- Library internals: llama_index query engines, the `Accumulate` synthesiser and the keyword arguments it receives besides `text_qa_template`, `PromptTemplate`, `as_query_engine`, `QueryEngineTool.from_defaults`, the DeepSeek and HuggingFace constructors, and pydantic_ai's `Agent`, `OpenAIProvider` and `StateSnapshotEvent`. Engines, synthesisers, post-processors and tools are stand-in records holding only the fields the code touches; `Query` returns the arguments it would hand to the library.
- The contents of `CITATION_PROMPT` and `CITATION_SYSTEM_PROMPT` are not modelled: the prompt is the opaque template `CitationPrompt`.
- `Agent.SetProverbs`: the source stores the caller's list object itself, so later in-place extensions would also be seen by the caller; the model stores values and does not capture that aliasing.
- `Citation.EnableCitation`: the source extends the engine's post-processor list object in place (`agent/src/rag/citation.py:131`), so a list shared with whoever built the engine grows too; the model replaces a `seq` value in the engine's field and does not capture that aliasing.
- `Agent.AddProverbs` and `Agent.SetProverbs`: the returned `StateSnapshotEvent` holds the state object itself (`agent/src/agent.py:66`, `:74`), so later changes to the state show in an earlier snapshot; the model's snapshot is a value copy of the list at the time of the call.
- `print` and logfire calls, `async` on the tools (no concurrency to model), `agent/src/main.py` (server wiring), `check_version.py`, `next.config.ts` and `src/app/page.tsx` (UI hooks and configuration).
- The DOM, Blob and URL download mechanics and the JSX markup of `src/components/procurement-codes.tsx`; the fields of `AgentState` other than `procurement_codes` are not shown in the source and are kept as an opaque map.

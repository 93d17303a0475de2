# Playwright test agent helpers, modelled in Dafny

The Playwright LangGraph agent turns a natural-language request into a
Playwright test in three model calls: a planner writes a test plan, a
generator writes the test, and a healer runs and repairs it. Around those
calls sits a small amount of deterministic logic in
`playwright_langgraph_agent.py`, which this project models and proves
properties of:

- `slugify` and `build_request_id`: the request becomes a hyphen-joined slug
  of at most eight lower-case letter/digit runs, with "generated-test" as
  the fallback (module `Slug`, `Paths`).
- `default_output_path` and `plan_output_path`: `tests/<stem>.spec.ts` or
  `tests/<stem>.spec.py`, and `specs/<id>-plan.md` (module `Paths`).
- `extract_fenced_block`: the stripped body of the leftmost Markdown code
  fence, or the whole reply stripped (module `Fence`, with Python's
  `strip`/`lower`/`upper` on ASCII in module `Text`). The regular
  expression is given a declarative reading (`Fence.IsMatch`) and the
  search is proved against it.
- `load_mcp_server_config` (entry selection over the parsed file) and
  `normalize_mcp_config`, over a JSON value type (module `McpConfig`).
  Python exceptions become `Err` values.
- The post-processing of `run_workflow`: the default plan, the empty-code
  error, the heal decision, the file locations, and the order and contents
  of the files written (module `Workflow`). The three model replies and
  the clock reading are parameters; the files written are returned as a
  list.

All of it is pure: datatypes, functions and lemmas.

## Model

| member | source | states |
|---|---|---|
| `Text.Lower` | playwright_langgraph_agent.py:50 | `lower()` keeps the length, turns each upper-case ASCII letter into its own lower-case letter (code point plus 32), changes nothing else, and so leaves no upper-case letter and keeps which characters are letters or digits |
| `Text.Upper` | playwright_langgraph_agent.py:255 | `upper()` keeps the length, turns each lower-case ASCII letter into its own upper-case letter (code point minus 32), changes nothing else, and so leaves no lower-case letter |
| `Text.UpperEqualsIffLower` | playwright_langgraph_agent.py:255 | comparing the upper-cased text with a word without lower-case letters is a case-insensitive comparison: it holds exactly when the lower-cased text equals the lower-cased word |
| `Text.LowerIdempotent` | playwright_langgraph_agent.py:50 | lower-casing twice is lower-casing once |
| `Text.Strip` | playwright_langgraph_agent.py:74-75 | `strip()` leaves no whitespace at either end, removes only whitespace runs from the two ends, and is empty exactly when the text is all whitespace |
| `Text.StripUnique` | playwright_langgraph_agent.py:74-75 | any two ways of cutting whitespace-only ends off a text that leave no outer whitespace give the same string, so the stripped text is determined |
| `Text.StripIdempotent` | playwright_langgraph_agent.py:74-75 | stripping twice is stripping once |
| `Text.LeadingSpace` | playwright_langgraph_agent.py:74-75 | the count of whitespace characters `strip()` removes at the front: all of them whitespace, and the next character is not |
| `Text.TrailingSpace` | playwright_langgraph_agent.py:74-75 | the count of whitespace characters `strip()` removes at the back: all of them whitespace, and the character before them is not |
| `Slug.RunLength` | playwright_langgraph_agent.py:50 | `+` is greedy: a token extends over every letter or digit that follows and stops at the first other character |
| `Slug.Take` | playwright_langgraph_agent.py:53 | `tokens[:8]` is a prefix of the tokens of length exactly eight, or all of them when there are at most eight |
| `Slug.Tokens` | playwright_langgraph_agent.py:50 | every token `re.findall("[a-zA-Z0-9]+")` returns is a non-empty run of ASCII letters and digits drawn from the text |
| `Slug.TokensEmptyIff` | playwright_langgraph_agent.py:50-52 | there are no tokens exactly when the text has no ASCII letter or digit |
| `Slug.TokensOfWord` | playwright_langgraph_agent.py:50 | a single run of letters and digits is one token |
| `Slug.TokensSeparated` | playwright_langgraph_agent.py:50 | a character outside `[a-zA-Z0-9]` splits the token list: the tokens of `a + [c] + b` are those of `a` followed by those of `b` |
| `Slug.Slugify` | playwright_langgraph_agent.py:49-53 | the slug is non-empty, holds only lower-case ASCII letters, digits and `-`, neither starts nor ends with `-`, has no `--`, and has at most 7 hyphens (at most 8 tokens) |
| `Slug.SlugifyCases` | playwright_langgraph_agent.py:49-53 | text with no ASCII letter or digit gives "generated-test"; otherwise there is at least one token and splitting the slug at `-` gives back exactly the first eight tokens of the lower-cased text |
| `Slug.SlugifyIgnoresCase` | playwright_langgraph_agent.py:50 | lower-casing the input first does not change the slug |
| `Slug.FallbackIsSlug` | playwright_langgraph_agent.py:52 | "generated-test" is itself a well-formed slug with one hyphen |
| `Slug.JoinIsSlug` | playwright_langgraph_agent.py:53 | `"-".join` of non-empty lower-case words is a well-formed slug with one hyphen fewer than there are words |
| `Slug.JoinEnds` | playwright_langgraph_agent.py:53 | `"-".join` of a non-empty list starts with the first part, ends with the last part, and with two parts or more has a `-` right after the first part |
| `Slug.SplitJoin` | playwright_langgraph_agent.py:53 | splitting at `-` undoes `"-".join` on hyphen-free parts |
| `Paths.RequestId` | playwright_langgraph_agent.py:56-58 | the request id is the slug of the request, then `-`, then the timestamp, and is longer than the slug |
| `Paths.Extension` | playwright_langgraph_agent.py:62 | the extension is "spec.ts" exactly when the language is "ts", and "spec.py" for every other value |
| `Paths.Stem` | playwright_langgraph_agent.py:63 | `request_id or slugify(spec)`: the given request id when it is present and non-empty, the slug of the request when it is `None` or empty, and never empty |
| `Paths.DefaultOutputPath` | playwright_langgraph_agent.py:61-64 | the default test file lies in the directory `tests` |
| `Paths.DefaultOutputPathParts` | playwright_langgraph_agent.py:61-64 | the file name is the stem, `.` and the extension; the stem is the request id when that is given and non-empty, otherwise the slug of the request, and never empty |
| `Paths.PlanOutputPath` | playwright_langgraph_agent.py:67-68 | the plan file lies in the directory `specs` |
| `Paths.PlanOutputPathParts` | playwright_langgraph_agent.py:67-68 | the plan file name is the request id followed by "-plan.md" |
| `Fence.TagRun` | playwright_langgraph_agent.py:72 | the optional info string `[a-zA-Z0-9_+-]+` is matched greedily: the longest run of tag characters |
| `Fence.FindTriple` | playwright_langgraph_agent.py:72 | the lazy body `(.*?)` ends at the first three backticks at or after its start, or there are none |
| `Fence.MatchAt` | playwright_langgraph_agent.py:72 | at one position the search finds the pattern exactly when a match in the declarative sense starts there |
| `Fence.Search` | playwright_langgraph_agent.py:72-73 | `re.search` returns the leftmost match: a match, with none starting earlier; or no match anywhere |
| `Fence.MatchUnique` | playwright_langgraph_agent.py:72 | at one opening position the pattern matches in at most one way |
| `Fence.BodyHasNoFence` | playwright_langgraph_agent.py:72-74 | the body of a match holds no three backticks in a row |
| `Fence.ExtractFencedBlock` | playwright_langgraph_agent.py:71-75 | the extracted block never has leading or trailing whitespace |
| `Fence.ExtractWithoutFence` | playwright_langgraph_agent.py:75 | with no opening fence followed by a newline and a later closing fence, the result is the whole text stripped |
| `Fence.ExtractLeftmostFence` | playwright_langgraph_agent.py:72-74 | with a match and none starting further left, the result is the stripped body of that match, and that body holds no three backticks |
| `Fence.ExtractIgnoresOuterSpace` | playwright_langgraph_agent.py:254-256 | extracting from the stripped reply gives the same block as extracting from the reply itself |
| `Fence.ExtractTaggedExample` | playwright_langgraph_agent.py:71-75 | a reply with a "ts" fence gives the code inside it, stripped |
| `McpConfig.SelectServer` | playwright_langgraph_agent.py:78-89 | the named entry under "servers" is returned exactly when it exists and is truthy; otherwise the default stdio entry; `.get` on a file or "servers" value that is not an object is an error; the result is always truthy |
| `McpConfig.SelectServerFallbacks` | playwright_langgraph_agent.py:79-89 | a missing file, a file without "servers", an empty server list and an empty entry all give the default entry |
| `McpConfig.Normalize` | playwright_langgraph_agent.py:92-105 | normalisation succeeds exactly for an object whose type is missing or "stdio", or is "http"/"streamable_http" with a "url"; the result always names the transport "stdio" or "streamable_http" |
| `McpConfig.NormalizeStdio` | playwright_langgraph_agent.py:93-99 | a missing or "stdio" type gives exactly command (default "npx"), args (default []) and transport "stdio" |
| `McpConfig.NormalizeHttp` | playwright_langgraph_agent.py:100-104 | "http" and "streamable_http" give exactly the url and transport "streamable_http", and fail with the missing-key error without a url |
| `McpConfig.NormalizeRejects` | playwright_langgraph_agent.py:100-105 | any other type, or an entry that is not an object, is an error; another string type is the unsupported-type error carrying that type |
| `McpConfig.NormalizeReadsFourKeys` | playwright_langgraph_agent.py:92-105 | only the "type", "command", "args" and "url" keys of an entry affect the result |
| `McpConfig.DefaultServerConnection` | playwright_langgraph_agent.py:85-99 | the default entry connects over stdio with `npx playwright run-test-mcp-server` |
| `Workflow.PlanText` | playwright_langgraph_agent.py:213-215 | the plan text is never empty: the extracted plan as is when it is non-empty, or "# Plan\n\nRequest:\n" + request + "\n" when the extracted plan is empty |
| `Workflow.GeneratedCode` | playwright_langgraph_agent.py:234-236 | generation succeeds exactly when the extracted code is non-empty, and then the code is that extracted block (so it has no outer whitespace); otherwise the no-test-code error |
| `Workflow.NoChangesAnyCase` | playwright_langgraph_agent.py:255 | the stripped healer reply upper-cases to NO_CHANGES exactly when it lower-cases to no_changes, so NO_CHANGES is recognised in any letter case |
| `Workflow.Heal` | playwright_langgraph_agent.py:254-261 | a stripped reply reading NO_CHANGES in any case, or one with an empty block, keeps the code and does not rewrite the file; otherwise the block replaces the code and the file is rewritten; `healed` holds exactly when the code changed |
| `Workflow.HealTakesReplyBlock` | playwright_langgraph_agent.py:254-260 | when healing rewrites the code, the new code is the block extracted from the reply as received |
| `Workflow.HealStable` | playwright_langgraph_agent.py:254-261 | applying the same healer reply to the healed code changes nothing and reports no healing |
| `Workflow.HealFencedNoChanges` | playwright_langgraph_agent.py:254-260 | NO_CHANGES is recognised only as the whole reply: a reply holding NO_CHANGES inside a code fence makes "NO_CHANGES" the new test code and reports it healed |
| `Workflow.Connection` | playwright_langgraph_agent.py:202-203 | connection settings exist exactly when the configuration is well formed and the selected entry is a supported one; a file or "servers" value that is not an object raises the `.get` error on that value; a truthy named entry is normalised, and a missing file, missing or falsy entry gives the default `npx playwright run-test-mcp-server` over stdio |
| `Workflow.Locate` | playwright_langgraph_agent.py:194-197 | the plan goes to specs/<request id>-plan.md; the test goes to the given output path, or else to tests/<request id>.<extension> |
| `Workflow.Produce` | playwright_langgraph_agent.py:210-263 | empty generated code raises the error after only the plan file was written; otherwise the returned plan is the plan text (extracted or default), the generated code is written second, the returned code and `healed` are the heal decision's, the test file is written a third time exactly when the healer's block is taken, plan first and test last with a trailing newline |
| `Workflow.RunWorkflow` | playwright_langgraph_agent.py:185-263 | a run writes nothing exactly when the configuration is rejected, and makes at most three `write_text` calls (to the plan file and the test file, which may be written twice) |
| `Workflow.WorkflowConfigFailure` | playwright_langgraph_agent.py:202-203 | a configuration error ends the run before any file is written |
| `Workflow.WorkflowGenerationFailure` | playwright_langgraph_agent.py:213-236 | with a usable configuration, the run fails exactly when the generator's block is empty, and then only the plan file has been written |
| `Workflow.WorkflowSuccess` | playwright_langgraph_agent.py:185-263 | a successful run returns the plan text of the stripped request and the healed code, writes the plan first, the generated code second and the final code last (a third write exactly when the healer's block is taken), reports `healed` exactly when the code changed, and, without an output path, never uses the slug fallback of `default_output_path` since the request id is never empty |

## Left out

- The LangGraph graph, the language model calls and the MCP client (`build_graph`, `close_client`, the `ainvoke` and `get_tools` calls, lines 159-182 and 205-252): foreign libraries and asynchronous I/O. Their replies are parameters of `Workflow.RunWorkflow`, and their failures are not modelled.
- File system effects: `mkdir` is not modelled, and `write_text` calls are returned as a list of writes. Reading and JSON-parsing the configuration file (lines 79-80) are out: `McpConfig.SelectServer` takes the parsed value, with `None` for a missing file; invalid JSON is not modelled.
- The configuration is read twice by `run_workflow` (lines 202 and 241); both reads see the same parsed value here, so a file changed between the two reads is not modelled.
- `datetime.now()` in `build_request_id` (line 57): the formatted timestamp is a parameter, and its `%Y%m%d-%H%M%S-%f` format is not modelled.
- `run_workflow_sync`, the Streamlit UI (`init_state`, `render_sidebar`, `render_messages`, `main`) and `api_app.py`: event-loop, session-state and HTTP plumbing without logic of their own beyond turning an empty output path into `None` and exceptions into HTTP 500.
- The prompt constants and prompt builders (lines 18-46, 108-156): plain string concatenation; a missing or empty start URL is rendered as "None provided".
- `pathlib` normalisation: a path is one directory and one file name, and a caller-supplied output path is taken as given.
- JSON numbers are integers; floating-point values are not modelled.
- Text.Lower: lower-cases ASCII letters only; Python's Unicode case mapping (for example the Kelvin sign becoming `k`) is not modelled.
- Text.Upper: upper-cases ASCII letters only, so a non-ASCII reply that Python's `upper()` maps to "NO_CHANGES" is not modelled.
- Text.Strip: strips ASCII whitespace only (space, tab, line feed, vertical tab, form feed, carriage return and 0x1C-0x1F); Python also strips non-ASCII whitespace.
- Fence.Search: the regular expression's `.` and character classes are read on characters; Unicode-specific regex behaviour is not modelled.

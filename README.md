# ai_multi_agents — a verified model of the decision logic

This project models the parts of a multimodal chat agent that compute
something themselves. Calls into the language model, vector store, PDF
loader and UI frameworks are left out. The parts modelled are:

- **Reply parser and SQL cleaner** (`SqlUtils`). The model's free-text reply
  is split on the markers `SQL_QUERY:`, `EXPLANATION:` and `PLOT_CODE:`.
  Markdown code fences are removed from a query.
- **Final-text extraction** (`MultimodelUtils`). Text is taken from a
  conversation response with three fallback tiers.
- **System prompts** (`SystemPrompt`). The table of three prompts and the
  lookup that falls back to the default prompt.
- **Message assembly** (`AgentInference`). `query_inference` builds the
  ordered list of system and human messages. The model stops where that list
  is handed to the agent.
- **PDF chunk records** (`PdfProcessor`). Pages that are already split into
  chunks become records with ids of the form `file-pN-cM`.
- **Configuration** (`Config`). The model-config and secrets YAML documents
  are merged shallowly. One level of `${VAR}` placeholders is resolved from
  the environment, and the result is memoised in a module-level cache.
- **Front ends** (`Attachments`, `TempFiles`, `MainApp`, `StreamlitApp`,
  `ChainlitApp`). These cover:
  - attachment classification by lowercased suffix;
  - the choice of inference call;
  - refused requests;
  - the chat history;
  - the promise that the temporary copy of an upload, once saved, is
    deleted on every exit.

Helper modules:
- `Wrappers`: `Option` and `Result`.
- `Strings`: Python `str` behaviour:
  - `in`;
  - `split(p)[0]` and the text after a marker;
  - `strip` with Python's exact whitespace set;
  - `lower`;
  - `str(n)`;
  - `re.sub` with a fixed-length pattern.
- `Paths`: `PurePosixPath.name` and `.suffix`, and the names `tempfile` chooses.

Imperative code is modelled imperatively:
- **Loops:** the chunk loops, the environment-substitution loops and the tier-3 collecting loop are methods with loops. Each is proved equal to a specification function.
- **Straight-line appends:** the message building is a method of conditional appends, with no loop, as `query_inference` is written.
- **Classes:** the configuration memo (`Config.ConfigStore`), the chat session (`StreamlitApp.ChatSession`) and the temporary-file directory (`TempFiles.FileSystem`, with an event log) are classes.
- **Other state:** the front-end handlers are methods that modify that state.

Behaviour of the code worth noting:
- `.csv` and `.xlsx` uploads are classified `unknown` by every front end.
- The `sql` section is cut at the next `SQL_QUERY:` as well as at `EXPLANATION:`.
- `clean_sql` removes only the `sql` language tag.
- No SQL executor exists.

## Model

| member | source | states |
|---|---|---|
| SqlUtils.ParseLlmResponse | src/utils/sql_utils.py:3-12 | `sql` is absent exactly when the text lacks `SQL_QUERY:`, and `explanation` exactly when it lacks `EXPLANATION:`. `plot` is always `None`. A present `sql` holds neither `SQL_QUERY:` nor `EXPLANATION:`, a present explanation holds neither `EXPLANATION:` nor `PLOT_CODE:`, and both are stripped. |
| SqlUtils.Section | src/utils/sql_utils.py:7 | The piece taken after a marker holds neither that marker nor its stop marker, and has no surrounding whitespace. |
| SqlUtils.SectionBounds | src/utils/sql_utils.py:7 | The text is: what precedes the first marker, then the marker, then a body, then a rest. The rest is empty or starts with the marker or the stop marker. The section is the stripped body. |
| SqlUtils.LayoutRoundTrip | src/utils/sql_utils.py:6-10 | A reply laid out as `SQL_QUERY:` query `EXPLANATION:` explanation, whose parts contain no marker, parses back to the stripped query and the stripped explanation. |
| SqlUtils.QuerySectionOfLayout | src/utils/sql_utils.py:6-7 | In that layout the `sql` piece is found, and it is the stripped query: the cut stops at the first `EXPLANATION:`. |
| SqlUtils.ExplanationSectionOfLayout | src/utils/sql_utils.py:9-10 | In that layout the explanation is found, and it is the stripped explanation text that follows the first `EXPLANATION:`. |
| SqlUtils.WorkedExample | src/utils/sql_utils.py:6-10 | `"SQL_QUERY:\nSELECT 1;\n\nEXPLANATION:\nok"` parses to `SELECT 1;` and `ok`, with no plot. |
| SqlUtils.CleanSql | src/utils/sql_utils.py:14-25 | `None` and `""` come back unchanged. Any other text comes back as its `Unfenced` form, stripped, so no triple backtick and no surrounding whitespace is left. |
| SqlUtils.Unfenced | src/utils/sql_utils.py:22-23 | Both removals together leave no triple backtick. |
| SqlUtils.UnfencedPlain | src/utils/sql_utils.py:22-23 | A backtick-free run of text passes through both removals unchanged, in place. |
| SqlUtils.UnfencedTagged | src/utils/sql_utils.py:22 | A fence tagged `sql`, in any case, is removed together with its tag. |
| SqlUtils.UnfencedBare | src/utils/sql_utils.py:23 | A fence not followed by a backtick or an `s` is removed alone, and what follows it is kept. |
| SqlUtils.CleanSqlNoBacktick | src/utils/sql_utils.py:14-25 | A query with no backtick is only stripped. |
| SqlUtils.FenceFree | src/utils/sql_utils.py:23 | After every ```` ``` ```` is removed, none remains, even where removal brings backticks together. |
| SqlUtils.CleanSqlIdempotent | src/utils/sql_utils.py:14-25 | Cleaning twice gives the same result as cleaning once. |
| SqlUtils.CleanFencedBlock | src/utils/sql_utils.py:22-25 | A block fenced and tagged `sql` whose body is `SELECT * FROM t` cleans to `SELECT * FROM t`. |
| SqlUtils.CleanGluedTag | src/utils/sql_utils.py:22 | The case-insensitive `sql` tag is removed as a bare prefix: ```` ```sqlite ```` cleans to `ite`. |
| SqlUtils.CleanOtherTag | src/utils/sql_utils.py:22-23 | Other language tags are kept: ```` ```python x``` ```` cleans to `python x`. |
| Strings.Strip | src/utils/sql_utils.py:25 | `strip()` returns a piece of its input with no whitespace at either end. The result is empty exactly when the input is all whitespace. |
| Strings.StripAround | src/utils/sql_utils.py:7 | `strip()` removes exactly the whitespace around a stripped, non-empty core. |
| Strings.StripIdempotent | src/utils/sql_utils.py:10 | Stripping twice gives the same result as stripping once. |
| Strings.Before | src/utils/sql_utils.py:7 | `split(p)[0]` is a prefix without `p`, followed by `p` in the text when `p` occurs, and is the whole text otherwise. No occurrence of `p` starts inside it, so the cut is at the first occurrence even when `p` overlaps itself. |
| Strings.After | src/utils/sql_utils.py:7 | The text is `split(p)[0]`, then `p`, then the text after the first `p`. |
| Strings.RemoveAllSkip | src/utils/sql_utils.py:22-23 | Characters that cannot start a match pass through the removal unchanged. |
| Strings.RemoveAllMatch | src/utils/sql_utils.py:22-23 | A match at the start is removed, and the scan resumes after it. |
| Strings.DecimalInjective | src/utils/pdf_processor.py:32 | Different numbers have different `str` forms. |
| MultimodelUtils.FirstMessageIndex | src/utils/multimodel_utils.py:8-9 | Locates the first `message.output`. It is `None` exactly when no output has that type; otherwise the index has that type and no earlier output does. |
| MultimodelUtils.ExtractFinalText | src/utils/multimodel_utils.py:1-32 | The search loop, tier 2 and the collecting loop together compute `FinalText`. The first message output must have content. |
| MultimodelUtils.FirstMessageWins | src/utils/multimodel_utils.py:8-13 | When some output is a message output, the result is the joined text of the first one. |
| MultimodelUtils.LaterOutputsIgnored | src/utils/multimodel_utils.py:8-13 | Appending outputs after a message output does not change the result. |
| MultimodelUtils.MessageTextUnstripped | src/utils/multimodel_utils.py:10-13 | Tier 1 does not strip: a message output of ` hi ` yields ` hi `. |
| MultimodelUtils.TextlessChunkSkipped | src/utils/multimodel_utils.py:12 | A chunk without text contributes nothing. |
| MultimodelUtils.TextChunkKept | src/utils/multimodel_utils.py:10-12 | A chunk with text contributes its text, in place. |
| MultimodelUtils.JoinTextAppend | src/utils/multimodel_utils.py:10-12 | Joining the texts of two runs of chunks gives the two joined texts one after the other. |
| MultimodelUtils.LoneOutputText | src/utils/multimodel_utils.py:16-22 | A single output that is not a message output but has content yields its joined text, unstripped. |
| MultimodelUtils.ScanTier | src/utils/multimodel_utils.py:25-32 | Otherwise all texts of all outputs with content are joined, in output order and then chunk order, and the result is stripped. |
| MultimodelUtils.CollectTexts | src/utils/multimodel_utils.py:25-30 | The nested loops collect the texts of every chunk with text, of every output with content, in output order and then chunk order. |
| MultimodelUtils.AppendTexts | src/utils/multimodel_utils.py:28-30 | The inner loop appends the texts of one output's chunks, in order, after what was collected before. |
| MultimodelUtils.FlattenAppend | src/utils/multimodel_utils.py:26-30 | The scan over two runs of outputs gives their chunks one after the other. |
| MultimodelUtils.ContentlessOutputSkipped | src/utils/multimodel_utils.py:27 | An output without content adds nothing to the scan. |
| MultimodelUtils.ScannedTextStripped | src/utils/multimodel_utils.py:25-32 | After a contentless output, ` hi ` comes back as `hi`. |
| MultimodelUtils.NoOutputs | src/utils/multimodel_utils.py:25-32 | No outputs yields `""`. |
| SystemPrompt.GetPrompt | src/prompts/system_prompt.py:155-157 | Always returns one of the table's prompts. A key in the table gets its own entry, and every other key gets the default entry. |
| SystemPrompt.ThreeKeys | src/prompts/system_prompt.py:3-152 | The table has exactly the keys `default`, `friendly` and `expert`, with three distinct prompts. |
| SystemPrompt.DefaultExactlyWhenNotOther | src/prompts/system_prompt.py:157 | The default prompt comes back exactly when the key is neither `friendly` nor `expert`. |
| SystemPrompt.KnownKeys | src/prompts/system_prompt.py:155-157 | Each of the three keys selects its own prompt. |
| SystemPrompt.NoArgument | src/prompts/system_prompt.py:155 | With no argument, the default prompt is returned. |
| SystemPrompt.CaseSensitive | src/prompts/system_prompt.py:157 | `FRIENDLY` is not a key, so it gets the default prompt. |
| AgentInference.QueryInference | src/llm/agent_inference.py:29-52 | The first message is the system message with the prompt for the lowercased style. The last is the human message holding exactly the query. The ones between are `AttachmentMessages(args)`. |
| AgentInference.AppendIfTruthy | src/llm/agent_inference.py:34-35 | The conditional append adds the message exactly when the argument is truthy. |
| AgentInference.AttachmentShape | src/llm/agent_inference.py:34-50 | There is one human message per truthy path argument. |
| AgentInference.MessageCount | src/llm/agent_inference.py:32-52 | The list is two messages longer than the number of truthy paths. |
| AgentInference.AllAttachmentsInOrder | src/llm/agent_inference.py:34-50 | With all five paths present the attachment messages are exactly five: image, audio, PDF, CSV, Excel, in that order, each with its own text. |
| AgentInference.ImageOnly | src/llm/agent_inference.py:35 | An image path alone is announced exactly as `Image Path: <path>`. |
| AgentInference.AudioOnly | src/llm/agent_inference.py:37 | An audio path alone is announced exactly as `Audio Path: <path>`. |
| AgentInference.PdfFilename | src/llm/agent_inference.py:39-42 | ` and filename: …` is appended exactly when the filename is truthy. |
| AgentInference.CsvWithoutTableName | src/llm/agent_inference.py:44 | The table name is always embedded, and is printed as `None` when absent. |
| AgentInference.NoAttachments | src/llm/agent_inference.py:32-52 | Without paths, only the system prompt and the query are sent. |
| AgentInference.TechnicalStyleIsDefault | src/llm/agent_inference.py:30 | The chat front end's `Technical` style lowercases to a missing key and gets the default prompt. |
| AgentInference.NamedStyles | src/llm/agent_inference.py:30 | `Friendly` and `Default` select the friendly and the default prompt. |
| PdfProcessor.ExtractText | src/utils/pdf_processor.py:26-37 | The nested loops produce `AllRecords(pages, fileName)`. |
| PdfProcessor.PageRecords | src/utils/pdf_processor.py:30-35 | Each page yields one record per chunk, in chunk order. |
| PdfProcessor.RecordCount | src/utils/pdf_processor.py:27-35 | There are as many records as chunks on all pages. |
| PdfProcessor.RecordAt | src/utils/pdf_processor.py:27-35 | Chunk `j` of page `i` is the record after all chunks of earlier pages. It carries id `file-p(i+1)-c(j+1)`, the chunk verbatim and the file name. |
| PdfProcessor.Locate | src/utils/pdf_processor.py:27-35 | Every record comes from exactly one chunk of one page, at its position. |
| PdfProcessor.DocumentNames | src/utils/pdf_processor.py:34 | Every record's document name is the file name. |
| PdfProcessor.ChunkIdInjective | src/utils/pdf_processor.py:32 | An id determines its page number and its chunk number. |
| PdfProcessor.IdsDistinct | src/utils/pdf_processor.py:32 | No two records of one file share an id. |
| PdfProcessor.EmptyPageKeepsNumbering | src/utils/pdf_processor.py:27-30 | A page with no chunks adds no record but still takes a page number. |
| Config.LoadYaml | config/__init__.py:11-15 | A missing file or a falsy document loads as `{}`. Any other document loads as itself. |
| Config.MissingOrEmptyYaml | config/__init__.py:12-15 | A missing file, an empty document and `{}` all load as `{}`. |
| Config.Update | config/__init__.py:22-30 | `dict.update` keeps the union of the keys. The other dict's values win, and keys only in the first dict keep their values. |
| Config.GetEnv | config/__init__.py:37 | `os.getenv` returns `None` exactly when the variable is unset. |
| Config.VarName | config/__init__.py:36-37 | `v[2:-1]` of a `${…}` string is exactly the text between `${` and `}`. |
| Config.PlaceholderResolved | config/__init__.py:36-37 | `${NAME}` becomes the value of `NAME`, or `None` when it is unset. |
| Config.OtherValuesKept | config/__init__.py:36 | Non-strings and strings not of the `${…}` form are left as they are. |
| Config.NonDictSectionUntouched | config/__init__.py:34 | A section that is not a dict is left as it is. |
| Config.NestedDictUntouched | config/__init__.py:33-35 | Only one level is resolved: a dict inside a section is kept unchanged. |
| Config.ResolutionKeepsKeys | config/__init__.py:33-37 | Resolution keeps every section and every key of every dict section. |
| Config.ResolveEnv | config/__init__.py:33-37 | The two loops that rewrite `section[k]` compute `ResolveAll`. |
| Config.ResolveEntries | config/__init__.py:35-37 | The inner loop gives every key of a dict section its resolved value and adds no key. |
| Config.SecretsOverride | config/__init__.py:22-30 | For dict documents secrets override model keys at the top level. An absent secrets file behaves like an empty one. |
| Config.ConfigStore.GetConfig | config/__init__.py:17-40 | With a memo, returns it and changes nothing. Otherwise returns `BuildConfig` of the files and environment, and memoises a success. |
| Config.ConfigStore.CacheIgnoresLaterChanges | config/__init__.py:18-39 | After a successful first call, changing the model file and the environment does not change the second call's result. |
| Attachments.Classify | main.py:21-33 | A suffix is `image` exactly for the six image extensions, `audio` exactly for the six audio extensions, `pdf` exactly for `.pdf`, and `unknown` exactly otherwise. |
| Attachments.TabularIsUnknown | main.py:30-33 | `.csv`, `.xlsx` and the empty suffix are `unknown`. |
| Attachments.UpperCaseSuffix | main.py:22 | `.PNG`, `.Pdf` and `.MP3` classify as their lowercase forms do. |
| Attachments.DetectByExtension | streamlit.py:76-84 | A path whose name is a dot-free base plus an extension is classified by that extension. |
| Attachments.NoSuffixUnknown | chainlit.py:12-20 | A temporary name without a suffix is `unknown`. |
| Attachments.TempCopySameType | chainlit.py:43-44 | The temporary copy is classified like the uploaded name, so all three front ends classify an upload the same way. |
| Attachments.CallFor | main.py:73-92 | A PDF leads to the PDF call with the temporary path and the uploaded filename. An image leads to the image call and audio to the audio call, each with the temporary path. Every call carries the given query. |
| Paths.Suffix | main.py:22 | `Path.suffix` is empty or an extension (a dot, then at least one character that is neither a dot nor a slash) that ends the name. When the name's last dot is neither its first nor its last character, the suffix is the name from that dot on. |
| Paths.DottedNameSuffix | main.py:22 | A name with several dots has only its last extension as suffix: `d/a.b.pdf` gives `.pdf`. |
| Paths.LastIndexOf | main.py:22 | `rfind`: absent exactly when the character is absent. Otherwise the last position holding it. |
| Paths.TempPathKeepsSuffix | main.py:37-41 | The temporary file has the same suffix as the uploaded name. |
| TempFiles.FileSystem.SaveTemp | streamlit.py:86-91 | Creates exactly the temporary path with the uploaded name's suffix, and logs its creation. |
| TempFiles.FileSystem.RemoveIfExists | streamlit.py:125-126 | Removes the path and logs it exactly when the path exists. |
| MainApp.Conversation | main.py:44-105 | A missing or empty query gives 400 with no file created. Without an attachment, the text-only call runs and the answer has no attachment. An unknown type gives 400 with no file created. A supported type makes its call on the temporary copy, the answer echoes the filename and type, and the copy is created and then removed. |
| MainApp.Route | main.py:54-101 | Without an attachment the query call runs. An unknown type is refused before any file is created. A supported type saves one temporary copy, makes that type's call on it and echoes the filename and type. The copy is reported for removal. |
| StreamlitApp.FileArgsFor | streamlit.py:101-115 | `file_args` always has exactly the four keys. |
| StreamlitApp.HandleUpload | streamlit.py:101-115 | Without an upload, all four arguments are `None`. An upload is saved, and its type sets: `pdf_path` and `filename` for a PDF, only `image_path` for an image, only `audio_path` for audio. An unknown type sets nothing and shows an error. |
| StreamlitApp.FillFileArgs | streamlit.py:106-115 | The branch on the type sets exactly the arguments that type selects. It shows the error exactly for `unknown`. |
| StreamlitApp.Attempt | streamlit.py:100-126 | The `try` block makes one inference call with the given style and `file_args`. The `finally` block removes the copy, so the files end as they began and the log shows it created and then removed. |
| StreamlitApp.ProcessInput | streamlit.py:93-128 | Inference runs once with the session style and `file_args`, even for an unknown type. The temporary copy is removed afterwards, leaving the files as they were. A completed call appends user/prompt then assistant/response. A raised exception leaves only the user entry. |
| StreamlitApp.NoUploadNoAttachments | streamlit.py:101-119 | Without an upload, no attachment message is sent. |
| StreamlitApp.PdfUploadMessage | streamlit.py:109-119 | A PDF upload is announced with its temporary path and its original name. |
| StreamlitApp.ChatSession.SelectStyle | streamlit.py:60-64 | The sidebar choice overwrites the style and leaves the history alone. |
| ChainlitApp.HandleMessage | chainlit.py:30-38 | A message that is empty once stripped gets the empty-message reply and no call. Any other message is passed unstripped to the query call. A reply is sent back; an exception sends nothing. |
| ChainlitApp.BlankMessageRefused | chainlit.py:33-35 | Whitespace-only messages are refused. |
| ChainlitApp.PaddedMessageVerbatim | chainlit.py:32-37 | Surrounding blanks reach the agent. |
| ChainlitApp.HandleFileUpload | chainlit.py:41-67 | The copy is created and always removed. An unknown type gets the unsupported-type reply and no call. A supported type makes its own call with query `""` and sends the reply. Images and audio are then also sent as media showing the temporary path. |
| ChainlitApp.SaveAndClassify | chainlit.py:43-44 | Saves exactly one new temporary copy and classifies it as the uploaded name would be. |
| ChainlitApp.MediaFor | chainlit.py:55-63 | A media message follows the reply exactly for images and audio. |
| ChainlitApp.UploadReplies | chainlit.py:51-63 | A PDF sends the reply alone. An image or audio upload sends the reply and then the media element of its type. |

## Left out

- Prompt texts: each prompt is represented by its opening line. Those lines already tell the three apart, and the rest of each text is never inspected.
- Strings.Lower: only ASCII letters are lowercased. Every key and extension compared here is ASCII, and the only non-ASCII character whose lowercase is ASCII (the Kelvin sign, giving `k`) appears in none of them.
- Regular expressions: the two `re.sub` calls are modelled as left-to-right removal of a fixed-length pattern. The case-insensitive `sql` pattern also accepts U+017F for `s`, as Python's case folding does.
- `CreateAgent.__init__`, the tools, `agent.invoke` and the model's answers are opaque. `query_inference` is modelled up to the message list. The front ends receive the reply, or the exception, as a `Result` parameter.
- `AgentInference.QueryInference`: the call to `st.toast` and the two `print` calls are UI and logging, so they are left out.
- MainApp.Conversation: the models of main.py and chainlit.py record only which call is chosen. In the source, `query_inference(query)` lacks the required `system_prompt_type` argument, so it raises `TypeError`. `pdf_inference`, `image_inference` and `audio_inference` do not exist on `CreateAgent`. What happens after the call is therefore the reply parameter.
- ChainlitApp.HandleMessage: same as MainApp.Conversation. The `query_inference(query)` call is recorded as the choice of the query call, and its outcome is the reply parameter.
- TempFiles.FileSystem.SaveTemp: the save is modelled as one step that cannot fail. In the source the file exists once `NamedTemporaryFile(delete=False)` returns. If writing the upload into it then raises, `temp_path` is never assigned, and the file is left on disk. The deletion promise of the handlers covers only exits after a successful save.
- Temporary names: `tempfile` picks a random name. The directory and the random base are parameters. The base contains no dot or slash, and the name must not exist yet.
- File contents, `file.read()`, async scheduling, HTTP transport and the rendering in FastAPI, Streamlit and Chainlit are left out. The sent messages are modelled as values.
- Config.BuildConfig: a YAML document that is truthy but not a mapping is treated as an error. `dict.update` would accept a list of pairs, and the model does not represent that case.
- Config: YAML parsing and file existence are inputs. The parsed document is also shared with the config, so resolution changes it in place in the source; that aliasing is not modelled.
- MultimodelUtils.ExtractFinalText: requires that the first message output has content. The source reads that attribute without a guard and raises otherwise.
- PdfProcessor.ExtractText: the loader and the text splitter are foreign libraries. Their output, pages each split into chunks, is the input.
- src/llm/tools.py, src/llm/indexing.py, app.py, src/utils/log.py and src/prompts/sql_system_prompt.py are not part of this model. `sql_system_prompt.py` supplies only the marker strings.
- StreamlitApp.ProcessInput: the recommended-question buttons and the rendering of the history are UI, so they are left out. Only `process_input` and the style selection are modelled.

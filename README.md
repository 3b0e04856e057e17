# embed-agent, modelled in Dafny

embed-agent turns a plain-language hardware requirement into a firmware
project for ESP-IDF or Arduino. A fixed sequence of stages runs over a shared
state record:

- the **manager** asks a language model for a project plan and selects skills
  from the skill registry;
- the **workspace** stage picks the target platform and the output locations;
- the **coder** asks the model for the main source file;
- the **diagram** stage is a placeholder;
- the **assembly** stage cleans the code out of the model's reply and
  turns the outputs into a list of files;
- the **persist** stage guards every file path, writes the files, and writes a
  manifest, the debug log and the run metadata.

Around the stages sit the **skill registry**, which reads `SKILL.md` files
with YAML front matter, and the **configuration loader**, which validates the
parsed `config.yaml`.

The model covers the deterministic part of this work. Every language-model
call is a function parameter that either answers or fails. The file system is
a map from resolved path components to file contents. Hashing and YAML
parsing are parameters too.

Modules:

- `Wrappers` (Option, Result).
- `Text`: Python's `strip`, `split("\n")`, `join` and `startswith` over the
  whitespace set of `str.isspace`.
- `Splitting`: `str.split(sep, maxsplit)` and its join round trip.
- `Values`: a parsed YAML/JSON value with Python truthiness.
- `Paths`: `PurePosixPath` parsing, printing and joining, plus lexical
  resolution.
- `Encoding`: UTF-8 byte counts.
- `State`: the state record and its merge policy.
- `Extraction`: `extract_clean_code`.
- `Workspace`: the workspace stage and `_get_workspace`.
- `Assembly`: the assembly stage.
- `PathGuard`: `_validate_artifact_path`.
- `Persist`: `persist_node` over a `FileStore` class holding files and
  directories, with the refusals of `mkdir` and `write_text`.
- `Stages`: the manager, coder and diagram stages.
- `Loader`: the `SkillRegistry` class.
- `Config`: `load_config`.

Where the code differs from the written documentation, the model follows the
code:

- The `ModelConfig` record's own `api_base` default is the empty string.
  `load_config` never uses it, because it supplies `$OPENAI_BASE_URL` or the
  OpenRouter URL instead.
- The state record declares neither `workspace`, `artifacts`,
  `manifest_path` nor `persisted_paths`, and defines no `Artifact` or
  `WorkspaceInfo` type, although the node module imports both types
  (src/nodes.py:29). The model's state record has those four fields, and its
  `Artifact` and `WorkspaceInfo` types carry the keys the nodes read and
  write: the workspace record at src/nodes.py:261 and 329, the artifact list
  at src/nodes.py:397-398 and 426, and the manifest path and persisted paths
  at src/nodes.py:479-480.
- The graph wiring file imports an `assembler_node` that the node module does
  not define. The stage order used in the lemmas is therefore the one the nodes
  document: manager, workspace, coder, diagram, assembly, persist.

## Model

| member | source | states |
|---|---|---|
| State.Merge | src/state.py:30-33 | `messages` and `debug_logs` of the merge are the old list followed by the update's (the `operator.add` reducer). |
| State.MergeOverwrites | src/state.py:9-36 | Each of the 17 fields without a reducer takes the update's value when the update carries one, and otherwise keeps the state's value. |
| State.Overwrite | src/state.py:9-27 | A field without a reducer takes the update's value when present, else keeps the current one. |
| State.Initial | main.py:65-71 | The command line's initial state holds the requirements, the task name and the run directory, and every other key is unset: no prompt file (so `metadata.json` records it as "unknown"), no workspace fields (so `_get_workspace` re-derives them), and empty message and log lists. |
| State.MergeBlank | src/state.py:6 | The update that carries no key changes nothing. Merging an update into the blank state gives the update itself. |
| State.MergeAssociative | src/state.py:30-33 | Two updates applied in turn act as their merge applied once. |
| State.MergeKeepsUnset | src/state.py:15-20 | An update that carries neither the project name, the skills, the workspace record nor the run directory leaves those four as they were. |
| State.MergeAllLogs | src/state.py:33 | After any sequence of updates, the logs are the initial logs followed by every update's logs in order. The initial messages remain a prefix. |
| Text.Strip | src/nodes.py:104 | The result is no longer than the input, and is empty or starts and ends with a non-whitespace character. |
| Text.StripIsSlice | src/nodes.py:104 | The stripped text is a slice of the input, and only whitespace lies before and after it. |
| Text.StripIdempotent | src/nodes.py:125-127 | Stripping twice is stripping once. |
| Text.BlankIffAllSpace | src/nodes.py:407 | A text strips to empty exactly when every character is whitespace. |
| Text.JoinSplitLines | src/nodes.py:112 | Joining the pieces of `split("\n")` with `"\n"` gives the text back. |
| Text.SplitLines | src/nodes.py:112 | `split("\n")` always has at least one piece. |
| Text.PaddedFirstLine | src/nodes.py:118-125 | When the first line of a text padded with whitespace is not blank, the text's own first line, stripped, is that line stripped. |
| Text.PaddedFirstNonBlank | src/nodes.py:116-125 | Padding a text with whitespace keeps its first non-blank line: the padded text's first non-blank line, stripped, is the text's first non-blank line, stripped, and every line before it is blank. |
| Text.PaddedLines | src/nodes.py:112-125 | Every line of a text, stripped, is a line of the padded text, stripped, from some offset on, and the lines before that offset are blank. |
| Splitting.JoinSplitN | src/loader.py:41 | Joining the pieces of `split(sep, n)` with `sep` gives the text back. |
| Splitting.SplitNPiecesFree | src/loader.py:71 | Every piece of `split(sep, n)` but the last is free of `sep`. |
| Splitting.Find | src/loader.py:41 | The search finds the first occurrence of the separator at or after the start, or reports that there is none. |
| Paths.Parse | src/nodes.py:238 | `Path(s)` gives a well-formed path: its root is "", "/" or "//", and its parts are components. |
| Paths.ParseStr | src/nodes.py:252-259 | Parsing the printed form of a well-formed path gives the same path. |
| Paths.Join | src/nodes.py:239 | `p / q` is `q` when `q` is absolute. Otherwise it keeps `p`'s root and appends `q`'s parts. |
| Paths.ResolveJoinBelow | src/nodes.py:412-414 | Resolving `root / rel`, for a relative `rel` without "..", gives the resolved root followed by `rel`'s parts. |
| Paths.NormalizeNoParentLeft | src/nodes.py:412-413 | Lexical resolution never leaves a ".." component. |
| Encoding.EncodeLength | src/nodes.py:439-443 | The UTF-8 encoding's length is the sum of the characters' widths. |
| Encoding.DecodeEncodeChar | src/nodes.py:439 | Each character's UTF-8 bytes decode back to its code point. |
| Encoding.EncodeAppend | src/nodes.py:439 | Encoding distributes over concatenation. |
| Encoding.AsciiLength | src/nodes.py:443 | An ASCII text takes one byte per character. |
| Values.Or | src/config.py:63 | Python's `v or d` is `v` when `v` is truthy, else `d`. |
| Values.ToFloat | src/config.py:121 | `float(v)` keeps a float, and turns `True` and `False` into 1.0 and 0.0. An int fails with the overflow exactly when its magnitude is at least 2^1024 - 2^970; otherwise it becomes its real value. |
| Extraction.ExtractCleanCode | src/nodes.py:92-127 | The method's result equals `CleanCode(raw)`: the stripped interior of the leftmost tagged fence, else of the leftmost untagged fence, else the scanned lines joined and stripped, else the whole text stripped. |
| Extraction.ScanCodeLines | src/nodes.py:112-123 | The `started`-flag loop collects exactly the lines from the first code-like line to the end, or none when no line is code-like. |
| Extraction.FindFence | src/nodes.py:102 | `re.search` reports a match at the leftmost position where some alternative matches, with no match before it, or no match at all. |
| Extraction.FindClose | src/nodes.py:102 | The lazy interior `(.*?)` ends at the first closing fence after the opener. |
| Extraction.FirstOpener | src/nodes.py:102 | At a start position, the alternatives `c`, `cpp`, `cc` are tried in order, and the first one that matches is taken. |
| Extraction.FindFenceIsLeftmost | src/nodes.py:102-107 | Any match with no earlier match is the one the search reports. |
| Extraction.TaggedFenceWins | src/nodes.py:101-104 | With a leftmost tagged fence, the result is its interior stripped, whatever untagged fences come earlier. |
| Extraction.PlainFenceNext | src/nodes.py:106-109 | Without any tagged fence, the leftmost untagged fence's interior, stripped, is the result. |
| Extraction.LineScanNext | src/nodes.py:111-125 | Without fences, the result is the lines from the first code-like line on, joined by "\n" and stripped. |
| Extraction.WholeTextLast | src/nodes.py:124-127 | Without fences and without code-like lines, the result is the whole text stripped. |
| Extraction.CleanCodeIsStripped | src/nodes.py:104-127 | The result never has leading or trailing whitespace. |
| Extraction.CleanCodeIdempotent | src/nodes.py:111-127 | On a reply without fences, extracting a second time changes nothing. |
| Extraction.CleanCodeOfCodeText | src/nodes.py:116-125 | A stripped, fence-free text whose first line is code-like extracts to itself. |
| Extraction.BlankNotCodeLine | src/nodes.py:118 | A blank line never starts the scan. |
| Extraction.CodeLineByStrip | src/nodes.py:118 | Whether a line starts the scan depends only on its stripped text. |
| Workspace.PlatformFor | src/nodes.py:242-249 | The platform is "arduino" exactly when "arduino" is among the skills, else "esp-idf". |
| Workspace.OrElse | src/nodes.py:330-332 | Python's `a or b` on optional strings: `a` when it is a non-empty string, else `b`. |
| Workspace.PrepareWorkspace | src/nodes.py:227-262 | The update sets only the output directory, the code path, the platform and the workspace record. The platform is valid, and the workspace record agrees with it and with the output directory. |
| Workspace.PrepareTarget | src/nodes.py:242-249 | The workspace stage picks "arduino" exactly when that skill is active, else "esp-idf". |
| Workspace.PrepareCodeInOutputDir | src/nodes.py:239-248 | The code path is the output directory followed by `{project}.ino` for Arduino, or by `main/main.c` otherwise. |
| Workspace.PrepareDefaults | src/nodes.py:234-261 | With no inputs set, the project is "embedded_project", the output directory "output/output", the code path "output/output/main/main.c", and the platform "esp-idf". |
| Workspace.GetWorkspace | src/nodes.py:327-346 | The normalised target is always "arduino" or "esp-idf". |
| Workspace.WorkspaceFieldsWin | src/nodes.py:329-332 | Non-empty fields of the workspace record win over the older state fields. |
| Workspace.LegacyFallbacks | src/nodes.py:330-336 | Without a workspace record: the output root is `prepared_output_dir`, else `run_dir/output`; the project is the state's project name, else "output_project"; a valid `active_platform` is kept. |
| Workspace.TargetRederived | src/nodes.py:338-340 | A missing or unknown target is derived again: "arduino" exactly when that skill is active. |
| Workspace.GetWorkspaceAfterPrepare | src/nodes.py:227-262 | After the workspace stage, normalisation returns exactly the output directory, platform and project that stage chose. |
| Assembly.AssembleArtifacts | src/nodes.py:349-399 | The method's update carries only the normalised workspace and the artifact list of `AssemblyUpdate`. |
| Assembly.AssembleList | src/nodes.py:358-394 | The appends build exactly the list `Assembled`: code file, ESP-IDF build files, diagram file. |
| Assembly.AssembledCount | src/nodes.py:362-394 | ESP-IDF yields 3 or 4 artifacts and Arduino 1 or 2; the extra one is there exactly when there is a diagram. |
| Assembly.CodeFirst | src/nodes.py:362-371 | The code artifact comes first and holds the cleaned code, at `{project}.ino` for Arduino and `main/main.c` otherwise. |
| Assembly.EspIdfBuildFiles | src/nodes.py:373-387 | For ESP-IDF, `CMakeLists.txt` (role meta, ending in `project({name})`) and then `main/CMakeLists.txt` with its fixed content follow the code. |
| Assembly.DiagramIff | src/nodes.py:389-394 | A diagram artifact is present exactly when the diagram text is non-empty, and it is the last artifact. |
| Assembly.UpdateArtifacts | src/nodes.py:353-399 | The update's workspace is the normalised one. Its first artifact holds the extracted code. A diagram artifact is present exactly when the stripped diagram text is non-empty. |
| Assembly.PlaceholderDiagramAddsNothing | src/nodes.py:322-324 | After the diagram placeholder stage, no diagram artifact is assembled. |
| PathGuard.ValidateArtifactPath | src/nodes.py:402-415 | An accepted path resolves below the resolved output root. |
| PathGuard.GuardAccepts | src/nodes.py:404-415 | The guard accepts exactly the relative, non-blank paths without a ".." part. An accepted path becomes the resolved root followed by its parts. |
| PathGuard.GuardRejectsInOrder | src/nodes.py:405-410 | The checks apply in order: an absolute path is rejected as not relative, then a blank path as empty, then a path with ".." as climbing. |
| PathGuard.NeverOutsideRoot | src/nodes.py:412-414 | Lexically, a path that passed the first three checks never fails the `relative_to` check. |
| PathGuard.DotIsRoot | src/nodes.py:402-415 | "." passes the guard and names the output root itself. |
| PathGuard.MainFileAcceptable | src/nodes.py:365 | "main/main.c" passes the guard. |
| PathGuard.MainCMakeAcceptable | src/nodes.py:384 | "main/CMakeLists.txt" passes the guard. |
| PathGuard.RootCMakeAcceptable | src/nodes.py:375 | "CMakeLists.txt" passes the guard. |
| PathGuard.DiagramFileAcceptable | src/nodes.py:391 | "wiring/wokwi.json" passes the guard. |
| PathGuard.SketchAcceptable | src/nodes.py:363 | A sketch name without "/" gives an acceptable `{name}.ino`. |
| PathGuard.ClimbingPathRejected | src/nodes.py:409-410 | A path starting with "../" is rejected for its ".." part. |
| Persist.FileStore.constructor | src/nodes.py:418-424 | The store starts with the given files and directories. |
| Persist.Step | src/nodes.py:430-446 | Once stopped, the loop stays stopped. An artifact that passes the guard and whose directory and file can be made adds one manifest entry and one persisted path, and puts its content at the guard's place. |
| Persist.Written | src/nodes.py:430-446 | A loop that did not stop has one manifest entry and one persisted path per artifact. |
| Persist.WriteArtifacts | src/nodes.py:430-446 | The loop method's result and the new file system are those of `Written` over the old one: each artifact is guarded, its directory made and its file written, in order, and the loop stops at the first refusal. |
| Persist.PersistNode | src/nodes.py:418-482 | The method's result and the file system it leaves are those of `Persisted` on the old file system. |
| Persist.WriteFileOutcome | src/nodes.py:437-476 | `write_text` succeeds exactly when the place is not a directory and the directory to hold it exists; it then sets that one file and leaves the directories. |
| Persist.PersistedStages | src/nodes.py:418-482 | A file in the way of the output root fails the stage before anything is written. A failed artifact loop ends it with the loop's error and the loop's file system, and no run-level file. After a complete loop the stage succeeds exactly when none of the three run-level files is a directory and the run directory exists, and then it writes those three and returns the update. |
| Persist.RunLevelOutcome | src/nodes.py:452-482 | The run-level writes succeed exactly when none of the three files is a directory and the run directory exists; they then set exactly those three files and return the manifest path, the persisted paths and the status message. |
| Persist.DotArtifactFails | src/nodes.py:435-437 | An artifact whose path is "." names the output root, already a directory: the stage fails with `IsADirectoryError` at that place. |
| Persist.RunDirWithRoot | src/nodes.py:421-424 | When the output root lies in the run directory, making the root makes the run directory too. |
| Persist.PersistedConsistent | src/nodes.py:418-482 | The stage never leaves a path that is both a file and a directory, whether it succeeds or fails. |
| Persist.WrittenConsistent | src/nodes.py:430-446 | Nor does the artifact loop. |
| Persist.StepOutcome | src/nodes.py:435-437 | One turn succeeds exactly when the guard passes and the place is writable: it is not a directory and no file lies on the way to it. |
| Persist.LogValues | src/nodes.py:462-464 | The debug file holds one document per log entry, in order. |
| Persist.WrittenInOrder | src/nodes.py:430-446 | The loop completes exactly when every artifact passes the guard, every place is writable on the starting file system, and no place lies on the way to another. It then records, for each artifact in order, its resolved path and its manifest entry; the files are exactly the old ones plus the places, and the directories exactly the old ones plus those above the places. |
| Persist.NestedPlacesFail | src/nodes.py:435-437 | Two accepted artifacts one of whose places lies on the way to the other's never both get written, in either order. |
| Persist.FileAndFolderClash | src/nodes.py:435-437 | So the artifacts "main" and "main/main.c" stop the loop in either order: `FileExistsError` at the `mkdir`, or `IsADirectoryError` at the write. |
| Persist.FirstRejectionStops | src/nodes.py:435 | At the first rejected artifact after a clean prefix, the loop stops with the guard's error, keeping exactly what the earlier artifacts wrote. |
| Persist.WrittenStopped | src/nodes.py:435 | Once the loop has stopped, later artifacts change nothing. |
| Persist.OnlyTargetsWritten | src/nodes.py:435-437 | Files at places the guard never hands out are left as they were, whether or not the loop completes. |
| Persist.EachArtifactWritten | src/nodes.py:435-437 | When the loop completes and the places are distinct, each artifact's content is at its own place. |
| Persist.GuardAtPlaces | src/nodes.py:435 | An artifact passes exactly when its path is acceptable, and it is placed below the resolved root. |
| Persist.AcceptableAllWritten | src/nodes.py:430-446 | A list whose every path is acceptable, none of whose paths lies on the way to another, and whose places can each be written, is written completely. |
| Persist.ManifestBytes | src/nodes.py:439-443 | A manifest entry's byte count is the UTF-8 length of the content, and the character count for ASCII text. |
| Persist.MissingPathRejected | src/nodes.py:407-431 | An artifact without a path is rejected as empty. |
| Persist.AssembledPathsAcceptable | src/nodes.py:362-394 | Every path the assembly stage produces is acceptable, given an Arduino project name without "/". |
| Persist.AssembledAllWritten | src/nodes.py:418-446 | A freshly assembled list is written completely wherever each of its places can be written. |
| Persist.AssembledApart | src/nodes.py:362-394 | No path the assembly stage produces lies on the way to another. |
| Stages.ManagerOutcome | src/nodes.py:147-224 | A missing `requirements` raises. Otherwise, whether the planner answers or fails, the update sets exactly the project name, the skills, their text and one manager log. |
| Stages.ManagerNode | src/nodes.py:147-206 | The scan always runs and replaces the descriptions. The result is `ManagerOutcome` for the new listing and the old cache's loads. Those loads are unchanged. |
| Stages.ManagerAppliesPlan | src/nodes.py:183-206 | An answered plan is applied as given: its name, its skills and their combined text, with the plan logged. |
| Stages.ManagerFallsBack | src/nodes.py:208-224 | A failed plan gives "esp32_fallback", ["esp-idf"] and "Use standard ESP-IDF best practices.", and logs the error with metadata `{"status": "fallback"}`. |
| Stages.ManagerKeepsRest | src/nodes.py:201-224 | Merging the manager's update changes only its three fields and appends its log. |
| Stages.FallbackTargetsEspIdf | src/nodes.py:219-249 | After the fallback plan, the workspace stage picks ESP-IDF. |
| Stages.DebugLogMetadataIsMapping | src/nodes.py:74-89 | Where a stage passes no or empty metadata, the log records an empty mapping. A non-empty mapping is kept. |
| Stages.Instructions | src/nodes.py:274 | The standards text given to the coder is never empty. |
| Stages.CoderStandards | src/nodes.py:274 | Without skill text the coder gets "No specific standards."; otherwise it gets the skill text verbatim. |
| Stages.CoderPromptCarries | src/nodes.py:278-292 | The coder's prompt holds the project name and the standards, each at its place in the fixed template. |
| Stages.CoderOutcome | src/nodes.py:265-319 | A missing `requirements` raises. An answer becomes the code content and the one new message, with one coder log. |
| Stages.CoderMerge | src/nodes.py:314-319 | A coder run stores the reply, appends one message, sets the skills to the state's (or []), and keeps the project and workspace. |
| Stages.CoderModelFailure | src/nodes.py:297 | The model's failure propagates out of the coder. |
| Stages.DiagramOnlyDiagram | src/nodes.py:322-324 | The diagram stage sets the diagram to "" and changes nothing else. |
| Stages.PipelineLogs | main.py:65-71 | From the initial state, the manager, the workspace stage and an answering coder leave exactly two logs, the manager's then the coder's, and one message. |
| Stages.ManagerStep | src/nodes.py:201-224 | The manager appends its one log and no message, and keeps the requirements. |
| Stages.PrepareStep | src/nodes.py:257-262 | The workspace stage adds no log and no message, and keeps the requirements. |
| Stages.CoderStep | src/nodes.py:314-319 | An answering coder appends one message and one coder log. |
| Loader.SkillRegistry.constructor | src/loader.py:17-20 | A new registry has empty descriptions and an empty cache, over the directory it is given; the default `"./skills"`, which the stages' module-level registry uses, is `Loader.DefaultSkillsDir`. |
| Loader.SkillRegistry.ScanSkills | src/loader.py:22-35 | The scan clears the descriptions, then fills them from the found files in order. The listing is one `- name: desc` line per description, each value shown through `str()`. |
| Loader.SkillMetadata | src/loader.py:37-50 | A file contributes exactly when it was read, its text has two `---` marks, the block between them parses to a mapping, and the name can be a dictionary key. It then contributes the `name` (default: the directory's name) and the `description` (default: "No description") as parsed, whatever their type. |
| Loader.UnhashableNameSkipped | src/loader.py:45-50 | A list or mapping as the name makes the assignment raise, so the file contributes nothing. |
| Loader.ScalarNameListed | src/loader.py:35-47 | A name or description of another type, such as 42 or null, is recorded as parsed and listed through `str()`. |
| Loader.EqualNumbersShareKey | src/loader.py:47 | Names 1, 1.0 and `true` are one dictionary key and keep the first spelling; the string "1" is another key. |
| Loader.NaNKeysStayApart | src/loader.py:47 | Two NaN names make two entries. |
| Loader.SkillRegistry.LoadSkillContent | src/loader.py:52-77 | The result is the cached body, else the body of the file, else nothing. A newly found body is cached, and nothing else changes. |
| Loader.SkillRegistry.GetCombinedSkillContent | src/loader.py:79-96 | The method returns the combined text of the names in order, and the cache it leaves gives every load the same result. |
| Loader.Lookup | src/loader.py:45-47 | The lookup finds a value exactly when some entry has an equal key. |
| Loader.KeyIndex | src/loader.py:47 | The position of an entry with an equal key, when there is one; its absence otherwise. |
| Loader.PutInPlace | src/loader.py:47 | Assigning to an existing key replaces its value in place and keeps the key as first written. A new key is appended at the end. |
| Loader.PutDistinct | src/loader.py:47 | Assignment keeps the keys distinct. |
| Loader.PutLookup | src/loader.py:47 | After assignment an equal key finds the new value, and every other key what it found before. |
| Loader.LookupDistinct | src/loader.py:47 | With distinct keys, the lookup finds the one entry with an equal key. |
| Loader.ScanDistinct | src/loader.py:30-33 | A scan leaves distinct names. |
| Loader.ScanLaterWins | src/loader.py:45-47 | The last file naming a skill (with anything but NaN) decides its description. |
| Loader.ScanEntriesFromFiles | src/loader.py:30-33 | Every entry left by a scan has a name that some scanned file gave and a description that some scanned file gave under an equal name, so nothing from an earlier scan survives. |
| Loader.ContributedGrows | src/loader.py:32-33 | What a prefix of the found files contributes, the whole scan does too. |
| Loader.ListingSnoc | src/loader.py:35 | Each further description adds its line after a "\n". |
| Loader.CacheStable | src/loader.py:62-75 | Caching a freshly loaded body changes what no later load yields. |
| Loader.CachedIgnoresFiles | src/loader.py:62-63 | A cached body is returned whatever the files now hold. |
| Loader.MissingSkillNone | src/loader.py:65-68 | A skill without a cached body and without a file loads as nothing. |
| Loader.FrontMatterBody | src/loader.py:71-74 | For `---meta---rest`, the split gives "", the block and the rest, and the body is the rest stripped. |
| Loader.NoFrontMatterBody | src/loader.py:71-74 | A text without any `---` is its own body, stripped. |
| Loader.SectionsStep | src/loader.py:91-94 | One more name adds its section exactly when its content is present and non-empty. |
| Loader.SectionsSnoc | src/loader.py:91-94 | The sections of one more name are the earlier ones, then its own section when it has one. |
| Loader.SectionsInOrder | src/loader.py:91-94 | A present skill adds `=== SKILL: name ===\n` and its body, after the earlier sections. |
| Loader.SkippedLeavesNoTrace | src/loader.py:92-93 | A skill with missing or empty content leaves no trace in the combined text. |
| Loader.CombinedNone | src/loader.py:96 | The combined text of no skills is "". |
| Config.LoadConfig | src/config.py:47-126 | A loaded configuration has non-blank model strings. A missing file is exactly the not-found error, and an unparsable document exactly the YAML error. The float overflow is reported only after every other check passed. |
| Config.Message | src/config.py:59-112 | A rejected document's message begins "Invalid config" and quotes the key at fault; a missing file's names the path; a YAML error is the parser's own text; the overflow is "int too large to convert to float". |
| Config.Section | src/config.py:67-108 | A section is accepted exactly when it is missing, null or a mapping. Otherwise it is a format error. |
| Config.OptionalStr | src/config.py:73-79 | `task_dir` and `prompt_file` are accepted exactly when missing, null or a string, and keep the string. |
| Config.RequiredStr | src/config.py:87-102 | A model string, or its default, is accepted exactly when it is a string with a non-whitespace character, and is kept as given. |
| Config.Temperature | src/config.py:91-93 | The temperature is accepted exactly when it is an int (bool included) or a float, and is kept as given. |
| Config.LoadModel | src/config.py:81-102 | An accepted model section has a non-blank name, API base and key variable, and a numeric temperature. |
| Config.LoadInput | src/config.py:67-79 | Every rejection of the input section is a validation error. |
| Config.LoadGraph | src/config.py:104-112 | Every rejection of the graph section is a validation error. |
| Config.NonBlankIffStripped | src/config.py:88 | `not s.strip()` is false exactly when some character is not whitespace. |
| Config.EmptyDocumentDefaults | src/config.py:63-126 | An empty or false document, with a usable base URL or none in the environment, yields all the defaults. |
| Config.BlankBaseUrlRejected | src/config.py:95-98 | A blank `$OPENAI_BASE_URL` with no `api_base` in the document is rejected. |
| Config.NonMappingRootRejected | src/config.py:64-65 | A truthy document that is not a mapping is rejected. |
| Config.SectionsDecide | src/config.py:67-112 | The result depends on the root only through its three sections. |
| Config.NullSectionIsEmpty | src/config.py:68-106 | A section written as null reads like an empty mapping. |
| Config.NonMappingSectionRejected | src/config.py:70-71 | An input section that is neither a mapping nor null is rejected, before anything else is checked. |
| Config.BoolTemperatureAccepted | src/config.py:92-121 | `temperature: true` passes the numeric check and converts to 1.0. |
| Config.HugeTemperatureOverflows | src/config.py:91-121 | An int temperature of magnitude 2^1024 - 2^970 or more passes the numeric check, and the load then fails with the overflow. |
| Config.StringTemperatureRejected | src/config.py:92-93 | A string temperature fails the numeric check. |
| Config.LoadedFromDocument | src/config.py:114-126 | A loaded configuration holds exactly the document's values, and the defaults where the document has none. |
| Config.RootOfFalsy | src/config.py:63 | A falsy document counts as an empty mapping. |

## Left out

- Language-model access is left out: `get_model`, `configure_model`, the API key lookup and the output parser. The plan and code calls are function parameters that either answer or fail with a reason. The prompt templates are inputs to those functions. The `format_instructions` text is not modelled.
- Timestamps and `duration_ms`, with its float rounding, are clock values and do not appear in log entries, the manifest or the metadata.
- Permissions, a full disk and symbolic links are left out: `mkdir` and `write_text` fail only for the file-versus-directory reasons above. `resolve()` is lexical against a working-directory parameter, so a symlink escaping the root is not modelled. The directories made are those on the way to the resolved output root and to each resolved place.
- Workspace.PrepareWorkspace: the two `mkdir(parents=True, exist_ok=True)` calls of `prepare_workspace_node` (src/nodes.py:240 and 247) are left out; the stage only computes the paths. So it never fails here, although the source raises `FileExistsError` when a file sits at `run_dir/output` or at `run_dir/output/main`. The persist stage makes the same directories later, and that failure is modelled there as `MkdirFailed`.
- JSON serialisation, YAML parsing and SHA-256 are parameters or value datatypes. The manifest, debug and metadata files hold documents, not text.
- The order in which `rglob` finds `SKILL.md` files is the `found` parameter of the scan.
- Read errors other than a missing file are not modelled. For a skill file whose text cannot be read, the metadata parse skips it, as the `except` branch would.
- UTF-8 is modelled for Unicode scalar values; lone surrogates, which `encode` rejects, are not modelled.
- A field that is present but `None` is modelled as absent. For `code_content` the source would crash on `None`; the model treats it as "".
- YAML mapping keys are strings. A non-string key never matches the string lookups of the source.
- Loader.SkillRegistry.ScanSkills: `str()` of a parsed value is a parameter, and a NaN name is taken as a fresh object each time it is read, as `yaml.safe_load` makes it.
- Text.PaddedFirstLine: covers only a padded text whose line 0 is not blank; the general case, the first non-blank line, is `Text.PaddedFirstNonBlank`.
- Python floats are a datatype of finite reals, infinities and NaN. Rounding in `float(int)` is not modelled.
- Values.ToFloat: an int below the overflow bound becomes its exact real value, not the nearest double.
- The graph wiring file, the command-line driver (apart from the initial state it builds), the empty tools module and the generated firmware under `tasks/` are not part of this model. Running stages in parallel is not modelled.
- Extraction.TaggedFenceWins: states the result as the stripped interior of the leftmost tagged match, given through the match record, rather than as explicit slice bounds.

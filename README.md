# code-gate, modelled in Dafny

code-gate is a pre-commit gate. It collects the staged files and the staged
diff. It asks a language-model backend (DeepSeek or Ollama) for a review of
the whole change and/or of each file, and serves the result as an HTML page.
This project models its core logic and proves what that logic promises:

- `Review` (`review.ts`): the review engine. It has the early exits, the
  `maxFiles` truncation, and the concurrency clamp to 1..8. It runs a worker
  pool that drains one shared queue. It appends one item per file with a
  fallback diff header, keeps the `aiInvoked` / `aiSucceeded` / `status`
  flags and runs the summary call. It has the status snapshot that the live
  page polls. The pool is a loop that picks, at every step, any running
  worker to finish next. Each file is taken from the queue exactly once,
  whatever the order of completion.
- `LegacyReview` (`review-flow.ts`): the older sequential flow. The aggregate
  call comes first, then a missing DeepSeek key branch, then the `per_file`
  loop in input order.
- `Git` (`git.ts`): parsing `git diff --staged --name-only` output,
  `filterFiles` by extension, and the commit subject.
- `Locales` (`locales/index.ts`): the language switch (a class holding
  `currentLang`) and `t`, a dotted-key walk plus `{name}` substitution.
- `Config` (`config.ts`): the candidate order of `findConfigFile`, the
  parser chosen by extension, and the defaults/user merge of `loadConfig`.
- `CliInit` (`cli/commands/init.ts`) and `LegacyInit` (`commands/init.ts`):
  the `init` command.
  - A `Workspace` class holds the text files, the directories, the
    executable bits, the parsed `package.json` and the log of started
    commands. Its methods are proved against functions on a `Disk` value.
  - It covers the idempotent hook-line append, the new hook files, and the
    `package.json` key merge.
  - It covers `generateConfig`'s skip rule and the `.gitignore` append.
  - It proves that a second `init` changes no file.
- `HtmlRender` (`ui/render/html.ts`) and `LegacyRender` (`ui/render.ts`):
  - HTML escaping, with a proved inverse;
  - the AI badge decision tables;
  - the optional, always escaped meta fields;
  - one tab and one pane per file at the same index;
  - neutralising closing `script`/`style`/`textarea` tags in reviews.

`Strings`, `Json` and `Util` hold the helpers the modules share: JavaScript's
`trim`, `split`, `join` and `includes`, and JavaScript values with object
spread and truthiness.

The backend is a function value `Request -> Reply` (`Ok(text)` or
`Fail(message)`). The environment, the staged output of git, the per-file
diffs, the Markdown and diff renderers, and the user's answer to the
`.gitignore` prompt are parameters.

Quirks of the code that the model keeps:

- A failed summary call in `review.ts` produces the error text as the
  Summary review, not an empty review.
- In `both` mode the summary sets `aiSucceeded` outright. A failed summary
  therefore resets it to false after successful file reviews.
- After a failed aggregate call, `review-flow.ts` names the configured
  `cfg.provider` in the review text and picks its hint by that provider.
  This can differ from the provider actually used (`cfg.review.provider`).

## Model

| member | source | states |
|---|---|---|
| Review.ParseMode | src/core/review.ts:18 | `summary` and `both` select those modes, and only they do; an unset (`''`) or `'files'` mode is the file mode |
| Review.WorkerCount | src/core/review.ts:58 | the worker count is within 1..8; a setting in 1..8 is kept, above 8 gives 8, and unset (0) or below 1 gives 1 |
| Review.DispatchList | src/core/review.ts:55-56 | the dispatched list is a prefix of the filtered files. It is all of them when `maxFiles` is unset (0) or at least their number. A positive bound gives exactly that many files, and a negative one drops that many from the end |
| Review.ShownDiff | src/core/review.ts:106 | the diff stored with an item is never empty; it is the file's diff, or `diff --git a/f b/f` when that is empty |
| Review.Named | src/core/review.ts:118-120 | the files a worker runs before it stops at an empty name. None is empty, and without empty names it is the whole list |
| Review.NamedWithin | src/core/review.ts:118-120 | the files run are a sub-multiset of the files taken from the queue |
| Review.DoneItems | src/core/review.ts:86 | the completed items are the `done` items in order: a subsequence holding exactly those, and everything when all are done |
| Review.Next | src/core/review.ts:118-120 | `queue.shift()` yields the head of the queue, and the worker runs it only when it is a non-empty name |
| Review.TakeValid | src/core/review.ts:114-122 | each shift keeps the queue the untaken suffix of the list and the taken files its prefix. With no empty name a non-empty queue always yields a file |
| Review.PoolStep | src/core/review.ts:116-126 | a finishing worker that takes the next file keeps "finished + running = taken" as multisets |
| Review.FileRequests | src/core/review.ts:97-101 | one request per file, in order, with the prompt and that file's diff |
| Review.ReportedAppend | src/core/review.ts:110-111 | after a task, progress has reported `(file, n, list.length)` for the n-th completed item |
| Review.Record | src/core/review.ts:106-111 | a finished task appends exactly its file's item and keeps the queue, the running workers and the flags |
| Review.StartWorkers | src/core/review.ts:114-125 | the workers start with no item done and the pool invariant established |
| Review.Complete | src/core/review.ts:96-121 | one worker finishing appends its file's item, keeps the pool invariant and strictly shrinks queued plus running work |
| Review.ReviewFiles | src/core/review.ts:94-126 | after the pool every item is its file's review item, reported in order with one request per item, and the items' files never exceed the list. With no empty name and at least one worker, they are the list as a multiset (each file exactly once) and the requests are those of the list in order. `aiInvoked` iff a request was made, and `aiSucceeded` iff some review is non-empty |
| Review.PoolShape | src/core/review.ts:114-126 | when the queue is empty and no worker runs, the items' files are exactly the taken files, which are the whole list |
| Review.DispatchedNamed | src/core/review.ts:21-56 | the dispatched list of parsed, filtered staged names contains no empty name, so no worker stops early |
| Review.FilteredWithin | src/core/git.ts:27-35 | every file kept by `filterFiles` was in the input |
| Review.RunSummary | src/core/review.ts:41-53 | the summary text is the reply, or the error text on failure. `aiSucceeded` iff the call succeeded, and a failure sets `status` to `LLM 调用失败：` plus the message |
| Review.SnapshotDoneExactly | src/core/review.ts:85-90 | with all items done the snapshot returns them all, and reports done iff their count reaches `list.length` (+1 in `both` mode) |
| Review.FinishedShape | src/core/review.ts:126-131 | a finished run's items (files, then the summary in `both` mode) make the snapshot done, and their files are the list plus one `Summary` |
| Review.PoolFinished | src/core/review.ts:60-131 | the pool's outcome, followed in `both` mode by the summary item, its request and the summary's flags and status, is a finished run |
| Review.RunComplete | src/core/review.ts:97-131 | with every file reviewed once and requested in queue order, the run's snapshot is done, its files are the list plus one `Summary` in `both` mode, and its requests are the files' followed by the summary's |
| Review.Run | src/core/review.ts:60-131 | `summary` mode yields exactly one Summary item, one request and no progress. Other modes yield the pool's file items first and, in `both` mode, one Summary item and its request last. The flags and status follow the summary in `both` mode; otherwise `aiInvoked` iff a request went out and `aiSucceeded` iff some review is non-empty. With no empty name and a worker, the snapshot ends done, each file is reviewed once, and the requests are the files' in queue order, then the summary's |
| Review.RunReviewFlow | src/core/review.ts:14-144 | returns `true`, with no call, iff nothing survives the filter or the diff is empty. Otherwise it returns `false` after a finished run over the dispatched list: each file item is its file's review, the flags are as in `Run`, the snapshot is done, the items cover the list (plus Summary in `both` mode), and the requests are the list's in order, then the summary's |
| LegacyReview.UsedBackend | src/core/review-flow.ts:11 | DeepSeek exactly when the provider used is `deepseek`, Ollama otherwise |
| LegacyReview.KeyEnv | src/core/review-flow.ts:30 | the key variable is never empty: the configured one, or `DEEPSEEK_API_KEY` |
| LegacyReview.AggregateReview | src/core/review-flow.ts:28-60 | a missing DeepSeek key makes no call, leaves both flags false and sets the missing-key status and text. Otherwise one call is made and `aiInvoked` is set. A reply gives its text, with success iff it is non-empty. A failure gives the failure text, the status `LLM 调用失败：` plus the message, and no success |
| LegacyReview.FileItem | src/core/review-flow.ts:64-82 | a per-file item keeps the file and its shown diff (fallback header when empty); a skipped call leaves the review empty |
| LegacyReview.FileCalls | src/core/review-flow.ts:63-78 | one call per file, in order, with the prompt and that file's diff |
| LegacyReview.ReviewFile | src/core/review-flow.ts:64-82 | one file's turn of the loop: the backend is asked exactly when it may be called, and the item holds the reply's text, or nothing when the call failed or was skipped |
| LegacyReview.ReviewEachFile | src/core/review-flow.ts:61-83 | one item per file, in input order. Calls are made only when the backend may be called. `aiInvoked` and `aiSucceeded` are OR-accumulated |
| LegacyReview.AnyReviewAppend | src/core/review-flow.ts:72-77 | `aiSucceeded` after one more file is the old value or that file's review being non-empty |
| LegacyReview.RunReviewFlow | src/core/review-flow.ts:9-103 | returns `true` iff nothing survives the filter or the diff is empty. Otherwise the aggregate call comes before every per-file call. A missing key means no call, no `aiInvoked`, the key status and the key message as the review text. Otherwise the review text is the aggregate reply, or the failure text naming the configured provider; the status is empty after a reply and the failure status after a throw. `aiSucceeded` holds iff the aggregate reply is non-empty or, in `per_file` mode, some file's review is. `per_file` mode gives one item per dispatched file, in order, on the tabbed page; the single page is used otherwise, with these flags, text and status |
| Git.StagedFilesWellFormed | src/core/git.ts:11-17 | every parsed staged name is non-empty, trimmed and free of line breaks |
| Git.FailedGitListsNothing | src/core/git.ts:5-17 | a git command that fails yields no staged file |
| Git.StagedFilesRoundTrip | src/core/git.ts:11-17 | parsing the newline-terminated listing of well-formed names gives back those names in order |
| Git.KeepTrimmedAppend | src/core/git.ts:14-16 | the map/filter chain distributes over concatenated output lines |
| Git.KeepAccepted | src/core/git.ts:30-34 | the kept files are a subsequence of the input, holding exactly the files whose extension is accepted |
| Git.FilterFilesSpec | src/core/git.ts:27-35 | with no or empty `fileTypes` the files are returned unchanged. Otherwise the result is an order-preserving subsequence holding exactly the files whose last `.`-segment is non-empty and, lower-cased, in the normalised type set |
| Git.LastSegmentShape | src/core/git.ts:31 | the last segment contains no `.` and is a suffix of the name following a `.` or the start |
| Git.NoDotIsWholeName | src/core/git.ts:31 | a name without `.` is its own last segment |
| Git.TrailingDotRejected | src/core/git.ts:31-32 | a name ending in `.` has an empty last segment and is never accepted |
| Git.SubjectOfMessage | src/core/git.ts:52-55 | the subject of a message is its first line |
| Git.CommitMessageChoice | src/core/git.ts:45-62 | with a git dir and a message whose subject is non-empty, the result is that subject: trimmed, one line. Otherwise it is the trimmed HEAD subject |
| Locales.WordRun | src/locales/index.ts:30 | the longest prefix of `\w` characters |
| Locales.SubstituteNoParams | src/locales/index.ts:29-32 | with no own parameter every placeholder is kept literally, so the text is unchanged (inherited names: see Left out) |
| Locales.SubstituteLiteral | src/locales/index.ts:30 | text before the first `{` is copied unchanged |
| Locales.SubstitutePlaceholder | src/locales/index.ts:30-32 | `{name}` with a `\w+` name is replaced by the parameter when `params` has it as an own key and kept literally otherwise |
| Locales.SubstituteAtPlaceholder | src/locales/index.ts:30-32 | the same at the start of the text |
| Locales.WordRunOfWord | src/locales/index.ts:30 | the `\w+` match of a word followed by a non-word character is exactly the word |
| Locales.NonWordBracesKept | src/locales/index.ts:30 | braces around a name that is not `\w+` are kept as they are |
| Locales.WalkAppend | src/locales/index.ts:21-27 | walking a key path segment by segment composes |
| Locales.MissingSegmentGivesPath | src/locales/index.ts:18-27 | when any segment of the path is not an own key of the group reached, `t` returns the path itself |
| Locales.PlainMessage | src/locales/index.ts:29-35 | a path to a message with no (or empty) parameters returns the message unchanged, reading own keys only |
| Locales.Localizer.constructor | src/locales/index.ts:5-9 | the language starts as `zh-CN` with the two tables |
| Locales.Localizer.SetLanguage | src/locales/index.ts:11-15 | only `en` and `zh-CN` change the language; any other argument leaves it |
| Locales.Localizer.T | src/locales/index.ts:17-36 | `t` is the translation in the current table and changes no state |
| Config.FindConfigFile | src/config.ts:170-186 | returns the first existing candidate in the fixed order, or nothing iff none exists |
| Config.LastIndex | src/config.ts:189 | the last occurrence of a character, or none when absent |
| Config.LastIndexAt | src/config.ts:189 | the last occurrence is found after any earlier ones |
| Config.BaseNameOfJoin | src/config.ts:189 | the base name of `cwd/name` is `name` |
| Config.ExtnameOfJoin | src/config.ts:189 | `extname` of `cwd/stem.ext` is `.ext` |
| Config.ExtnameOfDotFile | src/config.ts:189 | a dot file such as `.code-gaterc` has no extension |
| Config.ParserOfExtension | src/config.ts:188-198 | `.js`/`.cjs` load a module, `.yaml`/`.yml` parse YAML, anything else parses JSON, ignoring case |
| Config.LowerDotted | src/config.ts:189-196 | comparing the lower-cased dotted extension is comparing the lower-cased extension |
| Config.DotFileIsJson | src/config.ts:188-198 | a dot file with no further `.` is read as JSON |
| Config.ParserIgnoresCase | src/config.ts:189 | extensions equal up to case choose the same parser |
| Config.Merge | src/config.ts:203-278 | the merged configuration is an object |
| Config.MergedKeys | src/config.ts:207-277 | the merge sets exactly the sections `ui`, `limits`, `output` and `providerOptions` over the spread |
| Config.LoadConfig | src/config.ts:200-203 | with no file the result is the defaults, otherwise the merge of the defaults with what was read |
| Config.FalsyUserIsEmpty | src/config.ts:203 | a falsy value read is merged as `{}` |
| Config.TopLevelOverride | src/config.ts:204-206 | any other top-level key the user gives replaces the default wholesale (arrays included); an absent one keeps the default |
| Json.Indexed | src/config.ts:205-206 | spreading a string or an array yields the keys `"0"`, `"1"`, ... each holding its element, and no other key |
| Config.MergeTopLevel | src/config.ts:203-206 | outside `ui`, `limits`, `output` and `providerOptions` the result is the plain spread of the defaults and of the value read (`{}` when falsy) |
| Config.ArrayConfigSpreadsIndices | src/config.ts:203-206 | a file holding an array spreads element `i` under the key `"i"` |
| Config.SectionMerge | src/config.ts:207-208 | `ui`, `limits` and `output` are objects merged one level deep: a user key wins, otherwise the key the default spreads survives (an object's keys, a string's or an array's indices) |
| Config.StringSectionSpreadsChars | src/config.ts:207 | a section given as a string gains one key per character, `"0"`, `"1"`, ... |
| Config.SpreadKey | src/config.ts:205-206 | a key of a spread is the user's when the user's value spreads it (own keys of an object, indices of a string or array), the default's otherwise |
| Config.ProvidersComplete | src/config.ts:209-276 | after merging each of the eight known providers has an entry, and each entry has a `request` object |
| Config.ProviderMerge | src/config.ts:212-219 | inside a known provider, keys and `request` keys are default-then-user, each side contributing what it spreads (indices included for strings and arrays) |
| Config.MergeProviderKeys | src/config.ts:212-219 | the same, for one provider entry, whatever values its two sides hold |
| Config.OtherProviderKept | src/config.ts:211 | an unknown provider the user adds is kept as written |
| CliInit.PreCommitContainsLine | src/cli/commands/init.ts:26-47 | afterwards the hook file holds the hook line, whatever it held before |
| CliInit.PreCommitIdempotent | src/cli/commands/init.ts:27-32 | a file already holding the line is left unchanged, so a second call changes nothing |
| CliInit.PreCommitAppendsLine | src/cli/commands/init.ts:29-30 | a missing line is appended as the last line after the old lines with trailing whitespace trimmed |
| CliInit.NewHookLines | src/cli/commands/init.ts:34-46 | a new husky hook is shebang, husky source line, hook line; a new git hook is shebang, hook line; each newline-terminated |
| CliInit.PkgUpdateSetsHook | src/cli/commands/init.ts:67-69 | the edit sets `simple-git-hooks.pre-commit` and `scripts.postinstall` and keeps every other key, inside and outside those objects, where the old value contributes what it spreads |
| CliInit.PkgUpdateKeepsScriptIndices | src/cli/commands/init.ts:69 | `scripts` given as an array keeps element `i` under the key `"i"` beside `postinstall` |
| CliInit.PkgUpdateIdempotent | src/cli/commands/init.ts:67-69 | editing an edited `package.json` changes nothing |
| CliInit.PkgUpdateRejects | src/cli/commands/init.ts:67-68 | a `package.json` holding `null` or a primitive makes the edit throw |
| CliInit.Missing | src/cli/commands/init.ts:139 | the entries to add are a subsequence of the list, holding exactly the entries not yet a substring of `.gitignore` |
| CliInit.GitignoreCovers | src/cli/commands/init.ts:153-155 | once confirmed every ignore entry is contained in `.gitignore` |
| CliInit.AppendMissingCovers | src/cli/commands/init.ts:154-155 | every listed entry is contained after the append |
| CliInit.GitignoreIdempotent | src/cli/commands/init.ts:139-141 | after the step nothing is left to add, and a second step changes nothing |
| CliInit.NothingMissing | src/cli/commands/init.ts:139-141 | entries already contained give nothing to add |
| CliInit.GitignoreLines | src/cli/commands/init.ts:153-155 | the old lines are kept (a missing final newline is supplied) and each missing entry follows on its own line |
| CliInit.EntryLines | src/cli/commands/init.ts:155 | `toAdd.join('\n') + '\n'` is one line per entry |
| CliInit.NotARepository | src/cli/commands/init.ts:165-169 | outside a git repository the command exits with 1 and changes nothing |
| CliInit.InstallDispatch | src/cli/commands/init.ts:170-172 | `husky` installs the husky hook, `simple` edits `package.json` (nothing without one), anything else the native hook; of code-gate's own writes, only `simple` touches `package.json` |
| CliInit.RunInitTwice | src/cli/commands/init.ts:160-178 | running `init` a second time with the same answers leaves every file, executable bit and `package.json` as the first run left them |
| CliInit.SettledRunChangesNothing | src/cli/commands/init.ts:160-178 | on a settled workspace `init` completes and changes no file |
| CliInit.FirstRunSettles | src/cli/commands/init.ts:160-178 | a completed `init` leaves the workspace settled |
| CliInit.InstallSettles | src/cli/commands/init.ts:170-172 | after installing, the chosen hook is in place |
| CliInit.ConfigStepSettles | src/cli/commands/init.ts:173 | the configuration step keeps the hook in place and leaves the configuration file present |
| CliInit.GitignoreStepSettles | src/cli/commands/init.ts:175 | the `.gitignore` step keeps the hook and configuration and leaves nothing to add once confirmed |
| CliInit.Workspace.constructor | src/cli/commands/init.ts:160-161 | the workspace starts from the given disk state |
| CliInit.Workspace.WriteFileSafe | src/cli/commands/init.ts:7-10 | writes the file and creates its parent directory, nothing else |
| CliInit.Workspace.SpawnSync | src/cli/commands/init.ts:52 | records the started command |
| CliInit.Workspace.EnsurePreCommitContains | src/cli/commands/init.ts:26-47 | the new state is `EnsureHook` of the old |
| CliInit.Workspace.InitGitHooks | src/cli/commands/init.ts:17-24 | the new state is the native-hook install of the old |
| CliInit.Workspace.InitHusky | src/cli/commands/init.ts:49-59 | runs `npx husky init` only when `.husky` is missing, then installs the husky hook |
| CliInit.Workspace.InitSimpleGitHooks | src/cli/commands/init.ts:61-72 | without `package.json` nothing changes. Otherwise the edited `package.json` is written, or the call fails and nothing changes |
| CliInit.Workspace.GenerateConfig | src/cli/commands/init.ts:74-127 | writes the template unless the file exists and `force` is false |
| CliInit.Workspace.CheckAndAddToGitignore | src/cli/commands/init.ts:129-158 | appends the missing entries after the separator when confirmed, and changes nothing otherwise |
| CliInit.Workspace.RunInit | src/cli/commands/init.ts:160-178 | the outcome and new state are those of `RunInitAfter` with the `.gitignore` step |
| LegacyInit.RunInit | src/commands/init.ts:114-125 | the older command: same dispatch and configuration step, exits with 1 outside a repository, and no `.gitignore` step |
| LegacyInit.NewerAddsGitignoreStep | src/commands/init.ts:114-125 | the newer command ends as the older one does, and its changes are the older one's followed by the `.gitignore` step |
| HtmlRender.ReplaceChar | src/ui/render/html.ts:42 | replacing a character removes it (when the replacement lacks it), is the identity when absent, and introduces only the replacement's characters |
| HtmlRender.ReplaceCharAppend | src/ui/render/html.ts:42 | a global replace distributes over concatenation |
| HtmlRender.EscapeHtml | src/ui/render/html.ts:41-43 | the output holds no `<` or `>`; input without `&`, `<`, `>` is unchanged |
| HtmlRender.EscapeAppend | src/ui/render/html.ts:41-43 | escaping distributes over concatenation |
| HtmlRender.UnescapeEscape | src/ui/render/html.ts:41-43 | decoding the entities gives back the escaped text, so escaping loses nothing |
| HtmlRender.EscapeInjective | src/ui/render/html.ts:41-43 | different texts escape differently |
| Strings.DecimalRoundTrip | src/ui/render/html.ts:91 | the decimal `data-idx` reads back as the index |
| HtmlRender.StaticState | src/ui/render/html.ts:110-118 | red "not involved" iff not invoked. Red "failed" iff invoked and not succeeded. Green "finished" iff both. Never "reviewing" |
| HtmlRender.LiveState | src/ui/render/html.ts:179-185 | "failed" iff invoked and the status reports a failure, and "not involved" iff `aiInvoked` is exactly false and the status reports one. Otherwise, including when unset, it is blue "reviewing"; never "finished" |
| HtmlRender.PartShows | src/ui/render/html.ts:123-125 | a present field is shown escaped and reads back as its value |
| HtmlRender.EmptyFieldsHidden | src/ui/render/html.ts:123-125 | an empty provider, model or status is shown exactly as a missing one |
| HtmlRender.RenderReviewItem | src/ui/render/html.ts:45-56 | keeps the file, renders the review (or the fixed placeholder when empty) and the diff |
| HtmlRender.RenderAll | src/ui/render/html.ts:88 | one rendered item per file, in order |
| HtmlRender.FileNames | src/ui/render/html.ts:90-91 | the files' names, in order |
| HtmlRender.TabsFrom | src/ui/render/html.ts:90-92 | tab `i` carries index `i` and the `i`-th file |
| HtmlRender.PanesFrom | src/ui/render/html.ts:94-108 | pane `i` carries index `i` and the `i`-th review and diff |
| HtmlRender.TabStrings | src/ui/render/html.ts:90-92 | one tab button per file, in order |
| HtmlRender.PaneStrings | src/ui/render/html.ts:94-108 | one pane per file, in order |
| HtmlRender.TabsMatchPanes | src/ui/render/html.ts:88-108 | one tab and one pane per file at the same index and in input order, with no two tabs sharing a `data-idx` |
| HtmlRender.RenderHTMLTabs | src/ui/render/html.ts:84-154 | the static page contains, for every file `i`, its tab (index `i`, the file's name) and its pane (index `i`, its rendered review or the placeholder, and its diff) |
| HtmlRender.StatusRoute | src/ui/render/html.ts:217 | the polled route is `/review/`, the id, then `/status` |
| HtmlRender.RenderHTMLLive | src/ui/render/html.ts:156-185 | the live page starts from `initial` or from no file, and shows the live badge |
| LegacyRender.AiBadgeText | src/ui/render.ts:12 | "not involved" iff not invoked, "failed" iff invoked and not succeeded, "took part" iff both |
| LegacyRender.SameDecisionAsStatic | src/ui/render.ts:101 | the older badge takes the same three-way decision as the newer static badge |
| LegacyRender.ReviewBlock | src/ui/render.ts:18 | no review block iff the review is empty |
| LegacyRender.ReviewBlockShows | src/ui/render.ts:18 | a non-empty review is shown in full, escaped, inside `<pre>` |
| LegacyRender.RenderHTML | src/ui/render.ts:3-59 | the single page shows the meta block (badge, provider, model, status), the review block (none for an empty review) and the rendered diff |
| LegacyRender.NeutraliseCloses | src/ui/render.ts:69-74 | a neutralised review contains no `</script`, `</style` or `</textarea` in any letter case |
| LegacyRender.NeutraliseKeeps | src/ui/render.ts:69-74 | a review without such closing tags is unchanged |
| LegacyRender.NeutraliseIdempotent | src/ui/render.ts:69-74 | neutralising twice is neutralising once |
| LegacyRender.PrefixThroughNeut | src/ui/render.ts:71-73 | a match of a `<`-free prefix in the output was already in the input |
| LegacyRender.NeutFree | src/ui/render.ts:71-73 | one replace removes its own closing tag and adds no other |
| LegacyRender.NeutIdentity | src/ui/render.ts:71-73 | a replace with nothing to match is the identity |
| LegacyRender.ReviewsPayload | src/ui/render.ts:69-74 | review `i` of the script's payload is the `i`-th file's review, neutralised |
| LegacyRender.PaneReview | src/ui/render.ts:84 | an empty review gives the placeholder; a non-empty one is shown in full, escaped, inside `<pre>` |
| LegacyRender.LegacyPanes | src/ui/render.ts:80-97 | pane `i` carries index `i`, the `i`-th review cell and diff |
| LegacyRender.LegacyPaneStrings | src/ui/render.ts:80-97 | pane text `i` carries index `i`, the `i`-th file's review cell and its rendered diff |
| LegacyRender.RenderHTMLTabs | src/ui/render.ts:65-196 | the older tabbed page contains, for every file `i`, its tab (index `i`, the file's name) and its pane (index `i`, its escaped review or the placeholder, and its diff) |
| LegacyRender.TabsPanesReviewsAgree | src/ui/render.ts:69-97 | one tab, one pane and one payload review per file, all at the file's index; an empty review gives the placeholder and an empty payload entry |
| LegacyRender.RenderHTMLLive | src/ui/render.ts:198-268 | the live page polls `/review/<id>/status`, starts from `initial` or `[]`, and shows the older meta block |
| Strings.TrimEnd | src/cli/commands/init.ts:30 | `trimEnd` removes exactly the trailing whitespace |
| Strings.TrimStart | src/core/git.ts:15 | the leading half of `trim` removes exactly the leading whitespace |
| Strings.TrimIdempotent | src/core/git.ts:15 | trimming twice is trimming once |
| Strings.JoinSplit | src/core/git.ts:14 | joining the pieces of a split gives back the text |
| Strings.SplitJoin | src/core/git.ts:14 | splitting a join of separator-free pieces gives back the pieces |
| Strings.LowerStr | src/core/git.ts:33 | lower-casing maps each character |

## Left out

- I/O is not modelled: running git, reading and writing files, `process.env`, `process.exit` and the interactive confirm prompt. Their results are parameters of the model (the git output, the per-file diffs, the environment map, the user's answer) or fields of the `Workspace`.
- The HTTP server, `serveReview`, `saveOutput` and `triggerOpen` are not modelled. `triggerOpen` is reduced to a count of how often it would fire (`openCount`).
- The language-model providers are not modelled. The backend is an abstract function `Request -> Reply`; a thrown error is `Fail(message)`, and `e?.message || e` is that message.
- Timing and interleaving are not modelled. This covers `Promise.all` and the microtask gap between a worker's task ending and its next `shift()`: a finishing worker takes its next file in the same step. `Date.now()` ids are not modelled either. Any worker may finish next, so completion order is arbitrary.
- `onStart`, `onProgress` and `onServerReady` are not modelled as callbacks. Progress reports are recorded as a sequence. `onStart(files.length)` and the server URL are not modelled.
- The HTML pages that `review.ts` renders are not modelled: the live page and the final tabbed page it saves. The page functions themselves are modelled in `HtmlRender`.
- `modelUsed` / `providerName` in the meta of `review.ts` are not modelled. `model` is a parameter of the older flow.
- The page templates are not modelled: style sheets, client-side scripts, base64 and JSON encoding, CDN links. The Markdown renderer, DOMPurify and diff2html are parameters (`markdown`, `diffView`), as are the logo and the GitHub icon.
- `maxDiffLines` is not modelled: the core never applies it.
- Json.Props: a string spreads one key per Unicode character, where JavaScript indexes UTF-16 code units; the two differ only for characters outside the Basic Multilingual Plane.
- Json.Get: reads the own keys of objects only. `length` and the indices of a string or an array read with `?.[k]` are not modelled; the loader and the `package.json` edit read only named keys (`ui`, `request`, the provider names, `scripts`, ...), which strings and arrays do not have.
- YAML and JSON parsing and module import in `readFile` are not modelled. The model decides which parser is used; the parsed value is a parameter.
- Numeric settings are integers: `maxFiles` and `concurrencyFiles` that are fractional, strings or `NaN` are not modelled.
- `toLowerCase` and the `/i` flag are modelled as ASCII case folding. JavaScript folds the whole of Unicode.
- `generateConfig`'s template text is a parameter; its content is not modelled.
- `writeFileSafe`'s recursive `mkdir` only records the parent directory. `chmod 0o755` records the file as executable.
- Locale tables are parameters of `Localizer`; their contents are not modelled.
- Locales.MissingSegmentGivesPath: only the tables' own keys are modelled. `key in value` also finds the names `Object.prototype` supplies (`constructor`, `toString`, `valueOf`, `hasOwnProperty`, `__proto__`, ...), so `t('constructor')` returns the text of the `Object` function, not the path.
- Locales.WalkAppend: walks own keys only, for the same reason; a path through an inherited name is not modelled.
- Locales.SubstituteNoParams: only own parameters are modelled. `params[key] !== undefined` also sees inherited names, so with `params = {}` a `{constructor}` or `{toString}` placeholder is replaced by the function's text in the source and kept in the model.
- Locales.SubstitutePlaceholder: a parameter counts as given only when it is an own key of `params`; inherited `Object.prototype` names are not modelled.
- Locales.SubstituteAtPlaceholder: the same own-key reading of `params` at the start of the text.
- Locales.PlainMessage: with `params = {}` the source keeps the message only when none of its placeholders is named after an `Object.prototype` member; the model, reading own keys only, keeps every placeholder.
- Locales.Localizer.T: equals `Translate`, and so reads tables and parameters by own keys only.
- Locales.Substitute: parameters are strings. A number parameter reaches the model already formatted by `String(...)`.
- CliInit.InstallDispatch: a started command (`npx husky init`, `git config`) is recorded in the log without its effects. `husky init` creates `.husky/pre-commit` and adds a `prepare` script to `package.json`, so after a fresh husky install the source appends the hook line to husky's file and `package.json` changes too; the model writes `NewHook(Husky)` and leaves `package.json` alone.
- CliInit.Workspace.InitHusky: the same; `npx husky init` is only logged.
- CliInit.RunInitTwice: does not claim the log of started commands is unchanged, because a second run starts `git config` again.

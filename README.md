# tricorder, modelled in Dafny

tricorder runs tasks against a set of hosts, the same way Ansible does.

- **Inventory.** An inventory is a list of hosts. Each host has:
  - an identifier;
  - an SSH address and a user;
  - tags;
  - free-form JSON variables.
- **Selection.** The command line loads an inventory and selects hosts from it. It selects either by identifier or by a boolean expression over tags.
- **Task runs.** For each selected host, a task is prepared and then applied.
  - The per-host results are collected into one JSON array.
  - The hosts are run one after the other, or in parallel.
- **The code base holds two generations side by side.** In both, the task reports have the same shape.
  - The *prelude* API:
    - validated `HostId`/`HostTag` newtypes;
    - a query language for tags;
    - `Task` objects with `prepare`/`apply`.
  - The *legacy* API:
    - plain string identifiers;
    - a comma-separated tag list;
    - a localhost default inventory.

The modules:

| module | source |
|---|---|
| `Errors` | the error enum and its `Display` |
| `Json` | JSON values; numbers are integers |
| `HostIds`, `HostTags` | identifier and tag validation by their regular expressions |
| `TagLexer`, `TagExpr` | the tag-query lexer, the query tree the parser builds, and its evaluation |
| `HostEntry` | prelude host records and the in-place builder (`class Host`) |
| `CoreHost` | the legacy host builder |
| `HostLists` | lookups shared by all three inventories |
| `HostRegistry` | the prelude inventory (`class Inventory`) |
| `CoreInventory` | the core inventory (`class Inventory`) |
| `LegacyInventory` | the legacy inventory (a value with a localhost default) |
| `HostDocuments` | what deserialising an inventory document accepts |
| `TaskRunner` | the prelude runner (sequential and parallel) |
| `LegacyTasks` | the legacy runner |
| `InfoTask`, `ModuleTask`, `DownloadTask`, `UploadTask` | the four tasks |
| `Paths` | the path operations the tasks use |
| `Cli` | the prelude command-line helpers |
| `LegacyCli` | the legacy command-line helpers |

**How the outside world is modelled.** Everything outside the program is a parameter. This covers:

- the file system;
- the working directory;
- SSH transfers;
- the template engine;
- reading an inventory file;
- the scheduler of the parallel runner.

Each task is proved for every behaviour of that parameter.

**Inventory fallbacks and host identifiers:**

- **Legacy `get_inventory` (`src/cli.rs:50-84`) falls back to the localhost inventory.** On a missing argument (announced as "using localhost" at `src/cli.rs:80`), a missing path or a failed program it returns `Inventory::new()`. In `src/inventory.rs` that is the single `root@localhost:22` host. Read, spawn, UTF-8 and parse errors are its result.
- **The prelude `get_inventory` (`src/cli/mod.rs:71-85`) falls back to the *empty* prelude inventory.** The command's help comment (`src/cli/mod.rs:17`) speaks of an inventory with only `root@localhost:22`; the model follows the function.
- **`src/core/host.rs` identifies hosts by plain `String`s.** `tests/core/inventory_test.rs` uses a `HostId` type under `core`, but that type is not part of this model. The model follows `src/core/host.rs`.

## Model

| member | source | states |
|---|---|---|
| Errors.Display | src/prelude/error.rs:20-24 | Every error prints as its variant name, then `("`, the message escaped as `Debug` escapes a string, and `")`; the escaped middle reads back as the message; a boxed foreign error prints as its own text |
| Errors.EscapeChar | src/prelude/error.rs:22 | One character as `{:?}` prints it inside a string: a backslash starts the text exactly for a backslash, a double quote or a control character |
| Errors.UnescapeEscape | src/prelude/error.rs:22 | The escaped text determines the message: reading it back gives the message |
| Errors.EscapePlain | src/prelude/error.rs:22 | A message without backslash, double quote or control character is printed unchanged |
| Errors.EscapeDoublesBackslash | src/prelude/error.rs:22 | A backslash, as in the id and tag patterns quoted by InvalidHostId and InvalidHostTag, is printed doubled |
| Errors.EscapeAppend | src/prelude/error.rs:22 | Escaping a concatenation escapes each part |
| HostIds.NewHostId | src/prelude/inventory/host_id.rs:23-33 | Ok exactly when the input matches `^[a-zA-Z0-9_][a-zA-Z0-9_\-]*$`, and then wraps the input unchanged; otherwise an InvalidHostId error whose message contains the input |
| HostIds.NewToStringRoundTrip | src/prelude/inventory/host_id.rs:36-39 | `to_string` gives back the string an id was created from, and re-creating an id from a valid id's string gives the same id |
| HostIds.IdRegexByCharacters | src/prelude/inventory/host_id.rs:7 | The identifier pattern means: non-empty, only letters, digits, `_` and `-`, not starting with `-` |
| HostIds.NoSlashInId | src/prelude/inventory/host_id.rs:7 | No valid identifier contains `/`, so an identifier is one path component |
| HostIds.IdRegexExamples | tests/all/prelude/host_test.rs:5-14 | `valid` and `a-b` are accepted; the empty string, `-abc`, `(invalid)` and `example-0$` are rejected |
| HostTags.NewHostTag | src/prelude/inventory/host_tag.rs:23-33 | Ok exactly when the input matches `^[^!&\|\t\n\r\f() ]+$`, and then wraps the input unchanged; otherwise an InvalidHostTag error whose message contains the input |
| HostTags.NewToStringRoundTrip | src/prelude/inventory/host_tag.rs:35-38 | `to_string` and `new` are inverse on valid tags |
| HostTags.TagRejectedByCharacter | src/prelude/inventory/host_tag.rs:7 | A tag is rejected iff it is empty or holds one of the ten excluded characters |
| HostTags.TagRegexExamples | tests/all/prelude/host_test.rs:17-26 | `valid` is accepted; `(invalid)`, `&foo` and the empty string are rejected |
| HostTags.Names | src/prelude/inventory/host_registry.rs:116-120 | The tag strings handed to the evaluator are the host's tags, in order, one for one |
| TagLexer.TagRun | src/prelude/inventory/tag_expr.rs:22 | A tag token is the longest run of tag characters |
| TagLexer.CharacterClasses | src/prelude/inventory/tag_expr.rs:7-26 | Operator, skipped and tag characters are disjoint, and carriage return is the only character in none of them |
| TagLexer.TagRunAppend | src/prelude/inventory/tag_expr.rs:22 | A tag run ends at the first non-tag character whatever follows it |
| TagLexer.LexAppend | src/prelude/inventory/tag_expr.rs:7-26 | Lexing distributes over concatenation when the seam does not join two tag characters |
| TagLexer.LexSingleTag | src/prelude/inventory/tag_expr.rs:22 | A valid host tag lexes as exactly one tag token carrying it |
| TagLexer.LexTagsAreValidTags | src/prelude/inventory/tag_expr.rs:22 | Every tag token the lexer yields carries a valid host tag |
| TagLexer.ErrorTokenIffCarriageReturn | src/prelude/inventory/tag_expr.rs:25-27 | The lexer yields its error token iff the input contains a carriage return |
| TagLexer.LexUnlex | src/prelude/inventory/tag_expr.rs:7-27 | Lexing the printed form of error-free tokens gives the same tokens back |
| TagLexer.LexSkipped | src/prelude/inventory/tag_expr.rs:26 | Space, tab, newline and form feed produce no token |
| TagLexer.LexOperator | src/prelude/inventory/tag_expr.rs:8-20 | Each of `( ) & \| !` is one token on its own |
| TagLexer.LexTagThen | src/prelude/inventory/tag_expr.rs:22 | A valid tag followed by a non-tag character is one tag token |
| TagLexer.LexSpaced | src/prelude/inventory/tag_expr.rs:7-26 | `tag op rest`, written with spaces, lexes as the tag, the operator, then `rest`'s tokens |
| TagLexer.LexGroup | src/prelude/inventory/tag_expr.rs:7-26 | `(x op y)` lexes as five tokens |
| TagExpr.TokenOf | src/prelude/inventory/tag_expr.rs:41-48 | Every builder call is produced by a non-error token, so the token-to-call map is onto |
| TagExpr.ActionsOf | src/prelude/inventory/tag_expr.rs:41-48 | The parser makes one builder call per token, in token order |
| TagExpr.ParseFactor | src/prelude/inventory/tag_expr.rs:41-48 | A parsed operand is a well-formed tree and consumes at least one call |
| TagExpr.ParseConjunction | src/prelude/inventory/tag_expr.rs:41-48 | A parsed conjunction is a well-formed tree and consumes at least one call |
| TagExpr.ParseDisjunction | src/prelude/inventory/tag_expr.rs:41-48 | A parsed disjunction is a well-formed tree and consumes at least one call |
| TagExpr.Build | src/prelude/inventory/tag_expr.rs:38-58 | A built tree is well formed; a call sequence that is not a query is a MalformedQuery error |
| TagExpr.Parse | src/prelude/inventory/tag_expr.rs:37-59 | The token loop returns InvalidToken as soon as an error token appears, and otherwise the tree the modelled tree building gives for the query's calls, or its MalformedQuery |
| TagExpr.OperatorSemantics | src/prelude/inventory/tag_expr.rs:68-73 | `&` and `\|` with two operands are conjunction and disjunction, `!` with one is negation, and every other shape is "unexpected operation" |
| TagExpr.ShortCircuitSkipsRight | src/prelude/inventory/tag_expr.rs:75-79 | A false left of `&` or a true left of `\|` decides the node without evaluating the right operand |
| TagExpr.EvalWellFormed | src/prelude/inventory/tag_expr.rs:63-80 | Evaluating a well-formed tree never fails and gives its boolean meaning |
| TagExpr.EvalTagExprMeaning | src/prelude/inventory/tag_expr.rs:62-86 | `eval_tag_expr` fails exactly when the modelled parse fails, with that error, and otherwise returns the query's boolean meaning over the host's tags |
| TagExpr.SingleTagQuery | src/prelude/inventory/tag_expr.rs:66 | A lone tag query is true iff the host carries that tag |
| TagExpr.CarriageReturnIsInvalidToken | src/prelude/inventory/tag_expr.rs:49-54 | A query containing a carriage return fails with InvalidToken |
| TagExpr.ParseFactorShow | src/prelude/inventory/tag_expr.rs:41-48 | Parsing the calls that spell a tree gives that tree back and leaves the rest |
| TagExpr.BuildShow | src/prelude/inventory/tag_expr.rs:38-58 | Building from the calls that spell a tree gives that tree |
| TagExpr.TokensOf | src/prelude/inventory/tag_expr.rs:41-48 | Every call sequence is the image of an error-free token sequence |
| TagExpr.ParsePrint | src/prelude/inventory/tag_expr.rs:37-59 | Parsing the printed query of any well-formed tree gives the tree back |
| TagExpr.BuildAtomOperatorShown | src/prelude/inventory/tag_expr.rs:41-48 | `x op r` builds as the node `op(x, r)` |
| TagExpr.EvalBinaryOfTags | src/prelude/inventory/tag_expr.rs:66-73 | `x & y` and `x \| y` over two tags mean conjunction and disjunction of the membership tests, for any tags |
| TagExpr.TestQueryOr | src/prelude/inventory/tag_expr.rs:97 | `foo \| biz` holds for the tags `foo`, `bar`, `baz` |
| TagExpr.TestQueryAnd | src/prelude/inventory/tag_expr.rs:98 | `foo & biz` fails for the tags `foo`, `bar`, `baz` |
| TagExpr.EvalConjunctionOfGroup | src/prelude/inventory/tag_expr.rs:99 | `x & (y \| z)` means `x ∧ (y ∨ z)` for any tags |
| TagExpr.EvalConjunctionOfNegatedGroup | src/prelude/inventory/tag_expr.rs:100 | `x & !(y \| z)` means `x ∧ ¬(y ∨ z)` for any tags |
| TagExpr.TestQueryAndGroup | src/prelude/inventory/tag_expr.rs:99 | `foo & (bar \| biz)` holds for the tags `foo`, `bar`, `baz` |
| TagExpr.TestQueryAndNotGroup | src/prelude/inventory/tag_expr.rs:100 | `foo & !(bar \| biz)` fails for the tags `foo`, `bar`, `baz` |
| Seqs.Filter | src/prelude/inventory/host_entry.rs:70 | Filtering keeps exactly the elements that pass the test |
| Seqs.FilterAppend | src/core/inventory.rs:114-128 | Filtering distributes over concatenation |
| Seqs.FilterKeepsAll | src/prelude/inventory/host_entry.rs:70 | A filter that keeps every element changes nothing |
| Seqs.FilterIdempotent | src/prelude/inventory/host_entry.rs:70 | Filtering twice is filtering once |
| Seqs.FilterCount | src/prelude/inventory/host_entry.rs:70 | Kept elements keep their multiplicity and dropped ones have none |
| HostEntry.NewRecord | src/prelude/inventory/host_entry.rs:46-54 | A new host has the given id and address, user `root`, no tags, no variables |
| HostEntry.WithoutTagMeaning | src/prelude/inventory/host_entry.rs:69-72 | Removing a tag removes every copy of it and keeps every other tag with its count and order |
| HostEntry.Host.constructor | src/prelude/inventory/host_entry.rs:46-54 | The built host equals the new host record |
| HostEntry.Host.SetUser | src/prelude/inventory/host_entry.rs:57-60 | Only the user changes |
| HostEntry.Host.AddTag | src/prelude/inventory/host_entry.rs:63-66 | The tag is appended and nothing else changes |
| HostEntry.Host.RemoveTag | src/prelude/inventory/host_entry.rs:69-72 | The tags are the old tags without the given one; nothing else changes |
| HostEntry.Host.SetVar | src/prelude/inventory/host_entry.rs:75-78 | The variable map gains or replaces the key; nothing else changes |
| HostEntry.Host.RemoveVar | src/prelude/inventory/host_entry.rs:81-84 | The key leaves the variable map; nothing else changes |
| HostEntry.Id | src/prelude/inventory/host_entry.rs:36-38 | `Host::id` accepts and rejects exactly as `HostId::new` |
| HostEntry.Tag | src/prelude/inventory/host_entry.rs:41-43 | `Host::tag` accepts and rejects exactly as `HostTag::new` |
| HostEntry.VarsReadBack | src/prelude/inventory/host_entry.rs:75-84 | A set variable reads back; a removed one is absent; others are untouched |
| HostEntry.BuilderScenario | tests/all/prelude/host_test.rs:29-88 | The builder calls of the host tests give the expected user, tags and variables |
| CoreHost.RemoveDuplicated | src/core/host.rs:56-59 | Removing a tag present twice removes both copies and keeps the others in order |
| CoreHost.BuilderScenario | src/core/host.rs:33-71 | Chained legacy setters give the given id, address, user, tags without the removed one, and exactly the kept variable |
| HostLists.FindById | src/prelude/inventory/host_registry.rs:104-109 | None iff no host has the id; otherwise the first host with that id |
| HostLists.FindByIdAppend | src/prelude/inventory/host_registry.rs:91-109 | Adding hosts at the end never changes which host an existing id finds |
| HostLists.WithoutIdMeaning | src/prelude/inventory/host_registry.rs:98-101 | Removing an id removes all hosts with it and keeps every other host with its count; an absent id changes nothing |
| HostLists.HasAnyTag | src/core/inventory.rs:117-125 | A host matches iff it carries at least one of the wanted tags |
| HostLists.SelectByAnyTagMeaning | src/core/inventory.rs:114-128 | The selection keeps inventory order, distributes over concatenation and is empty for an empty tag list |
| HostLists.SelectByAnyTagMembers | src/inventory.rs:75-88 | A host is selected iff it is in the inventory and carries one of the wanted tags, as many times as the inventory holds it |
| HostRegistry.SelectByQueryNoHosts | src/prelude/inventory/host_registry.rs:112-126 | An empty inventory selects nothing, even for a malformed query |
| HostRegistry.SelectByQueryErrors | src/prelude/inventory/host_registry.rs:121 | With at least one host, selection fails exactly when the modelled parse of the query fails, with that error and never a partial list |
| HostRegistry.SelectByQueryMeaning | src/prelude/inventory/host_registry.rs:112-127 | For a parsable query, selection returns the hosts whose tags satisfy it, in inventory order |
| HostRegistry.SelectByQueryErrorSticks | src/prelude/inventory/host_registry.rs:115-124 | A query error raised at one host is the result whatever hosts follow |
| HostRegistry.Inventory.constructor | src/prelude/inventory/host_registry.rs:19-21 | A new inventory is empty |
| HostRegistry.Inventory.AddHost | src/prelude/inventory/host_registry.rs:91-94 | The host is appended |
| HostRegistry.Inventory.RemoveHost | src/prelude/inventory/host_registry.rs:98-101 | Every host with the id is removed; the rest stays in order |
| HostRegistry.Inventory.GetHostById | src/prelude/inventory/host_registry.rs:104-109 | The first host with the id, or None iff there is none |
| HostRegistry.Inventory.GetHostsByTags | src/prelude/inventory/host_registry.rs:112-127 | The loop computes the query selection, including its first error |
| HostRegistry.TagSelectionScenario | tests/core/inventory_test.rs:183-221 | In a two-host inventory each tag query selects the one host that carries the tag |
| HostRegistry.SelectTwo | tests/core/inventory_test.rs:183-221 | In either order, a tag carried by only one of two hosts selects just that host |
| CoreInventory.Inventory.constructor | src/core/inventory.rs:21-23 | A new core inventory is empty |
| CoreInventory.Inventory.AddHost | src/core/inventory.rs:94-97 | The host is appended |
| CoreInventory.Inventory.RemoveHost | src/core/inventory.rs:101-104 | Every host with the id is removed |
| CoreInventory.Inventory.GetHostById | src/core/inventory.rs:107-111 | The first host with the id, or None iff there is none |
| CoreInventory.Inventory.GetHostsByTags | src/core/inventory.rs:114-128 | Exactly the hosts carrying one of the tags, in inventory order and each as often as the inventory holds it; none for an empty tag list |
| CoreInventory.AddRemoveScenario | tests/core/inventory_test.rs:11-44 | After the tests' additions and removals one host remains, and it is found with its address |
| LegacyInventory.DefaultHostList | src/inventory.rs:93-101 | The default host list is the single host `localhost` at `localhost:22` as `root` |
| LegacyInventory.New | src/inventory.rs:51-53 | A new legacy inventory is the default host list |
| LegacyInventory.FromValue | src/inventory.rs:31-34 | A document without `hosts` gives the localhost inventory; a `hosts` array is accepted iff every host in it is, host for host; a non-object document or a non-array `hosts` is a type error |
| LegacyInventory.GetHostById | src/inventory.rs:68-72 | The first host with the id, or None iff there is none |
| LegacyInventory.GetHostsByTags | src/inventory.rs:75-88 | Exactly the hosts carrying one of the tags, in inventory order and each as often as the inventory holds it; none for an empty tag list |
| LegacyInventory.NewFindsOnlyLocalhost | src/inventory.rs:51-101 | The default inventory finds `localhost` and no other identifier |
| HostDocuments.Custom | src/prelude/inventory/host_id.rs:48 | A validation error surfaces as a custom deserialisation error carrying its display text |
| HostDocuments.ParseHostId | src/prelude/inventory/host_id.rs:42-49 | An identifier field deserialises iff it matches the identifier pattern |
| HostDocuments.ParseHostTag | src/prelude/inventory/host_tag.rs:41-48 | A tag deserialises iff it matches the tag pattern |
| HostDocuments.RequiredString | src/prelude/inventory/host_entry.rs:18-23 | A required field is present and a string, and its value is returned |
| HostDocuments.ParseEach | src/prelude/inventory/host_entry.rs:27-28 | A list deserialises iff every element does, element for element |
| HostDocuments.HostFromValue | src/prelude/inventory/host_entry.rs:17-32 | A host document needs a valid `id` and an `address`; `user`, `tags`, `vars` default to `root`, none, none; any invalid id or tag rejects it |
| HostDocuments.HostsFromValues | src/prelude/inventory/host_registry.rs:14 | The host list deserialises iff every host does, host for host |
| HostDocuments.InventoryFromValue | src/prelude/inventory/host_registry.rs:10-15 | A missing `hosts` field gives the default list; a `hosts` array is accepted iff every host in it is, host for host; a non-object document or a non-array `hosts` is a type error |
| HostDocuments.ToJson | src/prelude/inventory/host_entry.rs:17 | A host serialises to an object with exactly the five fields |
| HostDocuments.FromToJson | src/prelude/inventory/host_entry.rs:17-32 | Deserialising a serialised host gives it back when the field parsers invert the printers |
| HostDocuments.PreludeRoundTrip | src/prelude/inventory/host_entry.rs:17-32 | Any host with valid id and tags round-trips through its JSON form |
| HostDocuments.DocumentWithInvalidId | src/prelude/inventory/host_id.rs:42-49 | An inventory document with an invalid host id is rejected |
| HostDocuments.DocumentWithInvalidTag | src/prelude/inventory/host_tag.rs:41-48 | An inventory document with one invalid tag is rejected |
| HostDocuments.DocumentWithDefaults | src/prelude/inventory/host_entry.rs:99-109 | A host given only id and address reads as user `root`, no tags, no variables |
| HostDocuments.InvalidIdExample | tests/core/inventory_test.rs:81-93 | The test's document with an invalid id fails to load |
| HostDocuments.InvalidTagExample | tests/core/inventory_test.rs:96-109 | The test's document with an invalid tag fails to load |
| HostDocuments.DefaultsExample | tests/core/inventory_test.rs:47-68 | The test's minimal host document gets the defaults |
| HostDocuments.NoHostsDocument | src/prelude/inventory/host_registry.rs:130-132 | A prelude document without `hosts` is the empty inventory |
| TaskRunner.PrepareAll | src/prelude/tasks/task_runner.rs:43-46 | Preparation succeeds iff every host prepares, giving each host's data in order; otherwise the first failing host's error |
| TaskRunner.Entry | src/prelude/tasks/task_runner.rs:75-93 | A report entry holds the host id and `success`, then `info` on success or the error's display text on failure |
| TaskRunner.ApplyAll | src/prelude/tasks/task_runner.rs:47-49 | One entry per host, in order, each from that host's own apply |
| TaskRunner.RunTaskSeq | src/prelude/tasks/task_runner.rs:42-52 | Fails iff some prepare fails, with the first error; otherwise an array with one entry per host built from its prepared data |
| TaskRunner.RunTaskParallel | src/prelude/tasks/task_runner.rs:54-64 | Fails iff some prepare fails, with the error of one failing host; otherwise the same entries as the sequential run |
| TaskRunner.RunTask | src/prelude/tasks/task_runner.rs:33-40 | The parallel flag chooses the runner |
| TaskRunner.ParallelIsSequential | src/prelude/tasks/task_runner.rs:42-64 | Both runners fail on the same inputs, agree when every host prepares, and agree when exactly one host fails |
| TaskRunner.ReportIsolation | src/prelude/tasks/task_runner.rs:75-93 | Changing one host changes only that host's entry |
| TaskRunner.PrepareCallsStopAtFirstFailure | src/prelude/tasks/task_runner.rs:43-46 | The sequential runner prepares hosts up to and including the first failure, and its calls are those prepares only: it applies none |
| TaskRunner.PrepareCallsAll | src/prelude/tasks/task_runner.rs:42-49 | When all hosts prepare, the run's calls are every prepare in host order, then every apply in host order |
| TaskRunner.NoApplyAfterPrepareFailure | src/prelude/tasks/task_runner.rs:42-49 | A failed prepare means no apply runs at all |
| LegacyTasks.RunTaskSeq | src/tasks/mod.rs:33-60 | Fails iff some prepare fails, with the first error; otherwise one entry per host naming it, saying whether its apply succeeded and carrying that apply's `info` or its displayed `error` |
| LegacyTasks.ApplyErrorsAreEntries | src/tasks/mod.rs:41-59 | A failing apply does not fail the run; it becomes that host's entry with the error text |
| InfoTask.Apply | src/tasks/info.rs:68-70 | The info is the host document, and it reads back as the host |
| InfoTask.InfoReport | src/tasks/info.rs:54-70 | The info task always succeeds, sequentially and in parallel, reporting each host's own document |
| ModuleTask.Merged | src/tasks/module.rs:135-146 | Merging objects keeps every key: left-only keys stay, and each right-side key holds the right value merged over the left one (or over `Null`); any other pair gives the right side |
| ModuleTask.Merge | src/tasks/module.rs:135-146 | The key-by-key loop computes the merged value |
| ModuleTask.MergeSelf | src/tasks/module.rs:137-144 | Merging a value with itself gives it back |
| ModuleTask.MergeIdempotent | src/tasks/module.rs:137-144 | Merging the same overrides twice is merging them once |
| ModuleTask.MergeOverride | src/tasks/module.rs:137-144 | A right-side key whose two values are not both objects (including a key only the right side has) takes the right value outright |
| ModuleTask.New | src/tasks/module.rs:31-34 | The module name is the last `/`-separated segment of the module path |
| ModuleTask.HostVarKey | src/tasks/module.rs:45 | The host variable consulted is `module_` followed by the module name |
| ModuleTask.HostVarData | src/tasks/module.rs:40-46 | The host variable, or an empty object when the host has none |
| ModuleTask.Prepare | src/tasks/module.rs:38-59 | Without a data file the data is the host variable; with one, the run fails iff reading fails, with that error, and otherwise gives the file's data with the host variable merged over it |
| ModuleTask.PrepareOverridesDefaults | src/tasks/module.rs:48-55 | Host variables override the file's defaults key by key |
| Paths.Join | src/tasks/download.rs:82-83 | Joining an absolute path replaces the base; otherwise the result is the base, then `/` unless the base is empty or already ends in `/`, then the path |
| Paths.LastSegment | src/tasks/module.rs:32 | The text after the last `/` holds no `/` and ends the path |
| Paths.LastSegmentOfJoin | src/tasks/module.rs:32 | The last segment of a joined path is the last segment of its tail |
| Paths.Parent | src/tasks/download.rs:84 | The parent is the prefix before the last separator, empty when there is none |
| Paths.ParentOfJoin | src/tasks/download.rs:84 | The parent of `dir/name` is `dir` when `name` has no separator |
| DownloadTask.FullPathShape | src/tasks/download.rs:82-83 | A download lands at `cwd/<host id>/<local path>` |
| DownloadTask.DistinctHostsDistinctPaths | src/tasks/download.rs:82-83 | Two hosts with different ids never get the same download path string |
| DownloadTask.ParentInHostDir | src/tasks/download.rs:83-85 | The directory created for a download is textually under that host's directory `cwd/<id>` |
| DownloadTask.Prepare | src/tasks/download.rs:73-88 | An absolute local path is refused first, then a working-directory error propagates; success iff the parent directory is created, giving the full path |
| DownloadTask.Apply | src/tasks/download.rs:90-102 | A successful copy reports the file path and the byte count; a copy error propagates |
| DownloadTask.DownloadReport | src/tasks/download.rs:73-102 | An absolute local path fails the whole run; in a successful run each host's entry reports its own `cwd/<id>/<local>` path |
| UploadTask.NewTemplate | src/tasks/upload.rs:76-83 | A template upload of the given paths and mode |
| UploadTask.NewFile | src/tasks/upload.rs:86-93 | A plain file upload of the given paths and mode |
| UploadTask.Utf8Len | src/tasks/upload.rs:125 | A rendered template's byte size lies between one and four bytes per character |
| UploadTask.Utf8LenAppend | src/tasks/upload.rs:125 | Byte size adds up over concatenation |
| UploadTask.RenderContext | src/tasks/upload.rs:117-123 | The template context holds the host under `host`, and that value reads back as the host |
| UploadTask.Prepare | src/tasks/upload.rs:102-134 | Missing file, then directory, are refused with their messages; a template succeeds iff it is read and rendered, sized in bytes, and otherwise fails with the read or render error; a plain file succeeds iff its length is known, and otherwise fails with that error |
| UploadTask.Apply | src/tasks/upload.rs:136-181 | A successful send reports the file size; a send error propagates |
| UploadTask.UploadReport | src/tasks/upload.rs:102-181 | A missing local file or a directory fails the whole run with its message; a template upload reports for each host the byte length of the text rendered for that host |
| Cli.GetInventory | src/cli/mod.rs:71-85 | No argument or a load error gives the empty inventory; otherwise the loaded hosts |
| Cli.GetHostList | src/cli/mod.rs:87-110 | An id selects that host or none and takes precedence; an invalid id is an error; else a tag query selects; else every host |
| Cli.HostIdTakesPrecedence | src/cli/mod.rs:92-103 | With an id given, the tag query is never looked at |
| Cli.TagQuerySelection | src/cli/mod.rs:104-107 | With only a query, the result is the query selection |
| Cli.NoInventoryNoHosts | src/cli/mod.rs:71-85 | Without an inventory nothing is selected |
| LegacyCli.TrimStart | src/cli.rs:105 | Leading Unicode white space is dropped and nothing else |
| LegacyCli.TrimEnd | src/cli.rs:105 | Trailing Unicode white space is dropped and nothing else |
| LegacyCli.TrimPadded | src/cli.rs:105 | Trimming a blank-padded word gives the word |
| LegacyCli.SplitCommas | src/cli.rs:104 | Splitting on commas gives comma-free pieces that join back to the input |
| LegacyCli.SplitJoin | src/cli.rs:104 | Splitting the comma-join of comma-free pieces gives the pieces back |
| LegacyCli.ParseTagList | src/cli.rs:103-108 | One trimmed tag per comma-separated piece |
| LegacyCli.GetHostList | src/cli.rs:86-112 | An id selects that host or none and takes precedence; else the tag list selects; else every host |
| LegacyCli.TagListSelection | src/cli.rs:103-108 | A tag list selects the hosts carrying one of its trimmed tags |
| LegacyCli.TagListOfTwo | src/cli.rs:104-106 | `a , b` with padding parses to the two tags |
| LegacyCli.GetInventory | src/cli.rs:50-84 | No argument, missing path or failing program gives the localhost inventory; a successful program's output is read as JSON, a file as TOML; a spawn, UTF-8, read or parse error is the result |
| LegacyCli.DocumentWithoutHosts | src/cli.rs:69-72 | An inventory document without `hosts` loads as the localhost inventory |

## Left out

- Text parsing and printing of TOML and JSON (`serde_json`, `toml`): the model starts from the parsed `Value` and takes the parsers as parameters; serde's own error text is not modelled.
- HostDocuments.HostFromValue: serde's derived `Deserialize` for a struct also accepts a sequence of the fields in declaration order, trailing defaulted fields left out (`["a", "a:22"]` is a host). The model reads objects only and answers InvalidType for such a host; the same holds for an inventory written as an array, in `HostDocuments.InventoryFromValue` and `LegacyInventory.FromValue`.
- Floating-point JSON numbers: `Json.Number` holds integers.
- Reading inventory files (`from_file`) and running inventory programs: their outcomes are parameters (`fromFile`, `PathProbe`).
- SSH sessions, `scp` transfers and the working directory: parameters (`copied`, `send`, `cwd`, `createDirAll`); `get_session` and `exec` are not part of this model.
- TagExpr.Build: the tree-building crate is foreign; the model builds by the grammar `!` > `&` > `|`, left-associative, and answers MalformedQuery for a malformed or empty call sequence. In the source such a query parses, and the evaluator fails later: with `unexpected operation` for an operator missing an operand, or with the `unreachable!` panic when no value comes back. MalformedQuery stands in for both.
- TagExpr.Parse: the source's `parse` fails only with InvalidToken; the MalformedQuery result comes from the modelled tree building, not from the source's loop.
- TagExpr.EvalTagExprMeaning: the source checks operands lazily, so a malformed query such as `foo &` may give `Ok(false)` on a host without `foo` (the short circuit skips the missing operand) and fail only on hosts carrying `foo`; the model fails on every host.
- HostRegistry.SelectByQueryErrors: inherits the same stand-in; for a malformed query the source's selection may fail only at the first host where the evaluator reaches the missing operand, or panic.
- TaskRunner.RunTaskParallel: which failing host's error the thread pool returns is a scheduler parameter `pick`; the model does not say which one.
- UploadTask.Prepare: the template engine is a parameter `render`; the `u64` conversion of a byte size cannot fail on 64-bit targets and is not modelled.
- ModuleTask.Merge: the source merges in place into a mutable JSON value; the model returns the merged value.
- ModuleTask.Prepare: the source returns the merged data serialised as a string; the model returns the `Value`.
- Errors.Display: `Debug` escaping of non-ASCII characters (grapheme extenders and the characters Unicode marks non-printable, printed as `\u{..}`) is not modelled; such characters are printed as themselves. The escapes of `"`, `\`, NUL, tab, line feed, carriage return and the other ASCII control characters are modelled.
- Regular-expression compile failures: the patterns are constants that compile, so the `?` on `Regex::new` is not modelled.
- Paths.Parent: `Path::parent` works on components, so a trailing `/`, a `.` component and repeated `/` are normalised: the parent of `cwd/id/sub/` is `cwd/id`, where the textual model gives `cwd/id/sub`. A `..` component is kept, by both.
- DownloadTask.DistinctHostsDistinctPaths and DownloadTask.ParentInHostDir: both are about path strings, not the files they name. `prepare` refuses only absolute local paths, so a local path such as `../x` is accepted. Every host's `cwd/<id>/../x` then names the same file `cwd/x`, and the directory created is `cwd/<id>/..`, the working directory itself. The file system's resolution of `..` is not modelled.
- The argument parser, logging and `main`: the command-line helpers take their arguments as values.

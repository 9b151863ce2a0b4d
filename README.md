# Winston homelab brain: a Dafny model of its core

Winston answers natural-language questions about a homelab. `Brain.ask` runs in four steps:

1. It turns away a blank question.
2. It routes the question, by keyword, to the system readings that matter: CPU, memory, disk, local Docker containers, the health-check script's report, and the remote GPU workstation's containers.
3. It renders those readings as a "Current system state" text block.
4. It asks a local language model, with that block as the system prompt. The result is a `Response` with a confidence of 1.0, 0.8 or 0.0.

Beside this path, `HistoryStore` keeps a JSONL file of metric snapshots that it can append to, prune by age and count. The `Config` manager collects the `config` dict of every module in the config directory and reads it with dotted paths.

The model has nine modules:

- `Text` (text.dfy) holds the Python string built-ins the core uses, over `seq<char>`:
  - `strip`, `lower`, substring `in`, `split`, `join`, `replace`, `int()` and `str()`;
  - round-trip lemmas such as `Split(Join(parts)) == parts` and `ParseDigits(NatToString(n)) == n`.
- `Gatherers` (gatherers.dfy) holds the three stdout parsers: `docker ps`, the remote `docker ps` over ssh, and the health script. Each takes the outcome of `subprocess.run` as an input.
  - The health parser includes the ANSI colour-code removal and the escape decoding.
  - It also includes a hand-written recogniser for the issue regex `[✗⚠ℹ]\s+(\w+):\s+(.+?)\s+-\s+(.+)`, and the two `re.search` scans for the summary and the issue count.
- `ContextModel` (context.dfy) holds the context dict: sections kept in insertion order with at most one per key.
- `Routing` (routing.dfy) holds `gather_relevant`.
- `Prompt` (prompt.dfy) holds `format_for_prompt`.
- `History` (history.dfy) holds the `HistoryStore` class over its file.
- `Configuration` (config.dfy) holds the `Config` class, `load_config` and `get`.
- `Brain` (brain.dfy) holds `ask` and the `Response` it returns.
- `Wrappers` holds `Option`.

Where the source loops and mutates, the model is a method with loop invariants, proved against a function:

- `GatherDocker`, `GatherRemoteHost` and `GatherHealth`;
- `GatherRelevant` and `FormatForPrompt`;
- `LoadConfig` and `Get`;
- `PruneOldData` and `GetSnapshotCount`.

The properties are then proved about those functions.

Three observations came out of the proofs:

- The second `replace` at homelab_brain/system_context.py:123 can never change anything, so the decoding is the first `replace` alone (`SecondReplaceNeverFires`). It is dead code and does no harm.
- The skipped test at tests/test_brain.py:66 expects a `cpu_percent` key in `metrics`. The code stores the CPU readings under `cpu`, and the model follows the code.
- `gather_relevant` calls `gather_remote_host` a second time when both a summary word and a remote word occur. The key keeps its first position in the dict (`PutSameReading`).

## Model

| member | source | states |
|---|---|---|
| Gatherers.FirstUndecodable | homelab_brain/system_context.py:54-56 | it is None exactly when every non-empty line of `docker ps` decodes as JSON; otherwise it is the reason `json.loads` raised for the first one that does not |
| Gatherers.NonEmptyLines | homelab_brain/system_context.py:54-55 | only lines of the output that are non-empty are walked (`if line:`) |
| Gatherers.GatherDocker | homelab_brain/system_context.py:50-68 | the loop returns the docker result function's value; on success `running` equals the number of containers; it succeeds exactly when the command completed with return code 0 and every non-empty line decoded, and any other outcome is an error |
| Gatherers.DockerRecordPerLine | homelab_brain/system_context.py:53-61 | one container per non-empty line, in line order, each holding that line's `Names`, `Status` and `Image` fields, or "" where a field is missing |
| Gatherers.RemoteRow | homelab_brain/system_context.py:93-99 | a line gives a container exactly when it holds a tab (at least two fields); its fields hold no tab |
| Gatherers.RemoteRowOfFields | homelab_brain/system_context.py:93-99 | a row printed as tab-separated name, state and optional status reads back as those fields, with the status "unknown" when the third field is absent |
| Gatherers.GatherRemoteHost | homelab_brain/system_context.py:86-108 | the loop returns the remote result function's value; it is reachable exactly when ssh completed with return code 0; then `container_count` is the number of containers and the hostname is the one asked for |
| Gatherers.RemoteRowsBounded | homelab_brain/system_context.py:89-99 | at most one container per output line, and none at all when no line has a tab |
| Gatherers.ColourCodeLength | homelab_brain/system_context.py:122 | a colour code `ESC [ [0-9;]+ m` at the front is either absent or at least four characters long, within the text |
| Gatherers.ParamRunEnd | homelab_brain/system_context.py:122 | the `[0-9;]+` run of a colour code is maximal: every character in it is a digit or `;` and the next one is not |
| Gatherers.StripAnsiPlain | homelab_brain/system_context.py:122 | text without an escape character passes through the colour-code removal unchanged |
| Gatherers.StripAnsiColourCode | homelab_brain/system_context.py:122 | a colour code with a non-empty `[0-9;]` parameter list is removed whole |
| Gatherers.StripAnsiColoured | homelab_brain/system_context.py:122 | coloured text with its reset code comes back as the plain text |
| Gatherers.NoEscapedDashLeft | homelab_brain/system_context.py:123 | after `replace('\\x2d', '-')` no `\x2d` escape remains |
| Gatherers.SecondReplaceNeverFires | homelab_brain/system_context.py:123 | the decoding equals its first `replace` alone: `replace('\\x2ddns\\x2d', '-dns-')` never changes anything |
| Gatherers.WordRunEnd | homelab_brain/system_context.py:132 | the `\w+` category run is maximal |
| Gatherers.DigitRunEnd | homelab_brain/system_context.py:143-144 | the `\d+` runs of the two searches are maximal |
| Gatherers.SeparatorEnd | homelab_brain/system_context.py:132 | the message group `(.+)` after `\s+-\s+` starts past the dash and is non-empty |
| Gatherers.FirstSeparator | homelab_brain/system_context.py:132 | the lazy name group `(.+?)` stops at the first `\s+-\s+(.+)` separator after its first character; there is none before it, and None means there is none at all |
| Gatherers.MatchIssue | homelab_brain/system_context.py:132 | a match only happens on a line that opens with one of the three glyphs; the head before the colon is read by maximal runs and the rest by `Backtrack` |
| Gatherers.TailFrom | homelab_brain/system_context.py:132 | definition: with `:\s+` ending at a given index, the lazy `(.+?)` takes at least one character and stops at the first separator, and the message is everything after that separator |
| Gatherers.Backtrack | homelab_brain/system_context.py:132 | definition: the greedy `:\s+` tries its longest end first and gives back one character at a time until the tail matches |
| Gatherers.BacktrackCases | homelab_brain/system_context.py:132 | what the backtracking gives, in all three cases: the tail after the whole whitespace run when a separator follows it; otherwise an empty name and the message after the run's final separator, when the run is at least three long and ends in a separator; otherwise no match |
| Gatherers.MatchIssueGivesBack | homelab_brain/system_context.py:132-138 | when the run after the colon is at least three long, ends in a separator, and has no separator after it, the line yields the category, an empty name and the message after that separator |
| Gatherers.MatchGivesBackSpaces | homelab_brain/system_context.py:132-138 | `"✗ c:   - x"` yields category `c`, an empty name and message `x` |
| Gatherers.NoSeparatorInName | homelab_brain/system_context.py:132 | inside a stripped name with no whitespace-dash, no separator starts, so the lazy group cannot stop early |
| Gatherers.MatchLaidOut | homelab_brain/system_context.py:132-138 | a line laid out as glyph, space, category, colon, name, ` - `, message is read back into exactly that category, name and message |
| Gatherers.MatchPrintedIssue | homelab_brain/system_context.py:132-138 | round trip: an issue line printed from a word category, a stripped name with no whitespace-dash and a stripped message parses back to that issue |
| Gatherers.SearchLeftmost | homelab_brain/system_context.py:143-144 | `re.search` semantics for any anchored matcher: a result is the match at some index with no match at any earlier index (the leftmost), and the search gives None exactly when the matcher matches at no index |
| Gatherers.Search | homelab_brain/system_context.py:143-144 | definition: try the anchored matcher at each index from left to right and take the first match |
| Gatherers.SummaryMatcher | homelab_brain/system_context.py:143 | definition: the summary pattern anchored at each index, so `SearchSummary` inherits the leftmost property of `SearchLeftmost` |
| Gatherers.SearchSummary | homelab_brain/system_context.py:143 | definition: `Search` with the summary matcher over every index of the text |
| Gatherers.IssueCountMatcher | homelab_brain/system_context.py:144 | definition: the `(\d+)\s+issue` pattern anchored at each index |
| Gatherers.SearchIssueCount | homelab_brain/system_context.py:144 | definition: `Search` with the issue-count matcher, so the result is the leftmost match by `SearchLeftmost` |
| Gatherers.SummaryRoundTrip | homelab_brain/system_context.py:143-148 | `"<n> services • <m> containers…"` at the front of the output yields exactly (n, m) |
| Gatherers.IssueCountRoundTrip | homelab_brain/system_context.py:144-149 | `"<n> issue…"` at the front of the output yields exactly n |
| Gatherers.GatherHealth | homelab_brain/system_context.py:122-153 | the loop returns the health result function's value; it is an error exactly when the script raised (the return code is not consulted); with no summary match both totals are 0; with no issue-count match the count is the number of parsed issues |
| Gatherers.DockerContainersOf | homelab_brain/system_context.py:53-61 | definition: the containers of the decodable non-empty lines, in line order |
| Gatherers.DockerOf | homelab_brain/system_context.py:50-68 | definition: the exception's message when the command raised, "Docker not accessible" for a non-zero return code, the first decoding failure's reason, else the running count and the containers |
| Gatherers.RemoteRowsOf | homelab_brain/system_context.py:89-99 | definition: the rows of the output's lines, in order, skipping empty lines and lines with fewer than two fields |
| Gatherers.RemoteOf | homelab_brain/system_context.py:86-108 | definition: the message of one of the three caught exceptions, "Host unreachable or SSH failed" for a non-zero return code, else the hostname, the row count and the rows |
| Gatherers.StripAnsi | homelab_brain/system_context.py:122 | definition: `re.sub` of `ESC [ [0-9;]+ m` as one left-to-right pass that drops each colour code it meets |
| Gatherers.DecodeEscapes | homelab_brain/system_context.py:123 | definition: the two chained `replace` calls, in source order |
| Gatherers.HasIssueSymbol | homelab_brain/system_context.py:130 | definition: the line holds one of the glyphs ✗, ⚠ or ℹ |
| Gatherers.IssuesOf | homelab_brain/system_context.py:129-138 | definition: for each line in order that holds a glyph and whose stripped form matches the issue pattern, the issue it matches |
| Gatherers.SummaryAt | homelab_brain/system_context.py:143 | definition: the summary pattern anchored at one index, with maximal digit and whitespace runs; the two numbers, or None |
| Gatherers.IssueCountAt | homelab_brain/system_context.py:144 | definition: the `(\d+)\s+issue` pattern anchored at one index; the number, or None |
| Gatherers.HealthOf | homelab_brain/system_context.py:122-153 | definition: the exception's message when the script raised, else the issues, the summary totals or 0, and the searched issue count or the number of issues |
| ContextModel.Rank | homelab_brain/system_context.py:212-249 | every category has a place in the fixed rendering order cpu, memory, disk, docker, health, remote_host |
| ContextModel.KeyNamesDistinct | homelab_brain/system_context.py:176-195 | the six dict keys are pairwise distinct and none is `network` |
| ContextModel.Readings.Of | homelab_brain/system_context.py:176-203 | each gatherer's section is stored under its own key |
| ContextModel.Keys | homelab_brain/brain.py:51 | `list(context.keys())`, one key per section, in order |
| ContextModel.Lookup | homelab_brain/system_context.py:212-240 | `key in context` holds exactly when the key is among the keys, and the section found is stored under that key |
| ContextModel.PutNewKey | homelab_brain/system_context.py:176-195 | assigning a key not yet in the dict appends it at the end |
| ContextModel.PutSameValue | homelab_brain/system_context.py:195 | re-assigning the value a key already holds changes nothing |
| ContextModel.PutKeys | homelab_brain/system_context.py:176-195 | an assignment keeps the keys when the key was present, else adds it last |
| ContextModel.PutLookup | homelab_brain/system_context.py:176-195 | after `context[k] = v`, `k` reads `v` and every other key reads what it held |
| ContextModel.PutKeepsKeysDistinct | homelab_brain/system_context.py:176-195 | a dict never holds a key twice |
| ContextModel.ContextOfKeys | homelab_brain/system_context.py:172-204 | a context built from a key list has exactly those keys |
| ContextModel.PutNewReading | homelab_brain/system_context.py:176-195 | storing the reading of a new category extends the key list by it |
| ContextModel.PutSameReading | homelab_brain/system_context.py:191-195 | the second `gather_remote_host` call of line 195, after the one of line 191, leaves the context as it was |
| ContextModel.Put | homelab_brain/system_context.py:176-195 | definition: `context[key] = section`; an existing key keeps its place, a new one goes last |
| ContextModel.ContextOf | homelab_brain/system_context.py:172-204 | definition: the readings of a list of keys, in that order |
| Routing.TriggersIff | homelab_brain/system_context.py:175-195 | a category's test fires exactly when one of its keywords is a substring of the lowered query |
| Routing.GatherRelevant | homelab_brain/system_context.py:165-206 | the method returns the routed context, whose keys are the routed keys |
| Routing.StoreTriggered | homelab_brain/system_context.py:175-195 | the six `if` blocks store, in order, the readings of the categories whose tests fired |
| Routing.StoreIf | homelab_brain/system_context.py:176 | one guarded assignment of a new key appends its reading exactly when its test holds |
| Routing.MentionsConcat | homelab_brain/system_context.py:188-195 | `any` over two keyword lists is the disjunction of `any` over each |
| Routing.StageHas | homelab_brain/system_context.py:175-195 | a guarded assignment adds exactly its category, and only when its test holds |
| Routing.StoredHas | homelab_brain/system_context.py:175-195 | a category is stored exactly when the test that stores it fires; the remote host when a summary word or a remote word occurs |
| Routing.TriggeredHas | homelab_brain/system_context.py:175-195 | a category is among the triggered ones exactly when its test fires |
| Routing.RoutedIff | homelab_brain/system_context.py:171-204 | a category is routed exactly when one of its keywords occurs, or when no keyword occurs at all and it is in the default bundle |
| Routing.RoutedNonEmpty | homelab_brain/system_context.py:198-204 | the routed context is never empty |
| Routing.FallbackExact | homelab_brain/system_context.py:198-204 | with no keyword the keys are exactly cpu, memory, health and remote_host, in that order |
| Routing.HealthBringsRemote | homelab_brain/system_context.py:188-191 | whenever health is gathered, so is the remote host |
| Routing.StageAscending | homelab_brain/system_context.py:175-195 | appending a category that outranks all stored ones keeps the keys in rank order |
| Routing.StoredAscending | homelab_brain/system_context.py:175-195 | the tests store categories in rank order, with no repeats |
| Routing.RoutedInOrder | homelab_brain/system_context.py:171-204 | the keys always come in the order cpu, memory, disk, docker, health, remote_host |
| Routing.KeywordAnywhere | homelab_brain/system_context.py:171-195 | a keyword anywhere in the query, in any mix of cases, routes its category |
| Routing.RoutingIgnoresCase | homelab_brain/system_context.py:171 | a query and its lower-cased form route to the same keys |
| Routing.Keywords | homelab_brain/system_context.py:175-195 | definition: the keyword list of each test; the remote host has both the summary words and the remote words |
| Routing.Triggers | homelab_brain/system_context.py:175-195 | definition: the test for one category, with the remote host stored by either of two tests |
| Routing.Stored | homelab_brain/system_context.py:175-195 | definition: the categories the six `if` blocks store, in order, for the tests' outcomes |
| Routing.Triggered | homelab_brain/system_context.py:171-195 | definition: the stored categories for the lowered query |
| Routing.RoutedKeys | homelab_brain/system_context.py:171-204 | definition: the triggered categories, or the default bundle when none are triggered |
| Routing.RoutedContext | homelab_brain/system_context.py:165-206 | definition: the readings of the routed keys, in insertion order |
| Prompt.Bullets | homelab_brain/system_context.py:228-229 | at most five bullets: one per leading container, in order, each with that container's name and status; the remote loop at lines 246-247 uses the same function |
| Prompt.IssueLines | homelab_brain/system_context.py:237-238 | one line per issue, in order, with no limit |
| Prompt.FormatForPrompt | homelab_brain/system_context.py:208-251 | the method builds exactly the prompt text: the header and the section lines in fixed order, joined with newlines |
| Prompt.AppendSection | homelab_brain/system_context.py:212-249 | one `if key in context` block appends that section's lines, or nothing when the key is absent |
| Prompt.AppendDocker | homelab_brain/system_context.py:224-229 | the docker block appends nothing for an error, else the running count and up to five container bullets |
| Prompt.Extend | homelab_brain/system_context.py:228-229 | each loop step appends exactly the next element of its list |
| Prompt.AppendHealth | homelab_brain/system_context.py:231-238 | the health block appends nothing for an error, else the counts and, when there are issues, the "Issues found:" line and every issue |
| Prompt.AppendIssues | homelab_brain/system_context.py:237-238 | the issue loop appends one line per issue, in order |
| Prompt.AppendRemote | homelab_brain/system_context.py:240-249 | the remote block appends the unreachable notice, or the headline and up to five container bullets |
| Prompt.PromptStartsWithHeader | homelab_brain/system_context.py:210-251 | the text opens with "Current system state:" |
| Prompt.SectionLineCounts | homelab_brain/system_context.py:212-249 | CPU, memory and disk give one line each; docker gives 0 or 1 + min(5, n) lines; health gives 0, 1, or 2 + the number of issues; the remote host gives 1 or 1 + min(5, n) |
| Prompt.PromptIgnoresOrder | homelab_brain/system_context.py:208-251 | the rendering depends only on what each key holds, not on the dict's insertion order |
| Prompt.NumberSingleLine | homelab_brain/system_context.py:227-245 | rendered counts hold no newline |
| Prompt.ContainerLineSingle | homelab_brain/system_context.py:229-247 | a container bullet is one line when its name and status are |
| Prompt.IssueLineSingle | homelab_brain/system_context.py:238 | an issue line is one line when its fields are |
| Prompt.NoNewlinesConcat | homelab_brain/system_context.py:251 | newline-free line lists stay newline-free when concatenated |
| Prompt.DockerLinesSingle | homelab_brain/system_context.py:224-229 | the docker lines are newline-free when the container fields are |
| Prompt.HealthLinesSingle | homelab_brain/system_context.py:231-238 | the health lines are newline-free when the issue fields are |
| Prompt.RemoteLinesSingle | homelab_brain/system_context.py:240-249 | the remote lines are newline-free when the hostname and container fields are |
| Prompt.UnreachableSingle | homelab_brain/system_context.py:249 | the unreachable notice is one line |
| Prompt.CpuLineSingle | homelab_brain/system_context.py:214 | the CPU line is one line when its readings are |
| Prompt.MemoryLineSingle | homelab_brain/system_context.py:218 | the memory line is one line when its readings are |
| Prompt.DiskLineSingle | homelab_brain/system_context.py:222 | the disk line is one line when its readings are |
| Prompt.SectionLinesSingle | homelab_brain/system_context.py:212-249 | any section with single-line fields gives newline-free lines |
| Prompt.LinesForSingle | homelab_brain/system_context.py:212-249 | the lines looked up for any key are newline-free when the stored fields are |
| Prompt.PromptLinesSingle | homelab_brain/system_context.py:210-249 | every assembled line is newline-free when the fields are |
| Prompt.PromptSplitsIntoLines | homelab_brain/system_context.py:251 | round trip: splitting the prompt text at newlines gives back exactly the assembled lines |
| Prompt.DockerEntries | homelab_brain/system_context.py:228-229 | definition: the name and status of every local container |
| Prompt.RemoteEntries | homelab_brain/system_context.py:246-247 | definition: the name and status of every remote container |
| Prompt.CpuLine | homelab_brain/system_context.py:214 | definition: the CPU f-string |
| Prompt.MemoryLine | homelab_brain/system_context.py:218 | definition: the memory f-string |
| Prompt.DiskLine | homelab_brain/system_context.py:222 | definition: the disk f-string |
| Prompt.DockerLines | homelab_brain/system_context.py:224-229 | definition: nothing for an error, else the running line and the bullets |
| Prompt.HealthLines | homelab_brain/system_context.py:231-238 | definition: nothing for an error, else the counts line and, when there are issues, the heading and one line per issue |
| Prompt.RemoteLines | homelab_brain/system_context.py:240-249 | definition: the unreachable notice, or the headline and the bullets |
| Prompt.PromptLines | homelab_brain/system_context.py:210-249 | definition: the header, then the lines of each present section in the order cpu, memory, disk, docker, health, remote_host |
| Prompt.PromptText | homelab_brain/system_context.py:251 | definition: the lines joined with newlines |
| History.Kept | homelab_brain/history.py:47-58 | the kept records are never more than the file's lines |
| History.HistoryStore.constructor | homelab_brain/history.py:11-15 | a store is bound to one file, missing or holding the given lines, none of which holds a `'\n'` or `'\r'` |
| History.HistoryStore.AppendSnapshot | homelab_brain/history.py:17-31 | the record becomes one more line at the end, and a missing file is created with it; `json.dumps` output holds no raw `'\n'` or `'\r'` |
| History.HistoryStore.PruneOldData | homelab_brain/history.py:33-70 | a missing file gives 0 and stays missing; a line that raises an uncaught error leaves the file untouched; otherwise the file becomes exactly the kept, stripped records and the result is the number of older records |
| History.HistoryStore.GetSnapshotCount | homelab_brain/history.py:72-81 | 0 for a missing file, else its number of lines |
| History.KeptStep | homelab_brain/history.py:52-58 | each loop step keeps exactly the current line, stripped, when it is recent |
| History.OlderStep | homelab_brain/history.py:57-60 | each loop step counts the current line exactly when it is older than the cutoff |
| History.CrashStep | homelab_brain/history.py:52-63 | the loop raises by step i + 1 exactly when it raised earlier or line i raises |
| History.KeptSingleLine | homelab_brain/history.py:58-68 | the rewritten records hold no `'\n'` or `'\r'`, so the file keeps one record per line |
| History.KeptComesFromRecent | homelab_brain/history.py:52-58 | every kept record is the stripped form of some recent line |
| History.RecentIsKept | homelab_brain/history.py:52-58 | every recent line's stripped form is kept |
| History.KeptExactly | homelab_brain/history.py:52-58 | a record is kept if and only if it is the stripped form of a well-formed line at or after the cutoff |
| History.NothingOlderNothingRemoved | homelab_brain/history.py:57-60 | when no record predates the cutoff, the count is 0 |
| History.PruneAccounts | homelab_brain/history.py:52-63 | without an uncaught error, every line is kept, removed or skipped as malformed, each exactly once |
| History.PruneShrinksFile | homelab_brain/history.py:52-70 | kept plus removed never exceed the lines read, and equal them exactly when no line is malformed |
| History.KeptAreRecent | homelab_brain/history.py:57-58 | every kept record decodes to a timestamp at or after the cutoff |
| History.NoCrashInKept | homelab_brain/history.py:66-68 | the rewritten file never makes a later prune raise |
| History.RecentStrippedKept | homelab_brain/history.py:52-60 | a file of stripped, recent records is kept unchanged, and nothing is removed |
| History.PruneIdempotent | homelab_brain/history.py:33-70 | pruning twice with the same cutoff: the second pass does not raise, keeps the same file and removes nothing |
| History.AppendCounts | homelab_brain/history.py:17-81 | appending a snapshot raises the count by exactly one, whether or not the file existed |
| History.Outcome | homelab_brain/history.py:53-63 | definition: what decoding the stripped line gives: a timestamp, a caught error, or an uncaught one |
| History.OlderCount | homelab_brain/history.py:57-60 | definition: the number of well-formed records before the cutoff |
| History.SnapshotCount | homelab_brain/history.py:72-81 | definition: 0 for a missing file, else its number of lines |
| Configuration.ModuleKey | config/__init__.py:19-21 | a file names a config module exactly when it ends in `.py` and is not `__init__.py`; its key is the name without `.py` |
| Configuration.Resolve | config/__init__.py:32-43 | a single-segment path is a `.get` on the top level; a first segment that is missing or not a dict gives the default |
| Configuration.Config.constructor | config/__init__.py:8-13 | the first `Config()` starts from an empty dict and loads the listing |
| Configuration.Config.LoadConfig | config/__init__.py:15-23 | the loop stores each discovered module's `config` under its key, in listing order |
| Configuration.Config.Get | config/__init__.py:25-43 | the traversal loop returns the path lookup's value |
| Configuration.ConfigValue | config/__init__.py:51-59 | the helper returns what `Config.get` returns |
| Configuration.ResolvePresent | config/__init__.py:37-43 | the default is returned exactly when the path reaches no stored value; a stored value, even a falsy one or `None`, wins over any default |
| Configuration.Nest | config/__init__.py:37-43 | a nested dict built from a path holds its first segment |
| Configuration.ResolveNest | config/__init__.py:25-43 | round trip: a value nested under a path reads back at that path |
| Configuration.DottedPath | config/__init__.py:32 | a dotted path of dot-free segments is walked segment by segment |
| Configuration.TopLevelPath | config/__init__.py:32-43 | a dot-free path reads the top level directly |
| Configuration.LoadedHas | config/__init__.py:19-23 | a key is loaded exactly when some listed file names it, or it was already there; a loaded module's key holds that module's `config`; other keys keep their values |
| Configuration.OllamaHost | config/__init__.py:15-43 | `ollama.py` in the listing makes `ollama.host` read the `host` entry of that module's dict |
| Configuration.Loaded | config/__init__.py:15-23 | definition: the dict after the discovery loop has visited the listing in order |
| Configuration.Present | config/__init__.py:37-43 | definition: every segment but the last names a nested dict, and the last is a key of the innermost one |
| Brain.KeyNames | homelab_brain/brain.py:51 | one name per key, in order, each the key's dict name |
| Brain.Ask | homelab_brain/brain.py:27-82 | confidence is always within [0, 1] (the constraint at homelab_brain/models.py:11); there is one gathered name per context section |
| Brain.BlankQuery | homelab_brain/brain.py:39-46 | an empty or all-whitespace query gets the fixed reply, confidence 1.0, no metrics and no gathered keys, whatever the model does |
| Brain.AnsweredQueryContext | homelab_brain/brain.py:49-82 | any other query carries the routed context as metrics and its key names as `context_gathered` |
| Brain.ConfidenceCases | homelab_brain/brain.py:39-71 | confidence is 1.0 exactly for a blank query, 0.8 exactly when `ensure_available` returns `True` and the model answers, and 0.0 exactly when it returns `False`, when `ensure_available` raises, or when `generate` raises |
| Brain.AnswerCases | homelab_brain/brain.py:55-71 | the answer is the fixed unavailable notice when `ensure_available` returns `False`; `"Winston is currently unavailable (<msg>)"` when `ensure_available` raises; and otherwise the model's text, or that notice with `generate`'s exception message |
| Brain.GenerateOnlyWhenUp | homelab_brain/brain.py:55-67 | `generate` is consulted only when `ensure_available` returns `True`: otherwise the response is the same whatever `generate` would do |
| Brain.PromptCarriesContext | homelab_brain/brain.py:57-61 | the system prompt is the fixed instructions, a blank line, then the context block starting with its header |
| Brain.GatheredKeys | homelab_brain/brain.py:49-51 | a non-blank query always gathers some context, each key at most once, and never `network` |
| Brain.GatheredName | homelab_brain/brain.py:49-51 | every routed category appears in `context_gathered` under its dict name |
| Brain.CpuQuestion | tests/test_brain.py:63-65 | "What's my CPU usage?" gathers `cpu` |
| Brain.DiskQuestion | tests/test_brain.py:74-77 | "How much disk space?" gathers `disk` and not `network` |
| Brain.SystemPrompt | homelab_brain/brain.py:57-61 | definition: the two instruction sentences, a blank line, then the context text |
| Brain.FailureAnswer | homelab_brain/brain.py:68-71 | definition: the unavailable notice with the exception's message in parentheses |
| Text.SpaceRunEnd | homelab_brain/system_context.py:132 | the `\s+` run from an index is maximal |
| Text.SpaceRunStart | homelab_brain/history.py:54 | the trailing whitespace run is maximal |
| Text.Strip | homelab_brain/history.py:54 | `str.strip()` is the input with exactly its leading and trailing whitespace removed: a slice whose prefix and suffix outside it are all whitespace, with no whitespace at either end; it is empty exactly when the input is all whitespace |
| Text.StripKeepsCharacters | homelab_brain/history.py:58 | stripping only removes characters |
| Text.StrippedIsFixed | homelab_brain/system_context.py:136-137 | a stripped text strips to itself |
| Text.StripIdempotent | homelab_brain/history.py:54-58 | stripping twice is stripping once |
| Text.LowerIsLower | homelab_brain/system_context.py:171 | `lower()` keeps the length and leaves no upper-case letter |
| Text.LowerConcat | homelab_brain/system_context.py:171 | lower-casing distributes over concatenation |
| Text.LowerFixesLower | homelab_brain/system_context.py:171 | a text with no upper-case letter is its own lower-case form |
| Text.LowerIdempotent | homelab_brain/system_context.py:171 | lower-casing twice is lower-casing once |
| Text.SubstringAt | homelab_brain/system_context.py:175 | `w in s` holds exactly when `w` occurs at some index of `s` |
| Text.SubstringOfConcat | homelab_brain/system_context.py:175 | a word is a substring of any text around it |
| Text.SubstringTransitive | homelab_brain/system_context.py:175 | a substring of a substring is a substring |
| Text.Split | homelab_brain/system_context.py:54 | `split(sep)` gives at least one field, none holding the separator |
| Text.JoinSplit | homelab_brain/system_context.py:93 | round trip: joining a split gives the text back |
| Text.SplitAfterField | homelab_brain/system_context.py:93 | splitting a field and a separator peels off that field |
| Text.SplitWithoutSeparator | config/__init__.py:32 | a text without the separator is one field |
| Text.SplitJoin | homelab_brain/system_context.py:251 | round trip: splitting a join of separator-free fields gives the fields back |
| Text.SplitFieldCount | homelab_brain/system_context.py:94 | a split has at least two fields exactly when the separator occurs |
| Text.ReplaceAbsent | homelab_brain/system_context.py:123 | replacing a pattern that does not occur changes nothing |
| Text.NatToString | homelab_brain/system_context.py:234 | `str(n)` is a non-empty run of digits |
| Text.ParseNatToString | homelab_brain/system_context.py:146-148 | round trip: `int(str(n)) == n` |
| Text.IsSpace | homelab_brain/system_context.py:132 | definition: Python's `str.isspace()` set, which is also `\s` for `str` patterns |
| Text.Lower | homelab_brain/system_context.py:171 | definition: `str.lower()` on ASCII letters |
| Text.IsSubstring | homelab_brain/system_context.py:175 | definition: `w in s`, tried at the front and then after the first character |
| Text.Join | homelab_brain/system_context.py:251 | definition: `sep.join(parts)` |
| Text.ReplaceAll | homelab_brain/system_context.py:123 | definition: `str.replace`, left to right without overlaps |
| Text.ParseDigits | homelab_brain/system_context.py:146-148 | definition: `int()` of a run of decimal digits |

## Left out

- Reading the machine (psutil) is not modelled. The readings enter as text fields, as their f-strings render them, so rounding and float formatting are not modelled either.
- Running commands (`subprocess.run`, ssh, the health script) is not modelled. Their outcome, a return code with stdout or a raised exception, is an input.
- `json.loads` of a `docker ps` line is an input function that gives the object's string fields or a failure.
- The configured hostname and health-script path are inputs.
- Each gatherer gives one reading per call. `gather_relevant` may call `gather_remote_host` twice, and the model gives the same value both times: a real second ssh call could differ.
- Gatherers.GatherRemoteHost: `Failed` stands only for the three exception types caught at homelab_brain/system_context.py:107: `TimeoutExpired`, `SubprocessError` and `FileNotFoundError`. Any other exception escapes `gather_relevant` and `ask`, e.g. a `PermissionError` when the ssh binary cannot be run, or a `UnicodeDecodeError` from `text=True`. The model has no outcome for that escape. The docker and health gatherers catch every `Exception` (lines 67 and 152), so `Failed` covers every failure there.
- Exceptions other than those the parsers catch are not modelled, e.g. a `KeyError` in `format_for_prompt` on a malformed dict. The model's dicts always have the fields the code reads.
- `Text.Lower`, `Text.IsWordChar`, `Text.IsDigit`: `str.lower()`, `\w` and `\d` are modelled for ASCII only. Unicode case mapping and Unicode letters and digits are not.
- Gatherers.HealthOf: `int()` at homelab_brain/system_context.py:146-148 is modelled without CPython's limit on the length of a decimal string. Since 3.11 (and 3.7.14, 3.8.14, 3.9.14 and 3.10.7), a run of more than 4300 digits makes `int()` raise `ValueError`, which line 152 turns into `{"error": ...}`. The model returns the number instead. The limit and its message depend on the interpreter version and on `PYTHONINTMAXSTRDIGITS`.
- Gatherers.GatherHealth: the same digit limit is not modelled; the loop equals `HealthOf`.
- Gatherers.MatchIssue: the regex is modelled on stripped lines without newlines, which is where the source applies it (`line.strip()` of a `split('\n')` field). On such a line only `:\s+` can usefully give characters back, and `Backtrack` models that. `\w` is ASCII only, and a general regex engine is not modelled.
- `Ask` is not the `Brain` class. The `OllamaClient` it holds is outside this model. What `ensure_available` does enters as an input, `Brain.Availability`: it returns `True` or `False`, or it raises. Its `print` calls are outside any `try`, at homelab_brain/ollama_client.py:122 and inside the handler at line 99, so a stdout error escapes it into `ask`'s `except Exception`. `generate` enters as a function that answers or raises.
- `Response` leaves out `duration_ms` and `timestamp`, which come from the clock. The pydantic validation is not modelled, but `Brain.Ask` proves the one constraint the core relies on, the confidence range.
- `HistoryStore` does not model these:
  - the JSON serialisation of the snapshot and the clock: the record text is an input;
  - the `datetime.now() - timedelta(days)` cutoff: an integer input;
  - `json.loads` and `fromisoformat`: an input function that gives a timestamp, a caught error, or an uncaught one;
  - the default path under the home directory;
  - file-system errors.
- The history file is modelled as the lines that text-mode iteration with universal newlines yields, without their terminators, so no line holds `'\n'` or `'\r'` (`History.IsLine`). For reading (`prune_old_data`, `get_snapshot_count`), a final line without a newline counts the same as one with it.
- History.HistoryStore.AppendSnapshot: assumes every existing line of the file ends in a newline. At homelab_brain/history.py:30-31 the record is written in append mode. If the last line has no newline, the record is glued onto it, so the file gains no line and usually holds one malformed line. The model cannot represent a file in that state.
- History.AppendCounts: for the same reason, the count rises by one only when the file's last line is newline-terminated. After an append to an unterminated file, `get_snapshot_count` would not rise.
- `Config.__new__`'s singleton and `reload` are not modelled. `reload` at config/__init__.py:45-48 sets an instance attribute, so the class-level singleton it means to reset is kept.
- `os.listdir` and `__import__` are not modelled: the directory listing and each module's `config` are inputs.
- An import that fails is not modelled.
- The CLI, the MOTD summary, the Ollama client and Wake-on-LAN are outside this model.

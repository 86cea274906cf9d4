# statusline-rs, modelled in Dafny

statusline-rs prints a multi-line status bar for a Claude Code session.
It reads the session JSON on standard input. It then collects the following
on worker threads:

- the git state of the working directory;
- the MCP servers, from the `claude mcp list` output, falling back to
  `~/.claude/.mcp.json`;
- the plan's usage limits, from the OAuth usage endpoint, then a local
  file, then a time-of-day estimate;
- the running Docker containers and their resource use;
- the agent teams under `~/.claude/teams`.

The main thread merges the worker results into one snapshot and formats up
to four lines. Subprocess output and the API body are cached on disk under
a sanitised key with a time-to-live.

The model has one module per source file:

- `TtlCache` models `cache.rs`. It is a class whose file map and clock are
  fields. Pure functions `Lookup`, `AfterGet` and `AfterSet` specify it.
- `Mcp`, `Containers`, `UsageLimits`, `Session`, `Git` and `Teams` model
  the collectors.
  - Parsing is written as functions over lines and tokens.
  - Each loop the source runs is a method, proved equal to its
    specification function.
  - The `collect` of `Mcp`, `Containers` and `UsageLimits` is a method over
    a `Cache` object. Its one `ensures` ties the result and the new cache
    state to a pure `CollectSpec`/`FreshSpec` function. Lemmas describe that
    function.
  - `Git.Collect` takes the discovered repository (or its absence) and
    `Teams.Collect` the directory listing (or its absence); neither uses
    the cache.
- `Snapshot` models `collect_all` in `main.rs`. The channel is a sequence of
  tagged messages in arrival order. The merged snapshot is proved not to
  depend on that order.
- `Layout` models the `format_*` functions of `main.rs`.
- `Common` holds the Rust standard-library string operations the code
  uses: `lines`, `split`, `splitn`, `trim`, `split_whitespace`, `find` and
  `join`, with whitespace restricted to ASCII (see "Left out"). `Json` is an abstract JSON value with the `serde_json` accessors
  the code calls.

Behaviour of the code worth knowing:

- The usage response is cached whenever it has a `five_hour` object, even
  when it carries no usable percentage (`usage_limits.rs:77-89`).
- The MCP CLI output is cached before it is parsed, so unparsable output is
  cached too (`mcp.rs:49-58`).
- A listing line counts as connected when *any* of its tokens is a
  connected marker. Its name is the first non-marker token before the first
  marker, with trailing colons removed (`mcp.rs:91-108`). The marker is not
  tied to the name that precedes it.
- The main thread waits for all six workers with no overall timeout
  (`main.rs:126-160`).

## Model

| member | source | states |
|---|---|---|
| TtlCache.KeyPath | statusline-rs/src/cache.rs:43-50 | the file name has the key's length; alphanumerics, `-` and `_` are kept and every other character becomes `_`, so every character of the name is safe |
| TtlCache.KeyPathIdempotent | statusline-rs/src/cache.rs:45-48 | sanitising a sanitised key changes nothing |
| TtlCache.KeyPathCollides | statusline-rs/src/cache.rs:45-48 | two keys of equal length that differ only in unsafe characters share one cache file |
| TtlCache.KeyPathSafePartDetermined | statusline-rs/src/cache.rs:45-48 | keys that share a file agree on every safe character other than `_` |
| TtlCache.Lookup | statusline-rs/src/cache.rs:22-35 | a value comes back exactly when the sanitised name is non-empty, the file exists, its age is readable and not over the TTL; the value is the file's content |
| TtlCache.AfterGet | statusline-rs/src/cache.rs:22-35 | a get only ever removes files, never changes one, and leaves the clock and writability alone |
| TtlCache.MissingIsAbsent | statusline-rs/src/cache.rs:24-25 | a missing file gives `None` and leaves the store unchanged |
| TtlCache.FutureEntryKept | statusline-rs/src/cache.rs:26 | a file whose mtime is in the future has no age: `None`, and it is not deleted |
| TtlCache.ExpiredIsRemoved | statusline-rs/src/cache.rs:28-32 | a stale entry gives `None`, is deleted, and later gets miss whatever their TTL |
| TtlCache.AgeEqualToTtlIsFresh | statusline-rs/src/cache.rs:28 | an entry exactly TTL seconds old is still served and kept (the comparison is strict) |
| TtlCache.SetThenGet | statusline-rs/src/cache.rs:38-41 | in a writable directory, a set is visible to the next get with any TTL |
| TtlCache.SetFrame | statusline-rs/src/cache.rs:38-41 | a set keeps every other file as it was and, in a writable directory with a non-empty name, writes its own file as the value stamped with the current time; lookups of other keys are unchanged |
| TtlCache.AfterElapse | statusline-rs/src/cache.rs:26 | time passing changes only the clock, by exactly the elapsed nanoseconds |
| TtlCache.SetThenGetWithinTtl | statusline-rs/src/cache.rs:22-41 | a written value reads back while no more than the TTL has passed since the write |
| TtlCache.SetThenStaleAfterTtl | statusline-rs/src/cache.rs:22-41 | once more than the TTL has passed since the write, the value reads as absent and the get deletes its file |
| TtlCache.Cache.constructor | statusline-rs/src/cache.rs:10-19 | the new cache's state is the given files, clock and directory writability |
| TtlCache.Cache.Elapse | statusline-rs/src/cache.rs:26 | the new state is `AfterElapse` of the old one |
| TtlCache.Cache.Get | statusline-rs/src/cache.rs:22-35 | returns `Lookup` of the old state; the new state is `AfterGet` of it |
| TtlCache.Cache.Set | statusline-rs/src/cache.rs:38-41 | the new state is `AfterSet` of the old one |
| Mcp.ConnectedCount | statusline-rs/src/mcp.rs:114-117 | the number of connected servers never exceeds the number of servers |
| Mcp.FirstMarker | statusline-rs/src/mcp.rs:95-104 | the index of the first status-marker token: no token before it is a marker, and it is one when in range |
| Mcp.ScanTokens | statusline-rs/src/mcp.rs:91-108 | the token loop yields the line's name (first usable token before any marker, colons trimmed) and whether any token is a connected marker |
| Mcp.LineEntry | statusline-rs/src/mcp.rs:66-112 | a line contributes a server only when it is non-blank, not a header, and yields a non-empty name |
| Mcp.ParseLine | statusline-rs/src/mcp.rs:66-122 | one first-pass iteration returns exactly the line's `LineEntry` |
| Mcp.ParseFirstPass | statusline-rs/src/mcp.rs:63-124 | the first pass collects the servers of all lines in order, with the connected count and total kept equal to the list's tallies |
| Mcp.AddLine | statusline-rs/src/mcp.rs:110-122 | adding a line appends its entry and keeps the tallies consistent |
| Mcp.BareName | statusline-rs/src/mcp.rs:132-140 | a second-pass name is non-empty and comes from a line the second pass does not skip |
| Mcp.SecondPass | statusline-rs/src/mcp.rs:130-146 | every server found by the second pass is disconnected |
| Mcp.ParseSecondPass | statusline-rs/src/mcp.rs:130-146 | the second-pass loop returns `SecondPass` of the lines, with zero connected and the total equal to their number |
| Mcp.ParseMcpOutput | statusline-rs/src/mcp.rs:62-148 | the parser returns `ParseMcp`; a result is always tallied, non-empty and has at most `total` connected |
| Mcp.AllDisconnectedCount | statusline-rs/src/mcp.rs:142 | a list with no connected server counts zero connected |
| Mcp.ParseMcpTallied | statusline-rs/src/mcp.rs:126-147 | parsing fails exactly when both passes find nothing; otherwise the counts match the list |
| Mcp.HeaderLinesSkipped | statusline-rs/src/mcp.rs:66-78 | blank and header lines never produce a server |
| Mcp.LineNameIsFirstUsableToken | statusline-rs/src/mcp.rs:104-112 | a line's name comes from some non-marker token before the first marker, and every earlier token trims to nothing |
| Mcp.FirstNameIndex | statusline-rs/src/mcp.rs:104-107 | a non-empty name is the colon-trimmed form of a token, and every token before it trims to empty |
| Mcp.FirstNameEmpty | statusline-rs/src/mcp.rs:110-112 | an empty name means every token trims to empty |
| Mcp.ConnectedLineExample | statusline-rs/src/mcp.rs:80-112 | the line `  github:  ✓ Connected` gives server `github`, connected |
| Mcp.ThreeTokenLine | statusline-rs/src/mcp.rs:66-112 | an indented line `name  marker word` gives server `name`, connected exactly when the marker or the word is a connected marker |
| Mcp.ParseTwoLines | statusline-rs/src/mcp.rs:62-124 | two kept lines yield both servers in order, tallied |
| Mcp.TwoServerListing | statusline-rs/src/mcp.rs:62-124 | a listing with `alpha ✓ Connected` and `beta ✗ Disconnected` parses to two servers, one connected |
| Mcp.EnabledServers | statusline-rs/src/mcp.rs:170-186 | the configured servers not marked disabled, all disconnected; every enabled member is listed and only those |
| Mcp.CollectFromConfig | statusline-rs/src/mcp.rs:151-190 | the config fallback lists `EnabledServers` with zero connected and total equal to their number |
| Mcp.CollectFromCli | statusline-rs/src/mcp.rs:43-59 | no CLI output leaves the cache untouched; otherwise the output is cached (parsable or not) and its parse is returned |
| Mcp.Collect | statusline-rs/src/mcp.rs:23-39 | the result, its source and the new cache state are those of `CollectSpec` |
| Mcp.CacheHitSkipsCli | statusline-rs/src/mcp.rs:27-31 | a fresh parsable cache entry is served and the CLI is not consulted |
| Mcp.CliOutputCachedEvenIfUnparsable | statusline-rs/src/mcp.rs:49-58 | unparsable CLI output falls through to the config but is still cached |
| Mcp.ConfigIsLastResort | statusline-rs/src/mcp.rs:33-38 | the config is used only when neither the cache nor the CLI output parsed |
| Mcp.CollectTallied | statusline-rs/src/mcp.rs:23-39 | whatever the source, the counts match the server list |
| Mcp.ExampleName | statusline-rs/src/mcp.rs:95-108 | the tokens `github:`, `✓`, `Connected` give name `github` and connected |
| Containers.SimplifyStatus | statusline-rs/src/containers.rs:163-184 | the simplified status is `running`, one of the state words, or the raw status |
| Containers.SimplifyStatusFirstMatch | statusline-rs/src/containers.rs:166-183 | `up…` (any case) is running; otherwise the first state word in the lower-cased status wins; otherwise the raw status |
| Containers.WordRulesFirstMatch | statusline-rs/src/containers.rs:166-183 | the chain of `contains` tests picks the first listed state word the status contains |
| Containers.UpPrefixIsRunning | statusline-rs/src/containers.rs:166-167 | a status starting `up` in any case is running |
| Containers.PausedUpIsRunning | statusline-rs/src/containers.rs:166-167 | `Up 2 hours (Paused)` is reported running, not paused (the `up` test comes first) |
| Containers.ExitedExample | statusline-rs/src/containers.rs:168-169 | `Exited (0) 2 days ago` becomes `exited` |
| Containers.PsEntry | statusline-rs/src/containers.rs:61-66 | a parsed `ps` line never carries stats |
| Containers.PsEntryOf | statusline-rs/src/containers.rs:61-66 | `name⇥status⇥image` gives that container with its simplified status; the image keeps any further tabs |
| Containers.PsEntryNeedsTwoTabs | statusline-rs/src/containers.rs:61-62 | a parsed line is exactly name, tab, raw status, tab, image |
| Containers.PsContainers | statusline-rs/src/containers.rs:60-81 | no container from the listing carries stats yet |
| Containers.RunningNames | statusline-rs/src/containers.rs:69-71 | every running name belongs to a listed container whose status is running |
| Containers.RunningNamesComplete | statusline-rs/src/containers.rs:69-71 | every running container's name is among the running names |
| Containers.ParsePsOutput | statusline-rs/src/containers.rs:56-81 | the listing loop returns `PsContainers` of the lines and their running names |
| Containers.StatsEntry | statusline-rs/src/containers.rs:128-138 | a parsed stats line always has a memory figure |
| Containers.StatsMap | statusline-rs/src/containers.rs:127-151 | stats are kept only for the names asked about, each with a memory figure |
| Containers.StatsLastLineWins | statusline-rs/src/containers.rs:141-148 | for a name, the last stats line about it is the one kept |
| Containers.FetchContainerStats | statusline-rs/src/containers.rs:104-154 | the stats loop returns `StatsSpec` of the names and the output |
| Containers.Joined | statusline-rs/src/containers.rs:88-93 | joining keeps name, status, image and order; it takes cpu and memory from the map when the name is in it and leaves the container unchanged otherwise |
| Containers.JoinStats | statusline-rs/src/containers.rs:88-93 | the in-place join turns the array into `Joined` of its old contents |
| Containers.FreshStatsOnlyForRunning | statusline-rs/src/containers.rs:84-94 | a container has memory stats exactly when its name got stats; a container that is not running is unchanged |
| Containers.Records | statusline-rs/src/containers.rs:189-209 | one cache record per container, in order |
| Containers.SerializeContainerInfo | statusline-rs/src/containers.rs:188-212 | the serialisation loop returns `Serialized` of the info |
| Containers.ParseCachedOutput | statusline-rs/src/containers.rs:215-250 | the cache-reading loop returns `ParseCached` of the text |
| Containers.RecordSplits | statusline-rs/src/containers.rs:219-220 | a cacheable record splits on `\|` back into its five fields |
| Containers.RecordRoundTrip | statusline-rs/src/containers.rs:201-241 | a cacheable container reads back from its record unchanged |
| Containers.CachedRecords | statusline-rs/src/containers.rs:218-243 | reading back a list of records gives the containers back |
| Containers.CacheRoundTrip | statusline-rs/src/containers.rs:188-250 | reading back a serialised non-empty info gives the same info |
| Containers.EmptySerialisesToNothing | statusline-rs/src/containers.rs:245-249 | an empty listing serialises to the empty text, which reads back as no cached value |
| Containers.CollectFresh | statusline-rs/src/containers.rs:40-101 | the result and the new cache state are those of `FreshSpec` |
| Containers.Collect | statusline-rs/src/containers.rs:24-37 | the result, its source and the new cache state are those of `CollectSpec` |
| Containers.PsFailureWritesNothing | statusline-rs/src/containers.rs:44-54 | a failed `docker ps` gives no containers and writes nothing |
| Containers.ListingServedFromCache | statusline-rs/src/containers.rs:28-31 | right after a fresh non-empty cacheable listing, the next collect is served from the cache with the same info |
| Containers.EmptyListingAsksAgain | statusline-rs/src/containers.rs:28-36 | an empty listing is not served from the cache; the next collect asks docker again |
| UsageLimits.WithZone | statusline-rs/src/usage_limits.rs:164-169 | the text before the first `.`, left as it is exactly when it ends in `Z` or holds a `+`, and otherwise followed by `Z`; the result has no `.` |
| UsageLimits.NumSeconds | statusline-rs/src/usage_limits.rs:179-181 | whole seconds of a nanosecond duration, truncated toward zero |
| UsageLimits.UnderASecondReadsNow | statusline-rs/src/usage_limits.rs:179-185 | a reset less than a whole second ahead, or past, reads `now` twice |
| UsageLimits.JustUnderAnHourReadsMinutes | statusline-rs/src/usage_limits.rs:179-193 | a reset one nanosecond short of an hour ahead reads `59 min` |
| UsageLimits.HoursAndMinutes | statusline-rs/src/usage_limits.rs:195-196 | whole hours and minutes of a duration, the minutes below 60, within a minute of the total |
| UsageLimits.RemainingUnderAnHour | statusline-rs/src/usage_limits.rs:191-193 | under an hour the remaining time is the whole minutes followed by ` min` |
| UsageLimits.RemainingUnderADay | statusline-rs/src/usage_limits.rs:194-201 | under a day it is `N hr`, plus ` M min` when the minutes are non-zero, with 1 ≤ N ≤ 23 |
| UsageLimits.ResetTimesCases | statusline-rs/src/usage_limits.rs:160-214 | an unparsable reset gives nothing; with the seconds until the reset truncated toward zero, a reset under one second ahead or past gives `now` twice; one a day or more away gives the day-and-clock text twice; otherwise the reset clock is `HH:MM` |
| UsageLimits.ParseApiResponse | statusline-rs/src/usage_limits.rs:93-124 | each window's percentage is its `utilization`; a missing window leaves its fields empty |
| UsageLimits.FlatTokenShadows | statusline-rs/src/usage_limits.rs:146-155 | when the nested token is missing, a top-level `accessToken` that is present but not a string hides `access_token`: no token |
| UsageLimits.FetchFromOauthApi | statusline-rs/src/usage_limits.rs:53-90 | the result and the new cache state are those of `FetchSpec` |
| UsageLimits.FetchFailureWritesNothing | statusline-rs/src/usage_limits.rs:54-79 | no token, no response, no JSON or no `five_hour` object means no answer and no cache write |
| UsageLimits.FetchCachesFiveHourBody | statusline-rs/src/usage_limits.rs:77-89 | any body with a `five_hour` object is cached, and without a utilization it still gives no answer |
| UsageLimits.TryLocalFiles | statusline-rs/src/usage_limits.rs:217-254 | the local file answers exactly when it has a numeric `five_hour.usage_percent`, which becomes the five-hour percentage |
| UsageLimits.BlockEnd | statusline-rs/src/usage_limits.rs:261 | the end of the current five-hour block is a multiple of five, after the hour and at most five hours later |
| UsageLimits.EstimateShape | statusline-rs/src/usage_limits.rs:257-276 | the estimate gives the time to the block end as `XhYm` (between 1 and 300 minutes) and the reset as `HH:00`, with no percentages |
| UsageLimits.LateEveningResetsAtOne | statusline-rs/src/usage_limits.rs:267-268 | from 20:00 on the estimated reset is `01:00` |
| UsageLimits.Collect | statusline-rs/src/usage_limits.rs:25-50 | the result, its source and the new cache state are those of `CollectSpec` |
| UsageLimits.CascadeOrder | statusline-rs/src/usage_limits.rs:25-50 | the cache answers exactly when its entry is fresh, decodes and gives a five-hour percentage, and then the answer is that parse and the store is left as the get left it; otherwise the API, then the local file, then the estimate, each used only when all before it failed |
| UsageLimits.AnswerHasPercentUnlessEstimated | statusline-rs/src/usage_limits.rs:29-49 | the answer has a five-hour percentage exactly when it is not the estimate |
| UsageLimits.LiveAnswerServedFromCache | statusline-rs/src/usage_limits.rs:29-35 | after a live API answer, the next collect is served from the cached body |
| Session.LastSegment | statusline-rs/src/session.rs:93 | the text after the last `/`, or the whole id when there is none |
| Session.ShortenModelNameFamilies | statusline-rs/src/session.rs:84-95 | `opus` wins over `sonnet`, which wins over `haiku`, each found case-insensitively anywhere in the id; otherwise the last path segment |
| Session.CapitalizeFirst | statusline-rs/src/session.rs:97-103 | only the first character is upper-cased; the length is unchanged |
| Session.CapitalizeFirstIdempotent | statusline-rs/src/session.rs:97-103 | capitalising twice is capitalising once |
| Session.FamilyEnd | statusline-rs/src/session.rs:110-118 | a position exists exactly when the lower-cased id contains `opus`, `sonnet` or `haiku`; it is the end of the first occurrence of the first of them, in that priority, that occurs |
| Session.NumericSegments | statusline-rs/src/session.rs:124-126 | keeps only the all-digit segments, never more than there were |
| Session.FirstNumericSegment | statusline-rs/src/session.rs:124-128 | the first kept segment is the first numeric one, and the rest are kept from what follows it |
| Session.VersionFromFirstTwoSegments | statusline-rs/src/session.rs:106-136 | a version is the first two numeric `-`-segments after the family name, joined by `.` |
| Session.NoFamilyNoVersion | statusline-rs/src/session.rs:116-117 | an id naming no family has no version |
| Session.OpusVersionExample | statusline-rs/src/session.rs:105 | `claude-opus-4-6` has version `4.6` |
| Session.FromStdin | statusline-rs/src/session.rs:19-77 | the version and session id come from stdin; the model id is never empty |
| Session.ModelSourcePriority | statusline-rs/src/session.rs:23-74 | the model id comes from stdin, then the environment, then settings, then `unknown`/`Unknown` |
| Session.FallbackDisplayIsShortName | statusline-rs/src/session.rs:49-63 | without a stdin model the display is the capitalised short name |
| Session.StdinDisplayRules | statusline-rs/src/session.rs:23-36 | the stdin display name (or the capitalised short name) gets the version appended only when it contains no digit |
| Session.StdinOpusExample | statusline-rs/src/session.rs:19-36 | stdin model `claude-opus-4-6` gives short name `opus` and display `Opus 4.6` |
| Git.TallyStatuses | statusline-rs/src/git.rs:38-71 | the status loop is clean exactly when no entry has a change flag; added, deleted and modified count the entries carrying those flags |
| Git.CountWithBound | statusline-rs/src/git.rs:60-68 | each entry adds at most one to a counter |
| Git.CountersBounded | statusline-rs/src/git.rs:60-68 | no counter exceeds the number of entries |
| Git.CountWithAppend | statusline-rs/src/git.rs:40-69 | a counter over two groups of entries is the sum of the two |
| Git.CleanHasNoCounts | statusline-rs/src/git.rs:39-70 | a clean status has all three counters at zero |
| Git.RenameIsDirtyButUncounted | statusline-rs/src/git.rs:42-68 | a rename-only entry makes the repo dirty without counting anywhere |
| Git.BranchName | statusline-rs/src/git.rs:92-107 | the branch shorthand, `detached:` and the first seven hex digits, or `unknown` |
| Git.BranchNameCases | statusline-rs/src/git.rs:92-107 | when each of the three forms is chosen; a detached name is 16 characters and a prefix of the commit id |
| Git.UpstreamRef | statusline-rs/src/git.rs:77 | the tracking reference is `refs/remotes/origin/` followed by the branch |
| Git.AheadBehindDefaults | statusline-rs/src/git.rs:74-87 | non-zero ahead/behind only when HEAD and the upstream resolve and the graph query answers |
| Git.Collect | statusline-rs/src/git.rs:19-90 | no repository gives none; otherwise the path, branch, tallies (dirty and zero when the status query fails) and ahead/behind |
| Teams.MemberCountPriority | statusline-rs/src/teams.rs:66-81 | `members` wins over `agents`, which wins over `member_count`; no count without one of them |
| Teams.MembersBeforeMemberCount | statusline-rs/src/teams.rs:66-69 | with both `member_count` 5 and two `members`, the count is 2 |
| Teams.Listed | statusline-rs/src/teams.rs:34-57 | never more teams than entries |
| Teams.CollectFrom | statusline-rs/src/teams.rs:34-57 | the directory loop returns `Listed` of the entries |
| Teams.ListedAppend | statusline-rs/src/teams.rs:34-57 | each entry contributes independently, in order |
| Teams.ListedLength | statusline-rs/src/teams.rs:34-57 | the number of teams is the number of readable directories with a `config.json` |
| Teams.ListedSingle | statusline-rs/src/teams.rs:35-56 | an entry is a team exactly when readable, a directory and holding `config.json`; its name falls back to `unknown` and its count to 0 |
| Teams.UnreadableConfigCountsZero | statusline-rs/src/teams.rs:51-56 | a team whose config is unreadable or matches none of the count rules is still listed, with 0 |
| Teams.Collect | statusline-rs/src/teams.rs:16-60 | no listing gives no teams; otherwise `Listed` of it |
| Snapshot.Initial | statusline-rs/src/main.rs:113-124 | before any message: no git, empty MCP, containers, worktrees and teams, default usage; the session, context and diff counts as given |
| Snapshot.ApplyFrame | statusline-rs/src/main.rs:126-159 | a message of the wrong type is ignored; an accepted one replaces only its own field |
| Snapshot.CollectAll | statusline-rs/src/main.rs:113-162 | the receive loop returns `Drain` of the initial snapshot over the arrivals |
| Snapshot.LastAccepted | statusline-rs/src/main.rs:126-160 | the payload kept for a tag fits that tag |
| Snapshot.LastAcceptedSent | statusline-rs/src/main.rs:126-160 | a kept payload was sent under that tag, and no payload is kept only when none was accepted |
| Snapshot.DrainIsOverlay | statusline-rs/src/main.rs:126-160 | draining equals overlaying, for every field, the last accepted payload of its tag |
| Snapshot.LastAcceptedReordered | statusline-rs/src/main.rs:126-160 | with one message per tag, the kept payload does not depend on order |
| Snapshot.ArrivalOrderIrrelevant | statusline-rs/src/main.rs:126-160 | with one message per tag, any reordering gives the same snapshot |
| Snapshot.WorkerMessages | statusline-rs/src/main.rs:76-109 | the six workers send six accepted messages with distinct tags |
| Snapshot.EveryArrivalOrder | statusline-rs/src/main.rs:76-160 | whatever order the six worker results arrive in, the snapshot holds exactly all of them |
| Layout.ModelEmoji | statusline-rs/src/main.rs:414-421 | one of the four emojis; the default for any other short name |
| Layout.EmojiFollowsFamily | statusline-rs/src/main.rs:221 | the emoji follows the model family with the same opus > sonnet > haiku priority |
| Layout.ShortenPathAsWritten | statusline-rs/src/main.rs:402-411 | as written: any path with the home directory as a string prefix gets it replaced by `~` |
| Layout.SiblingDirectoryAbbreviated | statusline-rs/src/main.rs:406-407 | as written, home `/home/al` turns `/home/alice/src` into `~ice/src` |
| Layout.ShortenPath | statusline-rs/src/main.rs:402-411 | corrected: `~` replaces the home directory only at a path-component boundary |
| Layout.ShortenPathExpands | statusline-rs/src/main.rs:406-407 | the shortened path starts with `~` and expands back to the original, at a component boundary |
| Layout.SiblingDirectoryKept | statusline-rs/src/main.rs:406-407 | corrected, a sibling directory is kept while the home and paths below it are abbreviated |
| Layout.Line1 | statusline-rs/src/main.rs:195-212 | line 1 is the blue folder, shortened by the as-written string-prefix `shorten_path`, then the folder icon; inside a repository the green `(branch)` and a check mark exactly when clean, a cross otherwise, come between them |
| Layout.Line1SiblingDirectory | statusline-rs/src/main.rs:197 | outside a repository, home `/home/al` and cwd `/home/alice/src` show the folder as `~ice/src` |
| Layout.DiffPart | statusline-rs/src/main.rs:228-243 | at most one diff segment |
| Layout.Line2Shape | statusline-rs/src/main.rs:215-268 | line 2: model emoji and display first; the diff from stdin counts or else from a dirty git tree; then the version and context segments when present |
| Layout.ServerTexts | statusline-rs/src/main.rs:286-298 | one text per server, in order |
| Layout.McpPart | statusline-rs/src/main.rs:277-308 | an MCP segment exactly when there are servers |
| Layout.UsagePieces | statusline-rs/src/main.rs:311-337 | one usage piece per window that has a reset time |
| Layout.Line3EmptyIff | statusline-rs/src/main.rs:271-348 | line 3 is empty exactly when there are no servers and no reset times |
| Layout.TotalAgentsAppend | statusline-rs/src/main.rs:391 | the total member count adds up over the teams |
| Layout.TotalAgentsBound | statusline-rs/src/main.rs:391 | every team's count is within the total |
| Layout.ContainerTexts | statusline-rs/src/main.rs:373-385 | one text per container, in order |
| Layout.Line4Parts | statusline-rs/src/main.rs:351-399 | no line-4 segment is empty |
| Layout.Line4EmptyIff | statusline-rs/src/main.rs:351-399 | line 4 is empty exactly when there are no worktrees, containers or teams; with teams it ends with the agent total |
| Layout.StatuslineShape | statusline-rs/src/main.rs:170-192 | two to four non-empty lines: lines 1 and 2 always, line 3 and line 4 exactly when they have content |
| Layout.StatuslineSplits | statusline-rs/src/main.rs:191 | splitting the output on newlines gives back the lines, when none contains a newline |

## Left out

- Threads and the `mpsc` channel: the workers' results become a sequence of tagged messages in arrival order; `Snapshot` proves the order does not matter.
- Subprocesses (`docker ps`, `docker stats`, `claude mcp list`, `curl`, `security`): each is an `Option<string>` input, `None` when it cannot be spawned or fails.
- The file system, the environment, the home directory and the clock: they are parameters (the cache's file map and `now`, the directory listing, the decoded config files, the environment values).
- `serde_json` and `toml` decoding: decoding is a `string -> Option<Value>` parameter, with `Json.Value` an abstract JSON tree whose object members keep their given order.
- `chrono` parsing, time zones and formatting: the parsed instant comes from a `parseTime` parameter, and the day-and-clock text from its `dayClock` field.
- UsageLimits.ParseApiResponse: the percentage is kept as the value read; the `.round()` applied to `utilization` is not modelled.
- Floating-point values: the `{:.0}` renderings of usage and context percentages and the context colour thresholds come from a `Floats` parameter.
- Containers.CpuText: the CPU figure is written to the cache as the literal read from `docker stats`, not through `f64`'s `Display` (`containers.rs:192-194`), so `0.50%` is cached as `0.50` where the program writes `0.5`.
- Common.ParseF64: accepts only plain decimal literals, not the whole `f64` grammar (exponents, `inf`, `NaN`).
- TtlCache.KeyPath and Common.ToLower: `is_alphanumeric` and the case mappings are ASCII-only; other Unicode letters are not modelled.
- String offsets count characters, not UTF-8 bytes.
- Common.IsWhitespace: only ASCII space, tab, newline, carriage return, vertical tab and form feed count as whitespace, so `trim` and `split_whitespace` do not split at the other Unicode `White_Space` characters (U+0085, U+00A0, U+2000 to U+200A, U+3000 and the rest) that Rust's versions split at; a listing line that separates its tokens with one of those parses differently.
- `config.rs`, `theme.rs`, `stdin_data.rs`, `worktrees.rs` and `context.rs` are not part of this model; their values (configuration, colours, stdin structure, worktrees, context usage) are inputs.
- `main()`'s choice of working directory, the threads' spawning and the final `print!`.
- `usize`/`u64` overflow of counters and sums.
- Snapshot.EveryArrivalOrder: requires that each tag occurs once among the arrivals, which is what the six workers send; repeated tags are not covered by the order-independence lemmas.
- Containers.CacheRoundTrip: requires fields free of `|` and newlines, a CPU figure written as a decimal literal, and a memory text that is non-empty and does not end in `\r`; the cache format cannot carry other values back.
- A failed `remove_file` of a stale cache entry is not modelled; the entry is taken as removed.
- ANSI escape sequences come from a `Theme` parameter rather than literal codes.

## Findings

| source | as written | input that shows it | evidently intended | confidence | as-written member | corrected member |
|---|---|---|---|---|---|---|
| statusline-rs/src/main.rs:406-407 | the home directory is matched as a string prefix of the path, and `format_line1` shows the result (`Layout.Line1` models this as written) | home `/home/al`, path `/home/alice/src` gives `~ice/src` | replace the home directory only when the path is it or continues with `/` | medium; not executed | Layout.ShortenPathAsWritten, Layout.SiblingDirectoryAbbreviated | Layout.ShortenPath, Layout.ShortenPathExpands, Layout.SiblingDirectoryKept |

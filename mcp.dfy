/** The MCP connectivity collector (statusline-rs/src/mcp.rs): parsing the
    output of `claude mcp list`, the permissive second pass, the fallback to
    the configured servers, and the cache → CLI → config cascade.

    The CLI run is an input (`None` when it cannot be started or exits
    non-zero, otherwise its standard output); the decoded configuration file
    is an input too (`None` when there is no home directory or the file is
    missing, unreadable or not JSON). */
module Mcp {
  import opened Common
  import opened Json
  import opened TtlCache

  datatype McpServer = McpServer(name: string, connected: bool)

  datatype McpInfo = McpInfo(servers: seq<McpServer>, connected: nat, total: nat)

  const CacheKey: string := "mcp_cli_output"
  const CacheTtl: nat := 30

  /** Number of servers marked connected. */
  function ConnectedCount(servers: seq<McpServer>): (n: nat)
    ensures n <= |servers|
  {
    if servers == [] then 0
    else ConnectedCount(servers[..|servers| - 1]) + (if servers[|servers| - 1].connected then 1 else 0)
  }

  /** The counters agree with the server list. */
  predicate Tallied(info: McpInfo) {
    info.total == |info.servers| && info.connected == ConnectedCount(info.servers)
  }

  // ------------------------------------------------------------ tokens

  const CheckMark: string := "\U{2713}"
  const BallotX: string := "\U{2717}"
  const CrossMark: string := "\U{274C}"

  predicate IsConnectedMarker(tok: string) {
    tok == CheckMark || ToLower(tok) == "connected"
  }

  predicate IsFailureMarker(tok: string) {
    tok == BallotX || tok == CrossMark || ToLower(tok) == "disconnected" || ToLower(tok) == "error"
  }

  predicate IsMarker(tok: string) {
    IsConnectedMarker(tok) || IsFailureMarker(tok)
  }

  /** Index of the first status marker, or the number of tokens. */
  function FirstMarker(parts: seq<string>): (k: nat)
    ensures k <= |parts|
    ensures forall j :: 0 <= j < k ==> !IsMarker(parts[j])
    ensures k < |parts| ==> IsMarker(parts[k])
  {
    if parts == [] || IsMarker(parts[0]) then 0
    else
      var k := FirstMarker(parts[1..]);
      assert forall j :: 1 <= j < |parts| ==> parts[j] == parts[1..][j - 1];
      1 + k
  }

  /** The first token whose colon-stripped form is not empty, stripped. */
  function FirstName(toks: seq<string>): string {
    if toks == [] then ""
    else
      var prev := FirstName(toks[..|toks| - 1]);
      if prev != "" then prev else TrimEndMatches(toks[|toks| - 1], ':')
  }

  /** A line's server name: the first usable token before any marker. */
  function LineName(parts: seq<string>): string {
    FirstName(parts[..FirstMarker(parts)])
  }

  /** A line is connected when any of its tokens is a connected marker. */
  predicate AnyConnected(parts: seq<string>) {
    exists j :: 0 <= j < |parts| && IsConnectedMarker(parts[j])
  }

  /** The token loop of `parse_mcp_output`. */
  method ScanTokens(parts: seq<string>) returns (name: string, isConnected: bool)
    ensures name == LineName(parts)
    ensures isConnected == AnyConnected(parts)
  {
    name := "";
    var foundStatus := false;
    isConnected := false;
    ghost var k := FirstMarker(parts);
    for i := 0 to |parts|
      invariant foundStatus <==> k < i
      invariant isConnected <==> AnyConnected(parts[..i])
      invariant i <= k ==> name == FirstName(parts[..i])
      invariant k < i ==> name == FirstName(parts[..k])
    {
      var part := parts[i];
      ScanConnectedStep(parts, i);
      ScanNameStep(parts, i);
      if IsConnectedMarker(part) {
        isConnected := true;
        foundStatus := true;
      } else if IsFailureMarker(part) {
        foundStatus := true;
      } else if name == "" && !foundStatus {
        name := TrimEndMatches(part, ':');
      }
    }
    assert parts[..|parts|] == parts;
  }

  /** What one more token adds to the prefix facts `ScanTokens` keeps. */
  lemma ScanConnectedStep(parts: seq<string>, i: nat)
    requires i < |parts|
    ensures AnyConnected(parts[..i + 1]) <==> AnyConnected(parts[..i]) || IsConnectedMarker(parts[i])
  {
    var pre := parts[..i + 1];
    assert pre[i] == parts[i];
    assert forall j :: 0 <= j < i ==> pre[j] == parts[..i][j];
  }

  lemma ScanNameStep(parts: seq<string>, i: nat)
    requires i < |parts|
    ensures FirstName(parts[..i + 1])
            == if FirstName(parts[..i]) != "" then FirstName(parts[..i]) else TrimEndMatches(parts[i], ':')
  {
    assert parts[..i + 1][..i] == parts[..i];
  }

  // ---------------------------------------------------------- the passes

  /** Banner lines skipped by the first pass. */
  predicate IsHeader(trimmed: string) {
    StartsWith(trimmed, "Checking") || StartsWith(trimmed, "MCP servers")
    || StartsWith(trimmed, "No MCP") || Contains(trimmed, "---")
  }

  /** What the first pass takes from one line. */
  function LineEntry(line: string): (r: Option<McpServer>)
    ensures r.Some? ==> r.value.name != "" && Trim(line) != [] && !IsHeader(Trim(line))
  {
    var trimmed := Trim(line);
    if trimmed == [] || IsHeader(trimmed) then None
    else
      var parts := SplitWhitespace(trimmed);
      if parts == [] then None
      else
        var name := LineName(parts);
        if name == "" then None else Some(McpServer(name, AnyConnected(parts)))
  }

  function FirstPass(lines: seq<string>): seq<McpServer> {
    if lines == [] then []
    else
      FirstPass(lines[..|lines| - 1]) + EntryList(lines[|lines| - 1])
  }

  /** Lines skipped by the permissive second pass (a different set). */
  predicate SkippedBySecondPass(trimmed: string) {
    trimmed == [] || StartsWith(trimmed, "Checking") || StartsWith(trimmed, "MCP")
    || StartsWith(trimmed, "No ") || Contains(trimmed, "---")
  }

  /** What the second pass takes from one line: its first token, if any. */
  function BareName(line: string): (r: Option<string>)
    ensures r.Some? ==> r.value != [] && !SkippedBySecondPass(Trim(line))
  {
    var trimmed := Trim(line);
    if SkippedBySecondPass(trimmed) then None
    else
      var toks := SplitWhitespace(trimmed);
      var name := if toks == [] then "" else toks[0];
      if name == "" then None else Some(name)
  }

  function SecondPass(lines: seq<string>): (r: seq<McpServer>)
    ensures forall i :: 0 <= i < |r| ==> !r[i].connected
  {
    if lines == [] then []
    else
      var n := BareName(lines[|lines| - 1]);
      SecondPass(lines[..|lines| - 1]) + (if n.Some? then [McpServer(n.value, false)] else [])
  }

  /** What `parse_mcp_output` returns. */
  function ParseMcp(stdout: string): Option<McpInfo> {
    var lines := Lines(stdout);
    var first := FirstPass(lines);
    if |first| > 0 then Some(McpInfo(first, ConnectedCount(first), |first|))
    else
      var second := SecondPass(lines);
      if |second| > 0 then Some(McpInfo(second, 0, |second|)) else None
  }

  /** One iteration of the first pass: the server a line contributes. */
  method ParseLine(line: string) returns (e: Option<McpServer>)
    ensures e == LineEntry(line)
  {
    var trimmed := Trim(line);
    if trimmed == [] {
      return None;
    }
    if StartsWith(trimmed, "Checking") || StartsWith(trimmed, "MCP servers")
      || StartsWith(trimmed, "No MCP") || Contains(trimmed, "---")
    {
      return None;
    }
    var parts := SplitWhitespace(trimmed);
    if |parts| == 0 {
      return None;
    }
    var name, isConnected := ScanTokens(parts);
    if name == "" {
      return None;
    }
    e := Some(McpServer(name, isConnected));
  }

  /** The first pass with its running counters. */
  method ParseFirstPass(lines: seq<string>) returns (info: McpInfo)
    ensures info.servers == FirstPass(lines) && Tallied(info)
  {
    info := McpInfo([], 0, 0);
    for i := 0 to |lines|
      invariant info.servers == FirstPass(lines[..i]) && Tallied(info)
    {
      FirstPassStep(lines, i);
      info := AddLine(info, lines[i]);
    }
    assert lines[..|lines|] == lines;
  }

  /** The body of the first-pass loop: one line's server, counted. */
  method AddLine(info: McpInfo, line: string) returns (info2: McpInfo)
    requires Tallied(info)
    ensures info2.servers == info.servers + EntryList(line) && Tallied(info2)
  {
    info2 := info;
    var e := ParseLine(line);
    if e.Some? {
      var server := e.value;
      ConnectedCountSnoc(info.servers, server);
      if server.connected {
        info2 := info2.(connected := info2.connected + 1);
      }
      info2 := info2.(total := info2.total + 1, servers := info2.servers + [server]);
    }
  }

  /** The server a line contributes, as a list of at most one. */
  function EntryList(line: string): seq<McpServer> {
    var e := LineEntry(line);
    if e.Some? then [e.value] else []
  }

  lemma FirstPassStep(lines: seq<string>, i: nat)
    requires i < |lines|
    ensures FirstPass(lines[..i + 1]) == FirstPass(lines[..i]) + EntryList(lines[i])
  {
    assert lines[..i + 1][..i] == lines[..i];
  }

  lemma ConnectedCountSnoc(servers: seq<McpServer>, s: McpServer)
    ensures ConnectedCount(servers + [s]) == ConnectedCount(servers) + (if s.connected then 1 else 0)
  {
    assert (servers + [s])[..|servers|] == servers;
  }

  lemma SecondPassStep(lines: seq<string>, i: nat)
    requires i < |lines|
    ensures SecondPass(lines[..i + 1])
            == SecondPass(lines[..i])
               + (if BareName(lines[i]).Some? then [McpServer(BareName(lines[i]).value, false)] else [])
  {
    assert lines[..i + 1][..i] == lines[..i];
  }

  /** The permissive second pass: first tokens as names, unknown status. */
  method ParseSecondPass(lines: seq<string>) returns (info: McpInfo)
    ensures info.servers == SecondPass(lines)
    ensures info.connected == 0 && info.total == |info.servers|
  {
    info := McpInfo([], 0, 0);
    for i := 0 to |lines|
      invariant info.servers == SecondPass(lines[..i])
      invariant info.connected == 0 && info.total == |info.servers|
    {
      SecondPassStep(lines, i);
      var trimmed := Trim(lines[i]);
      if !SkippedBySecondPass(trimmed) {
        var toks := SplitWhitespace(trimmed);
        var name := if |toks| == 0 then "" else toks[0];
        if name != "" {
          info := info.(total := info.total + 1, servers := info.servers + [McpServer(name, false)]);
        }
      }
    }
    assert lines[..|lines|] == lines;
  }

  method ParseMcpOutput(stdout: string) returns (r: Option<McpInfo>)
    ensures r == ParseMcp(stdout)
    ensures r.Some? ==> Tallied(r.value) && 0 < r.value.total && r.value.connected <= r.value.total
  {
    var lines := Lines(stdout);
    var info := ParseFirstPass(lines);
    if info.total > 0 {
      return Some(info);
    }
    var info2 := ParseSecondPass(lines);
    if info2.total > 0 {
      AllDisconnectedCount(info2.servers);
      r := Some(info2);
    } else {
      r := None;
    }
  }

  lemma {:induction false} AllDisconnectedCount(servers: seq<McpServer>)
    requires forall i :: 0 <= i < |servers| ==> !servers[i].connected
    ensures ConnectedCount(servers) == 0
  {
    if servers != [] {
      AllDisconnectedCount(servers[..|servers| - 1]);
    }
  }

  // -------------------------------------------------------- config file

  predicate IsDisabled(config: Value) {
    AsBool(Get(config, "disabled")).GetOr(false)
  }

  /** The `mcpServers` members of the decoded configuration, if any. */
  function ConfiguredMembers(config: Option<Value>): seq<(string, Value)> {
    if config.None? then [] else AsObject(Get(config.value, "mcpServers")).GetOr([])
  }

  /** The configured servers not marked `disabled: true`, in order, each with
      unknown (false) connectivity. */
  function EnabledServers(members: seq<(string, Value)>): (r: seq<McpServer>)
    ensures forall i :: 0 <= i < |r| ==> !r[i].connected
    ensures forall i :: 0 <= i < |members| && !IsDisabled(members[i].1) ==> McpServer(members[i].0, false) in r
    ensures forall s :: s in r ==> exists i :: 0 <= i < |members| && members[i].0 == s.name && !IsDisabled(members[i].1)
  {
    if members == [] then []
    else
      var init := members[..|members| - 1];
      var last := members[|members| - 1];
      var prev := EnabledServers(init);
      assert forall i :: 0 <= i < |init| ==> init[i] == members[i];
      prev + (if !IsDisabled(last.1) then [McpServer(last.0, false)] else [])
  }

  method CollectFromConfig(config: Option<Value>) returns (info: McpInfo)
    ensures info.servers == EnabledServers(ConfiguredMembers(config))
    ensures info.connected == 0 && info.total == |info.servers|
  {
    info := McpInfo([], 0, 0);
    if config.None? {
      return;
    }
    var servers := AsObject(Get(config.value, "mcpServers"));
    if servers.None? {
      return;
    }
    var members := servers.value;
    for i := 0 to |members|
      invariant info.servers == EnabledServers(members[..i])
      invariant info.connected == 0 && info.total == |info.servers|
    {
      assert members[..i + 1][..i] == members[..i];
      var (name, cfg) := members[i];
      var disabled := AsBool(Get(cfg, "disabled")).GetOr(false);
      if !disabled {
        info := info.(total := info.total + 1, servers := info.servers + [McpServer(name, false)]);
      }
    }
    assert members[..|members|] == members;
  }

  function ConfigInfo(config: Option<Value>): McpInfo {
    var servers := EnabledServers(ConfiguredMembers(config));
    McpInfo(servers, 0, |servers|)
  }

  // ------------------------------------------------------------ cascade

  datatype McpSource = FromCache | FromCli | FromConfig

  /** `collect`: the answer, which step gave it, and the cache afterwards. */
  function CollectSpec(st: Store, cli: Option<string>, config: Option<Value>): (McpInfo, McpSource, Store) {
    var cached := Lookup(st, CacheKey, CacheTtl);
    var st1 := AfterGet(st, CacheKey, CacheTtl);
    if cached.Some? && ParseMcp(cached.value).Some? then (ParseMcp(cached.value).value, FromCache, st1)
    else if cli.None? then (ConfigInfo(config), FromConfig, st1)
    else
      var st2 := AfterSet(st1, CacheKey, cli.value);
      var parsed := ParseMcp(cli.value);
      if parsed.Some? then (parsed.value, FromCli, st2) else (ConfigInfo(config), FromConfig, st2)
  }

  method CollectFromCli(cache: Cache, cli: Option<string>) returns (r: Option<McpInfo>)
    modifies cache`files
    ensures cli.None? ==> r.None? && unchanged(cache)
    ensures cli.Some? ==> (r == ParseMcp(cli.value)
                            && cache.State() == AfterSet(old(cache.State()), CacheKey, cli.value))
  {
    if cli.None? {
      return None;
    }
    cache.Set(CacheKey, cli.value);
    r := ParseMcpOutput(cli.value);
  }

  method Collect(cache: Cache, cli: Option<string>, config: Option<Value>) returns (info: McpInfo, source: McpSource)
    modifies cache`files
    ensures (info, source, cache.State()) == CollectSpec(old(cache.State()), cli, config)
  {
    var cached := cache.Get(CacheKey, CacheTtl);
    if cached.Some? {
      var parsed := ParseMcpOutput(cached.value);
      if parsed.Some? {
        return parsed.value, FromCache;
      }
    }
    var live := CollectFromCli(cache, cli);
    if live.Some? {
      return live.value, FromCli;
    }
    info := CollectFromConfig(config);
    source := FromConfig;
  }

  // ------------------------------------------------------------- lemmas

  /** Blank and banner lines contribute nothing to the first pass. */
  lemma HeaderLinesSkipped(line: string)
    requires Trim(line) == [] || IsHeader(Trim(line))
    ensures LineEntry(line) == None
  {
  }

  /** Whatever the parse returns has consistent counters and is not empty;
      `None` only when both passes found nothing. */
  lemma ParseMcpTallied(stdout: string)
    ensures ParseMcp(stdout).Some? ==> Tallied(ParseMcp(stdout).value) && ParseMcp(stdout).value.total > 0
    ensures ParseMcp(stdout).None? <==> FirstPass(Lines(stdout)) == [] && SecondPass(Lines(stdout)) == []
  {
    var lines := Lines(stdout);
    if FirstPass(lines) == [] {
      AllDisconnectedCount(SecondPass(lines));
    }
  }

  /** A line's name is a non-marker token with its trailing colons
      removed, and every token before it is empty once stripped. */
  lemma LineNameIsFirstUsableToken(parts: seq<string>)
    requires LineName(parts) != ""
    ensures exists j :: 0 <= j < FirstMarker(parts) && !IsMarker(parts[j])
                        && LineName(parts) == TrimEndMatches(parts[j], ':')
                        && forall j' :: 0 <= j' < j ==> TrimEndMatches(parts[j'], ':') == ""
  {
    var k := FirstMarker(parts);
    var pre := parts[..k];
    var j := FirstNameIndex(pre);
    assert pre[j] == parts[j];
    assert forall j' :: 0 <= j' < j ==> pre[j'] == parts[j'];
    assert 0 <= j < k && !IsMarker(parts[j]) && LineName(parts) == TrimEndMatches(parts[j], ':')
           && forall j' :: 0 <= j' < j ==> TrimEndMatches(parts[j'], ':') == "";
  }

  /** Where `FirstName` found its name. */
  lemma {:induction false} FirstNameIndex(toks: seq<string>) returns (j: nat)
    requires FirstName(toks) != ""
    ensures j < |toks| && FirstName(toks) == TrimEndMatches(toks[j], ':')
    ensures forall j' :: 0 <= j' < j ==> TrimEndMatches(toks[j'], ':') == ""
  {
    var init := toks[..|toks| - 1];
    if FirstName(init) != "" {
      j := FirstNameIndex(init);
      assert toks[j] == init[j];
      assert forall j' :: 0 <= j' < j ==> toks[j'] == init[j'];
    } else {
      j := |toks| - 1;
      FirstNameEmpty(init);
      assert forall j' :: 0 <= j' < |init| ==> toks[j'] == init[j'];
    }
  }

  /** `FirstName` is empty only when every token strips to nothing. */
  lemma {:induction false} FirstNameEmpty(toks: seq<string>)
    ensures FirstName(toks) == "" ==> forall j :: 0 <= j < |toks| ==> TrimEndMatches(toks[j], ':') == ""
  {
    if toks != [] {
      var init := toks[..|toks| - 1];
      FirstNameEmpty(init);
      assert forall j :: 0 <= j < |init| ==> toks[j] == init[j];
    }
  }

  /** A cache hit that parses answers without running the CLI: the store is
      only what `get` left behind (no write). */
  lemma CacheHitSkipsCli(st: Store, cli: Option<string>, config: Option<Value>)
    requires Lookup(st, CacheKey, CacheTtl).Some?
    requires ParseMcp(Lookup(st, CacheKey, CacheTtl).value).Some?
    ensures CollectSpec(st, cli, config).1 == FromCache
    ensures CollectSpec(st, cli, config).2 == AfterGet(st, CacheKey, CacheTtl)
  {
  }

  /** Successful CLI output is cached before it is parsed, so even output
      that does not parse is read back by the next run. */
  lemma CliOutputCachedEvenIfUnparsable(st: Store, out: string, config: Option<Value>)
    requires Lookup(st, CacheKey, CacheTtl).None?
    requires st.writable
    requires ParseMcp(out).None?
    ensures CollectSpec(st, Some(out), config).1 == FromConfig
    ensures Lookup(CollectSpec(st, Some(out), config).2, CacheKey, CacheTtl) == Some(out)
  {
    SetThenGet(AfterGet(st, CacheKey, CacheTtl), CacheKey, out, CacheTtl);
  }

  /** The configuration file is read only after the cache and the CLI
      both failed to give a parsable listing. */
  lemma ConfigIsLastResort(st: Store, cli: Option<string>, config: Option<Value>)
    requires CollectSpec(st, cli, config).1 == FromConfig
    ensures var c := Lookup(st, CacheKey, CacheTtl); c.None? || ParseMcp(c.value).None?
    ensures cli.None? || ParseMcp(cli.value).None?
    ensures CollectSpec(st, cli, config).0 == ConfigInfo(config)
  {
  }

  /** Every answer of the cascade has consistent counters. */
  lemma CollectTallied(st: Store, cli: Option<string>, config: Option<Value>)
    ensures Tallied(CollectSpec(st, cli, config).0)
  {
    var cached := Lookup(st, CacheKey, CacheTtl);
    if cached.Some? { ParseMcpTallied(cached.value); }
    if cli.Some? { ParseMcpTallied(cli.value); }
    AllDisconnectedCount(ConfigInfo(config).servers);
  }

  // ------------------------------------------------------------ example

  /** A word in front of whitespace-led text is one more token. */
  lemma TokenThen(w: string, tail: string, r: seq<string>)
    requires w != [] && NoWhitespace(w)
    requires tail == [] || IsWhitespace(tail[0])
    requires SplitWhitespace(tail) == r
    ensures SplitWhitespace(w + tail) == [w] + r
  {
    SplitLeadingToken(w, tail);
  }

  lemma ExampleLastToken(word: string)
    requires word != [] && NoWhitespace(word)
    ensures SplitWhitespace(" " + word) == [word]
  {
    SplitSkipsWhitespace(' ', word);
    SplitLeadingToken(word, []);
    assert word + [] == word;
  }

  lemma TwoSpaces(rest: string)
    ensures SplitWhitespace("  " + rest) == SplitWhitespace(rest)
  {
    assert "  " + rest == [' '] + ([' '] + rest);
    SplitSkipsWhitespace(' ', [' '] + rest);
    SplitSkipsWhitespace(' ', rest);
  }

  lemma ExampleLastTwoTokens(marker: string, word: string)
    requires marker != [] && NoWhitespace(marker) && word != [] && NoWhitespace(word)
    ensures SplitWhitespace("  " + (marker + (" " + word))) == [marker, word]
  {
    ExampleLastToken(word);
    TokenThen(marker, " " + word, [word]);
    TwoSpaces(marker + (" " + word));
  }

  lemma ExampleTokens(name: string, marker: string, word: string)
    requires name != [] && NoWhitespace(name) && marker != [] && NoWhitespace(marker)
    requires word != [] && NoWhitespace(word)
    ensures SplitWhitespace(name + ("  " + (marker + (" " + word)))) == [name, marker, word]
  {
    ExampleLastTwoTokens(marker, word);
    TokenThen(name, "  " + (marker + (" " + word)), [marker, word]);
  }

  /** A line starting with none of `C`, `M`, `N` and holding no `-` is
      not a banner line. */
  lemma NotHeader(body: string)
    requires body != [] && body[0] != 'C' && body[0] != 'M' && body[0] != 'N'
    requires forall i :: 0 <= i < |body| ==> body[i] != '-'
    ensures !IsHeader(body)
  {
    FirstCharDiffers(body, "Checking");
    FirstCharDiffers(body, "MCP servers");
    FirstCharDiffers(body, "No MCP");
    MissingFirstChar(body, "---");
  }

  lemma ExampleNotHeader()
    ensures !IsHeader("github:  \U{2713} Connected")
  {
    NotHeader("github:  \U{2713} Connected");
  }

  lemma ExampleName()
    ensures LineName(["github:", CheckMark, "Connected"]) == "github"
    ensures AnyConnected(["github:", CheckMark, "Connected"])
  {
    var parts := ["github:", CheckMark, "Connected"];
    assert ToLower("github:") != "connected";
    assert !IsMarker("github:");
    assert IsMarker(parts[1]);
    assert FirstMarker(parts) == 1;
    assert parts[..1] == ["github:"];
    assert ["github:"][..0] == [];
    assert "github:"[..6] == "github";
    assert TrimEndMatches("github:", ':') == "github";
  }

  lemma ExampleTrim()
    ensures Trim("  github:  \U{2713} Connected") == "github:  \U{2713} Connected"
  {
    var body := "github:  \U{2713} Connected";
    assert "  github:  \U{2713} Connected" == "  " + body;
    assert AllWhitespace("  ");
    TrimIndented("  ", body);
  }

  lemma ExampleSplit()
    ensures SplitWhitespace("github:  \U{2713} Connected") == ["github:", CheckMark, "Connected"]
  {
    assert "github:  \U{2713} Connected" == "github:" + ("  " + (CheckMark + (" " + "Connected")));
    ExampleTokens("github:", CheckMark, "Connected");
  }

  /** A typical listing line: the name loses its colon and the check mark
      marks it connected. */
  lemma ConnectedLineExample()
    ensures LineEntry("  github:  \U{2713} Connected") == Some(McpServer("github", true))
  {
    ExampleTrim();
    ExampleNotHeader();
    ExampleSplit();
    ExampleName();
  }

  // ------------------------------------------------- a two-server listing

  /** A line the first pass keeps, from the facts about its tokens. */
  lemma LineEntryOf(line: string, parts: seq<string>)
    requires Trim(line) != [] && !IsHeader(Trim(line))
    requires SplitWhitespace(Trim(line)) == parts && parts != [] && LineName(parts) != ""
    ensures LineEntry(line) == Some(McpServer(LineName(parts), AnyConnected(parts)))
  {
  }

  /** An indented line `name  marker word`: the name, connected when either
      of the other two tokens is a connected marker. */
  lemma ThreeTokenLine(name: string, marker: string, word: string)
    requires name != [] && NoWhitespace(name) && marker != [] && NoWhitespace(marker)
    requires word != [] && NoWhitespace(word)
    requires !IsHeader(name + ("  " + (marker + (" " + word))))
    requires !IsMarker(name) && IsMarker(marker) && name[|name| - 1] != ':'
    ensures LineEntry("  " + (name + ("  " + (marker + (" " + word)))))
            == Some(McpServer(name, IsConnectedMarker(marker) || IsConnectedMarker(word)))
  {
    var body := name + ("  " + (marker + (" " + word)));
    var line := "  " + body;
    assert body[0] == name[0] && body[|body| - 1] == word[|word| - 1];
    assert AllWhitespace("  ");
    TrimIndented("  ", body);
    ExampleTokens(name, marker, word);
    var parts := [name, marker, word];
    ThreeTokenMarker(parts);
    assert parts[..1] == [name] && [name][..0] == [];
    assert FirstName([name]) == name;
    ThreeTokenConnected(parts);
    LineEntryOf(line, parts);
  }

  lemma ThreeTokenMarker(parts: seq<string>)
    requires |parts| == 3 && !IsMarker(parts[0]) && IsMarker(parts[1])
    ensures FirstMarker(parts) == 1
  {
    assert FirstMarker(parts[1..]) == 0;
  }

  lemma ThreeTokenConnected(parts: seq<string>)
    requires |parts| == 3 && !IsMarker(parts[0])
    ensures AnyConnected(parts) <==> IsConnectedMarker(parts[1]) || IsConnectedMarker(parts[2])
  {
    if AnyConnected(parts) {
      var j :| 0 <= j < |parts| && IsConnectedMarker(parts[j]);
      assert j != 0;
    }
  }

  const AlphaLine: string := "  alpha  \U{2713} Connected"
  const BetaLine: string := "  beta  \U{2717} Disconnected"

  lemma AlphaTokens()
    ensures NoWhitespace("alpha") && NoWhitespace(CheckMark) && NoWhitespace("Connected")
    ensures !IsMarker("alpha") && IsMarker(CheckMark) && "alpha"[4] != ':'
  {
    assert |ToLower("alpha")| == 5 && ToLower("alpha")[0] == 'a' && "error"[0] == 'e';
  }

  lemma AlphaShape()
    ensures AlphaLine == "  " + ("alpha" + ("  " + (CheckMark + (" " + "Connected"))))
    ensures "alpha  \U{2713} Connected" == "alpha" + ("  " + (CheckMark + (" " + "Connected")))
    ensures '\n' !in AlphaLine && AlphaLine[|AlphaLine| - 1] == 'd'
  {
  }

  lemma BetaTokens()
    ensures NoWhitespace("beta") && NoWhitespace(BallotX) && NoWhitespace("Disconnected")
    ensures !IsMarker("beta") && IsMarker(BallotX) && "beta"[3] != ':'
  {
    assert |ToLower("beta")| == 4 && ToLower("beta")[0] == 'b';
  }

  lemma BetaDisconnected()
    ensures !IsConnectedMarker(BallotX) && !IsConnectedMarker("Disconnected")
  {
    assert |ToLower(BallotX)| == 1 && |ToLower("Disconnected")| == 12;
  }

  lemma BetaShape()
    ensures BetaLine == "  " + ("beta" + ("  " + (BallotX + (" " + "Disconnected"))))
    ensures "beta  \U{2717} Disconnected" == "beta" + ("  " + (BallotX + (" " + "Disconnected")))
    ensures '\n' !in BetaLine
  {
  }

  lemma AlphaLineEntry()
    ensures LineEntry(AlphaLine) == Some(McpServer("alpha", true))
  {
    AlphaTokens();
    AlphaShape();
    NotHeader("alpha  \U{2713} Connected");
    ThreeTokenLine("alpha", CheckMark, "Connected");
  }

  lemma BetaLineEntry()
    ensures LineEntry(BetaLine) == Some(McpServer("beta", false))
  {
    BetaTokens();
    BetaDisconnected();
    BetaShape();
    NotHeader("beta  \U{2717} Disconnected");
    ThreeTokenLine("beta", BallotX, "Disconnected");
  }

  lemma TwoLines(a: string, b: string)
    requires '\n' !in a && '\n' !in b && b != []
    requires a != [] && a[|a| - 1] != '\r'
    ensures Lines(a + "\n" + b) == [a, b]
  {
    LinesStep(a, b);
    LinesSingle(b);
  }

  lemma FirstPassTwo(a: string, b: string)
    ensures FirstPass([a, b]) == EntryList(a) + EntryList(b)
  {
    assert [a, b][..1] == [a] && [a][..0] == [];
    assert FirstPass([a]) == FirstPass([]) + EntryList(a);
    assert [] + EntryList(a) == EntryList(a);
  }

  lemma ConnectedCountTwo(s: McpServer, t: McpServer)
    ensures ConnectedCount([s, t]) == (if s.connected then 1 else 0) + (if t.connected then 1 else 0)
  {
    assert [s, t][..1] == [s] && [s][..0] == [];
  }

  /** Two lines the first pass keeps: both servers, in order, tallied. */
  lemma ParseTwoLines(a: string, b: string, s: McpServer, t: McpServer)
    requires '\n' !in a && '\n' !in b && a != [] && b != [] && a[|a| - 1] != '\r'
    requires LineEntry(a) == Some(s) && LineEntry(b) == Some(t)
    ensures ParseMcp(a + "\n" + b)
            == Some(McpInfo([s, t], (if s.connected then 1 else 0) + (if t.connected then 1 else 0), 2))
  {
    FirstPassOfTwo(a, b, s, t);
    ConnectedCountTwo(s, t);
    ParseMcpFirst(a + "\n" + b);
  }

  lemma FirstPassOfTwo(a: string, b: string, s: McpServer, t: McpServer)
    requires '\n' !in a && '\n' !in b && a != [] && b != [] && a[|a| - 1] != '\r'
    requires LineEntry(a) == Some(s) && LineEntry(b) == Some(t)
    ensures FirstPass(Lines(a + "\n" + b)) == [s, t]
  {
    TwoLines(a, b);
    FirstPassTwo(a, b);
  }

  /** When the first pass finds a server the second is not consulted. */
  lemma ParseMcpFirst(stdout: string)
    requires |FirstPass(Lines(stdout))| > 0
    ensures ParseMcp(stdout) == Some(McpInfo(FirstPass(Lines(stdout)), ConnectedCount(FirstPass(Lines(stdout))),
                                             |FirstPass(Lines(stdout))|))
  {
  }

  /** A connected and a disconnected server: two servers, one connected. */
  lemma TwoServerListing()
    ensures ParseMcp(AlphaLine + "\n" + BetaLine)
            == Some(McpInfo([McpServer("alpha", true), McpServer("beta", false)], 1, 2))
  {
    AlphaShape();
    BetaShape();
    AlphaLineEntry();
    BetaLineEntry();
    ParseTwoLines(AlphaLine, BetaLine, McpServer("alpha", true), McpServer("beta", false));
  }
}

/** The text of the status line (statusline-rs/src/main.rs, the
    `format_*` functions): up to four lines built from the snapshot, each
    a list of segments joined by a separator.

    The colour escapes come from a theme, passed in. The `{:.0}` rendering
    of a percentage and the comparison of the context percentage with the
    configured thresholds are floating-point operations, also passed in. */
module Layout {
  import opened Common
  import Json
  import Mcp
  import Containers
  import Teams
  import Session
  import UsageLimits
  import Snapshot

  /** The escapes a theme gives each colour. */
  datatype Theme = Theme(
    reset: string, green: string, yellow: string, blue: string, cyan: string,
    red: string, magenta: string, dim: string, brightGreen: string)

  datatype Emojis = Emojis(opus: string, sonnet: string, haiku: string, defaultModel: string)

  datatype Config = Config(emojis: Emojis, showContextWindow: bool)

  datatype ContextLevel = Critical | Warn | Normal

  /** Floating-point steps, supplied by the caller: `{:.0}` of a usage
      percentage and of the context percentage, and the context
      percentage's band against the configured thresholds. */
  datatype Floats = Floats(
    usagePercent: Json.Number -> string,
    contextPercent: F64 -> string,
    contextLevel: F64 -> ContextLevel)

  // ---------------------------------------------------------- model_emoji

  /** `model_emoji`. */
  function ModelEmoji(modelShort: string, e: Emojis): (r: string)
    ensures r == e.opus || r == e.sonnet || r == e.haiku || r == e.defaultModel
    ensures modelShort != "opus" && modelShort != "sonnet" && modelShort != "haiku" ==> r == e.defaultModel
  {
    if modelShort == "opus" then e.opus
    else if modelShort == "sonnet" then e.sonnet
    else if modelShort == "haiku" then e.haiku
    else e.defaultModel
  }

  /** The emoji follows the model family found in the model id. */
  lemma EmojiFollowsFamily(model: string, e: Emojis)
    ensures var lower := ToLower(model);
            var r := ModelEmoji(Session.ShortenModelName(model), e);
            (Contains(lower, "opus") ==> r == e.opus)
            && (!Contains(lower, "opus") && Contains(lower, "sonnet") ==> r == e.sonnet)
            && (!Contains(lower, "opus") && !Contains(lower, "sonnet") && Contains(lower, "haiku") ==> r == e.haiku)
            && (!Contains(lower, "opus") && !Contains(lower, "sonnet") && !Contains(lower, "haiku") ==> r == e.defaultModel)
  {
    Session.ShortenModelNameFamilies(model);
  }

  // --------------------------------------------------------- shorten_path

  /** `shorten_path` as written: any string prefix equal to the home
      directory is replaced by `~`. */
  function ShortenPathAsWritten(display: string, home: Option<string>): (r: string)
    ensures home.Some? && StartsWith(display, home.value) ==> r == "~" + display[|home.value|..]
    ensures !(home.Some? && StartsWith(display, home.value)) ==> r == display
  {
    if home.Some? && StartsWith(display, home.value) then "~" + display[|home.value|..] else display
  }

  /** A path lies under `home` when `home` is a prefix ending at a path
      component boundary. */
  predicate UnderHome(display: string, home: string) {
    StartsWith(display, home)
    && (|display| == |home| || display[|home|] == '/' || (home != [] && home[|home| - 1] == '/'))
  }

  /** `shorten_path` as intended: only a path inside the home directory is
      abbreviated. */
  function ShortenPath(display: string, home: Option<string>): (r: string)
    ensures home.Some? && UnderHome(display, home.value) ==> r == "~" + display[|home.value|..]
    ensures !(home.Some? && UnderHome(display, home.value)) ==> r == display
  {
    if home.Some? && UnderHome(display, home.value) then "~" + display[|home.value|..] else display
  }

  /** The abbreviation can be undone: `~` stands for the home directory,
      and what follows it starts a new path component. */
  lemma ShortenPathExpands(display: string, home: string)
    requires UnderHome(display, home)
    ensures var r := ShortenPath(display, Some(home));
            r[0] == '~' && home + r[1..] == display
            && (r[1..] == [] || r[1..][0] == '/' || home[|home| - 1] == '/')
  {
    var r := ShortenPath(display, Some(home));
    assert r[1..] == display[|home|..];
    assert display == display[..|home|] + display[|home|..];
  }

  /** As written, a home of `/home/al` abbreviates `/home/alice/src`. */
  lemma SiblingDirectoryAbbreviated()
    ensures ShortenPathAsWritten("/home/alice/src", Some("/home/al")) == "~ice/src"
  {
    assert "/home/alice/src"[..8] == "/home/al";
    assert "/home/alice/src"[8..] == "ice/src";
  }

  /** As intended, it is left alone, while the home directory itself and
      paths inside it are abbreviated. */
  lemma SiblingDirectoryKept()
    ensures ShortenPath("/home/alice/src", Some("/home/al")) == "/home/alice/src"
    ensures ShortenPath("/home/al/src", Some("/home/al")) == "~/src"
    ensures ShortenPath("/home/al", Some("/home/al")) == "~"
  {
    assert "/home/alice/src"[8] == 'i';
    assert "/home/al/src"[..8] == "/home/al";
    assert "/home/al/src"[8..] == "/src";
    assert "/home/al"[..8] == "/home/al";
  }

  // ---------------------------------------------------------------- line 1

  const Folder: string := " \U{1f4c1}"

  /** The repository mark: a green check when clean, a yellow cross when
      dirty. */
  function CleanMark(theme: Theme, isClean: bool): string {
    if isClean then theme.green + "\U{2713}" + theme.reset else theme.yellow + "\U{2717}" + theme.reset
  }

  /** `format_line1`: the folder, shortened by `shorten_path` as the program
      has it, and with a repository the branch and a clean or dirty mark. */
  function Line1(theme: Theme, data: Snapshot.StatusData, cwd: string, home: Option<string>): (r: string)
    ensures var folder := theme.blue + ShortenPathAsWritten(cwd, home) + theme.reset;
            StartsWith(r, folder) && |r| >= |folder| + |Folder| && r[|r| - |Folder|..] == Folder
    ensures var folder := theme.blue + ShortenPathAsWritten(cwd, home) + theme.reset;
            data.git.None? ==> r == folder + Folder
    ensures var folder := theme.blue + ShortenPathAsWritten(cwd, home) + theme.reset;
            data.git.Some? ==>
              r == folder + ("  " + theme.green + "(" + data.git.value.branch + ")" + theme.reset + " "
                             + CleanMark(theme, data.git.value.isClean) + Folder)
  {
    var r := theme.reset;
    var folder := ShortenPathAsWritten(cwd, home);
    match data.git
    case Some(git) =>
      var icon := if git.isClean then theme.green + "\U{2713}" + r else theme.yellow + "\U{2717}" + r;
      var s := theme.blue + folder + r + "  " + theme.green + "(" + git.branch + ")" + r + " " + icon + Folder;
      assert s == (theme.blue + folder + r) + ("  " + theme.green + "(" + git.branch + ")" + r + " " + icon + Folder);
      s
    case None =>
      theme.blue + folder + r + Folder
  }

  /** Outside a repository, with home `/home/al`, the folder shown for
      `/home/alice/src` is `~ice/src`: line 1 carries the string-prefix
      abbreviation of `shorten_path`. */
  lemma Line1SiblingDirectory(theme: Theme, data: Snapshot.StatusData)
    requires data.git.None?
    ensures Line1(theme, data, "/home/alice/src", Some("/home/al"))
            == theme.blue + "~ice/src" + theme.reset + Folder
  {
    SiblingDirectoryAbbreviated();
  }

  // ---------------------------------------------------------------- line 2

  function Separator(theme: Theme): string {
    " " + theme.dim + "\U{2502}" + theme.reset + " "
  }

  /** The `📄 +added • -removed` segment. */
  function DiffSegment(theme: Theme, added: nat, removed: nat): string {
    "\U{1f4c4} " + theme.green + "+" + NatToString(added) + theme.reset + " \U{2022} "
    + theme.red + "-" + NatToString(removed) + theme.reset
  }

  /** The diff segment, if any (statusline-rs/src/main.rs:228-243). */
  function DiffPart(theme: Theme, data: Snapshot.StatusData): (r: seq<string>)
    ensures |r| <= 1
  {
    var added := data.linesAdded.GetOr(0);
    var removed := data.linesRemoved.GetOr(0);
    if added > 0 || removed > 0 then [DiffSegment(theme, added, removed)]
    else if data.git.Some? && !data.git.value.isClean
    then [DiffSegment(theme, data.git.value.added + data.git.value.modified, data.git.value.deleted)]
    else []
  }

  /** The segments of `format_line2`, in order. */
  function Line2Parts(cfg: Config, theme: Theme, floats: Floats, data: Snapshot.StatusData): seq<string> {
    var model := [theme.cyan + ModelEmoji(data.session.modelShort, cfg.emojis) + " " + data.session.modelDisplay + theme.reset];
    var cc := if data.session.ccVersion != [] then [theme.magenta + "CC:" + data.session.ccVersion + theme.reset] else [];
    var ctx :=
      if cfg.showContextWindow && data.context.usagePercent.Some? then
        var pct := data.context.usagePercent.value;
        var color := match floats.contextLevel(pct)
          case Critical => theme.red
          case Warn => theme.yellow
          case Normal => theme.green;
        [color + "Ctx: " + floats.contextPercent(pct) + "%" + theme.reset]
      else [];
    model + DiffPart(theme, data) + cc + ctx
  }

  function Line2(cfg: Config, theme: Theme, floats: Floats, data: Snapshot.StatusData): string {
    Join(Line2Parts(cfg, theme, floats, data), Separator(theme))
  }

  /** Line 2 opens with the model; the stdin line counts win when either is
      positive, then a dirty repository's counts, else no diff segment; the
      version and the context percentage follow when present. */
  lemma Line2Shape(cfg: Config, theme: Theme, floats: Floats, data: Snapshot.StatusData)
    ensures var parts := Line2Parts(cfg, theme, floats, data);
            var diff := DiffPart(theme, data);
            var added := data.linesAdded.GetOr(0);
            var removed := data.linesRemoved.GetOr(0);
            parts[0] == theme.cyan + ModelEmoji(data.session.modelShort, cfg.emojis) + " "
                        + data.session.modelDisplay + theme.reset
            && StartsWith(Line2(cfg, theme, floats, data), parts[0])
            && parts[1..1 + |diff|] == diff
            && (added > 0 || removed > 0 ==> diff == [DiffSegment(theme, added, removed)])
            && (added == 0 && removed == 0 && data.git.Some? && !data.git.value.isClean
                ==> diff == [DiffSegment(theme, data.git.value.added + data.git.value.modified, data.git.value.deleted)])
            && (added == 0 && removed == 0 && (data.git.None? || data.git.value.isClean) ==> diff == [])
            && |parts| == 1 + |diff| + (if data.session.ccVersion != [] then 1 else 0)
                          + (if cfg.showContextWindow && data.context.usagePercent.Some? then 1 else 0)
  {
    JoinStartsWith(Line2Parts(cfg, theme, floats, data), Separator(theme));
  }

  // ---------------------------------------------------------------- line 3

  function ServerText(theme: Theme, s: Mcp.McpServer): string {
    if s.connected then theme.brightGreen + s.name + theme.reset
    else theme.red + "\U{1b}[9m" + s.name + "\U{1b}[29m" + theme.reset
  }

  function ServerTexts(theme: Theme, servers: seq<Mcp.McpServer>): (r: seq<string>)
    ensures |r| == |servers|
    ensures forall i :: 0 <= i < |servers| ==> r[i] == ServerText(theme, servers[i])
  {
    seq(|servers|, i requires 0 <= i < |servers| => ServerText(theme, servers[i]))
  }

  /** The MCP section, if any server is known. */
  function McpPart(theme: Theme, mcp: Mcp.McpInfo): (r: seq<string>)
    ensures |r| == (if mcp.total > 0 then 1 else 0)
  {
    if mcp.total > 0 then
      var color := if mcp.connected == mcp.total then theme.brightGreen
                   else if mcp.connected > 0 then theme.yellow
                   else theme.red;
      [color + "MCP:" + NatToString(mcp.connected) + "/" + NatToString(mcp.total) + theme.reset + ": "
       + Join(ServerTexts(theme, mcp.servers), ", ")]
    else []
  }

  /** The 5-hour and 7-day pieces of the usage section. */
  function UsagePieces(floats: Floats, usage: UsageLimits.UsageLimitsInfo): (r: seq<string>)
    ensures |r| == (if usage.fiveHourReset.Some? then 1 else 0) + (if usage.sevenDayReset.Some? then 1 else 0)
  {
    var five :=
      if usage.fiveHourReset.Some? then
        var pct := if usage.fiveHourPercent.Some? then " " + floats.usagePercent(usage.fiveHourPercent.value) + "%" else "";
        ["\U{23f1} 5H at " + usage.fiveHourReset.value + " (" + usage.fiveHourRemaining.GetOr("?") + ")" + pct]
      else [];
    var seven :=
      if usage.sevenDayReset.Some? then
        var pct := if usage.sevenDayPercent.Some? then " (" + floats.usagePercent(usage.sevenDayPercent.value) + "%)" else "";
        ["7DAY " + usage.sevenDayReset.value + pct]
      else [];
    five + seven
  }

  function Line3Parts(theme: Theme, floats: Floats, data: Snapshot.StatusData): seq<string> {
    var usage := UsagePieces(floats, data.usage);
    McpPart(theme, data.mcp) + (if usage != [] then [Join(usage, " \U{2022} ")] else [])
  }

  /** `format_line3`. */
  function Line3(theme: Theme, floats: Floats, data: Snapshot.StatusData): string {
    var parts := Line3Parts(theme, floats, data);
    if parts == [] then "" else Join(parts, Separator(theme))
  }

  /** Line 3 is empty exactly when no MCP server is known and neither reset
      time is. */
  lemma Line3EmptyIff(theme: Theme, floats: Floats, data: Snapshot.StatusData)
    ensures Line3(theme, floats, data) == []
            <==> data.mcp.total == 0 && data.usage.fiveHourReset.None? && data.usage.sevenDayReset.None?
  {
    var parts := Line3Parts(theme, floats, data);
    var usage := UsagePieces(floats, data.usage);
    if usage != [] {
      assert usage[0] != [];
      JoinNonEmpty(usage, " \U{2022} ");
    }
    if parts != [] {
      assert parts[0] != [];
      JoinNonEmpty(parts, Separator(theme));
    }
  }

  // ---------------------------------------------------------------- line 4

  /** Sum of the member counts of the teams. */
  function TotalAgents(teams: seq<Teams.Team>): nat {
    if teams == [] then 0 else TotalAgents(teams[..|teams| - 1]) + teams[|teams| - 1].memberCount
  }

  lemma {:induction false} TotalAgentsAppend(a: seq<Teams.Team>, b: seq<Teams.Team>)
    ensures TotalAgents(a + b) == TotalAgents(a) + TotalAgents(b)
    decreases |b|
  {
    if b == [] {
      assert a + b == a;
    } else {
      assert (a + b)[..|a + b| - 1] == a + b[..|b| - 1];
      TotalAgentsAppend(a, b[..|b| - 1]);
    }
  }

  /** No team has more members than the total. */
  lemma {:induction false} TotalAgentsBound(teams: seq<Teams.Team>, i: nat)
    requires i < |teams|
    ensures teams[i].memberCount <= TotalAgents(teams)
  {
    if i < |teams| - 1 {
      TotalAgentsBound(teams[..|teams| - 1], i);
    }
  }

  function ContainerText(theme: Theme, c: Containers.Container): string {
    (if c.status == Containers.Running then theme.green else theme.red) + c.name + ": " + c.status + theme.reset
  }

  function ContainerTexts(theme: Theme, cs: seq<Containers.Container>): (r: seq<string>)
    ensures |r| == |cs|
    ensures forall i :: 0 <= i < |cs| ==> r[i] == ContainerText(theme, cs[i])
  {
    seq(|cs|, i requires 0 <= i < |cs| => ContainerText(theme, cs[i]))
  }

  function Line4Parts(theme: Theme, data: Snapshot.StatusData): (r: seq<string>)
    ensures forall i :: 0 <= i < |r| ==> r[i] != []
  {
    var wts := data.worktrees.worktrees;
    var cs := data.containers.containers;
    var ts := data.teams.teams;
    var worktrees :=
      if wts != [] then
        var branch := if data.git.Some? then data.git.value.branch else "?";
        [theme.green + "\U{1f333} " + branch + " [" + NatToString(|wts|) + " worktrees]" + theme.reset]
      else [];
    var containers := if cs != [] then ["\U{1f433} " + Join(ContainerTexts(theme, cs), ", ")] else [];
    var teams :=
      if ts != [] then [theme.cyan + "\U{1f465} team: " + NatToString(TotalAgents(ts)) + " agents" + theme.reset]
      else [];
    var r := worktrees + containers + teams;
    assert forall i :: 0 <= i < |worktrees| ==> r[i] == worktrees[i];
    r
  }

  /** `format_line4`. */
  function Line4(theme: Theme, data: Snapshot.StatusData): string {
    Join(Line4Parts(theme, data), "  ")
  }

  /** Line 4 is empty exactly when there is no worktree, no container and
      no team; with teams, it ends with the total of their member counts. */
  lemma Line4EmptyIff(theme: Theme, data: Snapshot.StatusData)
    ensures Line4(theme, data) == []
            <==> data.worktrees.worktrees == [] && data.containers.containers == [] && data.teams.teams == []
    ensures data.teams.teams != [] ==>
              var parts := Line4Parts(theme, data);
              parts[|parts| - 1]
              == theme.cyan + "\U{1f465} team: " + NatToString(TotalAgents(data.teams.teams)) + " agents" + theme.reset
  {
    var parts := Line4Parts(theme, data);
    if parts != [] {
      JoinNonEmpty(parts, "  ");
    }
  }

  // ----------------------------------------------------- format_statusline

  /** The lines of the output: lines 1 and 2, then 3 and 4 when not empty. */
  function StatuslineLines(cfg: Config, theme: Theme, floats: Floats, data: Snapshot.StatusData,
                           cwd: string, home: Option<string>): seq<string> {
    var line3 := Line3(theme, floats, data);
    var line4 := Line4(theme, data);
    [Line1(theme, data, cwd, home), Line2(cfg, theme, floats, data)]
    + (if line3 != [] then [line3] else []) + (if line4 != [] then [line4] else [])
  }

  /** `format_statusline`. */
  function FormatStatusline(cfg: Config, theme: Theme, floats: Floats, data: Snapshot.StatusData,
                            cwd: string, home: Option<string>): string {
    Join(StatuslineLines(cfg, theme, floats, data, cwd, home), "\n")
  }

  /** Two to four non-empty lines: line 3 appears exactly when it has an MCP
      or usage section, line 4 exactly when there is a worktree, a container
      or a team. */
  lemma StatuslineShape(cfg: Config, theme: Theme, floats: Floats, data: Snapshot.StatusData,
                        cwd: string, home: Option<string>)
    ensures var lines := StatuslineLines(cfg, theme, floats, data, cwd, home);
            var hasLine3 := data.mcp.total != 0 || data.usage.fiveHourReset.Some? || data.usage.sevenDayReset.Some?;
            var hasLine4 := data.worktrees.worktrees != [] || data.containers.containers != [] || data.teams.teams != [];
            2 <= |lines| <= 4
            && |lines| == 2 + (if hasLine3 then 1 else 0) + (if hasLine4 then 1 else 0)
            && lines[0] == Line1(theme, data, cwd, home) && lines[1] == Line2(cfg, theme, floats, data)
            && (hasLine3 ==> lines[2] == Line3(theme, floats, data))
            && (hasLine4 ==> lines[|lines| - 1] == Line4(theme, data))
            && forall i :: 0 <= i < |lines| ==> lines[i] != []
  {
    Line3EmptyIff(theme, floats, data);
    Line4EmptyIff(theme, data);
    Line2NonEmpty(cfg, theme, floats, data);
    Assembled(Line1(theme, data, cwd, home), Line2(cfg, theme, floats, data),
              Line3(theme, floats, data), Line4(theme, data));
  }

  lemma Line2NonEmpty(cfg: Config, theme: Theme, floats: Floats, data: Snapshot.StatusData)
    ensures Line2(cfg, theme, floats, data) != []
  {
    var parts := Line2Parts(cfg, theme, floats, data);
    assert parts[0] != [] by {
      assert |" "| == 1;
    }
    JoinNonEmpty(parts, Separator(theme));
  }

  /** The two fixed lines followed by the optional ones that are not empty. */
  lemma Assembled(l1: string, l2: string, l3: string, l4: string)
    requires l1 != [] && l2 != []
    ensures var lines := [l1, l2] + (if l3 != [] then [l3] else []) + (if l4 != [] then [l4] else []);
            |lines| == 2 + (if l3 != [] then 1 else 0) + (if l4 != [] then 1 else 0)
            && lines[0] == l1 && lines[1] == l2
            && (l3 != [] ==> lines[2] == l3)
            && (l4 != [] ==> lines[|lines| - 1] == l4)
            && forall i :: 0 <= i < |lines| ==> lines[i] != []
  {
  }

  /** When no line holds a newline, splitting the output on newlines gives
      the lines back. */
  lemma StatuslineSplits(cfg: Config, theme: Theme, floats: Floats, data: Snapshot.StatusData,
                         cwd: string, home: Option<string>)
    requires var lines := StatuslineLines(cfg, theme, floats, data, cwd, home);
             forall i :: 0 <= i < |lines| ==> '\n' !in lines[i]
    ensures Split(FormatStatusline(cfg, theme, floats, data, cwd, home), '\n')
            == StatuslineLines(cfg, theme, floats, data, cwd, home)
  {
    SplitJoin(StatuslineLines(cfg, theme, floats, data, cwd, home), '\n');
  }
}

/** Agent teams (statusline-rs/src/teams.rs): one team per sub-directory of
    `~/.claude/teams` that holds a `config.json`, with the member count read
    from that file.

    The directory listing is an input: `None` when there is no home
    directory, when `~/.claude/teams` is not a directory or when it cannot
    be listed; inside it, `None` stands for an entry the listing failed to
    read. Each entry carries its decoded `config.json` (`None` when the
    file cannot be read or is not JSON). */
module Teams {
  import opened Common
  import opened Json

  /** A listed entry: its file name (`None` when it is not valid UTF-8),
      whether it is a directory, whether it holds `config.json`, and that
      file decoded. */
  datatype DirEntry = DirEntry(name: Option<string>, isDir: bool, hasConfig: bool, config: Option<Value>)

  datatype Team = Team(name: string, memberCount: nat)

  datatype TeamsInfo = TeamsInfo(teams: seq<Team>)

  /** `read_team_member_count`. */
  function ReadTeamMemberCount(config: Option<Value>): Option<nat> {
    match AsArray(GetIn(config, "members"))
    case Some(members) => Some(|members|)
    case None =>
      match AsArray(GetIn(config, "agents"))
      case Some(agents) => Some(|agents|)
      case None => AsU64(GetIn(config, "member_count"))
  }

  /** `members` wins over `agents`, which wins over `member_count`; nothing
      else gives a count. */
  lemma MemberCountPriority(config: Option<Value>)
    ensures var members := AsArray(GetIn(config, "members"));
            var agents := AsArray(GetIn(config, "agents"));
            var count := AsU64(GetIn(config, "member_count"));
            var r := ReadTeamMemberCount(config);
            (members.Some? ==> r == Some(|members.value|))
            && (members.None? && agents.Some? ==> r == Some(|agents.value|))
            && (members.None? && agents.None? ==> r == count)
            && (r.None? <==> members.None? && agents.None? && count.None?)
  {
  }

  lemma MembersBeforeMemberCount()
    ensures ReadTeamMemberCount(Some(Object([("member_count", Num(UInt(5))), ("members", Array([Null, Null]))])))
            == Some(2)
  {
    var ms := [("member_count", Num(UInt(5))), ("members", Array([Null, Null]))];
    assert Member(ms[1..], "members") == Some(Array([Null, Null]));
  }

  /** An entry that becomes a team. */
  predicate IsTeamDir(e: Option<DirEntry>) {
    e.Some? && e.value.isDir && e.value.hasConfig
  }

  function TeamOf(e: DirEntry): Team {
    Team(e.name.GetOr("unknown"), ReadTeamMemberCount(e.config).GetOr(0))
  }

  /** The teams found in a listing, in listing order. */
  function Listed(entries: seq<Option<DirEntry>>): (r: seq<Team>)
    ensures |r| <= |entries|
  {
    if entries == [] then []
    else
      var last := entries[|entries| - 1];
      Listed(entries[..|entries| - 1]) + (if IsTeamDir(last) then [TeamOf(last.value)] else [])
  }

  /** The loop in `collect`. */
  method CollectFrom(entries: seq<Option<DirEntry>>) returns (info: TeamsInfo)
    ensures info.teams == Listed(entries)
  {
    var teams: seq<Team> := [];
    for i := 0 to |entries|
      invariant teams == Listed(entries[..i])
    {
      assert entries[..i + 1][..i] == entries[..i];
      var entry := entries[i];
      if entry.None? {
        continue;
      }
      var e := entry.value;
      if !e.isDir {
        continue;
      }
      if !e.hasConfig {
        continue;
      }
      var name := e.name.GetOr("unknown");
      var count := ReadTeamMemberCount(e.config).GetOr(0);
      teams := teams + [Team(name, count)];
    }
    assert entries[..|entries|] == entries;
    return TeamsInfo(teams);
  }

  /** `collect`. */
  method Collect(listing: Option<seq<Option<DirEntry>>>) returns (info: TeamsInfo)
    ensures listing.None? ==> info.teams == []
    ensures listing.Some? ==> info.teams == Listed(listing.value)
  {
    if listing.None? {
      return TeamsInfo([]);
    }
    info := CollectFrom(listing.value);
  }

  /** Listing splits over the listing: each entry contributes on its own. */
  lemma {:induction false} ListedAppend(a: seq<Option<DirEntry>>, b: seq<Option<DirEntry>>)
    ensures Listed(a + b) == Listed(a) + Listed(b)
    decreases |b|
  {
    if b == [] {
      assert a + b == a;
    } else {
      assert (a + b)[..|a + b| - 1] == a + b[..|b| - 1];
      ListedAppend(a, b[..|b| - 1]);
    }
  }

  /** A single entry is a team exactly when it is a readable directory with a
      `config.json`; its name falls back to `unknown` and its count to 0. */
  lemma ListedSingle(e: Option<DirEntry>)
    ensures Listed([e]) == if IsTeamDir(e) then [Team(e.value.name.GetOr("unknown"),
                                                     ReadTeamMemberCount(e.value.config).GetOr(0))]
                           else []
  {
    assert [e][..0] == [];
  }

  /** A team whose config is unreadable, or matches none of the three
      count rules, is still listed, with count 0. */
  lemma UnreadableConfigCountsZero(e: DirEntry)
    requires e.isDir && e.hasConfig && ReadTeamMemberCount(e.config).None?
    ensures Listed([Some(e)]) == [Team(e.name.GetOr("unknown"), 0)]
  {
    ListedSingle(Some(e));
  }

  /** The number of teams is the number of qualifying entries. */
  function CountTeamDirs(entries: seq<Option<DirEntry>>): nat {
    if entries == [] then 0
    else CountTeamDirs(entries[..|entries| - 1]) + (if IsTeamDir(entries[|entries| - 1]) then 1 else 0)
  }

  lemma {:induction false} ListedLength(entries: seq<Option<DirEntry>>)
    ensures |Listed(entries)| == CountTeamDirs(entries)
  {
    if entries != [] {
      ListedLength(entries[..|entries| - 1]);
    }
  }
}

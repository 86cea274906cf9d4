/** The Docker container collector (statusline-rs/src/containers.rs): status
    classification, the `docker ps` and `docker stats` line parsers, the join
    of stats onto containers, the `|`-separated cache format and the
    cache-first collection.

    Each `docker` run is an input: `None` when the command cannot be started
    or exits non-zero, otherwise its standard output. CPU percentages are
    `F64` tokens (see `Common.ParseF64`). */
module Containers {
  import opened Common
  import opened TtlCache

  datatype Container = Container(
    name: string,
    status: string,
    image: string,
    cpuPercent: Option<F64>,
    memUsage: Option<string>)

  datatype ContainerInfo = ContainerInfo(containers: seq<Container>)

  datatype ContainerStats = ContainerStats(cpuPercent: Option<F64>, memUsage: Option<string>)

  const CacheKey: string := "docker_containers"
  const CacheTtl: nat := 30

  // ------------------------------------------------------ simplify_status

  const Running: string := "running"

  /** The substring rules tried after the `up` prefix rule, in order; each
      state is named by the word it looks for. */
  const StateWords: seq<string> := ["exited", "created", "paused", "restarting", "removing", "dead"]

  function SimplifyStatus(status: string): (r: string)
    ensures r == Running || r in StateWords || r == status
  {
    SimplifyLower(ToLower(status), status)
  }

  /** The rules of `simplify_status` on the lower-cased status: the `up`
      prefix first, then the state words in order. */
  function SimplifyLower(lower: string, status: string): string {
    if StartsWith(lower, "up") then Running else WordRules(lower, status, 0)
  }

  /** The substring rules from rule `from` on; the status itself when none
      matches. */
  function WordRules(lower: string, status: string, from: nat): string
    requires from <= |StateWords|
    decreases |StateWords| - from
  {
    if from == |StateWords| then status
    else if Contains(lower, StateWords[from]) then StateWords[from]
    else WordRules(lower, status, from + 1)
  }

  /** Index of the first of `words` contained in `lower`, looking from
      `from`; the number of words when none is. */
  function FirstWordIn(lower: string, words: seq<string>, from: nat): (k: nat)
    requires from <= |words|
    ensures from <= k <= |words|
    ensures forall j :: from <= j < k ==> !Contains(lower, words[j])
    ensures k < |words| ==> Contains(lower, words[k])
    decreases |words| - from
  {
    if from == |words| || Contains(lower, words[from]) then from
    else FirstWordIn(lower, words, from + 1)
  }

  /** The rules are tried in order and the first that matches decides: an
      `up` prefix gives running; otherwise the first state word contained
      in the lower-cased status; otherwise the status itself. */
  lemma SimplifyStatusFirstMatch(status: string)
    ensures var lower := ToLower(status);
            var k := FirstWordIn(lower, StateWords, 0);
            SimplifyStatus(status)
            == if StartsWith(lower, "up") then Running
               else if k < |StateWords| then StateWords[k]
               else status
  {
    WordRulesFirstMatch(ToLower(status), status, 0);
  }

  lemma {:induction false} WordRulesFirstMatch(lower: string, status: string, from: nat)
    requires from <= |StateWords|
    ensures var k := FirstWordIn(lower, StateWords, from);
            WordRules(lower, status, from) == if k < |StateWords| then StateWords[k] else status
    decreases |StateWords| - from
  {
    if from < |StateWords| && !Contains(lower, StateWords[from]) {
      WordRulesFirstMatch(lower, status, from + 1);
    }
  }

  /** Any status whose first two letters read `up` is running, whatever
      follows; Docker shows a paused container as `Up … (Paused)`, so such
      a status never reaches the `paused` rule. */
  lemma UpPrefixIsRunning(status: string)
    requires |status| >= 2 && ToLowerChar(status[0]) == 'u' && ToLowerChar(status[1]) == 'p'
    ensures SimplifyStatus(status) == Running
  {
    assert ToLower(status)[..2] == "up";
  }

  lemma PausedUpIsRunning()
    ensures SimplifyStatus("Up 2 hours (Paused)") == Running
  {
    UpPrefixIsRunning("Up 2 hours (Paused)");
  }

  lemma ExitedExample()
    ensures SimplifyStatus("Exited (0) 2 days ago") == "exited"
  {
    var lower := ToLower("Exited (0) 2 days ago");
    assert lower[0] == 'e';
    FirstCharDiffers(lower, "up");
    assert lower[..6] == "exited";
    assert Find(lower, "exited") == Some(0);
  }

  // ------------------------------------------------------------ docker ps

  /** One `docker ps` line, `name<TAB>status<TAB>image`; the image keeps
      any further tabs. */
  function PsEntry(line: string): (r: Option<Container>)
    ensures r.Some? ==> r.value.cpuPercent.None? && r.value.memUsage.None?
  {
    var parts := SplitN(line, 3, '\t');
    if |parts| == 3 then Some(Container(parts[0], SimplifyStatus(parts[1]), parts[2], None, None))
    else None
  }

  /** A line parses exactly when it holds two tabs: the name and the raw
      status are the text before them and the image everything after. */
  lemma PsEntryOf(name: string, raw: string, image: string)
    requires '\t' !in name && '\t' !in raw
    ensures PsEntry(name + "\t" + raw + "\t" + image)
            == Some(Container(name, SimplifyStatus(raw), image, None, None))
  {
    var rest := raw + "\t" + image;
    assert name + "\t" + raw + "\t" + image == name + ['\t'] + rest;
    SplitNFirstPiece(name, 3, '\t', rest);
    SplitNFirstPiece(raw, 2, '\t', image);
    assert SplitN(image, 1, '\t') == [image];
  }

  lemma PsEntryNeedsTwoTabs(line: string) returns (raw: string)
    requires PsEntry(line).Some?
    ensures '\t' !in raw && '\t' !in PsEntry(line).value.name
    ensures line == PsEntry(line).value.name + "\t" + raw + "\t" + PsEntry(line).value.image
    ensures PsEntry(line).value.status == SimplifyStatus(raw)
  {
    var parts := SplitN(line, 3, '\t');
    raw := parts[1];
    SplitNJoin(line, 3, '\t');
    assert parts == [parts[0], parts[1], parts[2]];
    JoinThree(parts[0], parts[1], parts[2], "\t");
  }

  lemma JoinThree(a: string, b: string, c: string, sep: string)
    ensures Join([a, b, c], sep) == a + sep + b + sep + c
  {
    assert [b, c][1..] == [c];
    assert Join([b, c], sep) == b + sep + c;
    assert [a, b, c][1..] == [b, c];
    assert Join([a, b, c], sep) == a + sep + (b + sep + c);
    assert a + sep + (b + sep + c) == a + sep + b + sep + c;
  }

  /** The first pass over the `docker ps` lines. */
  function PsContainers(lines: seq<string>): (r: seq<Container>)
    ensures forall i :: 0 <= i < |r| ==> r[i].cpuPercent.None? && r[i].memUsage.None?
  {
    if lines == [] then []
    else
      var e := PsEntry(lines[|lines| - 1]);
      PsContainers(lines[..|lines| - 1]) + (if e.Some? then [e.value] else [])
  }

  /** Names of the running containers, in order. */
  function RunningNames(cs: seq<Container>): (r: seq<string>)
    ensures forall x :: x in r ==> exists i :: 0 <= i < |cs| && cs[i].name == x && cs[i].status == Running
  {
    if cs == [] then []
    else
      var prev := RunningNames(cs[..|cs| - 1]);
      var last := cs[|cs| - 1];
      assert forall i :: 0 <= i < |cs| - 1 ==> cs[..|cs| - 1][i] == cs[i];
      prev + (if last.status == Running then [last.name] else [])
  }

  /** Every running container is listed. */
  lemma {:induction false} RunningNamesComplete(cs: seq<Container>, i: nat)
    requires i < |cs| && cs[i].status == Running
    ensures cs[i].name in RunningNames(cs)
  {
    if i < |cs| - 1 {
      assert cs[..|cs| - 1][i] == cs[i];
      RunningNamesComplete(cs[..|cs| - 1], i);
    }
  }

  /** The parsing loop of `collect_fresh`. */
  method ParsePsOutput(stdout: string) returns (cs: seq<Container>, running: seq<string>)
    ensures cs == PsContainers(Lines(stdout))
    ensures running == RunningNames(cs)
  {
    var lines := Lines(stdout);
    cs := [];
    running := [];
    for i := 0 to |lines|
      invariant cs == PsContainers(lines[..i])
      invariant running == RunningNames(cs)
    {
      assert lines[..i + 1][..i] == lines[..i];
      var parts := SplitN(lines[i], 3, '\t');
      if |parts| == 3 {
        var c := Container(parts[0], SimplifyStatus(parts[1]), parts[2], None, None);
        if c.status == "running" {
          running := running + [c.name];
        }
        assert (cs + [c])[..|cs|] == cs;
        cs := cs + [c];
      }
    }
    assert lines[..|lines|] == lines;
  }

  // --------------------------------------------------------- docker stats

  /** One `docker stats` line, `name<TAB>cpu%<TAB>memory`. */
  function StatsEntry(line: string): (r: Option<(string, ContainerStats)>)
    ensures r.Some? ==> r.value.1.memUsage.Some?
  {
    var parts := SplitN(line, 3, '\t');
    if |parts| == 3 then
      Some((parts[0], ContainerStats(ParseF64(TrimEndMatches(parts[1], '%')), Some(parts[2]))))
    else None
  }

  /** The map built from the stats lines: only tracked names, and a later
      line for the same name replaces an earlier one. */
  function StatsMap(lines: seq<string>, names: seq<string>): (m: map<string, ContainerStats>)
    ensures forall k :: k in m ==> k in names && m[k].memUsage.Some?
  {
    if lines == [] then map[]
    else
      var prev := StatsMap(lines[..|lines| - 1], names);
      var e := StatsEntry(lines[|lines| - 1]);
      if e.Some? && e.value.0 in names then prev[e.value.0 := e.value.1] else prev
  }

  /** What `fetch_container_stats` returns; a failed run gives no stats. */
  function StatsSpec(names: seq<string>, out: Option<string>): map<string, ContainerStats> {
    if out.None? then map[] else StatsMap(Lines(out.value), names)
  }

  /** The stats of a tracked name come from the last line that names it. */
  lemma {:induction false} StatsLastLineWins(lines: seq<string>, names: seq<string>, i: nat)
    requires i < |lines| && StatsEntry(lines[i]).Some? && StatsEntry(lines[i]).value.0 in names
    requires forall j :: i < j < |lines| && StatsEntry(lines[j]).Some?
               ==> StatsEntry(lines[j]).value.0 != StatsEntry(lines[i]).value.0
    ensures StatsEntry(lines[i]).value.0 in StatsMap(lines, names)
    ensures StatsMap(lines, names)[StatsEntry(lines[i]).value.0] == StatsEntry(lines[i]).value.1
  {
    var init := lines[..|lines| - 1];
    if i < |lines| - 1 {
      assert init[i] == lines[i];
      assert forall j :: i < j < |init| ==> init[j] == lines[j];
      StatsLastLineWins(init, names, i);
    }
  }

  method FetchContainerStats(names: seq<string>, out: Option<string>)
    returns (m: map<string, ContainerStats>)
    ensures m == StatsSpec(names, out)
  {
    m := map[];
    if out.None? {
      return;
    }
    var lines := Lines(out.value);
    for i := 0 to |lines|
      invariant m == StatsMap(lines[..i], names)
    {
      assert lines[..i + 1][..i] == lines[..i];
      var parts := SplitN(lines[i], 3, '\t');
      if |parts| == 3 {
        var name := parts[0];
        var cpu := ParseF64(TrimEndMatches(parts[1], '%'));
        if name in names {
          m := m[name := ContainerStats(cpu, Some(parts[2]))];
        }
      }
    }
    assert lines[..|lines|] == lines;
  }

  // ----------------------------------------------------------------- join

  function WithStats(c: Container, stats: map<string, ContainerStats>): Container {
    if c.name in stats
    then c.(cpuPercent := stats[c.name].cpuPercent, memUsage := stats[c.name].memUsage)
    else c
  }

  /** The containers after the join: same order, names, states and images;
      stats copied exactly for the names the map holds. */
  function Joined(cs: seq<Container>, stats: map<string, ContainerStats>): (r: seq<Container>)
    ensures |r| == |cs|
    ensures forall i :: 0 <= i < |r| ==>
              r[i].name == cs[i].name && r[i].status == cs[i].status && r[i].image == cs[i].image
    ensures forall i :: 0 <= i < |r| && cs[i].name in stats ==>
              r[i].cpuPercent == stats[cs[i].name].cpuPercent && r[i].memUsage == stats[cs[i].name].memUsage
    ensures forall i :: 0 <= i < |r| && cs[i].name !in stats ==> r[i] == cs[i]
  {
    seq(|cs|, i requires 0 <= i < |cs| => WithStats(cs[i], stats))
  }

  /** The in-place join loop of `collect_fresh`. */
  method JoinStats(a: array<Container>, stats: map<string, ContainerStats>)
    modifies a
    ensures a[..] == Joined(old(a[..]), stats)
  {
    for i := 0 to a.Length
      invariant forall j :: 0 <= j < i ==> a[j] == WithStats(old(a[j]), stats)
      invariant forall j :: i <= j < a.Length ==> a[j] == old(a[j])
    {
      var c := a[i];
      if c.name in stats {
        a[i] := c.(cpuPercent := stats[c.name].cpuPercent, memUsage := stats[c.name].memUsage);
      }
    }
  }

  /** After a fresh collection a container carries memory usage exactly when
      its name is running and the stats run reported it; a stopped container
      whose name no running container shares never does. */
  lemma FreshStatsOnlyForRunning(lines: seq<string>, out: Option<string>, i: nat)
    requires i < |PsContainers(lines)|
    ensures var cs := PsContainers(lines);
            var stats := StatsSpec(RunningNames(cs), out);
            Joined(cs, stats)[i].memUsage.Some? <==> cs[i].name in stats
    ensures var cs := PsContainers(lines);
            cs[i].name !in RunningNames(cs) ==> Joined(cs, StatsSpec(RunningNames(cs), out))[i] == cs[i]
  {
  }

  // ------------------------------------------------------------ the cache

  /** The CPU figure as it was read, or the empty field for an absent
      value; the normalisation done by `f64`'s `Display` is not modelled. */
  function CpuText(cpu: Option<F64>): string {
    if cpu.Some? then cpu.value.literal else ""
  }

  /** One cache line, `name|status|image|cpu|mem`. */
  function Record(c: Container): string {
    c.name + "|" + c.status + "|" + c.image + "|" + CpuText(c.cpuPercent) + "|" + c.memUsage.GetOr("")
  }

  function Fields(c: Container): seq<string> {
    [c.name, c.status, c.image, CpuText(c.cpuPercent), c.memUsage.GetOr("")]
  }

  lemma RecordIsJoin(c: Container)
    ensures Record(c) == Join(Fields(c), "|")
  {
    var f := Fields(c);
    assert f[1..][1..][1..][1..] == [f[4]];
    var j3 := f[3] + "|" + f[4];
    assert Join(f[1..][1..][1..], "|") == j3;
    var j2 := f[2] + "|" + j3;
    assert Join(f[1..][1..], "|") == j2;
    var j1 := f[1] + "|" + j2;
    assert Join(f[1..], "|") == j1;
    assert Join(f, "|") == f[0] + "|" + j1;
    assert f[0] + "|" + j1 == f[0] + "|" + f[1] + "|" + f[2] + "|" + f[3] + "|" + f[4];
  }

  function Records(cs: seq<Container>): (r: seq<string>)
    ensures |r| == |cs| && forall i :: 0 <= i < |cs| ==> r[i] == Record(cs[i])
  {
    seq(|cs|, i requires 0 <= i < |cs| => Record(cs[i]))
  }

  /** What `serialize_container_info` writes. */
  function Serialized(info: ContainerInfo): string {
    Join(Records(info.containers), "\n")
  }

  method SerializeContainerInfo(info: ContainerInfo) returns (s: string)
    ensures s == Serialized(info)
  {
    var lines: seq<string> := [];
    for i := 0 to |info.containers|
      invariant lines == Records(info.containers[..i])
    {
      var c := info.containers[i];
      var cpu := if c.cpuPercent.Some? then c.cpuPercent.value.literal else "";
      var mem := if c.memUsage.Some? then c.memUsage.value else "";
      lines := lines + [c.name + "|" + c.status + "|" + c.image + "|" + cpu + "|" + mem];
    }
    assert info.containers[..|info.containers|] == info.containers;
    s := Join(lines, "\n");
  }

  /** One cached line back into a container; empty fields are absent. */
  function ParseRecord(line: string): Option<Container> {
    var parts := Split(line, '|');
    if |parts| == 5 then
      Some(Container(parts[0], parts[1], parts[2],
                     if parts[3] == [] then None else ParseF64(parts[3]),
                     if parts[4] == [] then None else Some(parts[4])))
    else None
  }

  function CachedContainers(lines: seq<string>): seq<Container> {
    if lines == [] then []
    else
      var c := ParseRecord(lines[|lines| - 1]);
      CachedContainers(lines[..|lines| - 1]) + (if c.Some? then [c.value] else [])
  }

  /** What `parse_cached_output` returns: `None` when no line survives. */
  function ParseCached(cached: string): Option<ContainerInfo> {
    var cs := CachedContainers(Lines(cached));
    if cs == [] then None else Some(ContainerInfo(cs))
  }

  method ParseCachedOutput(cached: string) returns (r: Option<ContainerInfo>)
    ensures r == ParseCached(cached)
  {
    var lines := Lines(cached);
    var cs: seq<Container> := [];
    for i := 0 to |lines|
      invariant cs == CachedContainers(lines[..i])
    {
      assert lines[..i + 1][..i] == lines[..i];
      var parts := Split(lines[i], '|');
      if |parts| == 5 {
        var cpu := if parts[3] == [] then None else ParseF64(parts[3]);
        var mem := if parts[4] == [] then None else Some(parts[4]);
        cs := cs + [Container(parts[0], parts[1], parts[2], cpu, mem)];
      }
    }
    assert lines[..|lines|] == lines;
    if cs == [] {
      return None;
    }
    return Some(ContainerInfo(cs));
  }

  predicate NoSeparator(s: string) {
    '|' !in s && '\n' !in s
  }

  /** The side conditions under which a container survives the cache: no
      field holds `|` or a newline, the CPU token reads back, and the memory
      text is neither empty (it would read back as absent) nor ends in a
      carriage return (`lines` would drop it). */
  predicate Cacheable(c: Container) {
    NoSeparator(c.name) && NoSeparator(c.status) && NoSeparator(c.image)
    && (c.cpuPercent.Some? ==> IsDecimalLiteral(c.cpuPercent.value.literal))
    && (c.memUsage.Some? ==> c.memUsage.value != [] && NoSeparator(c.memUsage.value)
                             && c.memUsage.value[|c.memUsage.value| - 1] != '\r')
  }

  lemma DecimalHasNoSeparator(s: string)
    requires IsDecimalLiteral(s)
    ensures NoSeparator(s) && s != []
  {
  }

  lemma RecordSplits(c: Container)
    requires Cacheable(c)
    ensures Split(Record(c), '|') == Fields(c)
  {
    var f := Fields(c);
    if c.cpuPercent.Some? {
      DecimalHasNoSeparator(c.cpuPercent.value.literal);
    }
    RecordIsJoin(c);
    assert forall i :: 0 <= i < |f| ==> '|' !in f[i];
    SplitJoin(f, '|');
  }

  lemma RecordIsPlain(c: Container)
    requires Cacheable(c)
    ensures IsPlainLine(Record(c)) && Record(c) != []
  {
    if c.cpuPercent.Some? {
      DecimalHasNoSeparator(c.cpuPercent.value.literal);
    }
    var mem := c.memUsage.GetOr("");
    var front := c.name + "|" + c.status + "|" + c.image + "|" + CpuText(c.cpuPercent) + "|";
    assert Record(c) == front + mem;
    assert '\n' !in Record(c);
    if mem != [] {
      assert Record(c)[|Record(c)| - 1] == mem[|mem| - 1];
    } else {
      assert Record(c)[|Record(c)| - 1] == '|';
    }
  }

  lemma RecordRoundTrip(c: Container)
    requires Cacheable(c)
    ensures ParseRecord(Record(c)) == Some(c)
    ensures IsPlainLine(Record(c)) && Record(c) != []
  {
    RecordSplits(c);
    RecordIsPlain(c);
    if c.cpuPercent.Some? {
      DecimalHasNoSeparator(c.cpuPercent.value.literal);
    }
  }

  lemma {:induction false} CachedRecords(cs: seq<Container>)
    requires forall i :: 0 <= i < |cs| ==> Cacheable(cs[i])
    ensures CachedContainers(Records(cs)) == cs
  {
    if cs != [] {
      var init, last := cs[..|cs| - 1], cs[|cs| - 1];
      assert cs == init + [last];
      RecordsSnoc(init, last);
      CachedContainersSnoc(Records(init), Record(last));
      RecordRoundTrip(last);
      assert forall i :: 0 <= i < |init| ==> init[i] == cs[i];
      CachedRecords(init);
      assert cs == init + [last];
    }
  }

  lemma RecordsSnoc(cs: seq<Container>, c: Container)
    ensures Records(cs + [c]) == Records(cs) + [Record(c)]
  {
  }

  lemma CachedContainersSnoc(lines: seq<string>, line: string)
    ensures CachedContainers(lines + [line])
            == CachedContainers(lines) + (if ParseRecord(line).Some? then [ParseRecord(line).value] else [])
  {
    assert (lines + [line])[..|lines|] == lines;
  }

  /** Reading the cache back gives the same containers, as long as there is
      at least one and each satisfies the side conditions. */
  lemma CacheRoundTrip(info: ContainerInfo)
    requires info.containers != []
    requires forall i :: 0 <= i < |info.containers| ==> Cacheable(info.containers[i])
    ensures ParseCached(Serialized(info)) == Some(info)
  {
    var rs := Records(info.containers);
    forall i | 0 <= i < |rs|
      ensures IsPlainLine(rs[i]) && rs[i] != []
    {
      RecordRoundTrip(info.containers[i]);
    }
    LinesJoin(rs);
    CachedRecords(info.containers);
  }

  /** No containers serialise to the empty text, which reads back as
      `None`. */
  lemma EmptySerialisesToNothing()
    ensures Serialized(ContainerInfo([])) == ""
    ensures ParseCached("") == None
  {
  }

  // -------------------------------------------------------------- collect

  datatype ContainerSource = FromCache | FromDocker

  /** What `collect_fresh` returns and leaves in the cache. */
  function FreshSpec(st: Store, ps: Option<string>, statsOut: Option<string>): (ContainerInfo, Store) {
    if ps.None? then (ContainerInfo([]), st)
    else
      var cs := PsContainers(Lines(ps.value));
      var running := RunningNames(cs);
      var joined := if running == [] then cs else Joined(cs, StatsSpec(running, statsOut));
      var info := ContainerInfo(joined);
      (info, AfterSet(st, CacheKey, Serialized(info)))
  }

  /** What `collect` returns, where the answer came from, and the cache
      afterwards. */
  function CollectSpec(st: Store, ps: Option<string>, statsOut: Option<string>)
    : (ContainerInfo, ContainerSource, Store)
  {
    var cached := Lookup(st, CacheKey, CacheTtl);
    var st1 := AfterGet(st, CacheKey, CacheTtl);
    if cached.Some? && ParseCached(cached.value).Some? then (ParseCached(cached.value).value, FromCache, st1)
    else
      var live := FreshSpec(st1, ps, statsOut);
      (live.0, FromDocker, live.1)
  }

  method CollectFresh(cache: Cache, ps: Option<string>, statsOut: Option<string>)
    returns (info: ContainerInfo)
    modifies cache`files
    ensures (info, cache.State()) == FreshSpec(old(cache.State()), ps, statsOut)
  {
    if ps.None? {
      return ContainerInfo([]);
    }
    var cs, running := ParsePsOutput(ps.value);
    if |running| > 0 {
      var stats := FetchContainerStats(running, statsOut);
      var a := new Container[|cs|](i requires 0 <= i < |cs| => cs[i]);
      assert a[..] == cs;
      JoinStats(a, stats);
      cs := a[..];
    }
    info := ContainerInfo(cs);
    var text := SerializeContainerInfo(info);
    cache.Set(CacheKey, text);
  }

  method Collect(cache: Cache, ps: Option<string>, statsOut: Option<string>)
    returns (info: ContainerInfo, source: ContainerSource)
    modifies cache`files
    ensures (info, source, cache.State()) == CollectSpec(old(cache.State()), ps, statsOut)
  {
    var cached := cache.Get(CacheKey, CacheTtl);
    if cached.Some? {
      var parsed := ParseCachedOutput(cached.value);
      if parsed.Some? {
        return parsed.value, FromCache;
      }
    }
    info := CollectFresh(cache, ps, statsOut);
    source := FromDocker;
  }

  // --------------------------------------------------------------- lemmas

  /** When `docker ps` fails the answer is empty and the cache is left as
      it was. */
  lemma PsFailureWritesNothing(st: Store, statsOut: Option<string>)
    ensures FreshSpec(st, None, statsOut) == (ContainerInfo([]), st)
  {
  }

  /** A listing that survives the cache is served from it by the next run
      made before it expires, without calling Docker. */
  lemma ListingServedFromCache(st: Store, out: string, statsOut: Option<string>,
                               ps2: Option<string>, statsOut2: Option<string>)
    requires st.writable
    requires var info := FreshSpec(st, Some(out), statsOut).0;
             info.containers != [] && forall i :: 0 <= i < |info.containers| ==> Cacheable(info.containers[i])
    ensures var (info, st2) := FreshSpec(st, Some(out), statsOut);
            CollectSpec(st2, ps2, statsOut2) == (info, FromCache, st2)
  {
    var (info, st2) := FreshSpec(st, Some(out), statsOut);
    SetThenGet(st, CacheKey, Serialized(info), CacheTtl);
    CacheRoundTrip(info);
  }

  /** An empty listing is cached as the empty text, and the next run reads
      it as a miss and asks Docker again. */
  lemma EmptyListingAsksAgain(st: Store, out: string, statsOut: Option<string>,
                              ps2: Option<string>, statsOut2: Option<string>)
    requires st.writable
    requires FreshSpec(st, Some(out), statsOut).0.containers == []
    ensures CollectSpec(FreshSpec(st, Some(out), statsOut).1, ps2, statsOut2).1 == FromDocker
  {
    var (info, st2) := FreshSpec(st, Some(out), statsOut);
    assert Serialized(info) == "";
    SetThenGet(st, CacheKey, "", CacheTtl);
  }
}

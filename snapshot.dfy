/** The snapshot assembled by `collect_all` (statusline-rs/src/main.rs):
    fields computed from standard input are filled in at once, every other
    field starts at its default, and the tagged results of the six workers
    are written into their own fields as they arrive.

    The threads and the channel are replaced by the sequence of messages in
    arrival order; a payload of a type other than the one its tag expects
    (a failed downcast) is `OtherPayload`. */
module Snapshot {
  import opened Common
  import Git
  import Mcp
  import UsageLimits
  import Containers
  import Teams
  import Session

  /** `worktrees.rs` is not part of this model; only its result type is. */
  datatype Worktree = Worktree(name: string, branch: Option<string>)
  datatype WorktreeInfo = WorktreeInfo(worktrees: seq<Worktree>)

  /** The context-window figures computed from standard input; the
      percentage is a floating-point value kept as an opaque token. */
  datatype ContextInfo = ContextInfo(usagePercent: Option<F64>, tokensUsed: Option<nat>, tokensMax: Option<nat>)

  datatype StatusData = StatusData(
    git: Option<Git.GitInfo>,
    session: Session.SessionInfo,
    mcp: Mcp.McpInfo,
    context: ContextInfo,
    usage: UsageLimits.UsageLimitsInfo,
    containers: Containers.ContainerInfo,
    worktrees: WorktreeInfo,
    teams: Teams.TeamsInfo,
    linesAdded: Option<nat>,
    linesRemoved: Option<nat>)

  datatype Payload =
    | GitPayload(git: Option<Git.GitInfo>)
    | McpPayload(mcp: Mcp.McpInfo)
    | UsagePayload(usage: UsageLimits.UsageLimitsInfo)
    | ContainersPayload(containers: Containers.ContainerInfo)
    | WorktreesPayload(worktrees: WorktreeInfo)
    | TeamsPayload(teams: Teams.TeamsInfo)
    | OtherPayload

  datatype Message = Message(tag: string, payload: Payload)

  /** The record before draining (statusline-rs/src/main.rs:113-124). */
  function Initial(session: Session.SessionInfo, context: ContextInfo,
                   linesAdded: Option<nat>, linesRemoved: Option<nat>): (d: StatusData)
    ensures d.git.None? && d.mcp == Mcp.McpInfo([], 0, 0) && d.usage == UsageLimits.Default
    ensures d.containers.containers == [] && d.worktrees.worktrees == [] && d.teams.teams == []
    ensures d.session == session && d.context == context
    ensures d.linesAdded == linesAdded && d.linesRemoved == linesRemoved
  {
    StatusData(None, session, Mcp.McpInfo([], 0, 0), context, UsageLimits.Default,
               Containers.ContainerInfo([]), WorktreeInfo([]), Teams.TeamsInfo([]), linesAdded, linesRemoved)
  }

  /** A message is taken when its tag is known and its payload has the
      type that tag expects. */
  predicate Accepted(m: Message) {
    Fits(m.tag, m.payload)
  }

  /** The payload type each known tag expects. */
  predicate Fits(tag: string, p: Payload) {
    (tag == "git" && p.GitPayload?) || (tag == "mcp" && p.McpPayload?) || (tag == "usage" && p.UsagePayload?)
    || (tag == "containers" && p.ContainersPayload?) || (tag == "worktrees" && p.WorktreesPayload?)
    || (tag == "teams" && p.TeamsPayload?)
  }

  /** Writes a payload into the field its type belongs to. */
  function Store(d: StatusData, p: Payload): StatusData {
    match p
    case GitPayload(v) => d.(git := v)
    case McpPayload(v) => d.(mcp := v)
    case UsagePayload(v) => d.(usage := v)
    case ContainersPayload(v) => d.(containers := v)
    case WorktreesPayload(v) => d.(worktrees := v)
    case TeamsPayload(v) => d.(teams := v)
    case OtherPayload => d
  }

  /** One arm of the `match` in the drain loop. */
  function Apply(d: StatusData, m: Message): StatusData {
    if Accepted(m) then Store(d, m.payload) else d
  }

  /** An accepted message overwrites its own field and nothing else; any
      other message changes nothing. */
  lemma ApplyFrame(d: StatusData, m: Message)
    ensures !Accepted(m) ==> Apply(d, m) == d
    ensures var r := Apply(d, m);
            r.session == d.session && r.context == d.context
            && r.linesAdded == d.linesAdded && r.linesRemoved == d.linesRemoved
    ensures var r := Apply(d, m);
            (m.tag != "git" ==> r.git == d.git) && (m.tag != "mcp" ==> r.mcp == d.mcp)
            && (m.tag != "usage" ==> r.usage == d.usage)
            && (m.tag != "containers" ==> r.containers == d.containers)
            && (m.tag != "worktrees" ==> r.worktrees == d.worktrees)
            && (m.tag != "teams" ==> r.teams == d.teams)
    ensures Accepted(m) && m.tag == "git" ==> Apply(d, m).git == m.payload.git
    ensures Accepted(m) && m.tag == "mcp" ==> Apply(d, m).mcp == m.payload.mcp
    ensures Accepted(m) && m.tag == "usage" ==> Apply(d, m).usage == m.payload.usage
    ensures Accepted(m) && m.tag == "containers" ==> Apply(d, m).containers == m.payload.containers
    ensures Accepted(m) && m.tag == "worktrees" ==> Apply(d, m).worktrees == m.payload.worktrees
    ensures Accepted(m) && m.tag == "teams" ==> Apply(d, m).teams == m.payload.teams
  {
  }

  /** The messages applied in arrival order. */
  function Drain(d: StatusData, ms: seq<Message>): StatusData {
    if ms == [] then d else Apply(Drain(d, ms[..|ms| - 1]), ms[|ms| - 1])
  }

  /** The drain loop of `collect_all`. */
  method CollectAll(session: Session.SessionInfo, context: ContextInfo,
                    linesAdded: Option<nat>, linesRemoved: Option<nat>,
                    arrivals: seq<Message>) returns (data: StatusData)
    ensures data == Drain(Initial(session, context, linesAdded, linesRemoved), arrivals)
  {
    data := Initial(session, context, linesAdded, linesRemoved);
    for i := 0 to |arrivals|
      invariant data == Drain(Initial(session, context, linesAdded, linesRemoved), arrivals[..i])
    {
      assert arrivals[..i + 1][..i] == arrivals[..i];
      var m := arrivals[i];
      if m.tag == "git" {
        if m.payload.GitPayload? {
          data := data.(git := m.payload.git);
        }
      } else if m.tag == "mcp" {
        if m.payload.McpPayload? {
          data := data.(mcp := m.payload.mcp);
        }
      } else if m.tag == "usage" {
        if m.payload.UsagePayload? {
          data := data.(usage := m.payload.usage);
        }
      } else if m.tag == "containers" {
        if m.payload.ContainersPayload? {
          data := data.(containers := m.payload.containers);
        }
      } else if m.tag == "worktrees" {
        if m.payload.WorktreesPayload? {
          data := data.(worktrees := m.payload.worktrees);
        }
      } else if m.tag == "teams" {
        if m.payload.TeamsPayload? {
          data := data.(teams := m.payload.teams);
        }
      }
    }
    assert arrivals[..|arrivals|] == arrivals;
  }

  // ------------------------------------------------------ arrival order

  /** The payload of the last accepted message with this tag. */
  function LastAccepted(ms: seq<Message>, tag: string): (r: Option<Payload>)
    ensures r.Some? ==> Fits(tag, r.value)
  {
    if ms == [] then None
    else if ms[|ms| - 1].tag == tag && Accepted(ms[|ms| - 1]) then Some(ms[|ms| - 1].payload)
    else LastAccepted(ms[..|ms| - 1], tag)
  }

  /** What is found was sent, and nothing is found when nothing fitting
      was sent. */
  lemma {:induction false} LastAcceptedSent(ms: seq<Message>, tag: string)
    ensures var r := LastAccepted(ms, tag);
            (r.Some? ==> exists i :: 0 <= i < |ms| && ms[i].tag == tag && Accepted(ms[i]) && ms[i].payload == r.value)
            && (r.None? ==> forall i :: 0 <= i < |ms| ==> !(ms[i].tag == tag && Accepted(ms[i])))
  {
    if ms != [] && !(ms[|ms| - 1].tag == tag && Accepted(ms[|ms| - 1])) {
      var init := ms[..|ms| - 1];
      LastAcceptedSent(init, tag);
      assert forall i :: 0 <= i < |init| ==> init[i] == ms[i];
    }
  }

  /** The reference reading of the drain: every field holds the payload of
      the last accepted message for its tag, or its starting value. */
  function Overlay(d: StatusData, ms: seq<Message>): StatusData {
    var git := LastAccepted(ms, "git");
    var mcp := LastAccepted(ms, "mcp");
    var usage := LastAccepted(ms, "usage");
    var containers := LastAccepted(ms, "containers");
    var worktrees := LastAccepted(ms, "worktrees");
    var teams := LastAccepted(ms, "teams");
    d.(git := if git.Some? then git.value.git else d.git,
       mcp := if mcp.Some? then mcp.value.mcp else d.mcp,
       usage := if usage.Some? then usage.value.usage else d.usage,
       containers := if containers.Some? then containers.value.containers else d.containers,
       worktrees := if worktrees.Some? then worktrees.value.worktrees else d.worktrees,
       teams := if teams.Some? then teams.value.teams else d.teams)
  }

  lemma LastAcceptedSnoc(ms: seq<Message>, m: Message, tag: string)
    ensures LastAccepted(ms + [m], tag)
            == if m.tag == tag && Accepted(m) then Some(m.payload) else LastAccepted(ms, tag)
  {
    assert (ms + [m])[..|ms|] == ms;
  }

  /** A message that is not accepted leaves the overlay as it is. */
  lemma OverlaySkips(d: StatusData, ms: seq<Message>, m: Message)
    requires !Accepted(m)
    ensures Overlay(d, ms + [m]) == Overlay(d, ms)
  {
    LastAcceptedSnoc(ms, m, "git");
    LastAcceptedSnoc(ms, m, "mcp");
    LastAcceptedSnoc(ms, m, "usage");
    LastAcceptedSnoc(ms, m, "containers");
    LastAcceptedSnoc(ms, m, "worktrees");
    LastAcceptedSnoc(ms, m, "teams");
  }

  /** An accepted message sets its own field of the overlay. */
  lemma OverlayTakes(d: StatusData, ms: seq<Message>, m: Message)
    requires Accepted(m)
    ensures Overlay(d, ms + [m]) == Store(Overlay(d, ms), m.payload)
  {
    LastAcceptedSnoc(ms, m, "git");
    LastAcceptedSnoc(ms, m, "mcp");
    LastAcceptedSnoc(ms, m, "usage");
    LastAcceptedSnoc(ms, m, "containers");
    LastAcceptedSnoc(ms, m, "worktrees");
    LastAcceptedSnoc(ms, m, "teams");
    var o := Overlay(d, ms);
    var o' := Overlay(d, ms + [m]);
    if m.tag == "git" {
      assert o' == o.(git := m.payload.git);
    } else if m.tag == "mcp" {
      assert o' == o.(mcp := m.payload.mcp);
    } else if m.tag == "usage" {
      assert o' == o.(usage := m.payload.usage);
    } else if m.tag == "containers" {
      assert o' == o.(containers := m.payload.containers);
    } else if m.tag == "worktrees" {
      assert o' == o.(worktrees := m.payload.worktrees);
    } else {
      assert o' == o.(teams := m.payload.teams);
    }
  }

  lemma OverlayStep(d: StatusData, ms: seq<Message>, m: Message)
    ensures Apply(Overlay(d, ms), m) == Overlay(d, ms + [m])
  {
    if Accepted(m) {
      OverlayTakes(d, ms, m);
    } else {
      OverlaySkips(d, ms, m);
    }
  }

  /** The drain is the overlay: the last accepted message of each tag wins. */
  lemma {:induction false} DrainIsOverlay(d: StatusData, ms: seq<Message>)
    ensures Drain(d, ms) == Overlay(d, ms)
  {
    if ms != [] {
      var init := ms[..|ms| - 1];
      DrainIsOverlay(d, init);
      OverlayStep(d, init, ms[|ms| - 1]);
      assert init + [ms[|ms| - 1]] == ms;
    }
  }

  predicate DistinctTags(ms: seq<Message>) {
    forall i, j :: 0 <= i < j < |ms| ==> ms[i].tag != ms[j].tag
  }

  /** With distinct tags, the message accepted for a tag is the only one. */
  lemma LastAcceptedUnique(ms: seq<Message>, i: nat)
    requires DistinctTags(ms) && i < |ms| && Accepted(ms[i])
    ensures LastAccepted(ms, ms[i].tag) == Some(ms[i].payload)
  {
    LastAcceptedSent(ms, ms[i].tag);
  }

  /** Reordering messages with distinct tags does not change what is
      accepted for any tag. */
  lemma LastAcceptedReordered(ms: seq<Message>, ms': seq<Message>, tag: string)
    requires multiset(ms) == multiset(ms') && DistinctTags(ms) && DistinctTags(ms')
    ensures LastAccepted(ms, tag) == LastAccepted(ms', tag)
  {
    LastAcceptedSent(ms, tag);
    LastAcceptedSent(ms', tag);
    match LastAccepted(ms, tag)
    case Some(p) =>
      var i :| 0 <= i < |ms| && ms[i].tag == tag && Accepted(ms[i]) && ms[i].payload == p;
      assert ms[i] in multiset(ms');
      var j :| 0 <= j < |ms'| && ms'[j] == ms[i];
      LastAcceptedUnique(ms', j);
    case None =>
      forall j | 0 <= j < |ms'|
        ensures !(ms'[j].tag == tag && Accepted(ms'[j]))
      {
        assert ms'[j] in multiset(ms);
      }
  }

  /** Order of arrival does not matter when the tags are distinct. */
  lemma ArrivalOrderIrrelevant(d: StatusData, ms: seq<Message>, ms': seq<Message>)
    requires multiset(ms) == multiset(ms') && DistinctTags(ms) && DistinctTags(ms')
    ensures Drain(d, ms) == Drain(d, ms')
  {
    DrainIsOverlay(d, ms);
    DrainIsOverlay(d, ms');
    LastAcceptedReordered(ms, ms', "git");
    LastAcceptedReordered(ms, ms', "mcp");
    LastAcceptedReordered(ms, ms', "usage");
    LastAcceptedReordered(ms, ms', "containers");
    LastAcceptedReordered(ms, ms', "worktrees");
    LastAcceptedReordered(ms, ms', "teams");
  }

  /** The one message each worker sends (statusline-rs/src/main.rs:76-109). */
  function WorkerMessages(git: Option<Git.GitInfo>, mcp: Mcp.McpInfo, usage: UsageLimits.UsageLimitsInfo,
                          containers: Containers.ContainerInfo, worktrees: WorktreeInfo,
                          teams: Teams.TeamsInfo): (ms: seq<Message>)
    ensures |ms| == 6 && DistinctTags(ms)
    ensures forall i :: 0 <= i < |ms| ==> Accepted(ms[i])
  {
    [Message("git", GitPayload(git)), Message("mcp", McpPayload(mcp)), Message("usage", UsagePayload(usage)),
     Message("containers", ContainersPayload(containers)), Message("worktrees", WorktreesPayload(worktrees)),
     Message("teams", TeamsPayload(teams))]
  }

  /** Whatever order the six results arrive in, every field holds its
      worker's result. */
  lemma EveryArrivalOrder(session: Session.SessionInfo, context: ContextInfo,
                          linesAdded: Option<nat>, linesRemoved: Option<nat>,
                          git: Option<Git.GitInfo>, mcp: Mcp.McpInfo, usage: UsageLimits.UsageLimitsInfo,
                          containers: Containers.ContainerInfo, worktrees: WorktreeInfo,
                          teams: Teams.TeamsInfo, arrivals: seq<Message>)
    requires multiset(arrivals) == multiset(WorkerMessages(git, mcp, usage, containers, worktrees, teams))
    requires DistinctTags(arrivals)
    ensures Drain(Initial(session, context, linesAdded, linesRemoved), arrivals)
            == StatusData(git, session, mcp, context, usage, containers, worktrees, teams, linesAdded, linesRemoved)
  {
    var ws := WorkerMessages(git, mcp, usage, containers, worktrees, teams);
    var init := Initial(session, context, linesAdded, linesRemoved);
    ArrivalOrderIrrelevant(init, arrivals, ws);
    DrainIsOverlay(init, ws);
    LastAcceptedUnique(ws, 0);
    LastAcceptedUnique(ws, 1);
    LastAcceptedUnique(ws, 2);
    LastAcceptedUnique(ws, 3);
    LastAcceptedUnique(ws, 4);
    LastAcceptedUnique(ws, 5);
  }
}

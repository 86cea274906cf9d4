/** Git status (statusline-rs/src/git.rs): the branch name, the tally of
    changed files and the ahead/behind counts against `origin`.

    The repository library is replaced by a value that holds what the code
    asks of it: the work directory, HEAD, the result of the status query
    (one flag set per entry, `None` when the query fails), the references
    that resolve, and the graph query as a function. */
module Git {
  import opened Common

  /** The status flags an entry can carry. */
  datatype Flag =
    | IndexNew | IndexModified | IndexDeleted | IndexRenamed | IndexTypechange
    | WtNew | WtModified | WtDeleted | WtRenamed | WtTypechange
    | Ignored | Conflicted

  /** An object id in its 40-digit hexadecimal form. */
  type OidText = s: string | |s| == 40 witness "0000000000000000000000000000000000000000"

  datatype Head = Head(isBranch: bool, shorthand: Option<string>, target: Option<OidText>)

  datatype Repository = Repository(
    workdir: Option<string>,
    head: Option<Head>,
    statuses: Option<seq<set<Flag>>>,
    references: map<string, Option<OidText>>,
    aheadBehind: (OidText, OidText) -> Option<(nat, nat)>)

  datatype GitInfo = GitInfo(
    branch: string,
    isClean: bool,
    added: nat,
    deleted: nat,
    modified: nat,
    ahead: nat,
    behind: nat,
    repoPath: string)

  /** The ten index and work-tree change flags; any of them makes the
      repository dirty. */
  const ChangeFlags: set<Flag> :=
    {IndexNew, IndexModified, IndexDeleted, IndexRenamed, IndexTypechange,
     WtNew, WtModified, WtDeleted, WtRenamed, WtTypechange}
  const NewFlags: set<Flag> := {IndexNew, WtNew}
  const DeletedFlags: set<Flag> := {IndexDeleted, WtDeleted}
  const ModifiedFlags: set<Flag> := {IndexModified, WtModified}

  // ----------------------------------------------------------- status tally

  predicate NoChanges(entries: seq<set<Flag>>) {
    forall k :: 0 <= k < |entries| ==> entries[k] * ChangeFlags == {}
  }

  /** Number of entries carrying at least one of `flags`. */
  function CountWith(entries: seq<set<Flag>>, flags: set<Flag>): nat {
    if entries == [] then 0
    else CountWith(entries[..|entries| - 1], flags) + (if entries[|entries| - 1] * flags != {} then 1 else 0)
  }

  /** Each entry adds at most one to a counter. */
  lemma {:induction false} CountWithBound(entries: seq<set<Flag>>, flags: set<Flag>)
    ensures CountWith(entries, flags) <= |entries|
  {
    if entries != [] {
      CountWithBound(entries[..|entries| - 1], flags);
    }
  }

  /** A counter only sees the entries that carry its flags. */
  lemma {:induction false} CountWithNone(entries: seq<set<Flag>>, flags: set<Flag>)
    requires forall k :: 0 <= k < |entries| ==> entries[k] * flags == {}
    ensures CountWith(entries, flags) == 0
  {
    if entries != [] {
      CountWithNone(entries[..|entries| - 1], flags);
    }
  }

  /** The counters do not depend on how the entries are grouped. */
  lemma {:induction false} CountWithAppend(a: seq<set<Flag>>, b: seq<set<Flag>>, flags: set<Flag>)
    ensures CountWith(a + b, flags) == CountWith(a, flags) + CountWith(b, flags)
    decreases |b|
  {
    if b == [] {
      assert a + b == a;
    } else {
      assert (a + b)[..|a + b| - 1] == a + b[..|b| - 1];
      CountWithAppend(a, b[..|b| - 1], flags);
    }
  }

  /** The loop over the status entries. */
  method TallyStatuses(entries: seq<set<Flag>>) returns (clean: bool, added: nat, deleted: nat, modified: nat)
    ensures clean <==> NoChanges(entries)
    ensures added == CountWith(entries, NewFlags) && deleted == CountWith(entries, DeletedFlags)
            && modified == CountWith(entries, ModifiedFlags)
  {
    clean := true;
    added, deleted, modified := 0, 0, 0;
    for i := 0 to |entries|
      invariant clean <==> NoChanges(entries[..i])
      invariant added == CountWith(entries[..i], NewFlags)
      invariant deleted == CountWith(entries[..i], DeletedFlags)
      invariant modified == CountWith(entries[..i], ModifiedFlags)
    {
      var s := entries[i];
      assert entries[..i + 1][..i] == entries[..i];
      if s * {IndexNew, IndexModified, IndexDeleted, IndexRenamed, IndexTypechange} != {} {
        clean := false;
      }
      if s * {WtNew, WtModified, WtDeleted, WtRenamed, WtTypechange} != {} {
        clean := false;
      }
      if s * NewFlags != {} {
        added := added + 1;
      }
      if s * DeletedFlags != {} {
        deleted := deleted + 1;
      }
      if s * ModifiedFlags != {} {
        modified := modified + 1;
      }
    }
    assert entries[..|entries|] == entries;
  }

  /** A clean status has every counter at zero. */
  lemma CleanHasNoCounts(entries: seq<set<Flag>>)
    requires NoChanges(entries)
    ensures CountWith(entries, NewFlags) == 0 && CountWith(entries, DeletedFlags) == 0
            && CountWith(entries, ModifiedFlags) == 0
  {
    assert forall k :: 0 <= k < |entries| ==> entries[k] * NewFlags == {} by {
      forall k | 0 <= k < |entries| ensures entries[k] * NewFlags == {} {
        assert NewFlags <= ChangeFlags;
      }
    }
    assert forall k :: 0 <= k < |entries| ==> entries[k] * DeletedFlags == {} by {
      forall k | 0 <= k < |entries| ensures entries[k] * DeletedFlags == {} {
        assert DeletedFlags <= ChangeFlags;
      }
    }
    assert forall k :: 0 <= k < |entries| ==> entries[k] * ModifiedFlags == {} by {
      forall k | 0 <= k < |entries| ensures entries[k] * ModifiedFlags == {} {
        assert ModifiedFlags <= ChangeFlags;
      }
    }
    CountWithNone(entries, NewFlags);
    CountWithNone(entries, DeletedFlags);
    CountWithNone(entries, ModifiedFlags);
  }

  /** A renamed-only entry makes the status dirty without counting. */
  lemma RenameIsDirtyButUncounted()
    ensures !NoChanges([{IndexRenamed}])
    ensures CountWith([{IndexRenamed}], NewFlags) == 0 && CountWith([{IndexRenamed}], DeletedFlags) == 0
            && CountWith([{IndexRenamed}], ModifiedFlags) == 0
  {
    var e := [{IndexRenamed}];
    assert e[..0] == [];
    assert IndexRenamed in e[0] * ChangeFlags;
  }

  // ------------------------------------------------------------ branch name

  /** `get_branch_name`. */
  function BranchName(repo: Repository): (r: string)
    ensures r == "unknown"
            || (repo.head.Some? && repo.head.value.isBranch && repo.head.value.shorthand == Some(r))
            || (repo.head.Some? && repo.head.value.target.Some?
                && r == "detached:" + repo.head.value.target.value[..7])
  {
    match repo.head
    case None => "unknown"
    case Some(h) =>
      if h.isBranch && h.shorthand.Some? then h.shorthand.value
      else if h.target.Some? then "detached:" + h.target.value[..7]
      else "unknown"
  }

  /** Which of the three forms the branch takes, and when. */
  lemma BranchNameCases(repo: Repository)
    ensures repo.head.Some? && repo.head.value.isBranch && repo.head.value.shorthand.Some?
            ==> BranchName(repo) == repo.head.value.shorthand.value
    ensures repo.head.Some? && !(repo.head.value.isBranch && repo.head.value.shorthand.Some?)
            && repo.head.value.target.Some?
            ==> |BranchName(repo)| == 16 && StartsWith(BranchName(repo), "detached:")
                && StartsWith(repo.head.value.target.value, BranchName(repo)[9..])
    ensures (repo.head.None? || (!(repo.head.value.isBranch && repo.head.value.shorthand.Some?)
                                 && repo.head.value.target.None?))
            ==> BranchName(repo) == "unknown"
  {
    if repo.head.Some? && !(repo.head.value.isBranch && repo.head.value.shorthand.Some?)
       && repo.head.value.target.Some? {
      var r := BranchName(repo);
      assert r[..9] == "detached:";
      assert r[9..] == repo.head.value.target.value[..7];
    }
  }

  // ----------------------------------------------------------- ahead/behind

  /** The name of the tracking reference looked up for `branch`. */
  function UpstreamRef(branch: string): (r: string)
    ensures StartsWith(r, "refs/remotes/origin/") && r[20..] == branch
  {
    "refs/remotes/origin/" + branch
  }

  /** Ahead and behind, both zero unless every step of the lookup succeeds. */
  function AheadBehind(repo: Repository, branch: string): (r: (nat, nat)) {
    if repo.head.Some? && repo.head.value.target.Some?
       && UpstreamRef(branch) in repo.references && repo.references[UpstreamRef(branch)].Some?
    then
      match repo.aheadBehind(repo.head.value.target.value, repo.references[UpstreamRef(branch)].value)
      case Some(counts) => counts
      case None => (0, 0)
    else (0, 0)
  }

  lemma AheadBehindDefaults(repo: Repository, branch: string)
    ensures AheadBehind(repo, branch) != (0, 0) ==>
              repo.head.Some? && repo.head.value.target.Some?
              && UpstreamRef(branch) in repo.references && repo.references[UpstreamRef(branch)].Some?
              && repo.aheadBehind(repo.head.value.target.value, repo.references[UpstreamRef(branch)].value)
                 == Some(AheadBehind(repo, branch))
  {
  }

  // ---------------------------------------------------------------- collect

  /** `collect`: `discovered` is the outcome of looking for a repository
      around the working directory. */
  method Collect(discovered: Option<Repository>) returns (r: Option<GitInfo>)
    ensures r.None? <==> discovered.None?
    ensures r.Some? ==>
              var repo := discovered.value;
              var info := r.value;
              info.repoPath == repo.workdir.GetOr("")
              && info.branch == BranchName(repo)
              && (repo.statuses.None? ==>
                    !info.isClean && info.added == 0 && info.deleted == 0 && info.modified == 0)
              && (repo.statuses.Some? ==>
                    (info.isClean <==> NoChanges(repo.statuses.value))
                    && info.added == CountWith(repo.statuses.value, NewFlags)
                    && info.deleted == CountWith(repo.statuses.value, DeletedFlags)
                    && info.modified == CountWith(repo.statuses.value, ModifiedFlags))
              && (info.ahead, info.behind) == AheadBehind(repo, info.branch)
  {
    if discovered.None? {
      return None;
    }
    var repo := discovered.value;
    var info := GitInfo("", false, 0, 0, 0, 0, 0, "");
    if repo.workdir.Some? {
      info := info.(repoPath := repo.workdir.value);
    }
    info := info.(branch := BranchName(repo));
    if repo.statuses.Some? {
      var clean, added, deleted, modified := TallyStatuses(repo.statuses.value);
      info := info.(isClean := clean, added := added, deleted := deleted, modified := modified);
    }
    var counts := AheadBehind(repo, info.branch);
    info := info.(ahead := counts.0, behind := counts.1);
    return Some(info);
  }

  /** No counter exceeds the number of status entries. */
  lemma CountersBounded(entries: seq<set<Flag>>)
    ensures CountWith(entries, NewFlags) <= |entries| && CountWith(entries, DeletedFlags) <= |entries|
            && CountWith(entries, ModifiedFlags) <= |entries|
  {
    CountWithBound(entries, NewFlags);
    CountWithBound(entries, DeletedFlags);
    CountWithBound(entries, ModifiedFlags);
  }
}

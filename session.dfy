/** Session information (statusline-rs/src/session.rs): the model-name
    helpers and the assembly of the model fields from the data Claude Code
    writes on standard input, with the environment and the settings file
    as fallbacks.

    The environment variables are inputs (`None` when unset), and so is the
    decoded `~/.claude/settings.json` (`None` when there is no home
    directory or the file is missing, unreadable or not JSON). */
module Session {
  import opened Common
  import opened Json

  /** The part of the standard-input document this module reads. */
  datatype ModelInfo = ModelInfo(id: Option<string>, displayName: Option<string>)

  datatype StdinSession = StdinSession(model: Option<ModelInfo>, version: Option<string>, sessionId: Option<string>)

  datatype SessionInfo = SessionInfo(
    model: string,
    modelShort: string,
    modelDisplay: string,
    ccVersion: string,
    sessionId: Option<string>)

  // ---------------------------------------------------- shorten_model_name

  /** `rsplit('/').next()`: the text after the last `/`, or all of it. */
  function LastSegment(s: string): (r: string)
    ensures '/' !in r && |r| <= |s| && r == s[|s| - |r|..]
    ensures |r| < |s| ==> s[|s| - |r| - 1] == '/'
  {
    if s == [] || s[|s| - 1] == '/' then []
    else LastSegment(s[..|s| - 1]) + [s[|s| - 1]]
  }

  function ShortenModelName(model: string): string {
    var lower := ToLower(model);
    if Contains(lower, "opus") then "opus"
    else if Contains(lower, "sonnet") then "sonnet"
    else if Contains(lower, "haiku") then "haiku"
    else LastSegment(model)
  }

  /** A word that closes a string shows up, lower-cased, in its lower-cased
      form. */
  lemma SuffixInLower(s: string, w: string)
    requires |w| <= |s| && s[|s| - |w|..] == w && w != []
    ensures Contains(ToLower(s), ToLower(w))
  {
    var k := |s| - |w|;
    assert ToLower(s)[k..] == ToLower(w);
    assert StartsWith(ToLower(s)[k..], ToLower(w));
  }

  /** The family is found case-insensitively, `opus` before `sonnet` before
      `haiku`; any other id is shortened to its last `/` segment. */
  lemma ShortenModelNameFamilies(model: string)
    ensures var lower := ToLower(model);
            var r := ShortenModelName(model);
            (r == "opus" <==> Contains(lower, "opus"))
            && (r == "sonnet" <==> !Contains(lower, "opus") && Contains(lower, "sonnet"))
            && (r == "haiku" <==> !Contains(lower, "opus") && !Contains(lower, "sonnet") && Contains(lower, "haiku"))
            && (!Contains(lower, "opus") && !Contains(lower, "sonnet") && !Contains(lower, "haiku")
                ==> r == LastSegment(model))
  {
    var lower := ToLower(model);
    var seg := LastSegment(model);
    FamilyWordsLower();
    SegmentInLower(model, "opus");
    SegmentInLower(model, "sonnet");
    SegmentInLower(model, "haiku");
  }

  lemma FamilyWordsLower()
    ensures ToLower("opus") == "opus" && ToLower("sonnet") == "sonnet" && ToLower("haiku") == "haiku"
  {
    LowerAlready("opus");
    LowerAlready("sonnet");
    LowerAlready("haiku");
  }

  /** A word that is the whole last segment shows up, lower-cased, in the
      lower-cased id. */
  lemma SegmentInLower(model: string, w: string)
    requires w != []
    ensures LastSegment(model) == w ==> Contains(ToLower(model), ToLower(w))
  {
    if LastSegment(model) == w {
      SuffixInLower(model, w);
    }
  }

  // ------------------------------------------------------- capitalize_first

  /** `capitalize_first`, with ASCII upper-casing. */
  function CapitalizeFirst(s: string): (r: string)
    ensures |r| == |s|
    ensures s != [] ==> r[0] == ToUpperChar(s[0]) && r[1..] == s[1..]
  {
    if s == [] then [] else [ToUpperChar(s[0])] + s[1..]
  }

  lemma CapitalizeFirstIdempotent(s: string)
    ensures CapitalizeFirst(CapitalizeFirst(s)) == CapitalizeFirst(s)
  {
    if s != [] {
      var c := s[0];
      assert ToUpperChar(ToUpperChar(c)) == ToUpperChar(c);
    }
  }

  // -------------------------------------------------- extract_model_version

  /** `e` is the end of the first occurrence of `p` in `s`. */
  predicate EndsFirstOccurrence(s: string, p: string, e: nat) {
    |p| <= e <= |s| && s[e - |p|..e] == p
    && forall j {:trigger StartsWith(s[j..], p)} :: 0 <= j < e - |p| ==> !StartsWith(s[j..], p)
  }

  /** Position just after the first family name found, by family priority:
      `opus`, then `sonnet`, then `haiku`. */
  function FamilyEnd(lower: string): (r: Option<nat>)
    ensures r.Some? ==> r.value <= |lower|
    ensures r.Some? <==> Contains(lower, "opus") || Contains(lower, "sonnet") || Contains(lower, "haiku")
    ensures Contains(lower, "opus") ==> r.Some? && EndsFirstOccurrence(lower, "opus", r.value)
    ensures !Contains(lower, "opus") && Contains(lower, "sonnet") ==>
              r.Some? && EndsFirstOccurrence(lower, "sonnet", r.value)
    ensures !Contains(lower, "opus") && !Contains(lower, "sonnet") && Contains(lower, "haiku") ==>
              r.Some? && EndsFirstOccurrence(lower, "haiku", r.value)
  {
    match Find(lower, "opus")
    case Some(p) => Some(p + 4)
    case None =>
      match Find(lower, "sonnet")
      case Some(p) => Some(p + 6)
      case None =>
        match Find(lower, "haiku")
        case Some(p) => Some(p + 5)
        case None => None
  }

  predicate IsNumericSegment(s: string) {
    s != [] && IsDigits(s)
  }

  /** The non-empty all-digit pieces, in order. */
  function NumericSegments(pieces: seq<string>): (r: seq<string>)
    ensures forall i :: 0 <= i < |r| ==> IsNumericSegment(r[i])
    ensures |r| <= |pieces|
  {
    if pieces == [] then []
    else if IsNumericSegment(pieces[0]) then [pieces[0]] + NumericSegments(pieces[1..])
    else NumericSegments(pieces[1..])
  }

  /** The first numeric piece, and that every piece before it is not. */
  lemma {:induction false} FirstNumericSegment(pieces: seq<string>) returns (i: nat)
    requires NumericSegments(pieces) != []
    ensures i < |pieces| && pieces[i] == NumericSegments(pieces)[0] && IsNumericSegment(pieces[i])
    ensures forall k :: 0 <= k < i ==> !IsNumericSegment(pieces[k])
    ensures NumericSegments(pieces)[1..] == NumericSegments(pieces[i + 1..])
  {
    if IsNumericSegment(pieces[0]) {
      i := 0;
    } else {
      var j := FirstNumericSegment(pieces[1..]);
      i := j + 1;
      assert pieces[1..][j + 1..] == pieces[i + 1..];
    }
  }

  /** `extract_model_version`: the first two numeric `-` pieces after the
      family name, as `major.minor`. */
  function ExtractModelVersion(modelId: string): Option<string> {
    var lower := ToLower(modelId);
    match FamilyEnd(lower)
    case None => None
    case Some(start) =>
      var nums := NumericSegments(Split(modelId[start..], '-'));
      if |nums| >= 2 then Some(nums[0] + "." + nums[1]) else None
  }

  /** The version joins the first two numeric pieces after the family name;
      every other piece before the second is not numeric. */
  lemma VersionFromFirstTwoSegments(modelId: string) returns (i: nat, j: nat)
    requires ExtractModelVersion(modelId).Some?
    ensures FamilyEnd(ToLower(modelId)).Some?
    ensures var pieces := Split(modelId[FamilyEnd(ToLower(modelId)).value..], '-');
            i < j < |pieces| && IsNumericSegment(pieces[i]) && IsNumericSegment(pieces[j])
            && ExtractModelVersion(modelId) == Some(pieces[i] + "." + pieces[j])
            && forall k :: 0 <= k < j && k != i ==> !IsNumericSegment(pieces[k])
  {
    var start := FamilyEnd(ToLower(modelId)).value;
    var pieces := Split(modelId[start..], '-');
    var nums := NumericSegments(pieces);
    i := FirstNumericSegment(pieces);
    var rest := pieces[i + 1..];
    var k := FirstNumericSegment(rest);
    j := i + 1 + k;
    assert nums[1] == NumericSegments(rest)[0];
    assert forall m :: i < m < j ==> pieces[m] == rest[m - i - 1];
  }

  /** Without a family name there is no version. */
  lemma NoFamilyNoVersion(modelId: string)
    requires !Contains(ToLower(modelId), "opus") && !Contains(ToLower(modelId), "sonnet")
             && !Contains(ToLower(modelId), "haiku")
    ensures ExtractModelVersion(modelId) == None
  {
  }

  lemma OpusFamilyEndExample()
    ensures FamilyEnd(ToLower("claude-opus-4-6")) == Some(11)
  {
    var id := "claude-opus-4-6";
    LowerAlready(id);
    assert id[7..][..4] == "opus";
    FindAt(id, "opus", 7);
  }

  lemma OpusSegmentsExample()
    ensures |NumericSegments(Split("claude-opus-4-6"[11..], '-'))| >= 2
    ensures NumericSegments(Split("claude-opus-4-6"[11..], '-'))[..2] == ["4", "6"]
  {
    assert "claude-opus-4-6"[11..] == "-4-6";
    assert Join(["", "4", "6"], "-") == "-4-6";
    SplitJoin(["", "4", "6"], '-');
    assert NumericSegments(["6"]) == ["6"];
    assert NumericSegments(["4", "6"]) == ["4", "6"];
  }

  lemma DotText()
    ensures "4" + "." + "6" == "4.6"
  {
  }

  lemma OpusVersionExample()
    ensures ExtractModelVersion("claude-opus-4-6") == Some("4.6")
  {
    OpusFamilyEndExample();
    OpusSegmentsExample();
    VersionOfSegments("claude-opus-4-6", 11, "4", "6");
    DotText();
  }

  lemma VersionOfSegments(modelId: string, start: nat, major: string, minor: string)
    requires FamilyEnd(ToLower(modelId)) == Some(start)
    requires |NumericSegments(Split(modelId[start..], '-'))| >= 2
    requires NumericSegments(Split(modelId[start..], '-'))[..2] == [major, minor]
    ensures ExtractModelVersion(modelId) == Some(major + "." + minor)
  {
    var nums := NumericSegments(Split(modelId[start..], '-'));
    assert nums[0] == major && nums[1] == minor by {
      assert nums[..2][0] == nums[0] && nums[..2][1] == nums[1];
    }
  }

  // ------------------------------------------------------------ from_stdin

  /** `CLAUDE_MODEL`, else `ANTHROPIC_MODEL`, else empty: a set but empty
      `CLAUDE_MODEL` still wins. */
  function EnvModel(claudeModel: Option<string>, anthropicModel: Option<string>): string {
    if claudeModel.Some? then claudeModel.value else anthropicModel.GetOr("")
  }

  /** The display name, with the version appended when it has no digit. */
  function WithVersion(display: string, model: string): string {
    var ver := ExtractModelVersion(model);
    if display != [] && !(exists i :: 0 <= i < |display| && IsAsciiDigit(display[i])) && ver.Some?
    then display + " " + ver.value
    else display
  }

  /** The fields taken from the standard-input model. */
  function FromStdinModel(m: ModelInfo): (string, string, string) {
    var model := m.id.GetOr("");
    var short := ShortenModelName(model);
    var display := if m.displayName.GetOr("") == [] then CapitalizeFirst(short) else m.displayName.value;
    (model, short, WithVersion(display, model))
  }

  /** `from_stdin`. */
  function FromStdin(data: StdinSession, claudeModel: Option<string>, anthropicModel: Option<string>,
                     settings: Option<Value>): (info: SessionInfo)
    ensures info.ccVersion == data.version.GetOr("") && info.sessionId == data.sessionId
    ensures info.model != ""
  {
    var fromStdin := if data.model.Some? then FromStdinModel(data.model.value) else ("", "", "");
    var fields :=
      if fromStdin.0 != "" then fromStdin
      else
        var raw := EnvModel(claudeModel, anthropicModel);
        if raw != "" then (raw, ShortenModelName(raw), CapitalizeFirst(ShortenModelName(raw)))
        else
          var fromSettings := AsStr(GetIn(settings, "model"));
          if fromSettings.Some?
          then (fromSettings.value, ShortenModelName(fromSettings.value),
                CapitalizeFirst(ShortenModelName(fromSettings.value)))
          else fromStdin;
    var fields := if fields.0 == "" then ("unknown", "unknown", "Unknown") else fields;
    SessionInfo(fields.0, fields.1, fields.2, data.version.GetOr(""), data.sessionId)
  }

  /** The model id comes from the first source that names one: standard
      input, then the environment, then the settings file; with none, all
      three fields read unknown. */
  lemma ModelSourcePriority(data: StdinSession, claudeModel: Option<string>, anthropicModel: Option<string>,
                            settings: Option<Value>)
    ensures var info := FromStdin(data, claudeModel, anthropicModel, settings);
            var stdinId := if data.model.Some? then data.model.value.id.GetOr("") else "";
            var env := EnvModel(claudeModel, anthropicModel);
            var fromSettings := AsStr(GetIn(settings, "model")).GetOr("");
            (stdinId != "" ==> info.model == stdinId)
            && (stdinId == "" && env != "" ==> info.model == env)
            && (stdinId == "" && env == "" && fromSettings != "" ==> info.model == fromSettings)
            && (stdinId == "" && env == "" && fromSettings == "" ==>
                  info.model == "unknown" && info.modelShort == "unknown" && info.modelDisplay == "Unknown")
  {
  }

  /** A model found after standard input gets its short name and the
      capitalised short name as display, dropping any display name given
      on standard input. */
  lemma FallbackDisplayIsShortName(data: StdinSession, claudeModel: Option<string>,
                                   anthropicModel: Option<string>, settings: Option<Value>)
    requires data.model.None? || data.model.value.id.GetOr("") == ""
    requires FromStdin(data, claudeModel, anthropicModel, settings).model != "unknown"
    ensures var info := FromStdin(data, claudeModel, anthropicModel, settings);
            info.modelShort == ShortenModelName(info.model)
            && info.modelDisplay == CapitalizeFirst(info.modelShort)
  {
  }

  /** With a model id on standard input, a missing or empty display name
      becomes the capitalised short name; the version is appended only to
      a non-empty display name with no ASCII digit. */
  lemma StdinDisplayRules(data: StdinSession, claudeModel: Option<string>, anthropicModel: Option<string>,
                          settings: Option<Value>)
    requires data.model.Some? && data.model.value.id.GetOr("") != ""
    ensures var m := data.model.value;
            var info := FromStdin(data, claudeModel, anthropicModel, settings);
            var base := if m.displayName.GetOr("") == [] then CapitalizeFirst(info.modelShort) else m.displayName.value;
            var ver := ExtractModelVersion(info.model);
            info.model == m.id.value && info.modelShort == ShortenModelName(info.model)
            && (if base != [] && (forall i :: 0 <= i < |base| ==> !IsAsciiDigit(base[i])) && ver.Some?
                then info.modelDisplay == base + " " + ver.value
                else info.modelDisplay == base)
  {
  }

  lemma OpusShortExample()
    ensures ShortenModelName("claude-opus-4-6") == "opus"
  {
    var id := "claude-opus-4-6";
    LowerAlready(id);
    assert StartsWith(id[7..], "opus");
  }

  lemma OpusDisplayExample()
    ensures WithVersion("Opus", "claude-opus-4-6") == "Opus 4.6"
  {
    var d := "Opus";
    assert !(exists i :: 0 <= i < |d| && IsAsciiDigit(d[i])) by {
      assert d[0] == 'O' && d[1] == 'p' && d[2] == 'u' && d[3] == 's';
    }
    assert ExtractModelVersion("claude-opus-4-6") == Some("4.6") by {
      OpusVersionExample();
    }
    OpusDisplayText();
  }

  lemma OpusDisplayText()
    ensures "Opus" + " " + "4.6" == "Opus 4.6"
  {
    assert "Opus" + " " == "Opus ";
  }

  lemma CapitalizeOpus()
    ensures CapitalizeFirst("opus") == "Opus"
  {
  }

  /** Without a display name, the display is built from the short name. */
  lemma FromStdinModelUndisplayed(id: string, short: string, display: string)
    requires ShortenModelName(id) == short
    requires WithVersion(CapitalizeFirst(short), id) == display
    ensures FromStdinModel(ModelInfo(Some(id), None)) == (id, short, display)
  {
  }

  lemma OpusModelExample()
    ensures FromStdinModel(ModelInfo(Some("claude-opus-4-6"), None)) == ("claude-opus-4-6", "opus", "Opus 4.6")
  {
    OpusShortExample();
    CapitalizeOpus();
    OpusDisplayExample();
    FromStdinModelUndisplayed("claude-opus-4-6", "opus", "Opus 4.6");
  }

  lemma StdinOpusExample()
    ensures var info := FromStdin(StdinSession(Some(ModelInfo(Some("claude-opus-4-6"), None)), None, None),
                                  None, None, None);
            info.model == "claude-opus-4-6" && info.modelShort == "opus" && info.modelDisplay == "Opus 4.6"
  {
    OpusModelExample();
  }
}

/** The usage-limit collector (statusline-rs/src/usage_limits.rs): the
    cascade cached API response → live API → local file → time estimate,
    the reading of the API and local-file documents, the time estimate and
    the integer part of the reset-time display.

    What the program reads from outside is passed in: the keychain output
    (`None` when `security` cannot run or fails), the API response body
    (`None` when `curl` cannot run or fails), the decoded local file (`None`
    when there is no home directory or the file is missing, unreadable or
    not JSON) and the local clock. JSON decoding (`decode`) and RFC 3339
    parsing with conversion to local time (`parseTime`) are functions given
    by the caller. */
module UsageLimits {
  import opened Common
  import opened Json
  import opened TtlCache

  /** Percentages are JSON numbers as read. */
  datatype UsageLimitsInfo = UsageLimitsInfo(
    fiveHourReset: Option<string>,
    fiveHourRemaining: Option<string>,
    fiveHourPercent: Option<Number>,
    sevenDayReset: Option<string>,
    sevenDayPercent: Option<Number>)

  const Default: UsageLimitsInfo := UsageLimitsInfo(None, None, None, None, None)

  const CacheKey: string := "usage_limits_api"
  const CacheTtl: nat := 300

  /** An instant as the program sees it: nanoseconds since the epoch, the
      local hour and minute, and its `%a %-I:%M %p` rendering. */
  datatype Instant = Instant(epochNanos: int, hour: nat, minute: nat, dayClock: string)

  /** The local clock: `Local::now()`, to the nanosecond. */
  datatype LocalNow = LocalNow(epochNanos: int, hour: nat, minute: nat)

  const NanosPerSecond: nat := 1_000_000_000

  /** `num_seconds` of a duration of `nanos` nanoseconds: whole seconds,
      truncated toward zero. */
  function NumSeconds(nanos: int): (secs: int)
    ensures nanos >= 0 ==> 0 <= secs * NanosPerSecond <= nanos < (secs + 1) * NanosPerSecond
    ensures nanos < 0 ==> (secs - 1) * NanosPerSecond < nanos <= secs * NanosPerSecond <= 0
  {
    if nanos >= 0 then nanos / NanosPerSecond else -((-nanos) / NanosPerSecond)
  }

  /** The whole seconds from `now` to `t`, as `signed_duration_since`
      followed by `num_seconds` gives them. */
  function SecondsUntil(t: Instant, now: LocalNow): int {
    NumSeconds(t.epochNanos - now.epochNanos)
  }

  predicate ValidNow(now: LocalNow) {
    now.hour < 24 && now.minute < 60
  }

  // ----------------------------------------------------- format_reset_times

  /** The retry text: everything before the first `.`, with `Z` appended
      unless it already ends in `Z` or holds a `+`. */
  function WithZone(iso: string): (r: string)
    ensures r == Split(iso, '.')[0] || r == Split(iso, '.')[0] + "Z"
    ensures var clean := Split(iso, '.')[0];
            r == clean <==> (clean != [] && clean[|clean| - 1] == 'Z') || '+' in clean
    ensures '.' !in r
  {
    var clean := Split(iso, '.')[0];
    if (clean != [] && clean[|clean| - 1] == 'Z') || '+' in clean then clean else clean + "Z"
  }

  /** RFC 3339 parsing with the retry. */
  function ParseReset(iso: string, parseTime: string -> Option<Instant>): Option<Instant> {
    match parseTime(iso)
    case Some(t) => Some(t)
    case None => parseTime(WithZone(iso))
  }

  /** Whole hours and the minutes left over in `secs` seconds (both floor). */
  function HoursAndMinutes(secs: nat): (hm: (nat, nat))
    ensures hm.0 * 3600 + hm.1 * 60 <= secs < hm.0 * 3600 + hm.1 * 60 + 60
    ensures hm.1 < 60
  {
    (secs / 3600, (secs % 3600) / 60)
  }

  /** The remaining-time text for a reset `secs` seconds ahead (secs > 0). */
  function RemainingText(secs: nat, dayClock: string): string {
    if secs < 3600 then NatToString(secs / 60) + " min"
    else if secs < 86400 then
      var hm := HoursAndMinutes(secs);
      if hm.1 > 0 then NatToString(hm.0) + " hr " + NatToString(hm.1) + " min"
      else NatToString(hm.0) + " hr"
    else dayClock
  }

  /** `format_reset_times`: the clock display and the remaining-time text. */
  function FormatResetTimes(iso: string, parseTime: string -> Option<Instant>, now: LocalNow)
    : (Option<string>, Option<string>)
  {
    match ParseReset(iso, parseTime)
    case None => (None, None)
    case Some(t) =>
      var total := SecondsUntil(t, now);
      if total <= 0 then (Some("now"), Some("now"))
      else
        var clock := Pad2(t.hour) + ":" + Pad2(t.minute);
        (Some(if total >= 86400 then t.dayClock else clock), Some(RemainingText(total, t.dayClock)))
  }

  /** Under an hour: whole minutes, so the last minute reads `0 min`. */
  lemma RemainingUnderAnHour(secs: nat, dayClock: string)
    requires 0 < secs < 3600
    ensures exists m: nat :: m < 60 && m * 60 <= secs < m * 60 + 60
                             && RemainingText(secs, dayClock) == NatToString(m) + " min"
  {
    var m := secs / 60;
    assert m < 60 && m * 60 <= secs < m * 60 + 60
           && RemainingText(secs, dayClock) == NatToString(m) + " min";
  }

  /** Under a day: whole hours (1 to 23) and leftover minutes, the minutes
      omitted when zero. */
  lemma RemainingUnderADay(secs: nat, dayClock: string)
    requires 3600 <= secs < 86400
    ensures var hm := HoursAndMinutes(secs);
            1 <= hm.0 <= 23 && hm.1 < 60
            && hm.0 * 3600 + hm.1 * 60 <= secs < hm.0 * 3600 + hm.1 * 60 + 60
            && RemainingText(secs, dayClock)
               == NatToString(hm.0) + " hr" + (if hm.1 > 0 then " " + NatToString(hm.1) + " min" else "")
  {
    var hm := HoursAndMinutes(secs);
    if hm.1 > 0 {
      assert NatToString(hm.0) + " hr " + NatToString(hm.1) + " min"
             == NatToString(hm.0) + " hr" + (" " + NatToString(hm.1) + " min");
    } else {
      assert NatToString(hm.0) + " hr" + "" == NatToString(hm.0) + " hr";
    }
  }

  /** The branch structure: an unparsable time gives nothing; a reset now or
      in the past reads `now` twice; a day or more ahead both texts are the
      weekday form; otherwise the clock is `HH:MM`. */
  lemma ResetTimesCases(iso: string, parseTime: string -> Option<Instant>, now: LocalNow)
    ensures ParseReset(iso, parseTime).None? ==> FormatResetTimes(iso, parseTime, now) == (None, None)
    ensures ParseReset(iso, parseTime).Some? ==>
      var t := ParseReset(iso, parseTime).value;
      var total := SecondsUntil(t, now);
      var r := FormatResetTimes(iso, parseTime, now);
      (total <= 0 ==> r == (Some("now"), Some("now")))
      && (total >= 86400 ==> r == (Some(t.dayClock), Some(t.dayClock)))
      && (0 < total < 86400 ==> r.0 == Some(Pad2(t.hour) + ":" + Pad2(t.minute)) && r.1.Some?)
  {
  }

  /** A reset less than a second ahead, or already past, reads `now`:
      `num_seconds` drops the fraction. */
  lemma UnderASecondReadsNow(iso: string, parseTime: string -> Option<Instant>, now: LocalNow)
    requires ParseReset(iso, parseTime).Some?
    requires ParseReset(iso, parseTime).value.epochNanos - now.epochNanos < NanosPerSecond
    ensures FormatResetTimes(iso, parseTime, now) == (Some("now"), Some("now"))
  {
    ResetTimesCases(iso, parseTime, now);
  }

  /** A reset one nanosecond short of an hour ahead reads `59 min`. */
  lemma JustUnderAnHourReadsMinutes(iso: string, parseTime: string -> Option<Instant>, now: LocalNow)
    requires ParseReset(iso, parseTime).Some?
    requires ParseReset(iso, parseTime).value.epochNanos - now.epochNanos == 3600 * NanosPerSecond - 1
    ensures FormatResetTimes(iso, parseTime, now).1 == Some(NatToString(59) + " min")
  {
    var t := ParseReset(iso, parseTime).value;
    assert SecondsUntil(t, now) == 3599;
  }

  // ------------------------------------------------------ parse_api_response

  /** `parse_api_response`: the 5-hour and 7-day blocks of the API document. */
  function ParseApiResponse(json: Value, parseTime: string -> Option<Instant>, now: LocalNow)
    : (info: UsageLimitsInfo)
    ensures Get(json, "five_hour").None? ==>
              info.fiveHourPercent.None? && info.fiveHourReset.None? && info.fiveHourRemaining.None?
    ensures Get(json, "five_hour").Some? ==>
              info.fiveHourPercent == AsF64(Get(Get(json, "five_hour").value, "utilization"))
    ensures Get(json, "seven_day").None? ==> info.sevenDayPercent.None? && info.sevenDayReset.None?
    ensures Get(json, "seven_day").Some? ==>
              info.sevenDayPercent == AsF64(Get(Get(json, "seven_day").value, "utilization"))
  {
    var five := Get(json, "five_hour");
    var info :=
      if five.None? then Default
      else
        var withPercent := Default.(fiveHourPercent := AsF64(Get(five.value, "utilization")));
        var resetsAt := AsStr(Get(five.value, "resets_at"));
        if resetsAt.None? then withPercent
        else
          var times := FormatResetTimes(resetsAt.value, parseTime, now);
          withPercent.(fiveHourReset := times.0, fiveHourRemaining := times.1);
    var seven := Get(json, "seven_day");
    if seven.None? then info
    else
      var withPercent := info.(sevenDayPercent := AsF64(Get(seven.value, "utilization")));
      var resetsAt := AsStr(Get(seven.value, "resets_at"));
      if resetsAt.None? then withPercent
      else withPercent.(sevenDayReset := FormatResetTimes(resetsAt.value, parseTime, now).0)
  }

  // --------------------------------------------------------- get_oauth_token

  /** `get_oauth_token`: the trimmed keychain entry decoded; the nested
      `claudeAiOauth.accessToken`, else `accessToken` if present at all,
      else `access_token`. */
  function OauthToken(keychain: Option<string>, decode: string -> Option<Value>): Option<string> {
    if keychain.None? then None
    else
      var raw := Trim(keychain.value);
      if raw == [] then None
      else match decode(raw)
        case None => None
        case Some(json) =>
          var nested := AsStr(GetIn(Get(json, "claudeAiOauth"), "accessToken"));
          if nested.Some? then nested
          else
            var flat := Get(json, "accessToken");
            AsStr(if flat.Some? then flat else Get(json, "access_token"))
  }

  /** A present but non-string `accessToken` hides `access_token`. */
  lemma FlatTokenShadows(keychain: string, decode: string -> Option<Value>, json: Value)
    requires Trim(keychain) != [] && decode(Trim(keychain)) == Some(json)
    requires AsStr(GetIn(Get(json, "claudeAiOauth"), "accessToken")).None?
    requires Get(json, "accessToken").Some? && !Get(json, "accessToken").value.Str?
    ensures OauthToken(Some(keychain), decode) == None
  {
  }

  // ---------------------------------------------------- fetch_from_oauth_api

  /** What `fetch_from_oauth_api` returns and leaves in the cache. */
  function FetchSpec(st: Store, keychain: Option<string>, curl: Option<string>,
                     decode: string -> Option<Value>, parseTime: string -> Option<Instant>,
                     now: LocalNow): (Option<UsageLimitsInfo>, Store)
  {
    if OauthToken(keychain, decode).None? || curl.None? then (None, st)
    else match decode(curl.value)
      case None => (None, st)
      case Some(json) =>
        if Get(json, "five_hour").None? then (None, st)
        else
          var st1 := AfterSet(st, CacheKey, curl.value);
          var info := ParseApiResponse(json, parseTime, now);
          (if info.fiveHourPercent.Some? then Some(info) else None, st1)
  }

  method FetchFromOauthApi(cache: Cache, keychain: Option<string>, curl: Option<string>,
                           decode: string -> Option<Value>, parseTime: string -> Option<Instant>,
                           now: LocalNow) returns (r: Option<UsageLimitsInfo>)
    modifies cache`files
    ensures (r, cache.State()) == FetchSpec(old(cache.State()), keychain, curl, decode, parseTime, now)
  {
    var token := OauthToken(keychain, decode);
    if token.None? || curl.None? {
      return None;
    }
    var body := curl.value;
    var json := decode(body);
    if json.None? || Get(json.value, "five_hour").None? {
      return None;
    }
    cache.Set(CacheKey, body);
    var info := ParseApiResponse(json.value, parseTime, now);
    if info.fiveHourPercent.Some? {
      return Some(info);
    }
    return None;
  }

  /** Without a token, a response, a JSON body or a `five_hour` block the
      live step gives nothing and writes nothing. */
  lemma FetchFailureWritesNothing(st: Store, keychain: Option<string>, curl: Option<string>,
                                  decode: string -> Option<Value>, parseTime: string -> Option<Instant>,
                                  now: LocalNow)
    requires OauthToken(keychain, decode).None? || curl.None? || decode(curl.value).None?
             || Get(decode(curl.value).value, "five_hour").None?
    ensures FetchSpec(st, keychain, curl, decode, parseTime, now) == (None, st)
  {
  }

  /** A body with a `five_hour` block is cached even when it has no
      utilization, in which case the live step still gives nothing. */
  lemma FetchCachesFiveHourBody(st: Store, keychain: Option<string>, body: string,
                                decode: string -> Option<Value>, parseTime: string -> Option<Instant>,
                                now: LocalNow)
    requires OauthToken(keychain, decode).Some?
    requires decode(body).Some? && Get(decode(body).value, "five_hour").Some?
    ensures FetchSpec(st, keychain, Some(body), decode, parseTime, now).1 == AfterSet(st, CacheKey, body)
    ensures AsF64(Get(Get(decode(body).value, "five_hour").value, "utilization")).None?
            ==> FetchSpec(st, keychain, Some(body), decode, parseTime, now).0 == None
  {
  }

  // -------------------------------------------------------- try_local_files

  /** `try_local_files` on the decoded `~/.claude/usage_limits.json`. */
  function TryLocalFiles(file: Option<Value>): (r: Option<UsageLimitsInfo>)
    ensures r.Some? <==> file.Some? && AsF64(GetIn(Get(file.value, "five_hour"), "usage_percent")).Some?
    ensures r.Some? ==> r.value.fiveHourPercent == AsF64(GetIn(Get(file.value, "five_hour"), "usage_percent"))
  {
    if file.None? then None
    else
      var json := file.value;
      var five := Get(json, "five_hour");
      var info :=
        if five.None? then Default
        else Default.(fiveHourPercent := AsF64(Get(five.value, "usage_percent")),
                      fiveHourReset := AsStr(Get(five.value, "reset_time")),
                      fiveHourRemaining := AsStr(Get(five.value, "remaining")));
      var seven := Get(json, "seven_day");
      var info :=
        if seven.None? then info
        else info.(sevenDayPercent := AsF64(Get(seven.value, "usage_percent")),
                   sevenDayReset := AsStr(Get(seven.value, "reset_time")));
      if info.fiveHourPercent.Some? then Some(info) else None
  }

  // ------------------------------------------------------ estimate_from_time

  /** The end of the 5-hour block holding `hour`: the next multiple of 5. */
  function BlockEnd(hour: nat): (e: nat)
    ensures e % 5 == 0 && hour < e <= hour + 5
  {
    ((hour / 5) + 1) * 5
  }

  /** `estimate_from_time`. */
  function EstimateFromTime(now: LocalNow): UsageLimitsInfo
    requires ValidNow(now)
  {
    var blockEnd := BlockEnd(now.hour);
    var hoursRemaining: int := blockEnd - now.hour;
    var minsRemaining: int := 60 - now.minute;
    if hoursRemaining > 0 then
      var h: int := if minsRemaining == 60 then hoursRemaining else hoursRemaining - 1;
      var m: int := if minsRemaining == 60 then 0 else minsRemaining;
      Default.(fiveHourReset := Some(Pad2(blockEnd % 24) + ":" + Pad2(0)),
               fiveHourRemaining := Some(NatToString(h) + "h" + NatToString(m) + "m"))
    else Default
  }

  /** The estimate always names the 5-hour reset, at the block end on the
      24-hour clock, with remaining time `H`h`M`m where `H*60 + M` is the
      exact number of minutes to the block end (1 to 300) and `M < 60`; it
      knows no percentage and nothing of the 7-day window. */
  lemma EstimateShape(now: LocalNow)
    requires ValidNow(now)
    ensures exists h: nat, m: nat ::
              m < 60 && h * 60 + m == BlockEnd(now.hour) * 60 - (now.hour * 60 + now.minute)
              && 1 <= h * 60 + m <= 300
              && EstimateFromTime(now).fiveHourRemaining == Some(NatToString(h) + "h" + NatToString(m) + "m")
    ensures EstimateFromTime(now).fiveHourReset == Some(Pad2(BlockEnd(now.hour) % 24) + ":00")
    ensures EstimateFromTime(now).fiveHourPercent.None? && EstimateFromTime(now).sevenDayPercent.None?
    ensures EstimateFromTime(now).sevenDayReset.None?
  {
    var e := BlockEnd(now.hour);
    var hr := e - now.hour;
    var h: nat := if now.minute == 0 then hr else hr - 1;
    var m: nat := if now.minute == 0 then 0 else 60 - now.minute;
    assert h * 60 + m == e * 60 - (now.hour * 60 + now.minute);
    assert EstimateFromTime(now).fiveHourRemaining == Some(NatToString(h) + "h" + NatToString(m) + "m");
    assert Pad2(0) == "00";
    assert Pad2(e % 24) + ":" + Pad2(0) == Pad2(e % 24) + ":00";
  }

  /** From 20:00 on, the block ends at 25:00, shown as `01:00`. */
  lemma LateEveningResetsAtOne(now: LocalNow)
    requires ValidNow(now) && now.hour >= 20
    ensures EstimateFromTime(now).fiveHourReset == Some("01:00")
  {
    assert BlockEnd(now.hour) == 25;
    assert NatToString(1) == [DigitChar(1)] == "1";
    assert Pad2(1) == "01";
    assert Pad2(0) == "00";
    assert Pad2(1) + ":" + Pad2(0) == "01:00";
  }

  // --------------------------------------------------------------- collect

  datatype UsageSource = FromCache | FromApi | FromLocalFile | FromEstimate

  /** What `collect` returns, which step answered, and the cache afterwards. */
  function CollectSpec(st: Store, keychain: Option<string>, curl: Option<string>, file: Option<Value>,
                       decode: string -> Option<Value>, parseTime: string -> Option<Instant>,
                       now: LocalNow): (UsageLimitsInfo, UsageSource, Store)
    requires ValidNow(now)
  {
    var cached := Lookup(st, CacheKey, CacheTtl);
    var st1 := AfterGet(st, CacheKey, CacheTtl);
    var hit :=
      if cached.Some? && decode(cached.value).Some?
      then Some(ParseApiResponse(decode(cached.value).value, parseTime, now))
      else None;
    if hit.Some? && hit.value.fiveHourPercent.Some? then (hit.value, FromCache, st1)
    else
      var live := FetchSpec(st1, keychain, curl, decode, parseTime, now);
      if live.0.Some? then (live.0.value, FromApi, live.1)
      else if TryLocalFiles(file).Some? then (TryLocalFiles(file).value, FromLocalFile, live.1)
      else (EstimateFromTime(now), FromEstimate, live.1)
  }

  method Collect(cache: Cache, keychain: Option<string>, curl: Option<string>, file: Option<Value>,
                 decode: string -> Option<Value>, parseTime: string -> Option<Instant>,
                 now: LocalNow) returns (info: UsageLimitsInfo, source: UsageSource)
    requires ValidNow(now)
    modifies cache`files
    ensures (info, source, cache.State())
            == CollectSpec(old(cache.State()), keychain, curl, file, decode, parseTime, now)
  {
    ghost var st := cache.State();
    var cached := cache.Get(CacheKey, CacheTtl);
    ghost var spec := CollectSpec(st, keychain, curl, file, decode, parseTime, now);
    if cached.Some? {
      var json := decode(cached.value);
      if json.Some? {
        var hit := ParseApiResponse(json.value, parseTime, now);
        if hit.fiveHourPercent.Some? {
          assert spec == (hit, FromCache, cache.State());
          return hit, FromCache;
        }
      }
    }
    ghost var st1 := cache.State();
    var live := FetchFromOauthApi(cache, keychain, curl, decode, parseTime, now);
    assert (live, cache.State()) == FetchSpec(st1, keychain, curl, decode, parseTime, now);
    if live.Some? {
      return live.value, FromApi;
    }
    var local := TryLocalFiles(file);
    if local.Some? {
      return local.value, FromLocalFile;
    }
    return EstimateFromTime(now), FromEstimate;
  }

  /** The cached response answers only when it decodes and carries a
      5-hour percentage; the steps are then tried strictly in order. */
  lemma CascadeOrder(st: Store, keychain: Option<string>, curl: Option<string>, file: Option<Value>,
                     decode: string -> Option<Value>, parseTime: string -> Option<Instant>,
                     now: LocalNow)
    requires ValidNow(now)
    ensures var (info, source, st2) := CollectSpec(st, keychain, curl, file, decode, parseTime, now);
            var cached := Lookup(st, CacheKey, CacheTtl);
            var live := FetchSpec(AfterGet(st, CacheKey, CacheTtl), keychain, curl, decode, parseTime, now);
            var hit := cached.Some? && decode(cached.value).Some?
                       && ParseApiResponse(decode(cached.value).value, parseTime, now).fiveHourPercent.Some?;
            (hit <==> source == FromCache)
            && (source == FromCache ==> info == ParseApiResponse(decode(cached.value).value, parseTime, now)
                                        && st2 == AfterGet(st, CacheKey, CacheTtl))
            && (source == FromApi ==> live.0 == Some(info))
            && (source == FromLocalFile ==> live.0.None? && TryLocalFiles(file) == Some(info))
            && (source == FromEstimate ==> live.0.None? && TryLocalFiles(file).None?
                                           && info == EstimateFromTime(now))
            && (source != FromCache ==> st2 == live.1)
  {
  }

  /** Every answer has a 5-hour percentage, except the time estimate. */
  lemma AnswerHasPercentUnlessEstimated(st: Store, keychain: Option<string>, curl: Option<string>,
                                       file: Option<Value>, decode: string -> Option<Value>,
                                       parseTime: string -> Option<Instant>, now: LocalNow)
    requires ValidNow(now)
    ensures var r := CollectSpec(st, keychain, curl, file, decode, parseTime, now);
            r.1 != FromEstimate <==> r.0.fiveHourPercent.Some?
  {
    EstimateShape(now);
  }

  /** A live answer is cached, and the next run before it expires answers
      from the cache with the same document, read against its own clock. */
  lemma LiveAnswerServedFromCache(st: Store, keychain: Option<string>, body: string, file: Option<Value>,
                                  decode: string -> Option<Value>, parseTime: string -> Option<Instant>,
                                  now: LocalNow, keychain2: Option<string>, curl2: Option<string>,
                                  file2: Option<Value>, now2: LocalNow)
    requires ValidNow(now) && ValidNow(now2)
    requires st.writable
    requires CollectSpec(st, keychain, Some(body), file, decode, parseTime, now).1 == FromApi
    ensures var st2 := CollectSpec(st, keychain, Some(body), file, decode, parseTime, now).2;
            var again := CollectSpec(st2, keychain2, curl2, file2, decode, parseTime, now2);
            again.1 == FromCache
            && again.0 == ParseApiResponse(decode(body).value, parseTime, now2)
  {
    var st1 := AfterGet(st, CacheKey, CacheTtl);
    SetThenGet(st1, CacheKey, body, CacheTtl);
    var json := decode(body).value;
    assert ParseApiResponse(json, parseTime, now2).fiveHourPercent
           == ParseApiResponse(json, parseTime, now).fiveHourPercent;
  }
}

/**
  The bookkeeping of core/forward.py in its key-value store: the counters and per-rule
  statistics of update_stats, and the two bounded logs of log_forward and log_error. The
  store is a map from keys to typed values; a value of the wrong type at a key is what
  makes Python raise a TypeError or AttributeError part-way through, which the engine
  swallows, so the writes made before that step stay and the later ones never happen.
 */
module Stats {

  import opened Wrappers
  import opened Seqs

  /** The dict under `stats/rules/<name>`; a key the dict lacks reads as 0 or `[]`. */
  datatype RuleStats = RuleStats(
    total: nat, today: nat, success: nat, successRate: real, delays: seq<real>, avgDelay: real)

  /** An entry of `logs/forwards`. */
  datatype ForwardEntry = ForwardEntry(
    time: string, rule: string, source: string, target: string, status: string, message: string)

  /** An entry of `logs/errors`; `rule` is None for an error outside any rule. */
  datatype ErrorEntry = ErrorEntry(time: string, rule: Option<string>, errorType: string, message: string)

  /** A stored value: a counter, a rule's statistics, one of the two logs, or something else. */
  datatype Value =
    | IntValue(n: int)
    | RuleStatsValue(stats: RuleStats)
    | ForwardLogValue(forwards: seq<ForwardEntry>)
    | ErrorLogValue(errors: seq<ErrorEntry>)
    | OtherValue

  /**
    The settings keys the engine uses: `stats/total_messages`, `stats/total_success`,
    `stats/daily/<date>`, `stats/rules/<name>`, `logs/forwards` and `logs/errors`.
   */
  datatype Key =
    | TotalMessagesKey
    | TotalSuccessKey
    | DailyKey(today: string)
    | RuleKey(name: string)
    | ForwardLogKey
    | ErrorLogKey

  /** The settings path a key is stored under. */
  function Path(k: Key): string
  {
    match k
    case TotalMessagesKey => "stats/total_messages"
    case TotalSuccessKey => "stats/total_success"
    case DailyKey(today) => "stats/daily/" + today
    case RuleKey(name) => "stats/rules/" + name
    case ForwardLogKey => "logs/forwards"
    case ErrorLogKey => "logs/errors"
  }

  /** Distinct keys live under distinct paths, whatever the date and the rule name. */
  lemma PathIsInjective(k1: Key, k2: Key)
    requires Path(k1) == Path(k2)
    ensures k1 == k2
  {
    PathShape(k1);
    PathShape(k2);
  }

  /** What tells the paths apart: the first letter, the seventh, the length and the suffix. */
  lemma PathShape(k: Key)
    ensures |Path(k)| >= 11
    ensures Path(k)[0] == if k.ForwardLogKey? || k.ErrorLogKey? then 'l' else 's'
    ensures k.TotalMessagesKey? || k.TotalSuccessKey? ==> Path(k)[6] == 't'
    ensures k.DailyKey? ==> Path(k)[6] == 'd' && Path(k)[12..] == k.today
    ensures k.RuleKey? ==> Path(k)[6] == 'r' && Path(k)[12..] == k.name
    ensures k.TotalMessagesKey? ==> |Path(k)| == 20
    ensures k.TotalSuccessKey? ==> |Path(k)| == 19
    ensures k.ForwardLogKey? ==> |Path(k)| == 13
    ensures k.ErrorLogKey? ==> |Path(k)| == 11
  {
  }

  type Store = map<Key, Value>

  const DelayWindow := 100
  const ForwardLogCap := 1000
  const ErrorLogCap := 500

  // ---------------------------------------------------------------------------
  // Typed reads: `settings.value(key, default)` followed by the use the code makes of it.

  /** `value(key, 0)` used as a number: None when the stored value is not one. */
  function IntAt(store: Store, key: Key): Option<int>
  {
    if key !in store then Some(0)
    else match store[key]
      case IntValue(n) => Some(n)
      case _ => None
  }

  /** `value(key, {})` used as a dict. */
  function RuleStatsAt(store: Store, key: Key): Option<RuleStats>
  {
    if key !in store then Some(EmptyRuleStats)
    else match store[key]
      case RuleStatsValue(s) => Some(s)
      case _ => None
  }

  /** `{}` read through `.get(..., 0)` and `.get('delays', [])`. */
  const EmptyRuleStats := RuleStats(0, 0, 0, 0.0, [], 0.0)

  function ForwardLogAt(store: Store): Option<seq<ForwardEntry>>
  {
    if ForwardLogKey !in store then Some([])
    else match store[ForwardLogKey]
      case ForwardLogValue(l) => Some(l)
      case _ => None
  }

  function ErrorLogAt(store: Store): Option<seq<ErrorEntry>>
  {
    if ErrorLogKey !in store then Some([])
    else match store[ErrorLogKey]
      case ErrorLogValue(l) => Some(l)
      case _ => None
  }

  // ---------------------------------------------------------------------------
  // update_stats

  /** The rule's statistics after one more forward that took `delay` seconds. */
  function NextRuleStats(rs: RuleStats, success: bool, delay: real): (n: RuleStats)
    ensures n.total == rs.total + 1 && n.today == rs.today + 1
    ensures n.success == if success then rs.success + 1 else rs.success
    ensures n.delays == Newest(rs.delays + [delay], DelayWindow)
    ensures n.successRate == (n.success as real) / (n.total as real) * 100.0
    ensures n.avgDelay == Mean(rs.delays + [delay])
  {
    var total := rs.total + 1;
    var success := if success then rs.success + 1 else rs.success;
    var samples := rs.delays + [delay];
    RuleStats(total, rs.today + 1, success, (success as real) / (total as real) * 100.0,
              Newest(samples, DelayWindow), Mean(samples))
  }

  /** Success never exceeds the total, so the success rate stays a percentage. */
  lemma SuccessRateIsAPercentage(rs: RuleStats, success: bool, delay: real)
    requires rs.success <= rs.total
    ensures var n := NextRuleStats(rs, success, delay);
            n.success <= n.total && 0.0 <= n.successRate <= 100.0
  {
    var n := NextRuleStats(rs, success, delay);
    assert (n.success as real) <= (n.total as real);
    RatioAtMostOne(n.success as real, n.total as real);
  }

  lemma RatioAtMostOne(a: real, b: real)
    requires 0.0 <= a <= b && b > 0.0
    ensures 0.0 <= a / b * 100.0 <= 100.0
  {
    assert a / b <= 1.0;
  }

  /** The stored delays are the newest samples, at most a hundred, ending with the new one. */
  lemma DelayWindowIsBounded(rs: RuleStats, success: bool, delay: real)
    ensures var n := NextRuleStats(rs, success, delay);
            0 < |n.delays| <= DelayWindow && n.delays[|n.delays| - 1] == delay &&
            (|rs.delays| < DelayWindow ==> n.delays == rs.delays + [delay])
  {
  }

  /**
    The average is taken over the samples before trimming: with a hundred samples already
    stored, 101 go into it, so it can differ from the mean of what is kept.
   */
  lemma AverageIncludesTheTrimmedSample()
    ensures var rs := RuleStats(100, 100, 100, 100.0, [1.0] + seq(99, _ => 0.0), 0.01);
            var n := NextRuleStats(rs, true, 0.0);
            n.delays == seq(100, _ => 0.0) && n.avgDelay != 0.0
  {
    var old_delays := [1.0] + seq(99, _ => 0.0);
    var samples := old_delays + [0.0];
    assert |samples| == 101;
    assert samples[1..] == seq(100, _ => 0.0);
    SumOfOneThenZeros(samples);
  }

  lemma SumOfOneThenZeros(s: seq<real>)
    requires |s| > 0 && s[0] == 1.0 && forall i :: 1 <= i < |s| ==> s[i] == 0.0
    ensures SumReals(s) == 1.0
  {
    SumOfZeros(s[1..]);
  }

  lemma {:induction false} SumOfZeros(s: seq<real>)
    requires forall i :: 0 <= i < |s| ==> s[i] == 0.0
    ensures SumReals(s) == 0.0
    decreases |s|
  {
    if |s| > 0 {
      SumOfZeros(s[1..]);
    }
  }

  /** `value(key, 0) + 1` written back; only called where the value read is a number. */
  function Bump(store: Store, key: Key): Store
    requires IntAt(store, key).Some?
  {
    store[key := IntValue(IntAt(store, key).value + 1)]
  }

  /**
    update_stats in the order the source runs it: the message total, the success total
    (only on success), the daily count, then the rule's statistics. The first value of the
    wrong type stops it with the writes before it kept.
   */
  function UpdateStatsSpec(store: Store, ruleName: string, success: bool, delay: real, today: string): (s: Store)
    ensures IntAt(store, TotalMessagesKey).None? ==> s == store
    ensures s.Keys <= store.Keys + {TotalMessagesKey, TotalSuccessKey, DailyKey(today), RuleKey(ruleName)}
    ensures forall k :: k in store && Untouched(k, today, ruleName) ==> k in s && s[k] == store[k]
    ensures ForwardLogAt(s) == ForwardLogAt(store) && ErrorLogAt(s) == ErrorLogAt(store)
  {
    if IntAt(store, TotalMessagesKey).None? then store
    else
      var s1 := Bump(store, TotalMessagesKey);
      if success && IntAt(s1, TotalSuccessKey).None? then s1
      else
        var s2 := if success then Bump(s1, TotalSuccessKey) else s1;
        if IntAt(s2, DailyKey(today)).None? then s2
        else
          var s3 := Bump(s2, DailyKey(today));
          match RuleStatsAt(s3, RuleKey(ruleName))
          case None => s3
          case Some(rs) => s3[RuleKey(ruleName) := RuleStatsValue(NextRuleStats(rs, success, delay))]
  }

  /** Every key update_stats touches holds a value of the type it expects (or nothing yet). */
  predicate StatsWellTyped(store: Store, today: string, ruleName: string)
  {
    && IntAt(store, TotalMessagesKey).Some?
    && IntAt(store, TotalSuccessKey).Some?
    && IntAt(store, DailyKey(today)).Some?
    && RuleStatsAt(store, RuleKey(ruleName)).Some?
  }

  /**
    On a well-typed store, update_stats adds one message, one success iff the forward
    succeeded, one to today's count and one forward to the rule's statistics.
   */
  lemma UpdateStatsCounts(store: Store, ruleName: string, success: bool, delay: real, today: string)
    requires StatsWellTyped(store, today, ruleName)
    ensures var s := UpdateStatsSpec(store, ruleName, success, delay, today);
            && IntAt(s, TotalMessagesKey) == Some(IntAt(store, TotalMessagesKey).value + 1)
            && IntAt(s, TotalSuccessKey) == Some(IntAt(store, TotalSuccessKey).value + (if success then 1 else 0))
            && IntAt(s, DailyKey(today)) == Some(IntAt(store, DailyKey(today)).value + 1)
            && RuleStatsAt(s, RuleKey(ruleName)) == Some(NextRuleStats(RuleStatsAt(store, RuleKey(ruleName)).value, success, delay))
  {
    var s1 := Bump(store, TotalMessagesKey);
    var s2 := if success then Bump(s1, TotalSuccessKey) else s1;
    var s3 := Bump(s2, DailyKey(today));
    assert RuleStatsAt(s3, RuleKey(ruleName)) == RuleStatsAt(store, RuleKey(ruleName));
    var rs := RuleStatsAt(store, RuleKey(ruleName)).value;
    UpdateStatsUnfolds(store, ruleName, success, delay, today);
    CountersAfterWrites(store, ruleName, success, RuleStatsValue(NextRuleStats(rs, success, delay)), today);
  }

  /** On a well-typed store every step of update_stats happens. */
  lemma UpdateStatsUnfolds(store: Store, ruleName: string, success: bool, delay: real, today: string)
    requires StatsWellTyped(store, today, ruleName)
    ensures UpdateStatsSpec(store, ruleName, success, delay, today) ==
      var s1 := Bump(store, TotalMessagesKey);
      var s2 := if success then Bump(s1, TotalSuccessKey) else s1;
      var s3 := Bump(s2, DailyKey(today));
      s3[RuleKey(ruleName) := RuleStatsValue(NextRuleStats(RuleStatsAt(s3, RuleKey(ruleName)).value, success, delay))]
  {
  }

  /** The three counters after the three bumps, whatever is then written for the rule. */
  lemma CountersAfterWrites(store: Store, ruleName: string, success: bool, v: Value, today: string)
    requires StatsWellTyped(store, today, ruleName)
    ensures var s1 := Bump(store, TotalMessagesKey);
      IntAt(s1, TotalSuccessKey).Some? &&
      var s2 := if success then Bump(s1, TotalSuccessKey) else s1;
      IntAt(s2, DailyKey(today)).Some? &&
      var s := Bump(s2, DailyKey(today))[RuleKey(ruleName) := v];
      && IntAt(s, TotalMessagesKey) == Some(IntAt(store, TotalMessagesKey).value + 1)
      && IntAt(s, TotalSuccessKey) == Some(IntAt(store, TotalSuccessKey).value + (if success then 1 else 0))
      && IntAt(s, DailyKey(today)) == Some(IntAt(store, DailyKey(today)).value + 1)
  {
    var s1 := Bump(store, TotalMessagesKey);
    assert IntAt(s1, TotalSuccessKey) == IntAt(store, TotalSuccessKey);
    var s2 := if success then Bump(s1, TotalSuccessKey) else s1;
    assert IntAt(s2, TotalMessagesKey) == IntAt(s1, TotalMessagesKey);
    assert IntAt(s2, DailyKey(today)) == IntAt(store, DailyKey(today));
    var s3 := Bump(s2, DailyKey(today));
    assert IntAt(s3, TotalMessagesKey) == IntAt(s1, TotalMessagesKey);
    assert IntAt(s3, TotalSuccessKey) == IntAt(s2, TotalSuccessKey);
  }

  /** update_stats adds only its own keys and leaves every other key as it was. */
  lemma UpdateStatsFrame(store: Store, ruleName: string, success: bool, delay: real, today: string)
    requires StatsWellTyped(store, today, ruleName)
    ensures var s := UpdateStatsSpec(store, ruleName, success, delay, today);
            && s.Keys == store.Keys + {TotalMessagesKey, DailyKey(today), RuleKey(ruleName)} + (if success then {TotalSuccessKey} else {})
            && forall k :: k in store && Untouched(k, today, ruleName) ==> k in s && s[k] == store[k]
  {
  }

  /** A key update_stats does not write for this date and rule. */
  predicate Untouched(k: Key, today: string, ruleName: string)
  {
    k != TotalMessagesKey && k != TotalSuccessKey && k != DailyKey(today) && k != RuleKey(ruleName)
  }

  /** update_stats keeps every key it may touch well typed, for any later date and rule. */
  lemma UpdateStatsKeepsTypes(store: Store, ruleName: string, success: bool, delay: real, today: string,
                              laterDay: string, laterRule: string)
    requires StatsWellTyped(store, today, ruleName) && StatsWellTyped(store, laterDay, laterRule)
    ensures StatsWellTyped(UpdateStatsSpec(store, ruleName, success, delay, today), laterDay, laterRule)
  {
  }

  /**
    The message total is written first, so it counts the message whenever it holds a
    number, even when a later key stops update_stats.
   */
  lemma UpdateStatsCountsEveryMessage(store: Store, ruleName: string, success: bool, delay: real, today: string)
    requires IntAt(store, TotalMessagesKey).Some?
    ensures IntAt(UpdateStatsSpec(store, ruleName, success, delay, today), TotalMessagesKey) ==
            Some(IntAt(store, TotalMessagesKey).value + 1)
  {
    var counted := Some(IntAt(store, TotalMessagesKey).value + 1);
    var s1 := Bump(store, TotalMessagesKey);
    if !success || IntAt(s1, TotalSuccessKey).Some? {
      var s2 := if success then Bump(s1, TotalSuccessKey) else s1;
      assert IntAt(s2, TotalMessagesKey) == counted;
      if IntAt(s2, DailyKey(today)).Some? {
        var s3 := Bump(s2, DailyKey(today));
        assert IntAt(s3, TotalMessagesKey) == counted;
        match RuleStatsAt(s3, RuleKey(ruleName))
        case None =>
        case Some(rs) =>
          WriteKeepsOtherInts(s3, RuleKey(ruleName), TotalMessagesKey, RuleStatsValue(NextRuleStats(rs, success, delay)));
      }
    }
  }

  lemma WriteKeepsOtherInts(store: Store, key: Key, other: Key, v: Value)
    requires key != other
    ensures IntAt(store[key := v], other) == IntAt(store, other)
  {
  }

  /** update_stats never touches the two logs, whatever the store holds. */
  lemma UpdateStatsLeavesLogs(store: Store, ruleName: string, success: bool, delay: real, today: string)
    ensures ForwardLogAt(UpdateStatsSpec(store, ruleName, success, delay, today)) == ForwardLogAt(store)
    ensures ErrorLogAt(UpdateStatsSpec(store, ruleName, success, delay, today)) == ErrorLogAt(store)
  {
  }

  /** If the message total holds something that is not a number, update_stats changes nothing. */
  lemma UpdateStatsStopsAtBadTotal(store: Store, ruleName: string, success: bool, delay: real, today: string)
    requires TotalMessagesKey in store && !store[TotalMessagesKey].IntValue?
    ensures UpdateStatsSpec(store, ruleName, success, delay, today) == store
  {
  }

  // ---------------------------------------------------------------------------
  // log_forward and log_error

  /** Append `entry` to the forward log, keeping the newest thousand; no change on a bad value. */
  function LogForwardSpec(store: Store, entry: ForwardEntry): (s: Store)
    ensures ForwardLogAt(store).Some? ==> ForwardLogAt(s) == Some(Newest(ForwardLogAt(store).value + [entry], ForwardLogCap))
    ensures ForwardLogAt(store).None? ==> s == store
    ensures s.Keys <= store.Keys + {ForwardLogKey}
    ensures forall k :: k in store && k != ForwardLogKey ==> k in s && s[k] == store[k]
  {
    match ForwardLogAt(store)
    case None => store
    case Some(logs) => store[ForwardLogKey := ForwardLogValue(Newest(logs + [entry], ForwardLogCap))]
  }

  /** Append `entry` to the error log, keeping the newest five hundred; no change on a bad value. */
  function LogErrorSpec(store: Store, entry: ErrorEntry): (s: Store)
    ensures ErrorLogAt(store).Some? ==> ErrorLogAt(s) == Some(Newest(ErrorLogAt(store).value + [entry], ErrorLogCap))
    ensures ErrorLogAt(store).None? ==> s == store
    ensures s.Keys <= store.Keys + {ErrorLogKey}
    ensures forall k :: k in store && k != ErrorLogKey ==> k in s && s[k] == store[k]
  {
    match ErrorLogAt(store)
    case None => store
    case Some(logs) => store[ErrorLogKey := ErrorLogValue(Newest(logs + [entry], ErrorLogCap))]
  }

  /**
    The forward log stays within its cap, ends with the new entry and keeps the entries
    before it in insertion order; nothing else in the store changes.
   */
  lemma ForwardLogIsBounded(store: Store, entry: ForwardEntry)
    requires ForwardLogAt(store).Some?
    ensures var s := LogForwardSpec(store, entry);
            var logs := ForwardLogAt(s).value;
            && ForwardLogAt(s).Some?
            && 0 < |logs| <= ForwardLogCap && logs[|logs| - 1] == entry
            && logs == Newest(ForwardLogAt(store).value + [entry], ForwardLogCap)
            && forall k :: k in store && k != ForwardLogKey ==> k in s && s[k] == store[k]
  {
    var logs := Newest(ForwardLogAt(store).value + [entry], ForwardLogCap);
    NewestKeepsLast(ForwardLogAt(store).value, entry, ForwardLogCap);
    assert LogForwardSpec(store, entry) == store[ForwardLogKey := ForwardLogValue(logs)];
  }

  lemma ErrorLogIsBounded(store: Store, entry: ErrorEntry)
    requires ErrorLogAt(store).Some?
    ensures var s := LogErrorSpec(store, entry);
            var logs := ErrorLogAt(s).value;
            && ErrorLogAt(s).Some?
            && 0 < |logs| <= ErrorLogCap && logs[|logs| - 1] == entry
            && logs == Newest(ErrorLogAt(store).value + [entry], ErrorLogCap)
            && forall k :: k in store && k != ErrorLogKey ==> k in s && s[k] == store[k]
  {
    var logs := Newest(ErrorLogAt(store).value + [entry], ErrorLogCap);
    NewestKeepsLast(ErrorLogAt(store).value, entry, ErrorLogCap);
    assert LogErrorSpec(store, entry) == store[ErrorLogKey := ErrorLogValue(logs)];
  }

  /** Forward logs written one at a time hold the newest thousand of all entries, as if trimmed once. */
  function LogForwardAll(store: Store, entries: seq<ForwardEntry>): Store
    decreases |entries|
  {
    if |entries| == 0 then store else LogForwardAll(LogForwardSpec(store, entries[0]), entries[1..])
  }

  lemma {:induction false} ForwardLogKeepsNewest(store: Store, entries: seq<ForwardEntry>)
    requires ForwardLogAt(store).Some? && |ForwardLogAt(store).value| <= ForwardLogCap
    ensures ForwardLogAt(LogForwardAll(store, entries)) == Some(Newest(ForwardLogAt(store).value + entries, ForwardLogCap))
    decreases |entries|
  {
    var logs := ForwardLogAt(store).value;
    if |entries| == 0 {
      assert logs + entries == logs;
    } else {
      var next := LogForwardSpec(store, entries[0]);
      ForwardLogKeepsNewest(next, entries[1..]);
      NewestOfNewest(logs + [entries[0]], entries[1..], ForwardLogCap);
      assert (logs + [entries[0]]) + entries[1..] == logs + entries;
    }
  }

  /** Logging never changes the message total, whatever the store holds. */
  lemma LogsKeepTheTotal(store: Store, f: ForwardEntry, e: ErrorEntry)
    ensures IntAt(LogForwardSpec(store, f), TotalMessagesKey) == IntAt(store, TotalMessagesKey)
    ensures IntAt(LogErrorSpec(store, e), TotalMessagesKey) == IntAt(store, TotalMessagesKey)
  {
  }

  /** Logging touches only its own log key, so the statistics stay well typed. */
  lemma LogsKeepStatsTypes(store: Store, f: ForwardEntry, e: ErrorEntry, today: string, ruleName: string)
    requires StatsWellTyped(store, today, ruleName)
    ensures StatsWellTyped(LogForwardSpec(store, f), today, ruleName)
    ensures StatsWellTyped(LogErrorSpec(store, e), today, ruleName)
  {
  }
}

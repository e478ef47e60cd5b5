/**
  core/forward.py: the forwarding engine. It loads the enabled rule views, subscribes the
  Telegram clients to the rules' source chats, routes each incoming message to the rules of
  its chat, and runs every such rule through the pipeline filter, delay, dispatch (Telegram
  or Twitter), statistics, forward log. The store the statistics and logs live in is the
  key-value map of the Stats module; Telegram, the downloads, Twitter's network calls, the
  regex engine and the clock are the oracles of an `Env`.
 */
module Forward {

  import opened Wrappers
  import opened Seqs
  import opened Strings
  import opened RuleData
  import opened Database
  import opened Config
  import opened Twitter
  import opened MessageFilters
  import opened Stats

  /** The call made through the active Telegram client: a file with a caption, or a text message. */
  datatype TelegramSend = SendFile(target: int, caption: Option<string>) | SendMessage(target: int, text: Option<string>)

  /** `download_media`: it raised, or it returned a path (None when nothing was saved). */
  datatype Download = DownloadRaised | Downloaded(path: Option<string>)

  /**
    The world outside the engine. `telegramSend` is False when the client raised (no active
    client included); `now` is `datetime.now().isoformat()`, `today` its `%Y-%m-%d` form and
    `elapsed` the seconds between the two clock readings around a dispatch.
   */
  datatype Env = Env(
    regexSearch: (string, string) -> Option<bool>,
    telegramSend: TelegramSend -> bool,
    download: Message -> Download,
    upload: string -> Option<int>,
    post: StatusUpdate -> bool,
    now: string,
    today: string,
    elapsed: real)

  const RuleErrorType := "规则处理"
  /** `str(KeyError('delay'))`. */
  const MissingDelayMessage := "'delay'"

  // ---------------------------------------------------------------------------
  // Routing

  /** `matching_rules`: the rules whose source chat is `str(event.chat_id)`, in rule order. */
  function Matching(rules: seq<RuleView>, chatId: int): (r: seq<RuleView>)
    ensures forall i :: 0 <= i < |r| ==> r[i] in rules && r[i].sourceGroup.id == IntToString(chatId)
    ensures forall i :: 0 <= i < |rules| && rules[i].sourceGroup.id == IntToString(chatId) ==> rules[i] in r
  {
    Filter(rules, FromChat(chatId))
  }

  function FromChat(chatId: int): RuleView -> bool
  {
    (v: RuleView) => v.sourceGroup.id == IntToString(chatId)
  }

  /** A message from a chat no rule listens to is routed nowhere. */
  lemma UnwatchedChatMatchesNothing(rules: seq<RuleView>, chatId: int)
    requires forall i :: 0 <= i < |rules| ==> rules[i].sourceGroup.id != IntToString(chatId)
    ensures Matching(rules, chatId) == []
  {
    FilterNone(rules, FromChat(chatId));
  }

  /** Routing by chat id is exact: two different chats never share a matching rule. */
  lemma RoutingIsByExactChat(rules: seq<RuleView>, chatA: int, chatB: int, v: RuleView)
    requires v in Matching(rules, chatA) && v in Matching(rules, chatB)
    ensures chatA == chatB
  {
    IntToStringInjective(chatA, chatB);
  }

  // ---------------------------------------------------------------------------
  // Dispatch

  /**
    forward_to_telegram up to the send: None when `int(target.id)` or `options['media_forward']`
    raises; otherwise a file (with the text as caption) when media forwarding is on and the
    message has media, else a text message.
   */
  function TelegramRequest(rule: RuleView, m: Message): (r: Option<TelegramSend>)
    ensures r.Some? <==> ParseInt(rule.target.id).Some? && rule.options.mediaForward.Some?
    ensures r.Some? ==> r.value.target == ParseInt(rule.target.id).value
    ensures r.Some? ==> (r.value.SendFile? <==> rule.options.mediaForward.value && m.hasMedia)
    ensures r.Some? && r.value.SendFile? ==> r.value.caption == m.text
    ensures r.Some? && r.value.SendMessage? ==> r.value.text == m.text
  {
    match ParseInt(rule.target.id)
    case None => None
    case Some(id) =>
      match rule.options.mediaForward
      case None => None
      case Some(mediaForward) => Some(if mediaForward && m.hasMedia then SendFile(id, m.text) else SendMessage(id, m.text))
  }

  /** forward_to_telegram: True iff the request could be formed and the client sent it. */
  function ForwardToTelegram(rule: RuleView, m: Message, env: Env): (r: bool)
    ensures r ==> ParseInt(rule.target.id).Some? && rule.options.mediaForward.Some?
    ensures ParseInt(rule.target.id).Some? && rule.options.mediaForward.Some? ==>
              var target := ParseInt(rule.target.id).value;
              (r <==> env.telegramSend(if rule.options.mediaForward.value && m.hasMedia then SendFile(target, m.text)
                                       else SendMessage(target, m.text)))
  {
    var req := TelegramRequest(rule, m);
    req.Some? && env.telegramSend(req.value)
  }

  /** What forward_to_twitter did: its result, the status posted (if any) and the paths cleaned up. */
  datatype TwitterOutcome = TwitterOutcome(success: bool, sent: Option<StatusUpdate>, cleaned: seq<string>)

  /** The media paths of forward_to_twitter: None when the download raised. */
  function TweetMedia(mediaForward: bool, m: Message, env: Env): (r: Option<seq<string>>)
    ensures r.Some? ==> |r.value| <= 1
    ensures !(mediaForward && m.hasMedia) ==> r == Some([])
    ensures r.Some? && |r.value| == 1 ==> mediaForward && m.hasMedia && env.download(m) == Downloaded(Some(r.value[0])) && r.value[0] != ""
  {
    if mediaForward && m.hasMedia then
      match env.download(m)
      case DownloadRaised => None
      case Downloaded(path) => Some(if path.Some? && path.value != "" then [path.value] else [])
    else Some([])
  }

  /**
    forward_to_twitter with `registered` telling whether the rule's target account is a
    registered Twitter client. Every failure before the send yields False with nothing
    posted and nothing cleaned up; after the send, every downloaded path is cleaned up.
   */
  function TwitterSpec(rule: RuleView, m: Message, registered: bool, env: Env): (o: TwitterOutcome)
    ensures !registered || ComposeTweet(rule.twitterConfig, m).None? || rule.options.mediaForward.None? ==>
              o == TwitterOutcome(false, None, [])
    ensures o.sent.Some? ==> o.success == env.post(o.sent.value)
    ensures o.sent.None? ==> !o.success
    ensures |o.cleaned| <= 1
  {
    if !registered then TwitterOutcome(false, None, [])
    else
      match ComposeTweet(rule.twitterConfig, m)
      case None => TwitterOutcome(false, None, [])
      case Some(text) =>
        match rule.options.mediaForward
        case None => TwitterOutcome(false, None, [])
        case Some(mediaForward) =>
          match TweetMedia(mediaForward, m, env)
          case None => TwitterOutcome(false, None, [])
          case Some(paths) =>
            var ids := UploadAll(Take(paths, MaxMediaPerTweet), env.upload);
            if ids.None? then TwitterOutcome(false, None, paths)
            else
              var status := StatusFor(ShapeText(text), ids.value);
              TwitterOutcome(env.post(status), Some(status), paths)
  }

  /**
    A tweet that went out carries the composed text, shaped to 280 characters, and media
    iff something was downloaded and uploaded; the paths cleaned up are exactly the ones
    downloaded, and nothing is downloaded unless media forwarding is on and the message has
    media.
   */
  lemma TweetCarriesTheComposedText(rule: RuleView, m: Message, registered: bool, env: Env)
    ensures var o := TwitterSpec(rule, m, registered, env);
            && (o.success ==> registered && o.sent.Some? && ComposeTweet(rule.twitterConfig, m).Some?
                              && o.sent.value.status == ShapeText(ComposeTweet(rule.twitterConfig, m).value))
            && (o.sent.Some? ==> (o.sent.value.WithMedia? <==> |o.cleaned| > 0))
            && (|o.cleaned| > 0 ==> rule.options.mediaForward == Some(true) && m.hasMedia
                                    && env.download(m) == Downloaded(Some(o.cleaned[0])))
  {
    var o := TwitterSpec(rule, m, registered, env);
    if registered && ComposeTweet(rule.twitterConfig, m).Some? && rule.options.mediaForward.Some? {
      var paths := TweetMedia(rule.options.mediaForward.value, m, env);
      if paths.Some? {
        var ids := UploadAll(Take(paths.value, MaxMediaPerTweet), env.upload);
        if ids.Some? {
          assert |ids.value| == |Take(paths.value, MaxMediaPerTweet)| == |paths.value|;
        }
      }
    }
  }

  /** The dispatch of process_rule: by target type, Telegram or Twitter. */
  function Dispatch(rule: RuleView, m: Message, registered: set<string>, env: Env): bool
  {
    if rule.targetType == TelegramGroupTarget then ForwardToTelegram(rule, m, env)
    else TwitterSpec(rule, m, rule.target.id in registered, env).success
  }

  // ---------------------------------------------------------------------------
  // The per-rule pipeline

  /** The log_forward entry of a forward. */
  function ForwardEntryOf(rule: RuleView, m: Message, success: bool, env: Env): (e: ForwardEntry)
    ensures e.rule == rule.name && e.source == rule.sourceGroup.title
    ensures e.target == rule.targetType + ": " + rule.target.title
    ensures e.status == "success" <==> success
    ensures e.status == "failed" <==> !success
    ensures |e.message| <= ExcerptLength
    ensures Truthy(m.text) ==> |e.message| <= |m.text.value| && e.message == m.text.value[..|e.message|]
    ensures !Truthy(m.text) ==> e.message == ""
  {
    ForwardEntry(env.now, rule.name, rule.sourceGroup.title, rule.targetType + ": " + rule.target.title,
                 StatusText(success), Excerpt(m.text))
  }

  /** The rule reaches dispatch: its filter passes and its options have a delay. */
  predicate Dispatched(rule: RuleView, m: Message, env: Env)
  {
    CheckFilters(rule.filters, m, env.regexSearch) && rule.options.delay.Some?
  }

  /** How process_rule ended for one rule: filtered out, stopped by a missing delay, or forwarded. */
  datatype RuleOutcome = FilteredOut | MissingDelay | Forwarded(success: bool)

  /** The outcome of process_rule, the dispatch result included. */
  function Outcome(rule: RuleView, m: Message, registered: set<string>, env: Env): (o: RuleOutcome)
    ensures o.FilteredOut? <==> !CheckFilters(rule.filters, m, env.regexSearch)
    ensures o.MissingDelay? <==> CheckFilters(rule.filters, m, env.regexSearch) && rule.options.delay.None?
    ensures o.Forwarded? <==> Dispatched(rule, m, env)
  {
    if !CheckFilters(rule.filters, m, env.regexSearch) then FilteredOut
    else if rule.options.delay.None? then MissingDelay
    else Forwarded(Dispatch(rule, m, registered, env))
  }

  /** The error entry of a rule whose options lack `delay`. */
  function MissingDelayEntry(rule: RuleView, env: Env): ErrorEntry
  {
    ErrorEntry(env.now, Some(rule.name), RuleErrorType, MissingDelayMessage)
  }

  /**
    process_rule on the store, given how it ended: nothing when the filter failed; an
    error entry under the rule's name when `options['delay']` is missing; otherwise
    update_stats and then log_forward, once each, with the dispatch result.
   */
  function ProcessRuleSpec(store: Store, rule: RuleView, m: Message, outcome: RuleOutcome, env: Env): (s: Store)
    ensures outcome.FilteredOut? ==> s == store
    ensures !outcome.Forwarded? ==> ForwardLogAt(s) == ForwardLogAt(store) && IntAt(s, TotalMessagesKey) == IntAt(store, TotalMessagesKey)
    ensures !outcome.MissingDelay? ==> ErrorLogAt(s) == ErrorLogAt(store)
  {
    match outcome
    case FilteredOut => store
    case MissingDelay => LogErrorSpec(store, MissingDelayEntry(rule, env))
    case Forwarded(success) =>
      LogForwardSpec(UpdateStatsSpec(store, rule.name, success, env.elapsed, env.today), ForwardEntryOf(rule, m, success, env))
  }

  /** The sleep of process_rule: the delay's seconds when the rule passes its filter and its delay is on. */
  function SleepOf(rule: RuleView, outcome: RuleOutcome): (r: seq<int>)
    ensures |r| <= 1
  {
    if outcome.Forwarded? && rule.options.delay.Some? && rule.options.delay.value.enabled
    then [rule.options.delay.value.seconds] else []
  }

  /** process_rule sleeps once, for the delay's seconds, iff the rule reaches dispatch with its delay on. */
  lemma SleepIsTheDelay(rule: RuleView, m: Message, registered: set<string>, env: Env)
    ensures var r := SleepOf(rule, Outcome(rule, m, registered, env));
            && (|r| == 1 <==> Dispatched(rule, m, env) && rule.options.delay.value.enabled)
            && (|r| == 1 ==> r[0] == rule.options.delay.value.seconds)
  {
  }

  /** A message that fails the filter changes no counter and no log, and waits for nothing. */
  lemma FilteredOutChangesNothing(store: Store, rule: RuleView, m: Message, registered: set<string>, env: Env)
    requires !CheckFilters(rule.filters, m, env.regexSearch)
    ensures ProcessRuleSpec(store, rule, m, Outcome(rule, m, registered, env), env) == store
    ensures SleepOf(rule, Outcome(rule, m, registered, env)) == []
  {
  }

  /**
    A rule without a delay setting only appends one error entry under its name; the
    counters and the forward log stay as they were.
   */
  lemma MissingDelayIsLoggedUnderTheRule(store: Store, rule: RuleView, m: Message, env: Env)
    requires ErrorLogAt(store).Some?
    ensures var s := ProcessRuleSpec(store, rule, m, MissingDelay, env);
            && ErrorLogAt(s).Some? && |ErrorLogAt(s).value| > 0
            && ErrorLogAt(s).value[|ErrorLogAt(s).value| - 1] == ErrorEntry(env.now, Some(rule.name), RuleErrorType, MissingDelayMessage)
            && IntAt(s, TotalMessagesKey) == IntAt(store, TotalMessagesKey)
            && ForwardLogAt(s) == ForwardLogAt(store)
  {
  }

  /**
    A forwarded rule adds one message to the totals, one success iff the dispatch
    succeeded, and one entry at the end of the forward log whose status is the dispatch
    result.
   */
  lemma ForwardIsCountedAndLogged(store: Store, rule: RuleView, m: Message, success: bool, env: Env)
    requires StatsWellTyped(store, env.today, rule.name) && ForwardLogAt(store).Some?
    ensures var s := ProcessRuleSpec(store, rule, m, Forwarded(success), env);
            && IntAt(s, TotalMessagesKey) == Some(IntAt(store, TotalMessagesKey).value + 1)
            && IntAt(s, TotalSuccessKey) == Some(IntAt(store, TotalSuccessKey).value + (if success then 1 else 0))
            && ForwardLogAt(s).Some? && |ForwardLogAt(s).value| > 0
            && ForwardLogAt(s).value[|ForwardLogAt(s).value| - 1] == ForwardEntryOf(rule, m, success, env)
  {
    var e := ForwardEntryOf(rule, m, success, env);
    var s1 := UpdateStatsSpec(store, rule.name, success, env.elapsed, env.today);
    UpdateStatsCounts(store, rule.name, success, env.elapsed, env.today);
    UpdateStatsLeavesLogs(store, rule.name, success, env.elapsed, env.today);
    LogForwardKeepsCounters(s1, e);
  }

  lemma LogForwardKeepsCounters(store: Store, e: ForwardEntry)
    ensures IntAt(LogForwardSpec(store, e), TotalMessagesKey) == IntAt(store, TotalMessagesKey)
    ensures IntAt(LogForwardSpec(store, e), TotalSuccessKey) == IntAt(store, TotalSuccessKey)
  {
  }

  // ---------------------------------------------------------------------------
  // The fan-out of handle_message

  /** The outcome of each of `rules` for the message, in order. */
  function Outcomes(rules: seq<RuleView>, m: Message, registered: set<string>, env: Env): (r: seq<RuleOutcome>)
    ensures |r| == |rules|
    ensures forall i :: 0 <= i < |rules| ==> r[i] == Outcome(rules[i], m, registered, env)
  {
    seq(|rules|, i requires 0 <= i < |rules| => Outcome(rules[i], m, registered, env))
  }

  /** One more rule of the fan-out adds that rule's sleep after the earlier ones. */
  lemma SleepsAllStep(first: seq<int>, before: seq<int>, after: seq<int>, rules: seq<RuleView>, i: nat, m: Message,
                      registered: set<string>, env: Env)
    requires i < |rules|
    requires before == first + SleepsAll(rules[..i], Outcomes(rules, m, registered, env)[..i])
    requires after == before + SleepOf(rules[i], Outcome(rules[i], m, registered, env))
    ensures after == first + SleepsAll(rules[..i + 1], Outcomes(rules, m, registered, env)[..i + 1])
  {
    var outcomes := Outcomes(rules, m, registered, env);
    assert rules[..i + 1][..i] == rules[..i];
    assert outcomes[..i + 1][..i] == outcomes[..i];
    AppendAssoc(first, SleepsAll(rules[..i], outcomes[..i]), SleepOf(rules[i], outcomes[i]));
  }

  /** One more rule of the fan-out is one more process_rule, with that rule's outcome. */
  lemma ProcessAllStep(start: Store, before: Store, after: Store, rules: seq<RuleView>, i: nat, m: Message,
                       registered: set<string>, env: Env)
    requires i < |rules|
    requires before == ProcessAll(start, rules[..i], Outcomes(rules, m, registered, env)[..i], m, env)
    requires after == ProcessRuleSpec(before, rules[i], m, Outcome(rules[i], m, registered, env), env)
    ensures after == ProcessAll(start, rules[..i + 1], Outcomes(rules, m, registered, env)[..i + 1], m, env)
  {
    var outcomes := Outcomes(rules, m, registered, env);
    assert rules[..i + 1][..i] == rules[..i];
    assert outcomes[..i + 1][..i] == outcomes[..i];
  }

  /** The store after process_rule has run for each of `rules` in order, with its outcome. */
  function ProcessAll(store: Store, rules: seq<RuleView>, outcomes: seq<RuleOutcome>, m: Message, env: Env): Store
    requires |outcomes| == |rules|
    decreases |rules|
  {
    if |rules| == 0 then store
    else ProcessRuleSpec(ProcessAll(store, rules[..|rules| - 1], outcomes[..|rules| - 1], m, env),
                         rules[|rules| - 1], m, outcomes[|rules| - 1], env)
  }

  /** The sleeps of process_rule for each of `rules` in order. */
  function SleepsAll(rules: seq<RuleView>, outcomes: seq<RuleOutcome>): seq<int>
    requires |outcomes| == |rules|
    decreases |rules|
  {
    if |rules| == 0 then []
    else SleepsAll(rules[..|rules| - 1], outcomes[..|rules| - 1]) + SleepOf(rules[|rules| - 1], outcomes[|rules| - 1])
  }

  /** The forward log entries of the forwarded rules among `rules`, in order. */
  function ForwardEntries(rules: seq<RuleView>, outcomes: seq<RuleOutcome>, m: Message, env: Env): seq<ForwardEntry>
    requires |outcomes| == |rules|
    decreases |rules|
  {
    if |rules| == 0 then []
    else
      var n := |rules| - 1;
      ForwardEntries(rules[..n], outcomes[..n], m, env) +
        (if outcomes[n].Forwarded? then [ForwardEntryOf(rules[n], m, outcomes[n].success, env)] else [])
  }

  predicate IsForwarded(o: RuleOutcome) { o.Forwarded? }

  /** The rules forwarded are exactly those that pass their filter and have a delay setting. */
  lemma ForwardedAreTheDispatched(rules: seq<RuleView>, m: Message, registered: set<string>, env: Env)
    ensures forall i :: 0 <= i < |rules| ==>
              (IsForwarded(Outcomes(rules, m, registered, env)[i]) <==> Dispatched(rules[i], m, env))
  {
  }

  /**
    One failing rule does not stop its siblings: with a numeric message total, the total
    rises by exactly the number of rules forwarded.
   */
  lemma {:induction false} TotalCountsEachForward(store: Store, rules: seq<RuleView>, outcomes: seq<RuleOutcome>, m: Message, env: Env)
    requires |outcomes| == |rules|
    requires IntAt(store, TotalMessagesKey).Some?
    ensures IntAt(ProcessAll(store, rules, outcomes, m, env), TotalMessagesKey) ==
            Some(IntAt(store, TotalMessagesKey).value + |Filter(outcomes, IsForwarded)|)
  {
    TotalCountsEachStep(store, rules, outcomes, m, env);
    ForwardCountIsFilterLength(outcomes);
  }

  /** The number of forwarded outcomes, counted from the end as ProcessAll runs. */
  function ForwardCount(outcomes: seq<RuleOutcome>): nat
    decreases |outcomes|
  {
    if |outcomes| == 0 then 0
    else ForwardCount(outcomes[..|outcomes| - 1]) + (if outcomes[|outcomes| - 1].Forwarded? then 1 else 0)
  }

  lemma {:induction false} ForwardCountIsFilterLength(outcomes: seq<RuleOutcome>)
    ensures ForwardCount(outcomes) == |Filter(outcomes, IsForwarded)|
    decreases |outcomes|
  {
    if |outcomes| > 0 {
      var n := |outcomes| - 1;
      ForwardCountIsFilterLength(outcomes[..n]);
      assert outcomes == outcomes[..n] + [outcomes[n]];
      FilterSnoc(outcomes[..n], outcomes[n], IsForwarded);
    }
  }

  lemma {:induction false} TotalCountsEachStep(store: Store, rules: seq<RuleView>, outcomes: seq<RuleOutcome>, m: Message, env: Env)
    requires |outcomes| == |rules|
    requires IntAt(store, TotalMessagesKey).Some?
    ensures IntAt(ProcessAll(store, rules, outcomes, m, env), TotalMessagesKey) ==
            Some(IntAt(store, TotalMessagesKey).value + ForwardCount(outcomes))
    decreases |rules|
  {
    if |rules| > 0 {
      var n := |rules| - 1;
      TotalCountsEachStep(store, rules[..n], outcomes[..n], m, env);
      ProcessRuleCountsOnce(ProcessAll(store, rules[..n], outcomes[..n], m, env), rules[n], m, outcomes[n], env);
    }
  }

  /** A rule name well typed before the fan-out stays well typed after it. */
  lemma {:induction false} ProcessAllKeepsTypes(store: Store, rules: seq<RuleView>, outcomes: seq<RuleOutcome>, m: Message, env: Env, name: string)
    requires |outcomes| == |rules|
    requires forall i :: 0 <= i < |rules| ==> StatsWellTyped(store, env.today, rules[i].name)
    requires StatsWellTyped(store, env.today, name)
    ensures StatsWellTyped(ProcessAll(store, rules, outcomes, m, env), env.today, name)
    decreases |rules|
  {
    if |rules| > 0 {
      var n := |rules| - 1;
      ProcessAllKeepsTypes(store, rules[..n], outcomes[..n], m, env, name);
      ProcessAllKeepsTypes(store, rules[..n], outcomes[..n], m, env, rules[n].name);
      ProcessRuleKeepsTypes(ProcessAll(store, rules[..n], outcomes[..n], m, env), rules[n], m, outcomes[n], env, name);
    }
  }

  /** process_rule keeps the statistics of any rule well typed. */
  lemma ProcessRuleKeepsTypes(store: Store, rule: RuleView, m: Message, outcome: RuleOutcome, env: Env, name: string)
    requires StatsWellTyped(store, env.today, rule.name) && StatsWellTyped(store, env.today, name)
    ensures StatsWellTyped(ProcessRuleSpec(store, rule, m, outcome, env), env.today, name)
  {
    match outcome
    case FilteredOut =>
    case MissingDelay =>
      LogsKeepStatsTypes(store, ForwardEntryOf(rule, m, false, env), MissingDelayEntry(rule, env), env.today, name);
    case Forwarded(success) =>
      var s1 := UpdateStatsSpec(store, rule.name, success, env.elapsed, env.today);
      UpdateStatsKeepsTypes(store, rule.name, success, env.elapsed, env.today, env.today, name);
      LogsKeepStatsTypes(s1, ForwardEntryOf(rule, m, success, env), MissingDelayEntry(rule, env), env.today, name);
  }

  /** process_rule adds one to the message total iff the rule is forwarded. */
  lemma ProcessRuleCountsOnce(store: Store, rule: RuleView, m: Message, outcome: RuleOutcome, env: Env)
    requires IntAt(store, TotalMessagesKey).Some?
    ensures IntAt(ProcessRuleSpec(store, rule, m, outcome, env), TotalMessagesKey) ==
            Some(IntAt(store, TotalMessagesKey).value + (if outcome.Forwarded? then 1 else 0))
  {
    match outcome
    case FilteredOut =>
    case MissingDelay =>
      LogsKeepTheTotal(store, ForwardEntryOf(rule, m, false, env), MissingDelayEntry(rule, env));
    case Forwarded(success) =>
      var s1 := UpdateStatsSpec(store, rule.name, success, env.elapsed, env.today);
      UpdateStatsCountsEveryMessage(store, rule.name, success, env.elapsed, env.today);
      LogsKeepTheTotal(s1, ForwardEntryOf(rule, m, success, env), MissingDelayEntry(rule, env));
  }

  /**
    The forward log after a message holds the newest thousand of the old entries followed
    by one entry per forwarded rule, in rule order.
   */
  lemma {:induction false} ForwardLogGetsEachForward(store: Store, rules: seq<RuleView>, outcomes: seq<RuleOutcome>, m: Message, env: Env)
    requires |outcomes| == |rules|
    requires ForwardLogAt(store).Some? && |ForwardLogAt(store).value| <= ForwardLogCap
    ensures ForwardLogAt(ProcessAll(store, rules, outcomes, m, env)) ==
            Some(Newest(ForwardLogAt(store).value + ForwardEntries(rules, outcomes, m, env), ForwardLogCap))
    decreases |rules|
  {
    var oldLogs := ForwardLogAt(store).value;
    if |rules| == 0 {
      assert oldLogs + [] == oldLogs;
    } else {
      var n := |rules| - 1;
      ForwardLogGetsEachForward(store, rules[..n], outcomes[..n], m, env);
      var s0 := ProcessAll(store, rules[..n], outcomes[..n], m, env);
      var before := oldLogs + ForwardEntries(rules[..n], outcomes[..n], m, env);
      ProcessRuleLogsOnce(s0, rules[n], m, outcomes[n], env);
      var added := if outcomes[n].Forwarded? then [ForwardEntryOf(rules[n], m, outcomes[n].success, env)] else [];
      NewestOfNewest(before, added, ForwardLogCap);
      if added == [] {
        assert before + added == before;
      }
      assert before + added == oldLogs + ForwardEntries(rules, outcomes, m, env);
    }
  }

  /** One process_rule appends one entry to the forward log iff the rule is forwarded. */
  lemma ProcessRuleLogsOnce(store: Store, rule: RuleView, m: Message, outcome: RuleOutcome, env: Env)
    requires ForwardLogAt(store).Some?
    ensures var s := ProcessRuleSpec(store, rule, m, outcome, env);
            ForwardLogAt(s) ==
              if outcome.Forwarded?
              then Some(Newest(ForwardLogAt(store).value + [ForwardEntryOf(rule, m, outcome.success, env)], ForwardLogCap))
              else ForwardLogAt(store)
  {
    if outcome.Forwarded? {
      UpdateStatsLeavesLogs(store, rule.name, outcome.success, env.elapsed, env.today);
    }
  }

  // ---------------------------------------------------------------------------
  // Loading the rules

  predicate Active(v: RuleView) { !v.disabled }

  /**
    load_rules: keeping the views that are not disabled gives the views of exactly the
    enabled rules, in stored order.
   */
  lemma {:induction false} ActiveViewsAreTheEnabledRules(rules: seq<ForwardRule>, groups: seq<Group>)
    ensures Filter(RuleViews(rules, groups), Active) == RuleViews(Filter(rules, IsEnabled), groups)
    decreases |rules|
  {
    if |rules| > 0 {
      var init := rules[..|rules| - 1];
      var last := rules[|rules| - 1];
      ActiveViewsAreTheEnabledRules(init, groups);
      var v := ViewOf(last, groups);
      var lastView := if v.Some? then [v.value] else [];
      assert RuleViews(rules, groups) == RuleViews(init, groups) + lastView;
      FilterAppend(RuleViews(init, groups), lastView, Active);
      SplitLast(rules);
      FilterSnoc(init, last, IsEnabled);
      var kept := Filter(init, IsEnabled) + (if IsEnabled(last) then [last] else []);
      if IsEnabled(last) {
        assert kept[..|kept| - 1] == Filter(init, IsEnabled);
        assert RuleViews(kept, groups) == RuleViews(Filter(init, IsEnabled), groups) + lastView;
        assert Filter(lastView, Active) == lastView;
      } else {
        assert kept == Filter(init, IsEnabled);
        assert Filter(lastView, Active) == [];
      }
    }
  }

  // ---------------------------------------------------------------------------
  // The active Twitter client

  /**
    The rule makes forward_to_twitter select a client: it reaches the dispatch, it targets
    Twitter, and its target account is a registered client.
   */
  predicate SelectsClient(rule: RuleView, m: Message, env: Env, clients: map<string, ApiClient>)
  {
    Dispatched(rule, m, env) && rule.targetType != TelegramGroupTarget && rule.target.id in clients
  }

  /** The active client after process_rule: the rule's account when it selects one, else unchanged. */
  function ActiveAfterRule(active: ApiClient?, clients: map<string, ApiClient>, rule: RuleView, m: Message, env: Env): ApiClient?
  {
    if SelectsClient(rule, m, env, clients) then clients[rule.target.id] else active
  }

  /** The active client after process_rule has run for each of `rules` in order. */
  function ActiveAfterAll(active: ApiClient?, clients: map<string, ApiClient>, rules: seq<RuleView>, m: Message, env: Env): ApiClient?
    decreases |rules|
  {
    if |rules| == 0 then active
    else ActiveAfterRule(ActiveAfterAll(active, clients, rules[..|rules| - 1], m, env), clients, rules[|rules| - 1], m, env)
  }

  /** When no rule of the fan-out selects a client, the active client stays what it was. */
  lemma {:induction false} NoneSelectedKeepsActive(active: ApiClient?, clients: map<string, ApiClient>, rules: seq<RuleView>, m: Message, env: Env)
    requires forall j :: 0 <= j < |rules| ==> !SelectsClient(rules[j], m, env, clients)
    ensures ActiveAfterAll(active, clients, rules, m, env) == active
    decreases |rules|
  {
    if |rules| > 0 {
      var n := |rules| - 1;
      assert !SelectsClient(rules[n], m, env, clients);
      var init := rules[..n];
      assert forall j :: 0 <= j < |init| ==> init[j] == rules[j];
      NoneSelectedKeepsActive(active, clients, init, m, env);
    }
  }

  /**
    After a fan-out the active client is the account of the last rule that selected one.
   */
  lemma {:induction false} LastSelectedIsActive(active: ApiClient?, clients: map<string, ApiClient>, rules: seq<RuleView>, m: Message, env: Env, k: nat)
    requires k < |rules| && SelectsClient(rules[k], m, env, clients)
    requires forall j :: k < j < |rules| ==> !SelectsClient(rules[j], m, env, clients)
    ensures ActiveAfterAll(active, clients, rules, m, env) == clients[rules[k].target.id]
    decreases |rules|
  {
    var n := |rules| - 1;
    var init := rules[..n];
    if k < n {
      assert !SelectsClient(rules[n], m, env, clients);
      assert ActiveAfterAll(active, clients, rules, m, env) == ActiveAfterAll(active, clients, init, m, env);
      assert init[k] == rules[k];
      assert forall j :: k < j < |init| ==> init[j] == rules[j];
      LastSelectedIsActive(active, clients, init, m, env, k);
    }
  }

  // ---------------------------------------------------------------------------
  // The engine

  /** The union of the rules' source chat ids: the chats the handlers listen to. */
  function SourceChats(rules: seq<RuleView>): (r: set<string>)
    ensures forall i :: 0 <= i < |rules| ==> rules[i].sourceGroup.id in r
    ensures forall c :: c in r ==> exists i :: 0 <= i < |rules| && rules[i].sourceGroup.id == c
  {
    set i | 0 <= i < |rules| :: rules[i].sourceGroup.id
  }

  /** A registered `NewMessage` handler: the client's phone and the chats it listens to. */
  datatype Handler = Handler(phone: string, chats: set<string>)

  /** One handler per phone, in order, all listening to `chats`. */
  function Handlers(phones: seq<string>, chats: set<string>): (r: seq<Handler>)
    ensures |r| == |phones|
    ensures forall i :: 0 <= i < |phones| ==> r[i] == Handler(phones[i], chats)
  {
    seq(|phones|, i requires 0 <= i < |phones| => Handler(phones[i], chats))
  }

  class ForwardEngine {
    const settings: Settings
    const twitter: TwitterManager
    /** The phones of the Telegram clients, in the order `telegram.clients` yields them. */
    const phones: seq<string>
    var rules: seq<RuleView>
    var running: bool
    var store: Store
    /** The delays awaited so far, in order. */
    var sleeps: seq<int>
    var connected: set<string>
    var handlers: seq<Handler>

    /** `__init__`: not running, and the active rules loaded. */
    constructor (settings: Settings, twitter: TwitterManager, phones: seq<string>, store: Store)
      ensures this.settings == settings && this.twitter == twitter && this.phones == phones && this.store == store
      ensures !running && sleeps == [] && connected == {} && handlers == []
      ensures rules == Filter(RuleViews(settings.db.GetRules(false), settings.db.groups), Active)
    {
      this.settings := settings;
      this.twitter := twitter;
      this.phones := phones;
      this.store := store;
      running := false;
      sleeps := [];
      connected := {};
      handlers := [];
      new;
      LoadRules();
    }

    /** load_rules: the views of get_forward_rules that are not disabled. */
    method LoadRules()
      modifies this`rules
      ensures rules == Filter(RuleViews(settings.db.GetRules(false), settings.db.groups), Active)
      ensures settings.db.Valid() ==> rules == RuleViews(settings.db.GetRules(true), settings.db.groups)
    {
      var all := settings.GetForwardRules();
      rules := Filter(all, Active);
      if settings.db.Valid() {
        EnabledRulesAreTheEnabledOnes(settings.db.rules);
        ActiveViewsAreTheEnabledRules(settings.db.GetRules(false), settings.db.groups);
      }
    }

    /**
      start: nothing when already running. Otherwise the engine is running, each phone's
      client is connected when it was not (`connect` is start_client, which reports failure
      instead of raising) and gets a handler for the rules' source chats; when registering a
      handler raises (`register` False), running is reset and the error is raised, the
      handlers before it staying registered.
     */
    method Start(connect: string -> bool, register: string -> bool) returns (r: Result<(), string>)
      modifies this`running, this`connected, this`handlers
      ensures old(running) ==> r.Success? && running && connected == old(connected) && handlers == old(handlers)
      ensures !old(running) ==> (r.Success? <==> forall i :: 0 <= i < |phones| ==> register(phones[i]))
      ensures !old(running) && r.Success? ==>
        && running
        && handlers == old(handlers) + Handlers(phones, SourceChats(rules))
        && connected == old(connected) + set i | 0 <= i < |phones| && connect(phones[i]) :: phones[i]
      ensures !old(running) && r.Failure? ==>
        && !running
        && exists k :: 0 <= k < |phones| && !register(phones[k]) && (forall j :: 0 <= j < k ==> register(phones[j]))
                       && handlers == old(handlers) + Handlers(phones[..k], SourceChats(rules))
                       && connected == old(connected) + set j | 0 <= j < k + 1 && connect(phones[j]) :: phones[j]
    {
      if running {
        return Success(());
      }
      running := true;
      var sources := SourceChats(rules);
      var i := 0;
      while i < |phones|
        invariant 0 <= i <= |phones| && running
        invariant forall j :: 0 <= j < i ==> register(phones[j])
        invariant handlers == old(handlers) + Handlers(phones[..i], sources)
        invariant connected == old(connected) + set j | 0 <= j < i && connect(phones[j]) :: phones[j]
      {
        var phone := phones[i];
        if phone !in connected && connect(phone) {
          connected := connected + {phone};
        }
        if !register(phone) {
          running := false;
          assert connected == old(connected) + set j | 0 <= j < i + 1 && connect(phones[j]) :: phones[j];
          assert !register(phones[i]) && handlers == old(handlers) + Handlers(phones[..i], SourceChats(rules));
          return Failure("registering the message handler failed");
        }
        handlers := handlers + [Handler(phone, sources)];
        assert Handlers(phones[..i + 1], sources) == Handlers(phones[..i], sources) + [Handler(phone, sources)];
        i := i + 1;
      }
      assert phones[..i] == phones;
      r := Success(());
    }

    /** stop: nothing when not running; otherwise not running and every client disconnected. */
    method Stop()
      modifies this`running, this`connected
      ensures !old(running) ==> !running && connected == old(connected)
      ensures old(running) ==> !running && connected == {}
    {
      if !running {
        return;
      }
      running := false;
      connected := {};
    }

    /** update_stats, one read-modify-write at a time; a value of the wrong type ends it. */
    method UpdateStats(ruleName: string, success: bool, delay: real, today: string)
      modifies this`store
      ensures store == UpdateStatsSpec(old(store), ruleName, success, delay, today)
    {
      if IntAt(store, TotalMessagesKey).None? {
        return;
      }
      store := Bump(store, TotalMessagesKey);
      if success {
        if IntAt(store, TotalSuccessKey).None? {
          return;
        }
        store := Bump(store, TotalSuccessKey);
      }
      if IntAt(store, DailyKey(today)).None? {
        return;
      }
      store := Bump(store, DailyKey(today));
      var ruleStats := RuleStatsAt(store, RuleKey(ruleName));
      if ruleStats.None? {
        return;
      }
      store := store[RuleKey(ruleName) := RuleStatsValue(NextRuleStats(ruleStats.value, success, delay))];
    }

    /** log_forward: append the entry and keep the newest thousand. */
    method LogForward(entry: ForwardEntry)
      modifies this`store
      ensures store == LogForwardSpec(old(store), entry)
    {
      var logs := ForwardLogAt(store);
      if logs.None? {
        return;
      }
      var appended := logs.value + [entry];
      if |appended| > ForwardLogCap {
        appended := appended[|appended| - ForwardLogCap..];
      }
      store := store[ForwardLogKey := ForwardLogValue(appended)];
    }

    /** log_error: append the entry and keep the newest five hundred. */
    method LogError(entry: ErrorEntry)
      modifies this`store
      ensures store == LogErrorSpec(old(store), entry)
    {
      var logs := ErrorLogAt(store);
      if logs.None? {
        return;
      }
      var appended := logs.value + [entry];
      if |appended| > ErrorLogCap {
        appended := appended[|appended| - ErrorLogCap..];
      }
      store := store[ErrorLogKey := ErrorLogValue(appended)];
    }

    /**
      forward_to_twitter: select the rule's target account, compose the text, download the
      media when asked, send, then clean up every downloaded path.
     */
    method ForwardToTwitter(rule: RuleView, m: Message, env: Env) returns (success: bool, cleaned: seq<string>)
      modifies twitter`activeClient
      ensures var o := TwitterSpec(rule, m, rule.target.id in twitter.clients, env);
              success == o.success && cleaned == o.cleaned
      ensures rule.target.id in twitter.clients ==> twitter.activeClient == twitter.clients[rule.target.id]
      ensures rule.target.id !in twitter.clients ==> twitter.activeClient == old(twitter.activeClient)
    {
      var selected := twitter.SetActiveClient(rule.target.id);
      if !selected {
        return false, [];
      }
      var text := ComposeTweet(rule.twitterConfig, m);
      if text.None? {
        return false, [];
      }
      if rule.options.mediaForward.None? {
        return false, [];
      }
      var mediaPaths: seq<string> := [];
      if rule.options.mediaForward.value && m.hasMedia {
        var download := env.download(m);
        if download.DownloadRaised? {
          return false, [];
        }
        if download.path.Some? && download.path.value != "" {
          mediaPaths := mediaPaths + [download.path.value];
          assert mediaPaths == [download.path.value];
        }
      }
      assert TweetMedia(rule.options.mediaForward.value, m, env) == Some(mediaPaths);
      var sent, _ := twitter.SendTweet(text.value, mediaPaths, env.upload, env.post);
      success := sent.Success? && sent.value;
      cleaned := mediaPaths;
    }

    /**
      process_rule: the filter, then the delay (recorded), then the dispatch by target type,
      then update_stats and log_forward; a missing delay setting is logged as an error under
      the rule's name.
     */
    method ProcessRule(rule: RuleView, m: Message, env: Env)
      modifies this`store, this`sleeps, twitter`activeClient
      ensures store == ProcessRuleSpec(old(store), rule, m, Outcome(rule, m, twitter.clients.Keys, env), env)
      ensures sleeps == old(sleeps) + SleepOf(rule, Outcome(rule, m, twitter.clients.Keys, env))
      ensures twitter.activeClient == ActiveAfterRule(old(twitter.activeClient), twitter.clients, rule, m, env)
    {
      if !CheckFilters(rule.filters, m, env.regexSearch) {
        return;
      }
      if rule.options.delay.None? {
        LogError(ErrorEntry(env.now, Some(rule.name), RuleErrorType, MissingDelayMessage));
        return;
      }
      if rule.options.delay.value.enabled {
        sleeps := sleeps + [rule.options.delay.value.seconds];
      }
      var success := false;
      if rule.targetType == TelegramGroupTarget {
        success := ForwardToTelegram(rule, m, env);
      } else {
        var cleaned;
        success, cleaned := ForwardToTwitter(rule, m, env);
      }
      UpdateStats(rule.name, success, env.elapsed, env.today);
      LogForward(ForwardEntryOf(rule, m, success, env));
    }

    /** handle_message: every rule of the message's chat, one after another, in rule order. */
    method HandleMessage(m: Message, env: Env)
      modifies this`store, this`sleeps, twitter`activeClient
      ensures var matching := Matching(rules, m.chatId);
              var outcomes := Outcomes(matching, m, twitter.clients.Keys, env);
              && store == ProcessAll(old(store), matching, outcomes, m, env)
              && sleeps == old(sleeps) + SleepsAll(matching, outcomes)
              && twitter.activeClient == ActiveAfterAll(old(twitter.activeClient), twitter.clients, matching, m, env)
    {
      var matching := Matching(rules, m.chatId);
      ProcessEach(matching, m, env);
    }

    /** The loop of handle_message: process_rule for each of `matching`, in order. */
    method ProcessEach(matching: seq<RuleView>, m: Message, env: Env)
      modifies this`store, this`sleeps, twitter`activeClient
      ensures var outcomes := Outcomes(matching, m, twitter.clients.Keys, env);
              && store == ProcessAll(old(store), matching, outcomes, m, env)
              && sleeps == old(sleeps) + SleepsAll(matching, outcomes)
              && twitter.activeClient == ActiveAfterAll(old(twitter.activeClient), twitter.clients, matching, m, env)
    {
      ghost var registered := twitter.clients.Keys;
      ghost var start := store;
      var i := 0;
      while i < |matching|
        invariant 0 <= i <= |matching|
        invariant store == ProcessAll(start, matching[..i], Outcomes(matching, m, registered, env)[..i], m, env)
        invariant sleeps == old(sleeps) + SleepsAll(matching[..i], Outcomes(matching, m, registered, env)[..i])
        invariant twitter.activeClient == ActiveAfterAll(old(twitter.activeClient), twitter.clients, matching[..i], m, env)
      {
        ghost var before, sleptBefore := store, sleeps;
        ProcessRule(matching[i], m, env);
        assert matching[..i + 1][..i] == matching[..i];
        ProcessAllStep(start, before, store, matching, i, m, registered, env);
        SleepsAllStep(old(sleeps), sleptBefore, sleeps, matching, i, m, registered, env);
        i := i + 1;
      }
      assert Outcomes(matching, m, registered, env)[..i] == Outcomes(matching, m, registered, env);
      assert matching[..i] == matching;
    }
  }
}

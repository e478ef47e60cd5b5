/**
  config/settings.py: the Settings facade over the database. It renames account fields for
  its callers, joins the stored rules with their groups into the dict shape the forward
  engine consumes, and saves a rule together with its two groups.
 */
module Config {

  import opened Wrappers
  import opened Seqs
  import opened RuleData
  import opened Database

  /** `{'phone', 'api_id', 'api_hash'}` of get_telegram_accounts. */
  datatype TelegramAccountView = TelegramAccountView(phone: string, apiId: string, apiHash: string)

  /** `{'username', 'api_key', 'api_secret', 'access_token', 'access_secret'}` of get_twitter_accounts. */
  datatype TwitterAccountView = TwitterAccountView(
    username: string, apiKey: string, apiSecret: string, accessToken: Option<string>, accessSecret: Option<string>)

  /** `{'id', 'title'}`: a group as the rule dialog passes it to save_forward_rule. */
  datatype GroupRef = GroupRef(id: string, title: string)

  /** The `rule_data` argument of save_forward_rule; a missing `twitter_config` is None. */
  datatype RuleInput = RuleInput(
    sourceGroup: GroupRef, target: GroupRef, targetType: string,
    filters: Filters, options: Options, twitterConfig: Option<TwitterConfig>)

  /** `source_group` of an emitted rule: the external id, the title and the group type. */
  datatype SourceGroupView = SourceGroupView(id: string, title: string, groupType: string)

  /** One rule dict of get_forward_rules. */
  datatype RuleView = RuleView(
    name: string, sourceGroup: SourceGroupView, targetType: string, target: GroupRef,
    filters: Filters, options: Options, twitterConfig: Option<TwitterConfig>, disabled: bool)

  function TelegramView(a: Account): (v: TelegramAccountView)
    ensures v.phone == a.username && v.apiId == a.apiId && v.apiHash == a.apiHash
  {
    TelegramAccountView(a.username, a.apiId, a.apiHash)
  }

  function TwitterView(a: Account): (v: TwitterAccountView)
    ensures v.username == a.username && v.apiKey == a.apiId && v.apiSecret == a.apiHash
    ensures v.accessToken == a.accessToken && v.accessSecret == a.accessSecret
  {
    TwitterAccountView(a.username, a.apiId, a.apiHash, a.accessToken, a.accessSecret)
  }

  predicate IsTelegram(a: Account) { a.accountType == "telegram" }
  predicate IsTwitter(a: Account) { a.accountType == "twitter" }

  /** The list comprehension of get_telegram_accounts over `get_accounts('telegram')`. */
  function TelegramViews(accounts: seq<Account>): (r: seq<TelegramAccountView>)
    decreases |accounts|
  {
    if |accounts| == 0 then []
    else (if IsTelegram(accounts[0]) then [TelegramView(accounts[0])] else []) + TelegramViews(accounts[1..])
  }

  /** The list comprehension of get_twitter_accounts over `get_accounts('twitter')`. */
  function TwitterViews(accounts: seq<Account>): (r: seq<TwitterAccountView>)
    decreases |accounts|
  {
    if |accounts| == 0 then []
    else (if IsTwitter(accounts[0]) then [TwitterView(accounts[0])] else []) + TwitterViews(accounts[1..])
  }

  /** Saving an account adds exactly one view at the end of its own platform's list, and none to the other. */
  lemma {:induction false} TelegramViewsAppend(accounts: seq<Account>, a: Account)
    ensures TelegramViews(accounts + [a]) == TelegramViews(accounts) + (if IsTelegram(a) then [TelegramView(a)] else [])
    decreases |accounts|
  {
    if |accounts| == 0 {
      assert accounts + [a] == [a];
      assert [a][1..] == [];
    } else {
      assert (accounts + [a])[1..] == accounts[1..] + [a];
      TelegramViewsAppend(accounts[1..], a);
      AppendAssoc(if IsTelegram(accounts[0]) then [TelegramView(accounts[0])] else [], TelegramViews(accounts[1..]),
                  if IsTelegram(a) then [TelegramView(a)] else []);
    }
  }

  lemma {:induction false} TwitterViewsAppend(accounts: seq<Account>, a: Account)
    ensures TwitterViews(accounts + [a]) == TwitterViews(accounts) + (if IsTwitter(a) then [TwitterView(a)] else [])
    decreases |accounts|
  {
    if |accounts| == 0 {
      assert accounts + [a] == [a];
      assert [a][1..] == [];
    } else {
      assert (accounts + [a])[1..] == accounts[1..] + [a];
      TwitterViewsAppend(accounts[1..], a);
      AppendAssoc(if IsTwitter(accounts[0]) then [TwitterView(accounts[0])] else [], TwitterViews(accounts[1..]),
                  if IsTwitter(a) then [TwitterView(a)] else []);
    }
  }

  /** On accounts of one platform, the views rename each account, one for one and in order. */
  lemma {:induction false} TelegramViewsOfTelegramAccounts(accounts: seq<Account>)
    requires forall i :: 0 <= i < |accounts| ==> IsTelegram(accounts[i])
    ensures |TelegramViews(accounts)| == |accounts|
    ensures forall i :: 0 <= i < |accounts| ==> TelegramViews(accounts)[i] == TelegramView(accounts[i])
    decreases |accounts|
  {
    if |accounts| > 0 {
      assert IsTelegram(accounts[0]);
      TelegramViewsOfTelegramAccounts(accounts[1..]);
    }
  }

  lemma {:induction false} TwitterViewsOfTwitterAccounts(accounts: seq<Account>)
    requires forall i :: 0 <= i < |accounts| ==> IsTwitter(accounts[i])
    ensures |TwitterViews(accounts)| == |accounts|
    ensures forall i :: 0 <= i < |accounts| ==> TwitterViews(accounts)[i] == TwitterView(accounts[i])
    decreases |accounts|
  {
    if |accounts| > 0 {
      assert IsTwitter(accounts[0]);
      TwitterViewsOfTwitterAccounts(accounts[1..]);
    }
  }

  /** The views are a per-element renaming of exactly the accounts of that type, in order. */
  lemma {:induction false} TwitterViewsAreRenamedAccounts(accounts: seq<Account>)
    ensures var typed := Filter(accounts, IsTwitter);
            |TwitterViews(accounts)| == |typed| &&
            forall i :: 0 <= i < |typed| ==> TwitterViews(accounts)[i] == TwitterView(typed[i])
    decreases |accounts|
  {
    if |accounts| > 0 {
      TwitterViewsAreRenamedAccounts(accounts[1..]);
    }
  }

  /** The views are a per-element renaming of exactly the accounts of that type, in order. */
  lemma {:induction false} TelegramViewsAreRenamedAccounts(accounts: seq<Account>)
    ensures var typed := Filter(accounts, IsTelegram);
            |TelegramViews(accounts)| == |typed| &&
            forall i :: 0 <= i < |typed| ==> TelegramViews(accounts)[i] == TelegramView(typed[i])
    decreases |accounts|
  {
    if |accounts| > 0 {
      TelegramViewsAreRenamedAccounts(accounts[1..]);
    }
  }

  /** The `group_type` save_forward_rule gives the target group. */
  function TargetGroupType(targetType: string): (t: string)
    ensures t == "group" <==> targetType == TelegramGroupTarget
    ensures t == "twitter" <==> targetType != TelegramGroupTarget
  {
    if targetType == TelegramGroupTarget then "group" else "twitter"
  }

  /** `'success' if success else 'failed'`. */
  function StatusText(success: bool): (s: string)
    ensures s == "success" <==> success
    ensures s == "failed" <==> !success
  {
    if success then "success" else "failed"
  }

  /**
    The dict get_forward_rules emits for `rule`, or None when its source or target group
    does not resolve by id.
   */
  function ViewOf(rule: ForwardRule, groups: seq<Group>): (v: Option<RuleView>)
    ensures v.Some? <==> GroupWithId(groups, rule.sourceGroupId).Some? && GroupWithId(groups, rule.targetId).Some?
    ensures v.Some? ==>
      var src := GroupWithId(groups, rule.sourceGroupId).value;
      var dst := GroupWithId(groups, rule.targetId).value;
      && v.value.name == rule.name && v.value.targetType == rule.targetType
      && v.value.sourceGroup == SourceGroupView(src.groupId, src.title, src.groupType)
      && v.value.target == GroupRef(dst.groupId, dst.title)
      && v.value.filters == rule.filters && v.value.options == rule.options
      && v.value.twitterConfig == rule.twitterConfig
      && (v.value.disabled <==> !rule.isEnabled)
  {
    var src := GroupWithId(groups, rule.sourceGroupId);
    var dst := GroupWithId(groups, rule.targetId);
    if src.Some? && dst.Some? then
      Some(RuleView(rule.name, SourceGroupView(src.value.groupId, src.value.title, src.value.groupType),
                    rule.targetType, GroupRef(dst.value.groupId, dst.value.title),
                    rule.filters, rule.options, rule.twitterConfig, !rule.isEnabled))
    else None
  }

  predicate Resolves(rule: ForwardRule, groups: seq<Group>)
  {
    ViewOf(rule, groups).Some?
  }

  /** The `result` list after the loop of get_forward_rules has visited `rules`. */
  function RuleViews(rules: seq<ForwardRule>, groups: seq<Group>): seq<RuleView>
    decreases |rules|
  {
    if |rules| == 0 then []
    else
      var last := ViewOf(rules[|rules| - 1], groups);
      RuleViews(rules[..|rules| - 1], groups) + (if last.Some? then [last.value] else [])
  }

  /**
    get_forward_rules emits exactly the rules whose two groups resolve, in stored order,
    one view per such rule.
   */
  lemma {:induction false} RuleViewsAreTheResolvingRules(rules: seq<ForwardRule>, groups: seq<Group>)
    ensures var kept := Filter(rules, (r: ForwardRule) => Resolves(r, groups));
            |RuleViews(rules, groups)| == |kept| &&
            forall i :: 0 <= i < |kept| ==> Some(RuleViews(rules, groups)[i]) == ViewOf(kept[i], groups)
    decreases |rules|
  {
    var p := (r: ForwardRule) => Resolves(r, groups);
    if |rules| > 0 {
      var init := rules[..|rules| - 1];
      var last := rules[|rules| - 1];
      RuleViewsAreTheResolvingRules(init, groups);
      assert rules == init + [last];
      FilterAppend(init, [last], p);
      assert Filter([last], p) == (if p(last) then [last] else []) + Filter([last][1..], p);
      assert [last][1..] == [];
    }
  }

  class Settings {
    const db: DatabaseManager

    /**
      `Settings()`: the database lives at `data_dir/forward.db` with the data directory
      `~/.tg_forward`; the manager is the process-wide singleton.
     */
    constructor (registry: DatabaseSingleton, home: string)
      requires registry.Valid()
      modifies registry
      ensures db == registry.instance && registry.Valid() && db.Valid()
      ensures old(registry.instance) != null ==> db == old(registry.instance)
      ensures old(registry.instance) == null ==> fresh(db) && db.Valid() && db.dbPath == DefaultDbPath(home)
    {
      var path := home + "/.tg_forward" + "/" + "forward.db";
      assert path == DefaultDbPath(home);
      var manager := registry.Construct(Some(path), home);
      db := manager;
    }

    /** get_telegram_accounts: one view per Telegram account, in stored order, `username` shown as `phone`. */
    function GetTelegramAccounts(): (r: seq<TelegramAccountView>)
      reads this, db
      ensures var typed := db.GetAccounts(Some("telegram"));
              |r| == |typed| && forall i :: 0 <= i < |typed| ==> r[i] == TelegramView(typed[i])
    {
      TelegramViewsOfTelegramAccounts(db.GetAccounts(Some("telegram")));
      TelegramViews(db.GetAccounts(Some("telegram")))
    }

    /** get_twitter_accounts: one view per Twitter account, in stored order, with the keys renamed. */
    function GetTwitterAccounts(): (r: seq<TwitterAccountView>)
      reads this, db
      ensures var typed := db.GetAccounts(Some("twitter"));
              |r| == |typed| && forall i :: 0 <= i < |typed| ==> r[i] == TwitterView(typed[i])
    {
      TwitterViewsOfTwitterAccounts(db.GetAccounts(Some("twitter")));
      TwitterViews(db.GetAccounts(Some("twitter")))
    }

    /** save_telegram_account: the new account is the last telegram view and the twitter views are unchanged. */
    method SaveTelegramAccount(phone: string, apiId: string, apiHash: string, now: string) returns (a: Account)
      requires db.Valid()
      modifies db`accounts, db`nextAccountId
      ensures db.Valid()
      ensures db.accounts == old(db.accounts) + [a] && IsTelegram(a) && a.username == phone
      ensures GetTelegramAccounts() == old(GetTelegramAccounts()) + [TelegramAccountView(phone, apiId, apiHash)]
      ensures GetTwitterAccounts() == old(GetTwitterAccounts())
    {
      a := db.SaveTelegramAccount(phone, apiId, apiHash, now);
      TypedViews(old(db.accounts), a);
    }

    /** save_twitter_account: the new account is the last twitter view and the telegram views are unchanged. */
    method SaveTwitterAccount(username: string, apiKey: string, apiSecret: string,
                              accessToken: string, accessSecret: string, now: string) returns (a: Account)
      requires db.Valid()
      modifies db`accounts, db`nextAccountId
      ensures db.Valid()
      ensures db.accounts == old(db.accounts) + [a] && IsTwitter(a) && a.username == username
      ensures GetTwitterAccounts() ==
        old(GetTwitterAccounts()) + [TwitterAccountView(username, apiKey, apiSecret, Some(accessToken), Some(accessSecret))]
      ensures GetTelegramAccounts() == old(GetTelegramAccounts())
    {
      a := db.SaveTwitterAccount(username, apiKey, apiSecret, accessToken, accessSecret, now);
      TypedViews(old(db.accounts), a);
    }

    /**
      save_forward_rule: inserts the source group ('source', 'group'), then the target group
      ('target', 'group' for a Telegram group target and 'twitter' otherwise), then the rule
      that references the two new ids.
     */
    method SaveForwardRule(name: string, input: RuleInput, now: string) returns (r: ForwardRule)
      requires db.Valid()
      modifies db`groups, db`nextGroupId, db`rules, db`nextRuleId
      ensures db.Valid()
      ensures db.groups == old(db.groups) + [
        Group(old(db.nextGroupId), input.sourceGroup.id, input.sourceGroup.title, "source", "group", None, now, now),
        Group(old(db.nextGroupId) + 1, input.target.id, input.target.title, "target", TargetGroupType(input.targetType), None, now, now)]
      ensures db.rules == old(db.rules) + [
        RuleRow(old(db.nextRuleId), name, old(db.nextGroupId), input.targetType, old(db.nextGroupId) + 1,
                input.filters, input.options, StoredTwitterConfig(input.twitterConfig), 1, now, now)]
      ensures r == RowToRule(db.rules[|db.rules| - 1])
      ensures ViewOf(r, db.groups) == Some(ExpectedView(name, input))
    {
      var source := db.SaveGroup(input.sourceGroup.id, input.sourceGroup.title, "source", "group", None, now);
      var target := db.SaveGroup(input.target.id, input.target.title, "target", TargetGroupType(input.targetType), None, now);
      r := db.SaveRule(name, source.id, input.targetType, target.id, input.filters, input.options, input.twitterConfig, now);
      assert db.groups == old(db.groups) + [source, target];
      SavedGroupsResolve(old(db.groups), old(db.nextGroupId), source, target);
      SavedRuleView(name, input, r, db.groups, source, target);
    }

    /** get_forward_rules: the loop over `get_rules()` that keeps the rules whose groups resolve. */
    method GetForwardRules() returns (result: seq<RuleView>)
      ensures result == RuleViews(db.GetRules(false), db.groups)
    {
      var rules := db.GetRules(false);
      result := [];
      var i := 0;
      while i < |rules|
        invariant 0 <= i <= |rules|
        invariant result == RuleViews(rules[..i], db.groups)
      {
        assert rules[..i + 1][..i] == rules[..i];
        var rule := rules[i];
        var sourceGroup := db.GetGroupById(rule.sourceGroupId);
        var targetGroup := db.GetGroupById(rule.targetId);
        if sourceGroup.Some? && targetGroup.Some? {
          result := result + [RuleView(rule.name,
                                       SourceGroupView(sourceGroup.value.groupId, sourceGroup.value.title, sourceGroup.value.groupType),
                                       rule.targetType,
                                       GroupRef(targetGroup.value.groupId, targetGroup.value.title),
                                       rule.filters, rule.options, rule.twitterConfig, !rule.isEnabled)];
        }
        i := i + 1;
      }
      assert rules[..i] == rules;
    }

    /** log_forward: one log row whose status is 'success' iff the forward succeeded. */
    method LogForward(ruleId: int, message: string, success: bool, errorMessage: Option<string>, now: string)
      requires db.Valid()
      modifies db`logs, db`nextLogId
      ensures db.Valid()
      ensures db.logs == old(db.logs) + [ForwardLog(old(db.nextLogId), ruleId, message, StatusText(success), errorMessage, now)]
    {
      var _ := db.AddForwardLog(ruleId, message, StatusText(success), errorMessage, now);
    }

    /** get_statistics: the statistics query with a date range and no rule filter. */
    method GetStatisticsQuery(startDate: Option<string>, endDate: Option<string>) returns (query: string, params: seq<SqlParam>)
      ensures var conds := Conditions("date", None, startDate, endDate);
              query == SelectText("statistics", "date", conds) && params == ParamsOf(conds)
    {
      query, params := db.GetStatisticsQuery(None, startDate, endDate);
    }

    /** get_forward_logs: passes its three filters through unchanged. */
    method GetForwardLogsQuery(ruleId: Option<int>, startDate: Option<string>, endDate: Option<string>)
      returns (query: string, params: seq<SqlParam>)
      ensures var conds := Conditions("created_at", ruleId, startDate, endDate);
              query == SelectText("forward_logs", "created_at", conds) && params == ParamsOf(conds)
    {
      query, params := db.GetForwardLogsQuery(ruleId, startDate, endDate);
    }
  }

  /** The view get_forward_rules gives back for a rule just saved by save_forward_rule. */
  function ExpectedView(name: string, input: RuleInput): RuleView
  {
    RuleView(name, SourceGroupView(input.sourceGroup.id, input.sourceGroup.title, "group"), input.targetType,
             input.target, input.filters, input.options, StoredTwitterConfig(input.twitterConfig), false)
  }

  /** The account lists of each type after one more account is stored. */
  lemma TypedViews(accounts: seq<Account>, a: Account)
    ensures TelegramViews(AccountsOfType(accounts + [a], Some("telegram"))) ==
            TelegramViews(AccountsOfType(accounts, Some("telegram"))) + (if IsTelegram(a) then [TelegramView(a)] else [])
    ensures TwitterViews(AccountsOfType(accounts + [a], Some("twitter"))) ==
            TwitterViews(AccountsOfType(accounts, Some("twitter"))) + (if IsTwitter(a) then [TwitterView(a)] else [])
  {
    TelegramTyped(accounts, a);
    TwitterTyped(accounts, a);
  }

  lemma TelegramTyped(accounts: seq<Account>, a: Account)
    ensures TelegramViews(AccountsOfType(accounts + [a], Some("telegram"))) ==
            TelegramViews(AccountsOfType(accounts, Some("telegram"))) + (if IsTelegram(a) then [TelegramView(a)] else [])
  {
    var pt := (x: Account) => x.accountType == "telegram";
    assert AccountsOfType(accounts + [a], Some("telegram")) == Filter(accounts + [a], pt);
    assert AccountsOfType(accounts, Some("telegram")) == Filter(accounts, pt);
    FilterSnoc(accounts, a, pt);
    TelegramViewsAppend(Filter(accounts, pt), a);
    if IsTelegram(a) {
      assert Filter(accounts + [a], pt) == Filter(accounts, pt) + [a];
    } else {
      assert Filter(accounts + [a], pt) == Filter(accounts, pt);
    }
  }

  lemma TwitterTyped(accounts: seq<Account>, a: Account)
    ensures TwitterViews(AccountsOfType(accounts + [a], Some("twitter"))) ==
            TwitterViews(AccountsOfType(accounts, Some("twitter"))) + (if IsTwitter(a) then [TwitterView(a)] else [])
  {
    var pw := (x: Account) => x.accountType == "twitter";
    assert AccountsOfType(accounts + [a], Some("twitter")) == Filter(accounts + [a], pw);
    assert AccountsOfType(accounts, Some("twitter")) == Filter(accounts, pw);
    FilterSnoc(accounts, a, pw);
    TwitterViewsAppend(Filter(accounts, pw), a);
    if IsTwitter(a) {
      assert Filter(accounts + [a], pw) == Filter(accounts, pw) + [a];
    } else {
      assert Filter(accounts + [a], pw) == Filter(accounts, pw);
    }
  }

  lemma SavedRuleView(name: string, input: RuleInput, r: ForwardRule, groups: seq<Group>, source: Group, target: Group)
    requires GroupWithId(groups, r.sourceGroupId) == Some(source) && GroupWithId(groups, r.targetId) == Some(target)
    requires source.groupId == input.sourceGroup.id && source.title == input.sourceGroup.title && source.groupType == "group"
    requires target.groupId == input.target.id && target.title == input.target.title
    requires r.name == name && r.targetType == input.targetType && r.filters == input.filters && r.options == input.options
    requires r.twitterConfig == StoredTwitterConfig(input.twitterConfig) && r.isEnabled
    ensures ViewOf(r, groups) == Some(ExpectedView(name, input))
  {
  }

  /** Ids at and above the counter are fresh, so the two new groups are what their ids resolve to. */
  lemma SavedGroupsResolve(groups: seq<Group>, next: int, source: Group, target: Group)
    requires GroupsOk(groups, next) && source.id == next && target.id == next + 1
    ensures GroupWithId(groups + [source, target], next) == Some(source)
    ensures GroupWithId(groups + [source, target], next + 1) == Some(target)
  {
    FreshIdSkipsPrefix(groups, [source, target], next);
    FreshIdSkipsPrefix(groups, [source, target], next + 1);
    assert [source, target][1..] == [target];
  }

  lemma {:induction false} FreshIdSkipsPrefix(groups: seq<Group>, added: seq<Group>, id: int)
    requires forall i :: 0 <= i < |groups| ==> groups[i].id < id
    ensures GroupWithId(groups + added, id) == GroupWithId(added, id)
    decreases |groups|
  {
    if |groups| > 0 {
      assert (groups + added)[1..] == groups[1..] + added;
      FreshIdSkipsPrefix(groups[1..], added, id);
    } else {
      assert groups + added == added;
    }
  }
}

/**
  models/database.py: the DatabaseManager singleton and its tables. A table is the sequence
  of its rows in rowid order, which is the order a SELECT without ORDER BY returns them in;
  ids come from an AUTOINCREMENT counter and are never reused. The SQL text of the two
  filtered queries is built exactly as the source builds it.
 */
module Database {

  import opened Wrappers
  import opened Seqs
  import opened Strings
  import opened RuleData

  datatype Account = Account(
    id: int, accountType: string, username: string, apiId: string, apiHash: string,
    accessToken: Option<string>, accessSecret: Option<string>, createdAt: string, updatedAt: string)

  /** A row of `groups`: `groupId` is the platform's own id, `role` the `type` column ('source'/'target'). */
  datatype Group = Group(
    id: int, groupId: string, title: string, role: string, groupType: string,
    membersCount: Option<int>, createdAt: string, updatedAt: string)

  /**
    A row of `forward_rules` as stored: `isEnabled` is the integer column, `twitterConfig`
    is None when the column is NULL.
   */
  datatype RuleRow = RuleRow(
    id: int, name: string, sourceGroupId: int, targetType: string, targetId: int,
    filters: Filters, options: Options, twitterConfig: Option<TwitterConfig>,
    isEnabled: int, createdAt: string, updatedAt: string)

  /** The `ForwardRule` dataclass that `_row_to_rule` builds. */
  datatype ForwardRule = ForwardRule(
    id: int, name: string, sourceGroupId: int, targetType: string, targetId: int,
    filters: Filters, options: Options, twitterConfig: Option<TwitterConfig>,
    isEnabled: bool, createdAt: string, updatedAt: string)

  predicate IsEnabled(r: ForwardRule) { r.isEnabled }

  datatype ForwardLog = ForwardLog(
    id: int, ruleId: int, messageText: string, status: string, errorMessage: Option<string>, createdAt: string)

  /** A bound parameter of a query. */
  datatype SqlParam = IntParam(n: int) | TextParam(s: string)

  /** Python truthiness of an optional string and of an optional int. */
  predicate TruthyText(s: Option<string>) { s.Some? && s.value != "" }
  predicate TruthyInt(n: Option<int>) { n.Some? && n.value != 0 }

  /** The `twitter_config` column written by save_rule: `json.dumps(c) if c else None`. */
  function StoredTwitterConfig(c: Option<TwitterConfig>): Option<TwitterConfig>
  {
    if c.Some? && |c.value| > 0 then c else None
  }

  /** `_row_to_rule`: `is_enabled` becomes `bool(...)`, a NULL `twitter_config` becomes None. */
  function RowToRule(row: RuleRow): (r: ForwardRule)
    ensures r.id == row.id && r.name == row.name
    ensures r.sourceGroupId == row.sourceGroupId && r.targetId == row.targetId && r.targetType == row.targetType
    ensures r.filters == row.filters && r.options == row.options && r.twitterConfig == row.twitterConfig
    ensures r.isEnabled <==> row.isEnabled != 0
  {
    ForwardRule(row.id, row.name, row.sourceGroupId, row.targetType, row.targetId,
                row.filters, row.options, row.twitterConfig, row.isEnabled != 0,
                row.createdAt, row.updatedAt)
  }

  /** What save_rule stores and `_row_to_rule` reads back reproduces the saved values. */
  lemma SavedRuleReadsBack(id: int, name: string, sourceGroupId: int, targetType: string, targetId: int,
                           filters: Filters, options: Options, twitterConfig: Option<TwitterConfig>, now: string)
    ensures var r := RowToRule(RuleRow(id, name, sourceGroupId, targetType, targetId, filters, options,
                                       StoredTwitterConfig(twitterConfig), 1, now, now));
            r.filters == filters && r.options == options && r.isEnabled &&
            (twitterConfig.Some? && |twitterConfig.value| > 0 ==> r.twitterConfig == twitterConfig) &&
            (twitterConfig.None? || |twitterConfig.value| == 0 ==> r.twitterConfig.None?)
  {
  }

  // ---------------------------------------------------------------------------
  // Query builders of get_forward_logs and get_statistics

  /** One WHERE condition with the value bound to its placeholder. */
  datatype Condition = Condition(sql: string, param: SqlParam)

  /** The conditions, in the fixed order rule id, start date, end date, each only when truthy. */
  function Conditions(dateColumn: string, ruleId: Option<int>, startDate: Option<string>, endDate: Option<string>): seq<Condition>
  {
    Optional(TruthyInt(ruleId), Condition("rule_id = ?", IntParam(if ruleId.Some? then ruleId.value else 0))) +
    Optional(TruthyText(startDate), Condition(dateColumn + " >= ?", TextParam(if startDate.Some? then startDate.value else ""))) +
    Optional(TruthyText(endDate), Condition(dateColumn + " <= ?", TextParam(if endDate.Some? then endDate.value else "")))
  }

  /** `[c]` when `present`, nothing otherwise. */
  function Optional(present: bool, c: Condition): seq<Condition>
  {
    if present then [c] else []
  }

  function SqlOf(conds: seq<Condition>): seq<string>
  {
    seq(|conds|, i requires 0 <= i < |conds| => conds[i].sql)
  }

  function ParamsOf(conds: seq<Condition>): seq<SqlParam>
  {
    seq(|conds|, i requires 0 <= i < |conds| => conds[i].param)
  }

  /** `' '.join(query)`: the SELECT, a WHERE clause iff there is a condition, then the ORDER BY. */
  function SelectText(table: string, dateColumn: string, conds: seq<Condition>): string
  {
    SelectClause(table) + WhereClause(conds) + (" " + OrderByClause(dateColumn))
  }

  function SelectClause(table: string): string
  {
    "SELECT * FROM " + table
  }

  function OrderByClause(dateColumn: string): string
  {
    "ORDER BY " + dateColumn + " DESC"
  }

  function WhereClause(conds: seq<Condition>): string
  {
    if |conds| > 0 then " WHERE " + Join(SqlOf(conds), " AND ") else ""
  }

  /**
    The query of get_forward_logs (table forward_logs, column created_at) or get_statistics
    (table statistics, column date), built by appending to `conditions` and `params`.
   */
  method BuildFilteredSelect(table: string, dateColumn: string, ruleId: Option<int>,
                             startDate: Option<string>, endDate: Option<string>)
    returns (query: string, params: seq<SqlParam>)
    requires CountChar(table, '?') == 0 && CountChar(dateColumn, '?') == 0
    ensures var conds := Conditions(dateColumn, ruleId, startDate, endDate);
            query == SelectText(table, dateColumn, conds) && params == ParamsOf(conds)
    ensures CountChar(query, '?') == |params|
    ensures |params| == (if TruthyInt(ruleId) then 1 else 0) + (if TruthyText(startDate) then 1 else 0) +
                        (if TruthyText(endDate) then 1 else 0)
  {
    ghost var o1 := Optional(TruthyInt(ruleId), Condition("rule_id = ?", IntParam(if ruleId.Some? then ruleId.value else 0)));
    ghost var o2 := Optional(TruthyText(startDate), Condition(dateColumn + " >= ?", TextParam(if startDate.Some? then startDate.value else "")));
    ghost var o3 := Optional(TruthyText(endDate), Condition(dateColumn + " <= ?", TextParam(if endDate.Some? then endDate.value else "")));
    ghost var conds := Conditions(dateColumn, ruleId, startDate, endDate);
    assert conds == o1 + o2 + o3;
    var parts := [SelectClause(table)];
    params := [];
    var conditions: seq<string> := [];
    if TruthyInt(ruleId) {
      conditions := conditions + ["rule_id = ?"];
      params := params + [IntParam(ruleId.value)];
    }
    OfOptional(TruthyInt(ruleId), Condition("rule_id = ?", IntParam(if ruleId.Some? then ruleId.value else 0)));
    assert conditions == SqlOf(o1) && params == ParamsOf(o1);
    if TruthyText(startDate) {
      conditions := conditions + [dateColumn + " >= ?"];
      params := params + [TextParam(startDate.value)];
    }
    OfOptional(TruthyText(startDate), Condition(dateColumn + " >= ?", TextParam(if startDate.Some? then startDate.value else "")));
    OfConcat(o1, o2);
    assert conditions == SqlOf(o1 + o2) && params == ParamsOf(o1 + o2);
    if TruthyText(endDate) {
      conditions := conditions + [dateColumn + " <= ?"];
      params := params + [TextParam(endDate.value)];
    }
    OfOptional(TruthyText(endDate), Condition(dateColumn + " <= ?", TextParam(if endDate.Some? then endDate.value else "")));
    OfConcat(o1 + o2, o3);
    assert conditions == SqlOf(conds) && params == ParamsOf(conds);
    if |conditions| > 0 {
      parts := parts + ["WHERE " + Join(conditions, " AND ")];
    }
    parts := parts + [OrderByClause(dateColumn)];
    query := Join(parts, " ");
    JoinOfClauses(parts, SelectClause(table), conditions, OrderByClause(dateColumn));
    assert WhereClause(conds) == (if |conditions| > 0 then " WHERE " + Join(conditions, " AND ") else "");
    assert query == SelectText(table, dateColumn, conds);
    PlaceholdersMatchParams(table, dateColumn, ruleId, startDate, endDate);
  }

  lemma OfOptional(present: bool, c: Condition)
    ensures SqlOf(Optional(present, c)) == if present then [c.sql] else []
    ensures ParamsOf(Optional(present, c)) == if present then [c.param] else []
  {
  }

  lemma OfConcat(a: seq<Condition>, b: seq<Condition>)
    ensures SqlOf(a + b) == SqlOf(a) + SqlOf(b)
    ensures ParamsOf(a + b) == ParamsOf(a) + ParamsOf(b)
  {
  }

  /** Every bound parameter has exactly one `?` placeholder in the query. */
  lemma PlaceholdersMatchParams(table: string, dateColumn: string, ruleId: Option<int>,
                                startDate: Option<string>, endDate: Option<string>)
    requires CountChar(table, '?') == 0 && CountChar(dateColumn, '?') == 0
    ensures var conds := Conditions(dateColumn, ruleId, startDate, endDate);
            CountChar(SelectText(table, dateColumn, conds), '?') == |ParamsOf(conds)|
  {
    var conds := Conditions(dateColumn, ruleId, startDate, endDate);
    var head := SelectClause(table);
    var tail := " " + OrderByClause(dateColumn);
    SelectClauseHasNoPlaceholder(table);
    OrderByClauseHasNoPlaceholder(dateColumn);
    ConditionsHaveOnePlaceholder(dateColumn, ruleId, startDate, endDate);
    WherePlaceholders(conds);
    CountCharAppend(head, WhereClause(conds), '?');
    CountCharAppend(head + WhereClause(conds), tail, '?');
    assert |ParamsOf(conds)| == |conds|;
  }

  lemma LogNamesHaveNoPlaceholder()
    ensures CountChar("forward_logs", '?') == 0 && CountChar("created_at", '?') == 0
  {
    CountCharAbsent("forward_logs", '?');
    CountCharAbsent("created_at", '?');
  }

  lemma StatisticsNamesHaveNoPlaceholder()
    ensures CountChar("statistics", '?') == 0 && CountChar("date", '?') == 0
  {
    CountCharAbsent("statistics", '?');
    CountCharAbsent("date", '?');
  }

  lemma SelectClauseHasNoPlaceholder(table: string)
    requires CountChar(table, '?') == 0
    ensures CountChar(SelectClause(table), '?') == 0
  {
    CountCharAbsent("SELECT * FROM ", '?');
    CountCharAppend("SELECT * FROM ", table, '?');
  }

  lemma OrderByClauseHasNoPlaceholder(dateColumn: string)
    requires CountChar(dateColumn, '?') == 0
    ensures CountChar(" " + OrderByClause(dateColumn), '?') == 0
  {
    CountCharAbsent("ORDER BY ", '?');
    CountCharAbsent(" DESC", '?');
    CountCharAbsent(" ", '?');
    CountCharAppend("ORDER BY ", dateColumn, '?');
    CountCharAppend("ORDER BY " + dateColumn, " DESC", '?');
    CountCharAppend(" ", OrderByClause(dateColumn), '?');
  }

  lemma ConditionsHaveOnePlaceholder(dateColumn: string, ruleId: Option<int>,
                                     startDate: Option<string>, endDate: Option<string>)
    requires CountChar(dateColumn, '?') == 0
    ensures var conds := Conditions(dateColumn, ruleId, startDate, endDate);
            forall i :: 0 <= i < |conds| ==> CountChar(conds[i].sql, '?') == 1
  {
    var a := Optional(TruthyInt(ruleId), Condition("rule_id = ?", IntParam(if ruleId.Some? then ruleId.value else 0)));
    var b := Optional(TruthyText(startDate), Condition(dateColumn + " >= ?", TextParam(if startDate.Some? then startDate.value else "")));
    var c := Optional(TruthyText(endDate), Condition(dateColumn + " <= ?", TextParam(if endDate.Some? then endDate.value else "")));
    RuleIdPlaceholder();
    OptionalOnePlaceholder(a, TruthyInt(ruleId), Condition("rule_id = ?", IntParam(if ruleId.Some? then ruleId.value else 0)));
    ComparisonPlaceholder(dateColumn, " >= ?");
    OptionalOnePlaceholder(b, TruthyText(startDate), Condition(dateColumn + " >= ?", TextParam(if startDate.Some? then startDate.value else "")));
    ComparisonPlaceholder(dateColumn, " <= ?");
    OptionalOnePlaceholder(c, TruthyText(endDate), Condition(dateColumn + " <= ?", TextParam(if endDate.Some? then endDate.value else "")));
    ConcatOfOnePlaceholder(a, b);
    ConcatOfOnePlaceholder(a + b, c);
    assert Conditions(dateColumn, ruleId, startDate, endDate) == a + b + c;
  }

  lemma RuleIdPlaceholder()
    ensures CountChar("rule_id = ?", '?') == 1
  {
  }

  lemma ComparisonPlaceholder(column: string, op: string)
    requires CountChar(column, '?') == 0 && op in {" >= ?", " <= ?"}
    ensures CountChar(column + op, '?') == 1
  {
    CountCharAppend(column, op, '?');
    assert CountChar(op, '?') == 1;
  }

  lemma OptionalOnePlaceholder(conds: seq<Condition>, present: bool, c: Condition)
    requires conds == Optional(present, c) && CountChar(c.sql, '?') == 1
    ensures forall i :: 0 <= i < |conds| ==> CountChar(conds[i].sql, '?') == 1
  {
  }

  lemma ConcatOfOnePlaceholder(a: seq<Condition>, b: seq<Condition>)
    requires forall i :: 0 <= i < |a| ==> CountChar(a[i].sql, '?') == 1
    requires forall i :: 0 <= i < |b| ==> CountChar(b[i].sql, '?') == 1
    ensures forall i :: 0 <= i < |a + b| ==> CountChar((a + b)[i].sql, '?') == 1
  {
    forall i | 0 <= i < |a + b|
      ensures CountChar((a + b)[i].sql, '?') == 1
    {
      if i < |a| {
        assert (a + b)[i] == a[i];
      } else {
        assert (a + b)[i] == b[i - |a|];
      }
    }
  }

  lemma WherePlaceholders(conds: seq<Condition>)
    requires forall i :: 0 <= i < |conds| ==> CountChar(conds[i].sql, '?') == 1
    ensures CountChar(WhereClause(conds), '?') == |conds|
  {
    var sqls := SqlOf(conds);
    if |conds| > 0 {
      assert CountChar(" AND ", '?') == 0;
      assert CountChar(" WHERE ", '?') == 0;
      CountCharJoin(sqls, " AND ", '?');
      EachOnePlaceholder(sqls);
      CountCharAppend(" WHERE ", Join(sqls, " AND "), '?');
    }
  }

  /** `' '.join` of the SELECT, the optional WHERE part and the ORDER BY part. */
  lemma JoinOfClauses(parts: seq<string>, head: string, conditions: seq<string>, tail: string)
    requires parts == [head] + (if |conditions| > 0 then ["WHERE " + Join(conditions, " AND ")] else []) + [tail]
    ensures Join(parts, " ") ==
      head + (if |conditions| > 0 then " WHERE " + Join(conditions, " AND ") else "") + (" " + tail)
  {
    if |conditions| > 0 {
      JoinWithWhere(head, Join(conditions, " AND "), tail);
      assert parts == [head, "WHERE " + Join(conditions, " AND "), tail];
    } else {
      assert parts == [head, tail];
      JoinTwo(head, tail, " ");
    }
  }

  lemma JoinWithWhere(head: string, where: string, tail: string)
    ensures Join([head, "WHERE " + where, tail], " ") == head + (" WHERE " + where) + (" " + tail)
  {
    JoinThree(head, "WHERE " + where, tail, " ");
    assert " " + ("WHERE " + where) == " WHERE " + where;
  }

  lemma {:induction false} EachOnePlaceholder(parts: seq<string>)
    requires forall i :: 0 <= i < |parts| ==> CountChar(parts[i], '?') == 1
    ensures CountCharAll(parts, '?') == |parts|
    decreases |parts|
  {
    if |parts| > 0 {
      EachOnePlaceholder(parts[1..]);
    }
  }

  // ---------------------------------------------------------------------------
  // The manager and its tables

  /** `Path.home() / '.tg_forward' / 'forward.db'`. */
  function DefaultDbPath(home: string): string
  {
    home + "/.tg_forward/forward.db"
  }

  /** Ids strictly increase in rowid order and stay below the table's AUTOINCREMENT counter. */
  ghost predicate AccountsOk(rows: seq<Account>, next: int)
  {
    && (forall i, j :: 0 <= i < j < |rows| ==> rows[i].id < rows[j].id)
    && (forall i :: 0 <= i < |rows| ==> rows[i].id < next)
  }

  ghost predicate GroupsOk(rows: seq<Group>, next: int)
  {
    && (forall i, j :: 0 <= i < j < |rows| ==> rows[i].id < rows[j].id)
    && (forall i :: 0 <= i < |rows| ==> rows[i].id < next)
  }

  /** As for the other tables, and `is_enabled` only ever holds 0 or 1. */
  ghost predicate RulesOk(rows: seq<RuleRow>, next: int)
  {
    && (forall i, j :: 0 <= i < j < |rows| ==> rows[i].id < rows[j].id)
    && (forall i :: 0 <= i < |rows| ==> rows[i].id < next)
    && (forall i :: 0 <= i < |rows| ==> rows[i].isEnabled == 0 || rows[i].isEnabled == 1)
  }

  ghost predicate LogsOk(rows: seq<ForwardLog>, next: int)
  {
    && (forall i, j :: 0 <= i < j < |rows| ==> rows[i].id < rows[j].id)
    && (forall i :: 0 <= i < |rows| ==> rows[i].id < next)
  }

  class DatabaseManager {
    const dbPath: string
    var accounts: seq<Account>
    var groups: seq<Group>
    var rules: seq<RuleRow>
    var logs: seq<ForwardLog>
    var nextAccountId: int
    var nextGroupId: int
    var nextRuleId: int
    var nextLogId: int

    /** The table invariant of every table. */
    ghost predicate Valid()
      reads this
    {
      && AccountsOk(accounts, nextAccountId)
      && GroupsOk(groups, nextGroupId)
      && RulesOk(rules, nextRuleId)
      && LogsOk(logs, nextLogId)
    }

    /** `_create_tables` on a new database file: every table empty, every counter at 1. */
    constructor (dbPath: string)
      ensures Valid() && this.dbPath == dbPath
      ensures accounts == [] && groups == [] && rules == [] && logs == []
      ensures nextAccountId == 1 && nextGroupId == 1 && nextRuleId == 1 && nextLogId == 1
    {
      this.dbPath := dbPath;
      accounts, groups, rules, logs := [], [], [], [];
      nextAccountId, nextGroupId, nextRuleId, nextLogId := 1, 1, 1, 1;
    }

    // Accounts

    method SaveTelegramAccount(phone: string, apiId: string, apiHash: string, now: string) returns (a: Account)
      requires Valid()
      modifies this`accounts, this`nextAccountId
      ensures Valid()
      ensures a == Account(old(nextAccountId), "telegram", phone, apiId, apiHash, None, None, now, now)
      ensures accounts == old(accounts) + [a] && nextAccountId == old(nextAccountId) + 1
    {
      a := Account(nextAccountId, "telegram", phone, apiId, apiHash, None, None, now, now);
      accounts := accounts + [a];
      nextAccountId := nextAccountId + 1;
    }

    method SaveTwitterAccount(username: string, apiKey: string, apiSecret: string,
                              accessToken: string, accessSecret: string, now: string) returns (a: Account)
      requires Valid()
      modifies this`accounts, this`nextAccountId
      ensures Valid()
      ensures a == Account(old(nextAccountId), "twitter", username, apiKey, apiSecret,
                           Some(accessToken), Some(accessSecret), now, now)
      ensures accounts == old(accounts) + [a] && nextAccountId == old(nextAccountId) + 1
    {
      a := Account(nextAccountId, "twitter", username, apiKey, apiSecret, Some(accessToken), Some(accessSecret), now, now);
      accounts := accounts + [a];
      nextAccountId := nextAccountId + 1;
    }

    /** get_accounts: the accounts of the given type in rowid order, or all of them for a falsy type. */
    function GetAccounts(accountType: Option<string>): (r: seq<Account>)
      reads this
      ensures forall i :: 0 <= i < |r| ==> r[i] in accounts && (TruthyText(accountType) ==> r[i].accountType == accountType.value)
      ensures forall i :: 0 <= i < |accounts| && (TruthyText(accountType) ==> accounts[i].accountType == accountType.value) ==> accounts[i] in r
      ensures !TruthyText(accountType) ==> r == accounts
    {
      AccountsOfType(accounts, accountType)
    }

    method DeleteAccount(accountId: int)
      requires Valid()
      modifies this`accounts
      ensures Valid()
      ensures accounts == Filter(old(accounts), (a: Account) => a.id != accountId)
    {
      FilterKeepsIncreasing(accounts, (a: Account) => a.id != accountId, (a: Account) => a.id);
      accounts := Filter(accounts, (a: Account) => a.id != accountId);
    }

    // Groups

    method SaveGroup(groupId: string, title: string, role: string, groupType: string,
                     membersCount: Option<int>, now: string) returns (g: Group)
      requires Valid()
      modifies this`groups, this`nextGroupId
      ensures Valid()
      ensures g == Group(old(nextGroupId), groupId, title, role, groupType, membersCount, now, now)
      ensures groups == old(groups) + [g] && nextGroupId == old(nextGroupId) + 1
    {
      g := Group(nextGroupId, groupId, title, role, groupType, membersCount, now, now);
      groups := groups + [g];
      nextGroupId := nextGroupId + 1;
    }

    /** get_groups: the groups whose `type` column (source/target) is `role`, or all of them for a falsy role. */
    function GetGroups(role: Option<string>): (r: seq<Group>)
      reads this
      ensures forall i :: 0 <= i < |r| ==> r[i] in groups && (TruthyText(role) ==> r[i].role == role.value)
      ensures forall i :: 0 <= i < |groups| && (TruthyText(role) ==> groups[i].role == role.value) ==> groups[i] in r
      ensures !TruthyText(role) ==> r == groups
    {
      if TruthyText(role) then Filter(groups, (g: Group) => g.role == role.value) else groups
    }

    method DeleteGroup(id: int)
      requires Valid()
      modifies this`groups
      ensures Valid()
      ensures groups == Filter(old(groups), (g: Group) => g.id != id)
    {
      FilterKeepsIncreasing(groups, (g: Group) => g.id != id, (g: Group) => g.id);
      groups := Filter(groups, (g: Group) => g.id != id);
    }

    /** get_group_by_id: the row with that id, if any. */
    function GetGroupById(id: int): (r: Option<Group>)
      reads this
      ensures r.Some? ==> r.value in groups && r.value.id == id
      ensures r.None? <==> forall i :: 0 <= i < |groups| ==> groups[i].id != id
    {
      GroupWithId(groups, id)
    }

    // Rules

    /** save_rule: a new enabled row whose JSON columns read back as the saved values. */
    method SaveRule(name: string, sourceGroupId: int, targetType: string, targetId: int,
                    filters: Filters, options: Options, twitterConfig: Option<TwitterConfig>, now: string)
      returns (r: ForwardRule)
      requires Valid()
      modifies this`rules, this`nextRuleId
      ensures Valid()
      ensures rules == old(rules) + [RuleRow(old(nextRuleId), name, sourceGroupId, targetType, targetId,
                                             filters, options, StoredTwitterConfig(twitterConfig), 1, now, now)]
      ensures nextRuleId == old(nextRuleId) + 1
      ensures r == RowToRule(rules[|rules| - 1])
    {
      var row := RuleRow(nextRuleId, name, sourceGroupId, targetType, targetId,
                         filters, options, StoredTwitterConfig(twitterConfig), 1, now, now);
      rules := rules + [row];
      nextRuleId := nextRuleId + 1;
      r := RowToRule(row);
    }

    /** get_rules: every rule in rowid order, or those with `is_enabled = 1`. */
    function GetRules(enabledOnly: bool): (r: seq<ForwardRule>)
      reads this
      ensures !enabledOnly ==> |r| == |rules| && forall i :: 0 <= i < |rules| ==> r[i] == RowToRule(rules[i])
      ensures enabledOnly && (forall i :: 0 <= i < |rules| ==> rules[i].isEnabled == 0 || rules[i].isEnabled == 1) ==>
                r == Filter(RulesOf(rules, false), IsEnabled)
    {
      AllRulesInOrder(rules);
      if enabledOnly && forall i :: 0 <= i < |rules| ==> rules[i].isEnabled == 0 || rules[i].isEnabled == 1 then
        EnabledRulesAreTheEnabledOnes(rules);
        RulesOf(rules, true)
      else
        RulesOf(rules, enabledOnly)
    }

    /** update_rule_status: only `is_enabled` and `updated_at` of the rows with that id change. */
    method UpdateRuleStatus(ruleId: int, isEnabled: bool, now: string)
      requires Valid()
      modifies this`rules
      ensures Valid()
      ensures |rules| == |old(rules)|
      ensures forall i :: 0 <= i < |rules| ==>
                rules[i] == if old(rules)[i].id == ruleId
                            then old(rules)[i].(isEnabled := if isEnabled then 1 else 0, updatedAt := now)
                            else old(rules)[i]
    {
      rules := seq(|rules|, i requires 0 <= i < |rules| reads this =>
        if rules[i].id == ruleId then rules[i].(isEnabled := if isEnabled then 1 else 0, updatedAt := now)
        else rules[i]);
    }

    /** delete_rule: removes the row with that id and no other. */
    method DeleteRule(ruleId: int)
      requires Valid()
      modifies this`rules
      ensures Valid()
      ensures rules == Filter(old(rules), (row: RuleRow) => row.id != ruleId)
    {
      FilterKeepsIncreasing(rules, (row: RuleRow) => row.id != ruleId, (row: RuleRow) => row.id);
      rules := Filter(rules, (row: RuleRow) => row.id != ruleId);
    }

    /** get_rule_by_name: the first row with that name, if any. */
    function GetRuleByName(name: string): (r: Option<ForwardRule>)
      reads this
      ensures r.None? <==> forall i :: 0 <= i < |rules| ==> rules[i].name != name
      ensures r.Some? ==> exists i :: 0 <= i < |rules| && rules[i].name == name && r.value == RowToRule(rules[i]) &&
                                      forall j :: 0 <= j < i ==> rules[j].name != name
    {
      FirstRuleNamed(rules, name)
    }

    /** get_rule_by_id: the rule with that id, if any. */
    function GetRuleById(id: int): (r: Option<ForwardRule>)
      reads this
      ensures r.None? <==> forall i :: 0 <= i < |rules| ==> rules[i].id != id
      ensures r.Some? ==> exists i :: 0 <= i < |rules| && rules[i].id == id && r.value == RowToRule(rules[i])
    {
      FirstRuleWithId(rules, id)
    }

    // Logs

    method AddForwardLog(ruleId: int, messageText: string, status: string, errorMessage: Option<string>, now: string)
      returns (l: ForwardLog)
      requires Valid()
      modifies this`logs, this`nextLogId
      ensures Valid()
      ensures l == ForwardLog(old(nextLogId), ruleId, messageText, status, errorMessage, now)
      ensures logs == old(logs) + [l] && nextLogId == old(nextLogId) + 1
    {
      l := ForwardLog(nextLogId, ruleId, messageText, status, errorMessage, now);
      logs := logs + [l];
      nextLogId := nextLogId + 1;
    }

    method GetForwardLogsQuery(ruleId: Option<int>, startDate: Option<string>, endDate: Option<string>)
      returns (query: string, params: seq<SqlParam>)
      ensures var conds := Conditions("created_at", ruleId, startDate, endDate);
              query == SelectText("forward_logs", "created_at", conds) && params == ParamsOf(conds)
      ensures CountChar(query, '?') == |params|
    {
      LogNamesHaveNoPlaceholder();
      query, params := BuildFilteredSelect("forward_logs", "created_at", ruleId, startDate, endDate);
    }

    method GetStatisticsQuery(ruleId: Option<int>, startDate: Option<string>, endDate: Option<string>)
      returns (query: string, params: seq<SqlParam>)
      ensures var conds := Conditions("date", ruleId, startDate, endDate);
              query == SelectText("statistics", "date", conds) && params == ParamsOf(conds)
      ensures CountChar(query, '?') == |params|
    {
      StatisticsNamesHaveNoPlaceholder();
      query, params := BuildFilteredSelect("statistics", "date", ruleId, startDate, endDate);
    }
  }

  /** `DatabaseManager._instance`: the one instance every construction returns. */
  class DatabaseSingleton {
    var instance: DatabaseManager?

    constructor ()
      ensures instance == null && Valid()
    {
      instance := null;
    }

    /** The instance, once there is one, is a well-formed database. */
    ghost predicate Valid()
      reads this, instance
    {
      instance != null ==> instance.Valid()
    }

    /**
      `DatabaseManager(db_path)`: the first call creates and initializes the instance (with
      `db_path or` the default path); every later call returns that same instance untouched.
     */
    method Construct(dbPath: Option<string>, home: string) returns (db: DatabaseManager)
      requires Valid()
      modifies this
      ensures instance == db && Valid() && db.Valid()
      ensures old(instance) != null ==> db == old(instance)
      ensures old(instance) == null ==> fresh(db) && db.Valid() && db.dbPath == (if TruthyText(dbPath) then dbPath.value else DefaultDbPath(home))
      ensures old(instance) == null ==> db.accounts == [] && db.groups == [] && db.rules == [] && db.logs == []
    {
      if instance == null {
        var path := if TruthyText(dbPath) then dbPath.value else DefaultDbPath(home);
        instance := new DatabaseManager(path);
      }
      db := instance;
    }
  }

  // ---------------------------------------------------------------------------
  // The selections, as functions of the rows

  function AccountsOfType(accounts: seq<Account>, accountType: Option<string>): (r: seq<Account>)
    ensures forall i :: 0 <= i < |r| ==> r[i] in accounts && (TruthyText(accountType) ==> r[i].accountType == accountType.value)
    ensures forall i :: 0 <= i < |accounts| && (TruthyText(accountType) ==> accounts[i].accountType == accountType.value) ==> accounts[i] in r
    ensures !TruthyText(accountType) ==> r == accounts
  {
    if TruthyText(accountType) then Filter(accounts, (a: Account) => a.accountType == accountType.value)
    else accounts
  }

  function GroupWithId(groups: seq<Group>, id: int): (r: Option<Group>)
    ensures r.Some? ==> r.value in groups && r.value.id == id
    ensures r.None? <==> forall i :: 0 <= i < |groups| ==> groups[i].id != id
    decreases |groups|
  {
    if |groups| == 0 then None
    else if groups[0].id == id then Some(groups[0])
    else
      var rest := GroupWithId(groups[1..], id);
      assert forall i :: 1 <= i < |groups| ==> groups[i] == groups[1..][i - 1];
      rest
  }

  function FirstRuleNamed(rows: seq<RuleRow>, name: string): (r: Option<ForwardRule>)
    ensures r.None? <==> forall i :: 0 <= i < |rows| ==> rows[i].name != name
    ensures r.Some? ==> exists i :: 0 <= i < |rows| && rows[i].name == name && r.value == RowToRule(rows[i]) &&
                                    forall j :: 0 <= j < i ==> rows[j].name != name
    decreases |rows|
  {
    if |rows| == 0 then None
    else if rows[0].name == name then Some(RowToRule(rows[0]))
    else
      var rest := FirstRuleNamed(rows[1..], name);
      assert forall i :: 1 <= i < |rows| ==> rows[i] == rows[1..][i - 1];
      if rest.Some? then
        var k :| 0 <= k < |rows[1..]| && rows[1..][k].name == name && rest.value == RowToRule(rows[1..][k]) &&
                 forall j :: 0 <= j < k ==> rows[1..][j].name != name;
        assert rows[k + 1] == rows[1..][k];
        assert forall j :: 1 <= j < k + 1 ==> rows[j] == rows[1..][j - 1];
        rest
      else rest
  }

  function FirstRuleWithId(rows: seq<RuleRow>, id: int): (r: Option<ForwardRule>)
    ensures r.None? <==> forall i :: 0 <= i < |rows| ==> rows[i].id != id
    ensures r.Some? ==> exists i :: 0 <= i < |rows| && rows[i].id == id && r.value == RowToRule(rows[i])
    decreases |rows|
  {
    if |rows| == 0 then None
    else if rows[0].id == id then Some(RowToRule(rows[0]))
    else
      var rest := FirstRuleWithId(rows[1..], id);
      assert forall i :: 1 <= i < |rows| ==> rows[i] == rows[1..][i - 1];
      rest
  }

  /** The rows get_rules selects (`WHERE is_enabled = 1` when asked), converted by `_row_to_rule`. */
  function RulesOf(rows: seq<RuleRow>, enabledOnly: bool): (r: seq<ForwardRule>)
    ensures |r| <= |rows|
    decreases |rows|
  {
    if |rows| == 0 then []
    else (if !enabledOnly || rows[0].isEnabled == 1 then [RowToRule(rows[0])] else []) + RulesOf(rows[1..], enabledOnly)
  }

  /** `get_rules(False)` is every row, in order. */
  lemma {:induction false} AllRulesInOrder(rows: seq<RuleRow>)
    ensures |RulesOf(rows, false)| == |rows|
    ensures forall i :: 0 <= i < |rows| ==> RulesOf(rows, false)[i] == RowToRule(rows[i])
    decreases |rows|
  {
    if |rows| > 0 {
      AllRulesInOrder(rows[1..]);
    }
  }

  /**
    When `is_enabled` holds only 0 or 1, `get_rules(True)` is exactly `get_rules(False)`
    restricted to the enabled rules, order preserved.
   */
  lemma {:induction false} EnabledRulesAreTheEnabledOnes(rows: seq<RuleRow>)
    requires forall i :: 0 <= i < |rows| ==> rows[i].isEnabled == 0 || rows[i].isEnabled == 1
    ensures RulesOf(rows, true) == Filter(RulesOf(rows, false), IsEnabled)
    decreases |rows|
  {
    if |rows| > 0 {
      EnabledRulesAreTheEnabledOnes(rows[1..]);
      var head := RowToRule(rows[0]);
      var all := RulesOf(rows, false);
      assert all == [head] + RulesOf(rows[1..], false);
      assert all[1..] == RulesOf(rows[1..], false);
    }
  }
}

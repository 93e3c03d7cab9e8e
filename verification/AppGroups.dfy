/** The app groups of a profile and what they do to an app (crates/server/src/app_groups.rs). */
module AppGroups {
  import opened Apps
  import opened Store
  import opened Wrappers

  // ---- Display order ----------------------------------------------------------------------

  function ToLower(s: string): string {
    seq(|s|, i requires 0 <= i < |s| => if 'A' <= s[i] <= 'Z' then (s[i] as int + 32) as char else s[i])
  }

  predicate LexLess(a: string, b: string) {
    b != "" && (a == "" || a[0] < b[0] || (a[0] == b[0] && LexLess(a[1..], b[1..])))
  }

  /** Predefined groups come first, in the order of the table of predefined groups. */
  function BuiltinRank(builtin: Option<Builtin>): nat {
    match builtin
    case Some(Games) => 0
    case Some(Browsers) => 1
    case Some(Blocked) => 2
    case None => 3
  }

  predicate Before(a: GroupRow, b: GroupRow) {
    var i, j := BuiltinRank(a.builtin), BuiltinRank(b.builtin);
    i < j || (i == j && LexLess(ToLower(a.name), ToLower(b.name)))
  }

  function InsertRow(x: GroupRow, s: seq<GroupRow>): seq<GroupRow> {
    if s == [] || !Before(s[0], x) then [x] + s else [s[0]] + InsertRow(x, s[1..])
  }

  /** A stable sort: rows with the same key keep their table order. */
  function SortRows(s: seq<GroupRow>): seq<GroupRow> {
    if s == [] then [] else InsertRow(s[0], SortRows(s[1..]))
  }

  function RowsOf(groups: seq<GroupRow>, profile: Option<string>): seq<GroupRow> {
    if groups == [] then []
    else (if groups[0].profile == profile then [groups[0]] else []) + RowsOf(groups[1..], profile)
  }

  /** The rows `list_groups` returns for a profile. */
  function ListGroups(groups: seq<GroupRow>, profile: string): seq<GroupRow> {
    SortRows(RowsOf(groups, Some(profile)))
  }

  predicate DistinctIds(rows: seq<GroupRow>) {
    forall i, j :: 0 <= i < j < |rows| ==> rows[i].id != rows[j].id
  }

  predicate InDisplayOrder(rows: seq<GroupRow>) {
    forall i, j :: 0 <= i < j < |rows| ==> !Before(rows[j], rows[i])
  }

  lemma {:induction false} LexLessIsAnOrder(a: string, b: string, c: string)
    ensures !(LexLess(a, b) && LexLess(b, a))
    ensures !LexLess(a, b) && !LexLess(b, a) ==> a == b
    ensures LexLess(a, b) && LexLess(b, c) ==> LexLess(a, c)
    decreases |a| + |b| + |c|
  {
    if a != "" && b != "" {
      assert a == [a[0]] + a[1..] && b == [b[0]] + b[1..];
      LexLessIsAnOrder(a[1..], b[1..], if c == "" then "" else c[1..]);
    }
  }

  /** Sorting before means strictly before; it composes. */
  lemma NotBeforeComposes(a: GroupRow, b: GroupRow, c: GroupRow)
    requires !Before(b, a) && !Before(c, b)
    ensures !Before(c, a)
  {
    var x, y, z := ToLower(a.name), ToLower(b.name), ToLower(c.name);
    LexLessIsAnOrder(z, x, y);
    LexLessIsAnOrder(x, y, z);
    LexLessIsAnOrder(y, z, x);
  }

  lemma BeforeIsOneWay(a: GroupRow, b: GroupRow)
    ensures Before(a, b) ==> !Before(b, a)
  {
    LexLessIsAnOrder(ToLower(a.name), ToLower(b.name), "");
  }

  lemma {:induction false} InsertKeepsRows(x: GroupRow, s: seq<GroupRow>)
    ensures multiset(InsertRow(x, s)) == multiset([x] + s)
  {
    if s != [] && Before(s[0], x) {
      InsertKeepsRows(x, s[1..]);
      assert s == [s[0]] + s[1..];
    }
  }

  lemma {:induction false} InsertKeepsOrder(x: GroupRow, s: seq<GroupRow>)
    requires InDisplayOrder(s)
    ensures InDisplayOrder(InsertRow(x, s))
  {
    if s != [] && Before(s[0], x) {
      var t := InsertRow(x, s[1..]);
      InsertKeepsOrder(x, s[1..]);
      InsertKeepsRows(x, s[1..]);
      forall j | 0 <= j < |t| ensures !Before(t[j], s[0]) {
        assert t[j] in multiset([x] + s[1..]);
        if t[j] == x { BeforeIsOneWay(s[0], x); }
      }
    } else if s != [] {
      forall j | 0 <= j < |s| ensures !Before(s[j], x) {
        if j > 0 { NotBeforeComposes(x, s[0], s[j]); }
      }
    }
  }

  /** `list_groups` reorders the profile's rows, losing none, and puts them in display order. */
  lemma {:induction false} SortIsDisplayOrder(s: seq<GroupRow>)
    ensures multiset(SortRows(s)) == multiset(s)
    ensures InDisplayOrder(SortRows(s))
  {
    if s != [] {
      SortIsDisplayOrder(s[1..]);
      InsertKeepsOrder(s[0], SortRows(s[1..]));
      InsertKeepsRows(s[0], SortRows(s[1..]));
      assert s == [s[0]] + s[1..];
    }
  }

  lemma {:induction false} RowsOfSelects(groups: seq<GroupRow>, profile: Option<string>)
    ensures forall r :: r in RowsOf(groups, profile) <==> r in groups && r.profile == profile
    ensures DistinctIds(groups) ==> DistinctIds(RowsOf(groups, profile))
  {
    if groups != [] {
      RowsOfSelects(groups[1..], profile);
      assert groups == [groups[0]] + groups[1..];
      var rest := RowsOf(groups[1..], profile);
      if DistinctIds(groups) {
        forall r | r in rest ensures r.id != groups[0].id { assert r in groups[1..]; }
      }
    }
  }

  lemma {:induction false} InsertKeepsDistinct(x: GroupRow, s: seq<GroupRow>)
    requires DistinctIds(s) && forall r :: r in s ==> r.id != x.id
    ensures DistinctIds(InsertRow(x, s))
    ensures forall r :: r in InsertRow(x, s) <==> r == x || r in s
  {
    if s != [] && Before(s[0], x) {
      InsertKeepsDistinct(x, s[1..]);
      forall r | r in InsertRow(x, s[1..]) ensures r.id != s[0].id {
        if r in s[1..] { var k :| 0 <= k < |s| - 1 && s[1..][k] == r; assert s[k + 1] == r; }
      }
    }
  }

  lemma {:induction false} SortKeepsDistinct(s: seq<GroupRow>)
    requires DistinctIds(s)
    ensures DistinctIds(SortRows(s))
    ensures forall r :: r in SortRows(s) <==> r in s
  {
    if s != [] {
      SortKeepsDistinct(s[1..]);
      forall r | r in SortRows(s[1..]) ensures r.id != s[0].id { assert r in s[1..]; }
      InsertKeepsDistinct(s[0], SortRows(s[1..]));
      assert s == [s[0]] + s[1..];
    }
  }

  lemma ListGroupsSelects(groups: seq<GroupRow>, profile: string)
    requires DistinctIds(groups)
    ensures DistinctIds(ListGroups(groups, profile))
    ensures forall r :: r in ListGroups(groups, profile) <==> r in groups && r.profile == Some(profile)
  {
    RowsOfSelects(groups, Some(profile));
    SortKeepsDistinct(RowsOf(groups, Some(profile)));
  }

  lemma {:induction false} LexLessMeans(a: string, b: string)
    ensures LexLess(a, b) <==> exists k: nat :: k <= |a| && k < |b| && a[..k] == b[..k] && (k == |a| || a[k] < b[k])
  {
    if a != "" && b != "" {
      LexLessMeans(a[1..], b[1..]);
      if a[0] == b[0] {
        if k: nat :| k <= |a[1..]| && k < |b[1..]| && a[1..][..k] == b[1..][..k] && (k == |a[1..]| || a[1..][k] < b[1..][k]) {
          assert a[..k + 1] == [a[0]] + a[1..][..k] && b[..k + 1] == [b[0]] + b[1..][..k];
          assert k + 1 <= |a| && k + 1 < |b| && a[..k + 1] == b[..k + 1] && (k + 1 == |a| || a[k + 1] < b[k + 1]);
        }
        if k: nat :| k <= |a| && k < |b| && a[..k] == b[..k] && (k == |a| || a[k] < b[k]) {
          assert k > 0;
          assert a[1..][..k - 1] == a[..k][1..] && b[1..][..k - 1] == b[..k][1..];
        }
      } else {
        if a[0] < b[0] { assert a[..0] == b[..0]; }
        forall k: nat | 0 < k && k <= |a| && k < |b| ensures a[..k] != b[..k] { assert a[..k][0] != b[..k][0]; }
      }
    } else if b != "" {
      assert a[..0] == b[..0];
    }
  }

  /** The profile's groups as they are shown: Games, Web browsers, Blocked, then its own; alike ones by
      name, capital letters counting as small ones. */
  lemma DisplayOrderMeans(groups: seq<GroupRow>, profile: string, i: nat, j: nat)
    requires i < j < |ListGroups(groups, profile)|
    ensures var x, y := ListGroups(groups, profile)[i], ListGroups(groups, profile)[j];
            && (y.builtin == Some(Games) ==> x.builtin == Some(Games))
            && (y.builtin == Some(Browsers) ==> x.builtin == Some(Games) || x.builtin == Some(Browsers))
            && (y.builtin == Some(Blocked) ==> x.builtin.Some?)
            && (x.builtin == y.builtin ==> !LexLess(ToLower(y.name), ToLower(x.name)))
  {
    SortIsDisplayOrder(RowsOf(groups, Some(profile)));
  }

  lemma ToLowerMeans(s: string, i: nat)
    requires i < |s|
    ensures |ToLower(s)| == |s|
    ensures ToLower(s)[i] as int == s[i] as int + if 'A' <= s[i] && s[i] <= 'Z' then 'a' as int - 'A' as int else 0
  {}

  // ---- The group of an app ----------------------------------------------------------------

  function RulesOf(rules: set<RuleRow>, group: string): set<GroupRule> {
    set r | r in rules && r.group == group :: r.rule
  }

  function Order(rows: seq<GroupRow>, rules: set<RuleRow>): RuleList {
    seq(|rows|, i requires 0 <= i < |rows| => (rows[i].id, RulesOf(rules, rows[i].id)))
  }

  function GroupOf(rows: seq<GroupRow>, rules: set<RuleRow>, app: string, cats: seq<string>): Option<string> {
    AssignGroup(Order(rows, rules), app, cats)
  }

  predicate HasGroup(rows: seq<GroupRow>, group: string) {
    exists i :: 0 <= i < |rows| && rows[i].id == group
  }

  function RowIndex(rows: seq<GroupRow>, group: string): (i: nat)
    requires HasGroup(rows, group)
    ensures i < |rows| && rows[i].id == group
  {
    if rows[0].id == group then 0
    else
      assert HasGroup(rows[1..], group) by {
        var k :| 0 <= k < |rows| && rows[k].id == group;
        assert rows[1..][k - 1].id == group;
      }
      1 + RowIndex(rows[1..], group)
  }

  // ---- Rules ------------------------------------------------------------------------------

  predicate ValidRule(kind: RuleKind, value: string) {
    match kind
    case ByAppId => ParseAppId(value).Some?
    case ByPrefix =>
      && value != "" && value[|value| - 1] == ':' && ByteLength(value) <= 32
      && forall c :: c in value[..|value| - 1] ==> IsLower(c)
    case ByCategory =>
      && value != "" && ByteLength(value) <= 64
      && forall c :: c in value ==> IsAlphanumeric(c) || c == '-' || c == '_'
  }

  lemma AllLower(s: string, n: nat)
    requires n <= |s|
    ensures (forall c :: c in s[..n] ==> IsLower(c)) <==> forall i :: 0 <= i < n ==> 'a' <= s[i] <= 'z'
  {
    var head := s[..n];
    if forall c :: c in head ==> IsLower(c) {
      forall i | 0 <= i < n ensures IsLower(s[i]) { assert s[i] == head[i] && head[i] in head; }
    }
    if forall i :: 0 <= i < n ==> 'a' <= s[i] <= 'z' {
      forall c | c in head ensures IsLower(c) {
        var i :| 0 <= i < n && head[i] == c;
        assert s[i] == c;
      }
    }
  }

  /** Which rules are allowed: an app id that parses; a prefix of small letters and a colon, up to 32
      bytes; a category of letters, digits, '-' and '_', up to 64. */
  lemma ValidRuleMeans(kind: RuleKind, value: string)
    ensures kind == ByAppId ==> (ValidRule(kind, value) <==> ParseAppId(value).Some?)
    ensures kind == ByPrefix ==>
              (ValidRule(kind, value)
               <==> 1 <= |value| && value[|value| - 1] == ':' && ByteLength(value) <= 32
                    && forall i :: 0 <= i < |value| - 1 ==> 'a' <= value[i] <= 'z')
    ensures kind == ByCategory ==>
              (ValidRule(kind, value)
               <==> 1 <= |value| && ByteLength(value) <= 64
                    && forall i :: 0 <= i < |value| ==>
                         'a' <= value[i] <= 'z' || 'A' <= value[i] <= 'Z' || '0' <= value[i] <= '9' || value[i] in ['-', '_'])
  {
    assert forall i :: 0 <= i < |value| ==> value[i] in value;
    if value != "" {
      AllLower(value, |value| - 1);
    }
  }

  /** The rules after `add_rule`: an existing rule stays, and a rule replaces its opposite. */
  function WithRule(rules: set<RuleRow>, group: string, rule: GroupRule): Result<set<RuleRow>> {
    var value := Trim(rule.value);
    var row := RuleRow(group, rule.(value := value));
    if !ValidRule(rule.kind, value) then Err
    else if row in rules then Ok(rules)
    else Ok(rules - {RuleRow(group, GroupRule(rule.kind, value, !rule.exclude))} + {row})
  }

  /** App ids in rules are trimmed: `add_rule` stores them so. */
  ghost predicate TrimmedRules(rules: set<RuleRow>) {
    forall r :: r in rules && r.rule.kind == ByAppId ==> Trimmed(r.rule.value)
  }

  lemma AddingTrims(rules: set<RuleRow>, group: string, rule: GroupRule)
    requires TrimmedRules(rules) && WithRule(rules, group, rule).Ok?
    ensures TrimmedRules(WithRule(rules, group, rule).value)
  {
    TrimTrims(rule.value);
  }

  /** Adds a rule; adding an existing rule is a no-op. */
  method AddRule(db: DbPool, group: string, rule: GroupRule) returns (r: Result<RuleRow>)
    modifies db`rules
    ensures var after := WithRule(old(db.rules), group, rule);
            && r.Ok? == after.Ok?
            && db.rules == (if after.Ok? then after.value else old(db.rules))
            && (r.Ok? ==> r.value == RuleRow(group, rule.(value := Trim(rule.value))) && r.value in db.rules)
    ensures r.Ok? <==> ValidRule(rule.kind, Trim(rule.value))
    ensures r.Err? ==> db.rules == old(db.rules)
    ensures r.Ok? ==> forall row :: row in db.rules <==>
              row == r.value
              || (row in old(db.rules)
                  && (r.value in old(db.rules) || row != RuleRow(group, GroupRule(rule.kind, Trim(rule.value), !rule.exclude))))
  {
    var value := Trim(rule.value);
    if !ValidRule(rule.kind, value) { return Err; }
    var row := RuleRow(group, GroupRule(rule.kind, value, rule.exclude));
    if row in db.rules { return Ok(row); }
    db.rules := db.rules - {RuleRow(group, GroupRule(rule.kind, value, !rule.exclude))};
    db.rules := db.rules + {row};
    return Ok(row);
  }

  method DeleteRule(db: DbPool, group: string, row: RuleRow) returns (deleted: bool)
    modifies db`rules
    ensures deleted == (row in old(db.rules) && row.group == group)
    ensures db.rules == if row.group == group then old(db.rules) - {row} else old(db.rules)
  {
    deleted := row in db.rules && row.group == group;
    if deleted { db.rules := db.rules - {row}; }
  }

  // ---- Membership -------------------------------------------------------------------------

  /** Drops the explicit rule that says the opposite of what is wanted and, when the app moves
      in, every other group's entry for it. */
  function Cleared(rows: seq<GroupRow>, rules: set<RuleRow>, group: string, app: string, member: bool): set<RuleRow> {
    rules - {RuleRow(group, GroupRule(ByAppId, app, member))}
    - (if member then set row | row in rows && row.id != group :: RuleRow(row.id, Include(app)) else {})
  }

  /** The rules after `set_membership`, and whether it succeeded. */
  function Moved(rows: seq<GroupRow>, rules: set<RuleRow>, group: string, app: string, cats: seq<string>, member: bool)
    : (set<RuleRow>, bool)
  {
    var cleared := Cleared(rows, rules, group, app, member);
    if member == (GroupOf(rows, cleared, app, cats) == Some(group)) then (cleared, true)
    else
      match WithRule(cleared, group, GroupRule(ByAppId, app, !member))
      case Ok(after) => (after, true)
      case Err => (cleared, false)
  }

  method ClearOpposite(db: DbPool, rows: seq<GroupRow>, group: string, app: string, member: bool)
    modifies db`rules
    ensures db.rules == Cleared(rows, old(db.rules), group, app, member)
  {
    var _ := DeleteRule(db, group, RuleRow(group, GroupRule(ByAppId, app, member)));
    if member {
      // an app is in one group: moving it here takes it out of any group that names it
      ghost var start := db.rules;
      for i := 0 to |rows|
        invariant db.rules == start - (set row | row in rows[..i] && row.id != group :: RuleRow(row.id, Include(app)))
      {
        if rows[i].id != group {
          var _ := DeleteRule(db, rows[i].id, RuleRow(rows[i].id, Include(app)));
        }
        assert rows[..i + 1] == rows[..i] + [rows[i]];
      }
      assert rows[..|rows|] == rows;
    }
  }

  /** The last part of `set_membership`, once the opposing entries are gone. */
  method ApplyMembership(db: DbPool, rows: seq<GroupRow>, group: string, app: string, cats: seq<string>, member: bool)
    returns (ok: bool)
    requires RuleRow(group, GroupRule(ByAppId, app, member)) !in db.rules
    modifies db`rules
    ensures var rule := WithRule(old(db.rules), group, GroupRule(ByAppId, app, !member));
            if member == (GroupOf(rows, old(db.rules), app, cats) == Some(group)) then ok && db.rules == old(db.rules)
            else ok == rule.Ok? && db.rules == if rule.Ok? then rule.value else old(db.rules)
  {
    var inThis := GroupOf(rows, db.rules, app, cats) == Some(group);
    if member && !inThis {
      var added := AddRule(db, group, Include(app));
      if added.Err? { return false; }
      if GroupOf(rows, db.rules, app, cats) != Some(group) {
        // the code removes an exclusion of the app here: there is none left to remove
        assert RuleRow(group, Exclude(app)) !in db.rules;
        var _ := DeleteRule(db, group, RuleRow(group, Exclude(app)));
      }
    } else if !member && inThis {
      var added := AddRule(db, group, Exclude(app));
      if added.Err? { return false; }
    }
    return true;
  }

  /** Puts an app into a group or takes it out, whatever rules decide it now. */
  method SetMembership(db: DbPool, profile: string, group: string, app: string, cats: seq<string>, member: bool)
    returns (r: Result<Option<()>>)
    modifies db`rules
    ensures ParseAppId(app).None? ==> r == Err && db.rules == old(db.rules)
    ensures ParseAppId(app).Some? && !HasGroup(ListGroups(db.groups, profile), group)
        ==> (r == Ok(None) && db.rules == old(db.rules))
    ensures ParseAppId(app).Some? && HasGroup(ListGroups(db.groups, profile), group)
        ==> (var (after, ok) := Moved(ListGroups(db.groups, profile), old(db.rules), group, app, cats, member);
             db.rules == after && r == if ok then Ok(Some(())) else Err)
  {
    if ParseAppId(app).None? { return Err; }
    var rows := ListGroups(db.groups, profile);
    if !HasGroup(rows, group) { return Ok(None); }
    ClearOpposite(db, rows, group, app, member);
    var ok := ApplyMembership(db, rows, group, app, cats, member);
    return if ok then Ok(Some(())) else Err;
  }

  /** An exclusion `set_membership` cannot lift: a category or a prefix rule. */
  predicate FixedExclusion(rules: set<GroupRule>, app: string, cats: seq<string>) {
    exists r :: r in rules && r.exclude && r.kind != ByAppId && Hits(r, app, cats)
  }

  /** In terms of row positions: the group of an app is the id of the assigned row. */
  lemma GroupOfIsAssigned(rows: seq<GroupRow>, rules: set<RuleRow>, app: string, cats: seq<string>, group: string)
    requires DistinctIds(rows) && HasGroup(rows, group)
    ensures GroupOf(rows, rules, app, cats) == Some(group)
        <==> AssignIndex(Order(rows, rules), app, cats) == RowIndex(rows, group)
  {}

  lemma MemberRulesAfter(rows: seq<GroupRow>, rules: set<RuleRow>, group: string, app: string, cats: seq<string>)
    requires HasGroup(rows, group)
    ensures var after := Moved(rows, rules, group, app, cats, true).0;
            && Exclude(app) !in RulesOf(after, group)
            && (Excluded(RulesOf(after, group), app, cats) <==> FixedExclusion(RulesOf(rules, group), app, cats))
            && forall row :: row in rows && row.id != group ==> Include(app) !in RulesOf(after, row.id)
  {
    var after := Moved(rows, rules, group, app, cats, true).0;
    var was, now := RulesOf(rules, group), RulesOf(after, group);
    forall r: GroupRule | r.exclude && r.kind != ByAppId ensures r in was <==> r in now {
      assert RuleRow(group, r) in rules <==> RuleRow(group, r) in after;
    }
    assert RuleRow(group, Exclude(app)) !in after;
    if Excluded(now, app, cats) {
      var r :| r in now && r.exclude && Hits(r, app, cats);
      assert r.kind == ByAppId ==> r == Exclude(app);
    }
    forall row | row in rows && row.id != group ensures Include(app) !in RulesOf(after, row.id) {
      assert RuleRow(row.id, Include(app)) !in after;
    }
  }

  // ---- Groups and limits ------------------------------------------------------------------

  const MAX_GROUP_NAME: nat := 60

  function BuiltinName(key: Builtin): string {
    match key
    case Games => "Games"
    case Browsers => "Web browsers"
    case Blocked => "Blocked"
  }

  function BuiltinRules(key: Builtin): seq<GroupRule> {
    match key
    case Games =>
      [GroupRule(ByCategory, "Game", false), GroupRule(ByPrefix, "steam:", false), GroupRule(ByPrefix, "minecraft:", false)]
    case Browsers => [GroupRule(ByCategory, "WebBrowser", false)]
    case Blocked => []
  }

  function DropControl(s: string): string {
    if s == "" then "" else (if IsControl(s[0]) then "" else [s[0]]) + DropControl(s[1..])
  }

  function CleanName(name: string): Result<string> {
    var clean := Trim(DropControl(name));
    if clean == "" || |clean| > MAX_GROUP_NAME then Err else Ok(clean)
  }

  predicate IsBuiltin(row: GroupRow, profile: string, key: Builtin) {
    row.profile == Some(profile) && row.builtin == Some(key)
  }

  predicate HasBuiltin(groups: seq<GroupRow>, profile: string, key: Builtin) {
    exists row :: row in groups && IsBuiltin(row, profile, key)
  }

  /** The profile's Blocked group, if it has one. */
  function BlockedGroup(groups: seq<GroupRow>, profile: string): (id: Option<string>)
    ensures id.None? <==> !HasBuiltin(groups, profile, Blocked)
    ensures id.Some? ==> exists row :: row in groups && IsBuiltin(row, profile, Blocked) && row.id == id.value
  {
    if groups == [] then None
    else if IsBuiltin(groups[0], profile, Blocked) then Some(groups[0].id)
    else
      assert groups == [groups[0]] + groups[1..];
      BlockedGroup(groups[1..], profile)
  }

  predicate ValidLimits(entries: seq<(nat, int)>) {
    && (forall e :: e in entries ==> e.0 <= 6 && 0 <= e.1 <= 1440)
    && (forall i, j :: 0 <= i < j < |entries| ==> entries[i].0 != entries[j].0)
  }

  function LimitsReplaced(limits: set<LimitRow>, profile: string, group: string, entries: seq<(nat, int)>): set<LimitRow> {
    (set r | r in limits && !(r.profile == profile && r.group == group))
    + (set e | e in entries :: LimitRow(profile, group, e.0, e.1))
  }

  /** Replaces a profile's limits for one group; no entries removes the limit. */
  method ReplaceLimits(db: DbPool, profile: string, group: string, entries: seq<(nat, int)>) returns (ok: bool)
    modifies db`limits
    ensures ok == ValidLimits(entries)
    ensures db.limits == if ok then LimitsReplaced(old(db.limits), profile, group, entries) else old(db.limits)
    ensures ok <==> && (forall i :: 0 <= i < |entries| ==> entries[i].0 <= 6 && 0 <= entries[i].1 <= 24 * 60)
                    && forall i, j :: 0 <= i < j < |entries| ==> entries[i].0 != entries[j].0
    ensures ok ==> forall r :: r in db.limits <==>
              if r.profile == profile && r.group == group then (r.day, r.minutes) in entries else r in old(db.limits)
  {
    var seen: set<nat> := {};
    for i := 0 to |entries|
      invariant ValidLimits(entries[..i])
      invariant seen == set e | e in entries[..i] :: e.0
    {
      var (day, minutes) := entries[i];
      assert entries[..i + 1] == entries[..i] + [entries[i]];
      if day > 6 || !(0 <= minutes <= 1440) || day in seen {
        if day in seen { assert exists j :: 0 <= j < i && entries[j].0 == entries[i].0; }
        assert entries[i] in entries;
        return false;
      }
      forall j | 0 <= j < i ensures entries[j].0 != day { assert entries[..i][j] in entries[..i]; }
      seen := seen + {day};
    }
    assert entries[..|entries|] == entries;
    db.limits := set r | r in db.limits && !(r.profile == profile && r.group == group);
    ghost var kept := db.limits;
    for i := 0 to |entries|
      invariant db.limits == kept + set e | e in entries[..i] :: LimitRow(profile, group, e.0, e.1)
    {
      db.limits := db.limits + {LimitRow(profile, group, entries[i].0, entries[i].1)};
      assert entries[..i + 1] == entries[..i] + [entries[i]];
    }
    return true;
  }

  const NO_TIME: seq<(nat, int)> := [(0, 0), (1, 0), (2, 0), (3, 0), (4, 0), (5, 0), (6, 0)]

  datatype GroupTables = GroupTables(groups: seq<GroupRow>, rules: set<RuleRow>, limits: set<LimitRow>)

  /** The tables once the profile has predefined group `key`, under the fresh id `id` if it is new. */
  function SeededOne(t: GroupTables, profile: string, only: Option<Builtin>, key: Builtin, id: string): GroupTables {
    if (only.Some? && only.value != key) || HasBuiltin(t.groups, profile, key) then t
    else
      GroupTables(
        t.groups + [GroupRow(id, Some(profile), BuiltinName(key), Some(key))],
        t.rules + RowsFor(id, BuiltinRules(key)),
        if key == Blocked then LimitsReplaced(t.limits, profile, id, NO_TIME) else t.limits)
  }

  function RowsFor(group: string, rules: seq<GroupRule>): set<RuleRow> {
    set r | r in rules :: RuleRow(group, r)
  }

  function Seeded(t: GroupTables, profile: string, only: Option<Builtin>, ids: Builtin -> string): GroupTables {
    SeededOne(SeededOne(SeededOne(t, profile, only, Games, ids(Games)), profile, only, Browsers, ids(Browsers)),
              profile, only, Blocked, ids(Blocked))
  }

  lemma {:induction false} AsciiByteLength(s: string)
    requires forall i :: 0 <= i < |s| ==> s[i] as int < 0x80
    ensures ByteLength(s) == |s|
  {
    if s != "" { AsciiByteLength(s[1..]); }
  }

  lemma LowerCasePrefixIsValid(s: string)
    requires 0 < |s| <= 32 && s[|s| - 1] == ':' && forall i :: 0 <= i < |s| - 1 ==> IsLower(s[i])
    ensures ValidRule(ByPrefix, s) && Trimmed(s)
  {
    AsciiByteLength(s);
  }

  lemma WordCategoryIsValid(s: string)
    requires 0 < |s| <= 64 && forall i :: 0 <= i < |s| ==> IsAlphanumeric(s[i])
    ensures ValidRule(ByCategory, s) && Trimmed(s)
  {
    AsciiByteLength(s);
  }

  /** The rules of the predefined groups are valid as they are written. */
  lemma BuiltinRulesAreValid(key: Builtin, i: nat)
    requires i < |BuiltinRules(key)|
    ensures var r := BuiltinRules(key)[i]; ValidRule(r.kind, r.value) && Trimmed(r.value) && !r.exclude
  {
    match key
    case Games =>
      if i == 0 { WordCategoryIsValid("Game"); }
      else if i == 1 { LowerCasePrefixIsValid("steam:"); }
      else { LowerCasePrefixIsValid("minecraft:"); }
    case Browsers => WordCategoryIsValid("WebBrowser");
    case Blocked =>
  }

  method AddFreshRule(db: DbPool, id: string, rule: GroupRule)
    requires ValidRule(rule.kind, rule.value) && Trimmed(rule.value)
    requires RuleRow(id, rule.(exclude := !rule.exclude)) !in db.rules
    modifies db`rules
    ensures db.rules == old(db.rules) + {RuleRow(id, rule)}
  {
    TrimTrims(rule.value);
    var _ := AddRule(db, id, rule);
  }

  method AddRules(db: DbPool, id: string, rules: seq<GroupRule>)
    requires forall r :: r in db.rules ==> r.group != id
    requires forall i :: 0 <= i < |rules| ==> ValidRule(rules[i].kind, rules[i].value) && Trimmed(rules[i].value) && !rules[i].exclude
    modifies db`rules
    ensures db.rules == old(db.rules) + RowsFor(id, rules)
  {
    ghost var start := db.rules;
    for i := 0 to |rules|
      invariant db.rules == start + RowsFor(id, rules[..i])
    {
      AddFreshRule(db, id, rules[i]);
      assert rules[..i + 1] == rules[..i] + [rules[i]];
    }
    assert rules[..|rules|] == rules;
  }

  method AddBuiltinRules(db: DbPool, key: Builtin, id: string)
    requires forall r :: r in db.rules ==> r.group != id
    modifies db`rules
    ensures db.rules == old(db.rules) + RowsFor(id, BuiltinRules(key))
  {
    var rules := BuiltinRules(key);
    forall i | 0 <= i < |rules| ensures ValidRule(rules[i].kind, rules[i].value) && Trimmed(rules[i].value) && !rules[i].exclude {
      BuiltinRulesAreValid(key, i);
    }
    AddRules(db, id, rules);
  }

  method SeedOne(db: DbPool, profile: string, only: Option<Builtin>, key: Builtin, id: string)
    requires forall r :: r in db.rules ==> r.group != id
    modifies db`groups, db`rules, db`limits
    ensures GroupTables(db.groups, db.rules, db.limits)
         == SeededOne(old(GroupTables(db.groups, db.rules, db.limits)), profile, only, key, id)
  {
    if (only.Some? && only.value != key) || HasBuiltin(db.groups, profile, key) { return; }
    db.groups := db.groups + [GroupRow(id, Some(profile), BuiltinName(key), Some(key))];
    AddBuiltinRules(db, key, id);
    if key == Blocked {
      var ok := ReplaceLimits(db, profile, id, NO_TIME);
      assert ok;
    }
  }

  /** Creates the profile's predefined groups that do not exist yet; `ids` stands for their
      random ids. */
  method Seed(db: DbPool, profile: string, only: Option<Builtin>, ids: Builtin -> string)
    requires forall k, r :: r in db.rules ==> r.group != ids(k)
    requires forall k, l :: ids(k) == ids(l) ==> k == l
    modifies db`groups, db`rules, db`limits
    ensures GroupTables(db.groups, db.rules, db.limits)
         == Seeded(old(GroupTables(db.groups, db.rules, db.limits)), profile, only, ids)
  {
    SeedOne(db, profile, only, Games, ids(Games));
    SeedOne(db, profile, only, Browsers, ids(Browsers));
    SeedOne(db, profile, only, Blocked, ids(Blocked));
  }

  /** Which apps the predefined groups take as they are seeded: games by category or launcher, browsers
      by category, and Blocked none. */
  lemma BuiltinsTake(key: Builtin, id: AppId, cats: seq<string>)
    ensures var rules := set r | r in BuiltinRules(key);
            GroupMatches(rules, Display(id), cats)
            <==> match key
                 case Games => "Game" in cats || id.kind == Steam || id.kind == Minecraft
                 case Browsers => "WebBrowser" in cats
                 case Blocked => false
  {
    var rules := set r | r in BuiltinRules(key);
    var app := Display(id);
    match key
    case Games =>
      assert GroupRule(ByCategory, "Game", false) in rules && GroupRule(ByPrefix, "steam:", false) in rules
             && GroupRule(ByPrefix, "minecraft:", false) in rules;
      PrefixMeansKind(id, Steam);
      PrefixMeansKind(id, Minecraft);
    case Browsers => assert GroupRule(ByCategory, "WebBrowser", false) in rules;
    case Blocked =>
  }

  lemma PrefixMeansKind(id: AppId, kind: AppKind)
    ensures Prefix(kind) + ":" <= Display(id) <==> id.kind == kind
  {
    PrefixesDiffer(id.kind, kind);
    SplitOnceIsFirst(Display(id), Prefix(id.kind), id.name);
    if Prefix(kind) + ":" <= Display(id) {
      var rest := Display(id)[|Prefix(kind)| + 1..];
      PrefixesDiffer(kind, kind);
      SplitOnceIsFirst(Display(id), Prefix(kind), rest);
    }
  }

  lemma {:induction false} DropControlDrops(s: string)
    ensures forall c :: c in DropControl(s) <==> c in s && !(c as int < 32) && !(127 <= c as int <= 159)
    ensures (forall c :: c in s ==> 32 <= c as int < 127) ==> DropControl(s) == s
  {
    if s != "" {
      DropControlDrops(s[1..]);
      assert s == [s[0]] + s[1..];
      if forall c :: c in s ==> 32 <= c as int < 127 {
        assert s[0] in s && forall c :: c in s[1..] ==> c in s;
      }
    }
  }

  /** A name is stored without control characters and surrounding whitespace, up to 60 characters; one
      that needs no cleaning is stored as it is, and one with nothing left is refused. */
  lemma CleanNameMeans(name: string)
    ensures var r := CleanName(name);
            && (r.Ok? ==> 1 <= |r.value| <= 60 && Trimmed(r.value) && forall c :: c in r.value ==> 32 <= c as int && c in name)
            && (1 <= |name| <= 60 && Trimmed(name) && (forall c :: c in name ==> 32 <= c as int < 127) ==> r == Ok(name))
            && (r.Err? ==> Trim(DropControl(name)) == "" || |Trim(DropControl(name))| > 60)
  {
    DropControlDrops(name);
    TrimTrims(DropControl(name));
    var before, after := TrimDropsWhitespace(DropControl(name));
    assert forall c :: c in Trim(DropControl(name)) ==> c in DropControl(name);
  }

  /** A predefined group as it is created: for a profile that has none of its kind, with its name and
      rules, and a limit only if it is Blocked: no time on every day. */
  lemma SeededOneMeans(t: GroupTables, profile: string, only: Option<Builtin>, key: Builtin, id: string)
    requires forall r :: r in t.limits ==> r.group != id
    ensures var after := SeededOne(t, profile, only, key, id);
            if (exists row :: row in t.groups && row.profile == Some(profile) && row.builtin == Some(key)) || (only.Some? && only != Some(key))
            then after == t
            else
              && after.groups == t.groups + [GroupRow(id, Some(profile), match key case Games => "Games" case Browsers => "Web browsers" case Blocked => "Blocked", Some(key))]
              && (forall r :: r in after.rules <==> r in t.rules || (r.group == id && r.rule in BuiltinRules(key)))
              && (forall r :: r in after.limits <==>
                    r in t.limits || (key == Blocked && r.profile == profile && r.group == id && r.day < 7 && r.minutes == 0))
  {
    if !HasBuiltin(t.groups, profile, key) {
      forall r: LimitRow | r.profile == profile && r.group == id && r.day < 7 && r.minutes == 0
        ensures r in LimitsReplaced(t.limits, profile, id, NO_TIME)
      {
        assert NO_TIME[r.day] == (r.day, 0);
      }
    }
  }

  /** After seeding the profile has a group of every predefined kind that was asked for or that it had;
      groups are only added, and only to the profile. */
  lemma SeededMeans(t: GroupTables, profile: string, only: Option<Builtin>, ids: Builtin -> string, key: Builtin)
    ensures var after := Seeded(t, profile, only, ids);
            && t.groups <= after.groups
            && (forall i :: |t.groups| <= i < |after.groups| ==> after.groups[i].profile == Some(profile) && after.groups[i].builtin.Some?)
            && ((exists row :: row in after.groups && row.profile == Some(profile) && row.builtin == Some(key))
                <==> only.None? || only == Some(key)
                     || exists row :: row in t.groups && row.profile == Some(profile) && row.builtin == Some(key))
  {
    var games := SeededOne(t, profile, only, Games, ids(Games));
    var browsers := SeededOne(games, profile, only, Browsers, ids(Browsers));
    SeededHas(t, profile, only, Games, ids(Games), key);
    SeededHas(games, profile, only, Browsers, ids(Browsers), key);
    SeededHas(browsers, profile, only, Blocked, ids(Blocked), key);
  }

  lemma SeededHas(t: GroupTables, profile: string, only: Option<Builtin>, made: Builtin, id: string, key: Builtin)
    ensures HasBuiltin(SeededOne(t, profile, only, made, id).groups, profile, key)
        <==> HasBuiltin(t.groups, profile, key) || (key == made && (only.None? || only == Some(made)))
  {
    var after := SeededOne(t, profile, only, made, id);
    if after != t { assert after.groups[|t.groups|] in after.groups; }
    forall row | row in t.groups ensures row in after.groups {}
  }

  // ---- Deleting groups --------------------------------------------------------------------

  function Without(rows: seq<GroupRow>, ids: set<string>): seq<GroupRow> {
    if rows == [] then []
    else Without(rows[..|rows| - 1], ids) + (if rows[|rows| - 1].id in ids then [] else [rows[|rows| - 1]])
  }

  lemma {:induction false} WithoutDropsOnly(rows: seq<GroupRow>, ids: set<string>)
    ensures forall row :: row in Without(rows, ids) <==> row in rows && row.id !in ids
  {
    if rows != [] {
      WithoutDropsOnly(rows[..|rows| - 1], ids);
      assert rows == rows[..|rows| - 1] + [rows[|rows| - 1]];
    }
  }

  method DeleteGroupRows(db: DbPool, group: string)
    modifies db`rules, db`limits, db`adjustments, db`groupUsage, db`groups
    ensures db.rules == set r | r in old(db.rules) && r.group != group
    ensures db.limits == set r | r in old(db.limits) && r.group != group
    ensures db.adjustments == set r | r in old(db.adjustments) && r.group != group
    ensures db.groupUsage == set r | r in old(db.groupUsage) && r.group != group
    ensures db.groups == Without(old(db.groups), {group})
    ensures forall row :: row in db.groups <==> row in old(db.groups) && row.id != group
  {
    WithoutDropsOnly(db.groups, {group});
    db.rules := set r | r in db.rules && r.group != group;
    db.limits := set r | r in db.limits && r.group != group;
    db.adjustments := set r | r in db.adjustments && r.group != group;
    db.groupUsage := set r | r in db.groupUsage && r.group != group;
    db.groups := Without(db.groups, {group});
  }
}

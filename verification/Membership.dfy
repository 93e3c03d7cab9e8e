/** What `set_membership` promises (crates/server/src/app_groups.rs): the app moves, and nothing
    else does. */
module Membership {
  import opened Apps
  import opened Store
  import opened AppGroups
  import opened Wrappers

  /** Two rule tables that agree on every rule but the explicit rules of other apps. */
  ghost predicate AgreeOn(a: set<RuleRow>, b: set<RuleRow>, app: string) {
    forall row: RuleRow :: row.rule.kind != ByAppId || row.rule.value == app ==> (row in a <==> row in b)
  }

  lemma GroupDependsOnOwnRules(rows: seq<GroupRow>, a: set<RuleRow>, b: set<RuleRow>, app: string, cats: seq<string>)
    requires AgreeOn(a, b, app)
    ensures GroupOf(rows, a, app, cats) == GroupOf(rows, b, app, cats)
  {
    forall i | 0 <= i < |rows|
      ensures Explicit(RulesOf(a, rows[i].id), app, cats) == Explicit(RulesOf(b, rows[i].id), app, cats)
      ensures GroupMatches(RulesOf(a, rows[i].id), app, cats) == GroupMatches(RulesOf(b, rows[i].id), app, cats)
    {
      forall r: GroupRule | Hits(r, app, cats) || r == Include(app)
        ensures r in RulesOf(a, rows[i].id) <==> r in RulesOf(b, rows[i].id)
      {
        assert RuleRow(rows[i].id, r) in a <==> RuleRow(rows[i].id, r) in b;
      }
    }
    AssignDependsOnMatches(Order(rows, a), Order(rows, b), app, cats);
  }

  lemma EditIsAboutTrimmedId(rules: set<RuleRow>, group: string, rule: GroupRule, app: string)
    requires rule.kind == ByAppId && app != Trim(rule.value) && WithRule(rules, group, rule).Ok?
    ensures AgreeOn(rules, WithRule(rules, group, rule).value, app)
  {}

  /** Moving an app into a group puts it there exactly when no category or prefix rule excludes
      it there and the id is one `add_rule` stores as it is (or the group's other rules already
      decide for it). */
  lemma MoveInTakesEffect(rows: seq<GroupRow>, rules: set<RuleRow>, group: string, app: string, cats: seq<string>)
    requires DistinctIds(rows) && HasGroup(rows, group) && ParseAppId(app).Some?
    ensures GroupOf(rows, Moved(rows, rules, group, app, cats, true).0, app, cats) == Some(group)
        <==> && !FixedExclusion(RulesOf(rules, group), app, cats)
             && (Trimmed(app) || GroupOf(rows, Cleared(rows, rules, group, app, true), app, cats) == Some(group))
  {
    var cleared := Cleared(rows, rules, group, app, true);
    var after := Moved(rows, rules, group, app, cats, true).0;
    var k := RowIndex(rows, group);
    var order := Order(rows, after);
    TrimTrims(app);
    MemberRulesAfter(rows, rules, group, app, cats);
    GroupOfIsAssigned(rows, after, app, cats, group);
    AssignIndexIsTheWinner(order, app, cats, k);
    if GroupOf(rows, cleared, app, cats) != Some(group) {
      if Trimmed(app) {
        assert RuleRow(group, Include(app)) in after;
        forall j | 0 <= j < k ensures !Explicit(order[j].1, app, cats) { assert rows[j] in rows; }
      } else {
        if WithRule(cleared, group, Include(app)).Ok? { EditIsAboutTrimmedId(cleared, group, Include(app), app); }
        GroupDependsOnOwnRules(rows, cleared, after, app, cats);
      }
    }
  }

  /** Taking an app out of a group always works for an id without surrounding whitespace; for
      another id it works exactly when dropping the explicit entry was enough. */
  lemma MoveOutTakesEffect(rows: seq<GroupRow>, rules: set<RuleRow>, group: string, app: string, cats: seq<string>)
    requires DistinctIds(rows) && HasGroup(rows, group) && ParseAppId(app).Some?
    ensures GroupOf(rows, Moved(rows, rules, group, app, cats, false).0, app, cats) != Some(group)
        <==> Trimmed(app) || GroupOf(rows, Cleared(rows, rules, group, app, false), app, cats) != Some(group)
  {
    var cleared := Cleared(rows, rules, group, app, false);
    var after := Moved(rows, rules, group, app, cats, false).0;
    var k := RowIndex(rows, group);
    TrimTrims(app);
    if GroupOf(rows, cleared, app, cats) == Some(group) {
      if Trimmed(app) {
        assert RuleRow(group, Exclude(app)) in after;
        assert Exclude(app) in RulesOf(after, group) && Hits(Exclude(app), app, cats);
        GroupOfIsAssigned(rows, after, app, cats, group);
        AssignIndexIsTheWinner(Order(rows, after), app, cats, k);
      } else {
        if WithRule(cleared, group, Exclude(app)).Ok? { EditIsAboutTrimmedId(cleared, group, Exclude(app), app); }
        GroupDependsOnOwnRules(rows, cleared, after, app, cats);
      }
    }
  }

  /** After a move in, no other group of the profile names the app. */
  lemma NoOtherGroupNamesIt(rows: seq<GroupRow>, rules: set<RuleRow>, group: string, app: string, cats: seq<string>, other: GroupRow)
    requires HasGroup(rows, group) && other in rows && other.id != group
    ensures Include(app) !in RulesOf(Moved(rows, rules, group, app, cats, true).0, other.id)
  {}

  /** Every other app keeps its group, whatever its categories and in whichever profile. Other
      means neither the id nor the id with its surrounding whitespace trimmed. */
  lemma OtherAppsStay(rows: seq<GroupRow>, rules: set<RuleRow>, group: string, app: string, cats: seq<string>, member: bool,
                      anyRows: seq<GroupRow>, other: string, otherCats: seq<string>)
    requires other != app && other != Trim(app)
    ensures GroupOf(anyRows, Moved(rows, rules, group, app, cats, member).0, other, otherCats)
         == GroupOf(anyRows, rules, other, otherCats)
  {
    GroupDependsOnOwnRules(anyRows, rules, Moved(rows, rules, group, app, cats, member).0, other, otherCats);
  }

  /** Only rules of the profile's own groups change, so another profile's groups are untouched. */
  lemma OtherGroupsStay(rows: seq<GroupRow>, rules: set<RuleRow>, group: string, app: string, cats: seq<string>, member: bool,
                        row: RuleRow)
    requires HasGroup(rows, group)
    ensures row in Moved(rows, rules, group, app, cats, member).0 && row !in rules
        ==> row.group == group && row.rule == GroupRule(ByAppId, Trim(app), !member)
    ensures row !in Moved(rows, rules, group, app, cats, member).0 && row in rules
        ==> && row.rule.kind == ByAppId && HasGroup(rows, row.group)
            && (row.group == group ==> row.rule.exclude == member)
            && (row.group != group ==> member && row.rule == Include(app))
  {}

  lemma ClearedIsStable(rows: seq<GroupRow>, rules: set<RuleRow>, group: string, app: string, cats: seq<string>, member: bool)
    ensures var after := Moved(rows, rules, group, app, cats, member).0;
            Cleared(rows, after, group, app, member) == after
  {}

  /** Repeating the call changes nothing and has the same outcome. */
  lemma RepeatingChangesNothing(rows: seq<GroupRow>, rules: set<RuleRow>, group: string, app: string, cats: seq<string>, member: bool)
    requires DistinctIds(rows) && HasGroup(rows, group) && ParseAppId(app).Some?
    ensures var (after, ok) := Moved(rows, rules, group, app, cats, member);
            Moved(rows, after, group, app, cats, member) == (after, ok)
  {
    var (after, ok) := Moved(rows, rules, group, app, cats, member);
    var cleared := Cleared(rows, rules, group, app, member);
    var rule := GroupRule(ByAppId, app, !member);
    ClearedIsStable(rows, rules, group, app, cats, member);
    TrimTrims(app);
    if member != (GroupOf(rows, cleared, app, cats) == Some(group)) {
      if !Trimmed(app) {
        if ok { EditIsAboutTrimmedId(cleared, group, rule, app); }
        GroupDependsOnOwnRules(rows, cleared, after, app, cats);
      } else {
        if member { MoveInTakesEffect(rows, rules, group, app, cats); }
        else { MoveOutTakesEffect(rows, rules, group, app, cats); }
      }
    }
  }

  /** A category exclusion in the destination cannot be overridden: the call succeeds and the app
      stays out. */
  lemma FixedExclusionKeepsAppOut(row: GroupRow, app: string, category: string)
    requires ParseAppId(app).Some? && Trimmed(app)
    ensures var rules := {RuleRow(row.id, GroupRule(ByCategory, category, true))};
            var (after, ok) := Moved([row], rules, row.id, app, [category], true);
            ok && GroupOf([row], after, app, [category]) == None
  {
    var fixed := GroupRule(ByCategory, category, true);
    var rules := {RuleRow(row.id, fixed)};
    var after := Moved([row], rules, row.id, app, [category], true).0;
    assert [row][0].id == row.id;
    assert fixed in RulesOf(rules, row.id) && Hits(fixed, app, [category]);
    MoveInTakesEffect([row], rules, row.id, app, [category]);
    TrimTrims(app);
  }

  lemma MovingTrims(rows: seq<GroupRow>, rules: set<RuleRow>, group: string, app: string, cats: seq<string>, member: bool)
    requires TrimmedRules(rules)
    ensures TrimmedRules(Moved(rows, rules, group, app, cats, member).0)
  {
    var cleared, rule := Cleared(rows, rules, group, app, member), GroupRule(ByAppId, app, !member);
    if WithRule(cleared, group, rule).Ok? { AddingTrims(cleared, group, rule); }
  }

  /** With an untrimmed id there is no entry to drop: at most an entry for the trimmed id is added. */
  lemma UntrimmedClearsNothing(rows: seq<GroupRow>, rules: set<RuleRow>, group: string, app: string, member: bool)
    requires TrimmedRules(rules) && !Trimmed(app)
    ensures Cleared(rows, rules, group, app, member) == rules
  {}

  /** And the app itself stays where it is. */
  lemma UntrimmedStays(rows: seq<GroupRow>, rules: set<RuleRow>, group: string, app: string, cats: seq<string>, member: bool)
    requires TrimmedRules(rules) && !Trimmed(app)
    ensures AgreeOn(rules, Moved(rows, rules, group, app, cats, member).0, app)
    ensures GroupOf(rows, Moved(rows, rules, group, app, cats, member).0, app, cats) == GroupOf(rows, rules, app, cats)
  {
    var rule, after := GroupRule(ByAppId, app, !member), Moved(rows, rules, group, app, cats, member).0;
    UntrimmedClearsNothing(rows, rules, group, app, member);
    TrimTrims(app);
    if WithRule(rules, group, rule).Ok? { EditIsAboutTrimmedId(rules, group, rule, app); }
    GroupDependsOnOwnRules(rows, rules, after, app, cats);
  }
}

/** The calls themselves (crates/server/src/api/apps.rs, `app_request` of app_usage.rs): each runs
    against the tables in place and leaves exactly the policy the call stands for. */
module AppsApi {
  import opened Apps
  import opened Store
  import opened AppGroups
  import opened Approvals
  import opened NewApps
  import opened Wrappers

  method AppRequestCall(db: DbPool, profile: string, app: string, cats: seq<string>) returns (isNew: bool)
    modifies db`categories, db`approvals, db`rules
    ensures PolicyOf(db) == Apply(old(PolicyOf(db)), AppRequest(profile, app, cats))
    ensures isNew ==> (profile, app) !in old(db.approvals)
    ensures if ParseAppId(app).Some? && ParseAppId(app).value.kind != Exe
            then && db.approvals == (if (profile, app) in old(db.approvals) then old(db.approvals) else old(db.approvals)[(profile, app) := Pending])
                 && db.categories == (if app in old(db.categories) then old(db.categories) else old(db.categories)[app := RequestCategories(cats)])
                 && ((profile, app) in old(db.approvals) ==> db.rules == old(db.rules))
            else PolicyOf(db) == old(PolicyOf(db)) && !isNew
  {
    var id := ParseAppId(app);
    if id.None? || !IsApp(id.value) { return false; }
    if app !in db.categories {
      db.categories := db.categories[app := RequestCategories(cats)];
    }
    var r := Request(db, profile, app);
    return r == Ok(true);
  }

  method MembershipCall(db: DbPool, profile: string, group: string, app: string, member: bool) returns (ok: bool)
    modifies db`rules
    ensures PolicyOf(db) == WithMembership(old(PolicyOf(db)), profile, group, app, member).0
    ensures ok == (WithMembership(old(PolicyOf(db)), profile, group, app, member).1 && HasGroup(ListGroups(db.groups, profile), group))
  {
    var cats := if app in db.categories then db.categories[app] else [];
    var r := SetMembership(db, profile, group, app, cats, member);
    return r == Ok(Some(()));
  }

  method DecideCall(db: DbPool, profile: string, app: string, approve: bool, into: Option<string>)
    modifies db`rules, db`approvals
    ensures PolicyOf(db) == Apply(old(PolicyOf(db)), Decision(profile, app, approve, into))
    ensures db.approvals == if ParseAppId(app).Some? then old(db.approvals)[(profile, app) := Approved] else old(db.approvals)
    ensures ParseAppId(app).None? ==> db.rules == old(db.rules)
  {
    var ok := Decide(db, profile, app, approve);
    if ok && approve && into.Some? && into.value != "" {
      var _ := MembershipCall(db, profile, into.value, app, true);
    }
  }

  method MoveCall(db: DbPool, profile: string, group: string, app: string, member: bool)
    modifies db`rules, db`approvals
    ensures PolicyOf(db) == Apply(old(PolicyOf(db)), Move(profile, group, app, member))
    ensures db.rules == WithMembership(old(PolicyOf(db)), profile, group, app, member).0.rules
    ensures var answered := WithMembership(old(PolicyOf(db)), profile, group, app, member).1 && HasGroup(ListGroups(db.groups, profile), group);
            db.approvals == if answered && (profile, app) in old(db.approvals) then old(db.approvals)[(profile, app) := Approved] else old(db.approvals)
  {
    var ok := MembershipCall(db, profile, group, app, member);
    if ok { Seen(db, profile, app); }
  }

  method CreateGroupCall(db: DbPool, profile: string, name: string, id: string)
    modifies db`groups
    ensures PolicyOf(db) == Apply(old(PolicyOf(db)), CreateGroup(profile, name, id))
    ensures db.groups == match CleanName(name)
                         case Ok(clean) => old(db.groups) + [GroupRow(id, Some(profile), clean, None)]
                         case Err => old(db.groups)
  {
    var clean := CleanName(name);
    if clean.Ok? { db.groups := db.groups + [GroupRow(id, Some(profile), clean.value, None)]; }
  }

  method RenameGroupCall(db: DbPool, profile: string, group: string, name: string)
    modifies db`groups
    ensures PolicyOf(db) == Apply(old(PolicyOf(db)), RenameGroup(profile, group, name))
    ensures |db.groups| == |old(db.groups)|
    ensures forall i :: 0 <= i < |db.groups| ==>
              var row := old(db.groups)[i];
              db.groups[i] == if CleanName(name).Ok? && row.id == group && row.profile == Some(profile)
                              then GroupRow(row.id, row.profile, CleanName(name).value, row.builtin) else row
  {
    var clean := CleanName(name);
    if clean.Ok? { db.groups := RenamedRows(db.groups, profile, group, clean.value); }
  }

  method DeleteGroupCall(db: DbPool, profile: string, group: string)
    modifies db`rules, db`limits, db`adjustments, db`groupUsage, db`groups
    ensures PolicyOf(db) == Apply(old(PolicyOf(db)), DeleteGroup(profile, group))
    ensures if (exists row :: row in old(db.groups) && row.id == group && row.profile == Some(profile))
               && BlockedGroup(old(db.groups), profile) != Some(group)
            then && (forall row :: row in db.groups <==> row in old(db.groups) && row.id != group)
                 && (forall r :: r in db.rules <==> r in old(db.rules) && r.group != group)
                 && (forall r :: r in db.limits <==> r in old(db.limits) && r.group != group)
            else PolicyOf(db) == old(PolicyOf(db))
  {
    if BlockedGroup(db.groups, profile) == Some(group) { return; }
    if GroupExists(PolicyOf(db), profile, group) { DeleteGroupRows(db, group); }
  }

  method AddRuleCall(db: DbPool, profile: string, group: string, rule: GroupRule)
    modifies db`rules
    ensures PolicyOf(db) == Apply(old(PolicyOf(db)), PostRule(profile, group, rule))
    ensures if && (exists row :: row in old(db.groups) && row.id == group && row.profile == Some(profile))
               && (BlockedGroup(old(db.groups), profile) == Some(group) ==> rule.kind == ByAppId && !rule.exclude)
               && ValidRule(rule.kind, Trim(rule.value))
            then var added := RuleRow(group, GroupRule(rule.kind, Trim(rule.value), rule.exclude));
                 && added in db.rules && (added in old(db.rules) ==> db.rules == old(db.rules))
                 && forall r :: r in db.rules <==>
                      r == added || (r in old(db.rules)
                                     && (added in old(db.rules) || r != RuleRow(group, GroupRule(rule.kind, Trim(rule.value), !rule.exclude))))
            else db.rules == old(db.rules)
  {
    if !GroupExists(PolicyOf(db), profile, group) { return; }
    if (rule.kind != ByAppId || rule.exclude) && BlockedGroup(db.groups, profile) == Some(group) { return; }
    var _ := AddRule(db, group, rule);
  }

  method DeleteRuleCall(db: DbPool, profile: string, group: string, rule: GroupRule)
    modifies db`rules
    ensures PolicyOf(db) == Apply(old(PolicyOf(db)), DropRule(profile, group, rule))
    ensures forall r :: r in db.rules <==>
              && r in old(db.rules)
              && !(r == RuleRow(group, rule) && exists row :: row in old(db.groups) && row.id == group && row.profile == Some(profile))
  {
    if !GroupExists(PolicyOf(db), profile, group) { return; }
    var _ := DeleteRule(db, group, RuleRow(group, rule));
  }

  method PutLimitsCall(db: DbPool, profile: string, group: string, entries: seq<(nat, int)>)
    modifies db`limits
    ensures PolicyOf(db) == Apply(old(PolicyOf(db)), PutLimits(profile, group, entries))
    ensures if && (exists row :: row in old(db.groups) && row.id == group && row.profile == Some(profile))
               && BlockedGroup(old(db.groups), profile) != Some(group) && ValidLimits(entries)
            then forall r :: r in db.limits <==>
                   if r.profile == profile && r.group == group then (r.day, r.minutes) in entries else r in old(db.limits)
            else db.limits == old(db.limits)
  {
    if !GroupExists(PolicyOf(db), profile, group) || BlockedGroup(db.groups, profile) == Some(group) { return; }
    var _ := ReplaceLimits(db, profile, group, entries);
  }

  /** Turning the mode on approves the apps already used. */
  method ModeCall(db: DbPool, profile: string, on: bool)
    modifies db`approvals, db`approvalMode
    ensures PolicyOf(db) == Apply(old(PolicyOf(db)), Mode(profile, on, AppsUsedBy(db, profile)))
    ensures profile in db.approvalMode <==> on
  {
    SetMode(db, profile, on);
  }
}

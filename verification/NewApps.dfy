/** New apps stay blocked, from the request to the closed process: the server's policy over every
    run of board and approval calls, the configuration it pushes, and what the agent makes of it. */
module NewApps {
  import opened Apps
  import opened Store
  import opened AppGroups
  import opened Membership
  import opened Approvals
  import opened Wrappers

  // ---- The calls --------------------------------------------------------------------------

  /** The calls that touch the policy (crates/server/src/api/apps.rs and the agent's request). */
  datatype Op =
    | AppRequest(profile: string, app: string, cats: seq<string>)
    | Decision(profile: string, app: string, approve: bool, into: Option<string>)
    | Move(profile: string, group: string, app: string, member: bool)
    | Mode(profile: string, on: bool, used: set<string>)
    | CreateGroup(profile: string, name: string, id: string)
    | RenameGroup(profile: string, group: string, name: string)
    | DeleteGroup(profile: string, group: string)
    | PostRule(profile: string, group: string, rule: GroupRule)
    | DropRule(profile: string, group: string, rule: GroupRule)
    | PutLimits(profile: string, group: string, entries: seq<(nat, int)>)
    | Catalogue(app: string, cats: seq<string>)

  predicate IsBlockedGroup(t: Policy, profile: string, group: string) {
    BlockedGroup(t.groups, profile) == Some(group)
  }

  predicate GroupExists(t: Policy, profile: string, group: string) {
    exists row :: row in t.groups && row.id == group && row.profile == Some(profile)
  }

  function RenamedRows(groups: seq<GroupRow>, profile: string, group: string, name: string): seq<GroupRow> {
    seq(|groups|, i requires 0 <= i < |groups| =>
      if groups[i].id == group && groups[i].profile == Some(profile) then groups[i].(name := name) else groups[i])
  }

  predicate WordChars(c: string) {
    forall ch :: ch in c ==> IsAlphanumeric(ch) || ch == '-' || ch == '_'
  }

  /** The categories an app request records: plain words only, at most twenty, none empty. */
  function RequestCategories(cats: seq<string>): seq<string> {
    var words := Select(cats, c => WordChars(c));
    Select(if |words| > 20 then words[..20] else words, c => c != "")
  }

  function Select(s: seq<string>, p: string -> bool): seq<string> {
    if s == [] then [] else (if p(s[0]) then [s[0]] else []) + Select(s[1..], p)
  }

  function Apply(t: Policy, op: Op): Policy {
    match op
    case AppRequest(p, app, cats) =>
      var id := ParseAppId(app);
      if id.None? || !IsApp(id.value) then t
      else
        var known := if app in t.categories then t else t.(categories := t.categories[app := RequestCategories(cats)]);
        WithRequest(known, p, app).0
    case Decision(p, app, approve, into) =>
      var (after, ok) := WithDecision(t, p, app, approve);
      if ok && approve && into.Some? && into.value != "" then WithMembership(after, p, into.value, app, true).0 else after
    case Move(p, group, app, member) =>
      var (after, ok) := WithMembership(t, p, group, app, member);
      if ok && HasGroup(ListGroups(t.groups, p), group) then WithSeen(after, p, app) else after
    case Mode(p, on, used) => WithMode(t, p, on, used)
    case CreateGroup(p, name, id) =>
      var clean := CleanName(name);
      if clean.Err? then t else t.(groups := t.groups + [GroupRow(id, Some(p), clean.value, None)])
    case RenameGroup(p, group, name) =>
      var clean := CleanName(name);
      if clean.Err? then t else t.(groups := RenamedRows(t.groups, p, group, clean.value))
    case DeleteGroup(p, group) =>
      if IsBlockedGroup(t, p, group) || !GroupExists(t, p, group) then t
      else t.(groups := Without(t.groups, {group}), rules := (set r | r in t.rules && r.group != group),
              limits := (set r | r in t.limits && r.group != group))
    case PostRule(p, group, rule) =>
      var rules := WithRule(t.rules, group, rule);
      if !GroupExists(t, p, group) || ((rule.kind != ByAppId || rule.exclude) && IsBlockedGroup(t, p, group)) || rules.Err? then t
      else t.(rules := rules.value)
    case DropRule(p, group, rule) =>
      if !GroupExists(t, p, group) then t else t.(rules := t.rules - {RuleRow(group, rule)})
    case PutLimits(p, group, entries) =>
      if !GroupExists(t, p, group) || IsBlockedGroup(t, p, group) || !ValidLimits(entries) then t
      else t.(limits := LimitsReplaced(t.limits, p, group, entries))
    case Catalogue(app, cats) => t.(categories := t.categories[app := cats])
  }

  lemma {:induction false} SelectMeans(s: seq<string>, p: string -> bool)
    ensures forall c :: c in Select(s, p) <==> c in s && p(c)
    ensures |Select(s, p)| <= |s| && ((forall c :: c in s ==> p(c)) ==> Select(s, p) == s)
  {
    if s != [] {
      SelectMeans(s[1..], p);
      assert s == [s[0]] + s[1..];
      if forall c :: c in s ==> p(c) {
        assert s[0] in s && forall c :: c in s[1..] ==> c in s;
      }
    }
  }

  /** A plain word has only ASCII letters, digits, '-' and '_'. */
  lemma PlainWordsMean(c: string)
    ensures WordChars(c) <==> forall i :: 0 <= i < |c| ==>
              'a' <= c[i] <= 'z' || 'A' <= c[i] <= 'Z' || '0' <= c[i] <= '9' || c[i] in ['-', '_']
  {
    assert forall i :: 0 <= i < |c| ==> c[i] in c;
  }

  /** Recorded with an app are at most twenty of the categories sent with it, each a plain word; as sent
      if they are all like that. */
  lemma RequestCategoriesMean(cats: seq<string>)
    ensures |RequestCategories(cats)| <= 20
    ensures forall c :: c in RequestCategories(cats) ==> c in cats && c != "" && WordChars(c)
    ensures |cats| <= 20 && (forall c :: c in cats ==> c != "" && WordChars(c)) ==> RequestCategories(cats) == cats
  {
    hide WordChars;
    var words := Select(cats, c => WordChars(c));
    var few := if |words| > 20 then words[..20] else words;
    SelectMeans(cats, c => WordChars(c));
    SelectMeans(few, c => c != "");
    assert forall c :: c in few ==> c in words;
  }

  // ---- The invariant ----------------------------------------------------------------------

  /** Apps blocked as new that the parents have not looked at. */
  function PendingApps(t: Policy, p: string): set<string> {
    set k | k in t.approvals && k.0 == p && t.approvals[k] == Pending :: k.1
  }

  /** The Blocked group `b` names every app in `apps`, no other group of the profile does, and
      Blocked has nothing but such entries. */
  ghost predicate Named(groups: seq<GroupRow>, rules: set<RuleRow>, p: string, b: string, apps: set<string>) {
    && (forall r :: r in rules && r.group == b ==> r.rule == Include(r.rule.value))
    && (forall a :: a in apps ==> RuleRow(b, Include(a)) in rules)
    && (forall a, row :: a in apps && row in groups && row.profile == Some(p) && row.id != b ==>
          RuleRow(row.id, Include(a)) !in rules)
  }

  /** Blocked has no time on any day. */
  ghost predicate NoTime(limits: set<LimitRow>, p: string, b: string) {
    && (forall d: nat :: d < 7 ==> LimitRow(p, b, d, 0) in limits)
    && (forall r :: r in limits && r.profile == p && r.group == b ==> r.minutes == 0)
  }

  /** The profile's one Blocked group is `b`. */
  ghost predicate OneBlocked(groups: seq<GroupRow>, p: string, b: string) {
    && DistinctIds(groups)
    && BlockedGroup(groups, p) == Some(b)
    && forall row :: row in groups && IsBuiltin(row, p, Blocked) ==> row.id == b
  }

  /** New apps are blocked, and only there. */
  ghost predicate Guarded(t: Policy, p: string, b: string) {
    && OneBlocked(t.groups, p, b)
    && Named(t.groups, t.rules, p, b, PendingApps(t, p))
    && NoTime(t.limits, p, b)
    && (forall k :: k in t.approvals && k.0 == p ==> t.approvals[k] != Denied)
  }

  /** Putting the untrimmed `app` into `group` stores an entry for the trimmed id: one that belongs
      to a pending app, in a group other than Blocked. */
  predicate Misplaces(t: Policy, p: string, b: string, group: string, app: string) {
    && !Trimmed(app) && ParseAppId(app).Some? && ParseAppId(Trim(app)).Some? && Trim(app) in PendingApps(t, p)
    && group != b && HasGroup(ListGroups(t.groups, p), group)
    && GroupOf(ListGroups(t.groups, p), t.rules, app, CategoriesOf(t, app)) != Some(group)
  }

  /** What breaks the guard: a raw entry for a pending app in another group, or dropping Blocked's
      entry for one; a request for an untrimmed id, and putting one into a group when its trimmed
      form is pending. */
  predicate Breaks(t: Policy, op: Op, p: string, b: string) {
    match op
    case AppRequest(q, app, _) =>
      q == p && !Trimmed(app) && ParseAppId(app).Some? && IsApp(ParseAppId(app).value) && (p, app) !in t.approvals
    case Decision(q, app, approve, into) =>
      q == p && approve && into.Some? && into.value != "" && Misplaces(t, p, b, into.value, app)
    case Move(q, group, app, member) => q == p && member && Misplaces(t, p, b, group, app)
    case PostRule(q, group, rule) =>
      q == p && group != b && rule.kind == ByAppId && !rule.exclude && Trim(rule.value) in PendingApps(t, p)
      && GroupExists(t, q, group) && WithRule(t.rules, group, rule).Ok?
    case DropRule(q, group, rule) =>
      q == p && group == b && rule.kind == ByAppId && !rule.exclude && rule.value in PendingApps(t, p)
    case _ => false
  }

  /** A new group gets an unused id. */
  ghost predicate WellFormed(t: Policy, op: Op) {
    match op
    case CreateGroup(_, _, id) =>
      && (forall row :: row in t.groups ==> row.id != id)
      && (forall r :: r in t.rules ==> r.group != id)
    case _ => true
  }

  // ---- Membership under the guard ---------------------------------------------------------

  lemma ListedMeansOwned(groups: seq<GroupRow>, q: string, group: string)
    requires DistinctIds(groups)
    ensures HasGroup(ListGroups(groups, q), group)
        <==> exists row :: row in groups && row.id == group && row.profile == Some(q)
  {
    ListGroupsSelects(groups, q);
    if row :| row in groups && row.id == group && row.profile == Some(q) {
      assert row in ListGroups(groups, q);
      var i :| 0 <= i < |ListGroups(groups, q)| && ListGroups(groups, q)[i] == row;
    }
  }

  lemma BlockedIsListed(groups: seq<GroupRow>, p: string, b: string)
    requires OneBlocked(groups, p, b)
    ensures DistinctIds(ListGroups(groups, p)) && HasGroup(ListGroups(groups, p), b)
  {
    ListGroupsSelects(groups, p);
    ListedMeansOwned(groups, p, b);
  }

  /** A group belongs to one profile. */
  lemma OwnersAreUnique(groups: seq<GroupRow>, x: GroupRow, y: GroupRow)
    requires DistinctIds(groups) && x in groups && y in groups && x.id == y.id
    ensures x == y
  {}

  /** An app Blocked does not name is not in Blocked. */
  lemma OnlyNamedAppsAreBlocked(groups: seq<GroupRow>, rules: set<RuleRow>, p: string, b: string, app: string, cats: seq<string>)
    requires OneBlocked(groups, p, b) && forall r :: r in rules && r.group == b ==> r.rule == Include(r.rule.value)
    ensures GroupOf(ListGroups(groups, p), rules, app, cats) == Some(b) ==> RuleRow(b, Include(app)) in rules
  {}

  /** A named app is in Blocked, whatever its categories. */
  lemma NamedAppsAreBlocked(groups: seq<GroupRow>, rules: set<RuleRow>, p: string, b: string, apps: set<string>,
                            app: string, cats: seq<string>)
    requires OneBlocked(groups, p, b) && Named(groups, rules, p, b, apps) && app in apps
    ensures GroupOf(ListGroups(groups, p), rules, app, cats) == Some(b)
  {
    var rows := ListGroups(groups, p);
    BlockedIsListed(groups, p, b);
    ListGroupsSelects(groups, p);
    var order, k := Order(rows, rules), RowIndex(rows, b);
    forall j | 0 <= j < k ensures !Explicit(order[j].1, app, cats) {
      assert rows[j] in rows && rows[j].id != rows[k].id;
    }
    assert forall r :: r in RulesOf(rules, b) ==> RuleRow(b, r) in rules;
    AssignIndexIsTheWinner(order, app, cats, k);
    GroupOfIsAssigned(rows, rules, app, cats, b);
  }

  /** A membership call only edits the app's own entries, in the groups of its own profile. */
  lemma MembershipEdits(t: Policy, q: string, group: string, app: string, member: bool, r: RuleRow)
    requires DistinctIds(t.groups) && Trimmed(app)
    ensures var after := WithMembership(t, q, group, app, member).0.rules;
            (r in after) != (r in t.rules) ==>
              && r.rule.kind == ByAppId && r.rule.value == app
              && (exists row :: row in t.groups && row.id == r.group && row.profile == Some(q))
              && (r in after ==> r.group == group && r.rule.exclude == !member)
  {
    var rows := ListGroups(t.groups, q);
    TrimTrims(app);
    ListedMeansOwned(t.groups, q, group);
    ListedMeansOwned(t.groups, q, r.group);
    if HasGroup(rows, group) {
      OtherGroupsStay(rows, t.rules, group, app, CategoriesOf(t, app), member, r);
    }
  }

  /** Taking an app out of Blocked never leaves an exclusion there. */
  lemma NothingExcludedFromBlocked(t: Policy, q: string, app: string, p: string, b: string, apps: set<string>)
    requires OneBlocked(t.groups, p, b) && Named(t.groups, t.rules, p, b, apps) && Trimmed(app)
    ensures RuleRow(b, Exclude(app)) !in WithMembership(t, q, b, app, false).0.rules
  {
    var rows := ListGroups(t.groups, q);
    assert RuleRow(b, Exclude(app)) !in t.rules;
    MembershipEdits(t, q, b, app, false, RuleRow(b, Exclude(app)));
    if RuleRow(b, Exclude(app)) in WithMembership(t, q, b, app, false).0.rules {
      var row :| row in t.groups && row.id == b && row.profile == Some(q);
      var own :| own in t.groups && IsBuiltin(own, p, Blocked) && own.id == b;
      OwnersAreUnique(t.groups, row, own);
      OnlyNamedAppsAreBlocked(t.groups, Cleared(rows, t.rules, b, app, false), p, b, app, CategoriesOf(t, app));
    }
  }

  /** A membership call in any profile keeps the other pending apps named by Blocked alone. */
  lemma MembershipKeepsNames(t: Policy, q: string, group: string, app: string, member: bool, p: string, b: string, apps: set<string>)
    requires OneBlocked(t.groups, p, b) && Named(t.groups, t.rules, p, b, apps)
    requires Trimmed(app) && (q == p ==> app !in apps)
    ensures Named(t.groups, WithMembership(t, q, group, app, member).0.rules, p, b, apps)
  {
    var after := WithMembership(t, q, group, app, member).0.rules;
    var own :| own in t.groups && IsBuiltin(own, p, Blocked) && own.id == b;
    forall r | r in after && r.group == b ensures r.rule == Include(r.rule.value) {
      MembershipEdits(t, q, group, app, member, r);
      if r !in t.rules && !member { NothingExcludedFromBlocked(t, q, app, p, b, apps); }
    }
    forall a | a in apps ensures RuleRow(b, Include(a)) in after {
      MembershipEdits(t, q, group, app, member, RuleRow(b, Include(a)));
    }
    forall a, row | a in apps && row in t.groups && row.profile == Some(p) && row.id != b
      ensures RuleRow(row.id, Include(a)) !in after
    {
      MembershipEdits(t, q, group, app, member, RuleRow(row.id, Include(a)));
    }
  }

  /** Putting an app into Blocked makes Blocked the one group that names it. */
  lemma BlockingNamesIt(t: Policy, app: string, p: string, b: string, apps: set<string>)
    requires OneBlocked(t.groups, p, b) && Named(t.groups, t.rules, p, b, apps)
    requires Trimmed(app) && ParseAppId(app).Some? && app !in apps
    ensures WithBlocked(t, p, app, true).1
    ensures Named(t.groups, WithBlocked(t, p, app, true).0.rules, p, b, apps + {app})
  {
    var rows, cats := ListGroups(t.groups, p), CategoriesOf(t, app);
    var cleared, after := Cleared(rows, t.rules, b, app, true), WithBlocked(t, p, app, true).0.rules;
    TrimTrims(app);
    BlockedIsListed(t.groups, p, b);
    ListGroupsSelects(t.groups, p);
    MembershipKeepsNames(t, p, b, app, true, p, b, apps);
    if GroupOf(rows, cleared, app, cats) == Some(b) {
      OnlyNamedAppsAreBlocked(t.groups, cleared, p, b, app, cats);
    }
    MemberRulesAfter(rows, t.rules, b, app, cats);
    forall row | row in t.groups && row.profile == Some(p) && row.id != b ensures RuleRow(row.id, Include(app)) !in after {
      assert row in rows;
      assert Include(app) !in RulesOf(after, row.id);
    }
  }

  // ---- One call ---------------------------------------------------------------------------

  lemma OneBlockedMeans(groups: seq<GroupRow>, p: string, b: string, row: GroupRow)
    requires DistinctIds(groups) && row in groups && IsBuiltin(row, p, Blocked) && row.id == b
    requires forall r :: r in groups && IsBuiltin(r, p, Blocked) ==> r.id == b
    ensures OneBlocked(groups, p, b)
  {}

  lemma StatusSet(t: Policy, q: string, app: string, status: Status, p: string)
    ensures var after := t.(approvals := t.approvals[(q, app) := status]);
            PendingApps(after, p) == if q != p then PendingApps(t, p)
                                     else if status == Pending then PendingApps(t, p) + {app}
                                     else PendingApps(t, p) - {app}
  {}

  lemma FewerNames(groups: seq<GroupRow>, rules: set<RuleRow>, p: string, b: string, apps: set<string>, fewer: set<string>)
    requires Named(groups, rules, p, b, apps) && fewer <= apps
    ensures Named(groups, rules, p, b, fewer)
  {}

  lemma RulesChanged(t: Policy, rules: set<RuleRow>, p: string, b: string)
    requires OneBlocked(t.groups, p, b) && NoTime(t.limits, p, b) && forall k :: k in t.approvals && k.0 == p ==> t.approvals[k] != Denied
    requires Named(t.groups, rules, p, b, PendingApps(t, p))
    ensures Guarded(t.(rules := rules), p, b)
  {
    assert PendingApps(t.(rules := rules), p) == PendingApps(t, p);
  }

  lemma MembershipKeepsTheRest(t: Policy, q: string, group: string, app: string, member: bool)
    ensures var after := WithMembership(t, q, group, app, member).0; after == t.(rules := after.rules)
  {}

  lemma BlockingKeepsTheRest(t: Policy, q: string, app: string, blocked: bool)
    ensures var after := WithBlocked(t, q, app, blocked).0; after == t.(rules := after.rules)
  {}

  lemma GuardNewRequest(t: Policy, q: string, app: string, p: string, b: string)
    requires Guarded(t, p, b) && Trimmed(app) && ParseAppId(app).Some? && (q, app) !in t.approvals
    ensures var recorded := t.(approvals := t.approvals[(q, app) := Pending]);
            Guarded(WithBlocked(recorded, q, app, true).0, p, b)
  {
    var recorded := t.(approvals := t.approvals[(q, app) := Pending]);
    StatusSet(t, q, app, Pending, p);
    BlockingKeepsTheRest(recorded, q, app, true);
    if q == p {
      assert app !in PendingApps(t, p);
      BlockingNamesIt(recorded, app, p, b, PendingApps(t, p));
    } else if BlockedGroup(t.groups, q).Some? {
      MembershipKeepsNames(recorded, q, BlockedGroup(t.groups, q).value, app, true, p, b, PendingApps(t, p));
    }
    RulesChanged(recorded, WithBlocked(recorded, q, app, true).0.rules, p, b);
  }

  lemma GuardRequest(t: Policy, q: string, app: string, p: string, b: string)
    requires Guarded(t, p, b) && Trimmed(app) && ParseAppId(app).Some?
    ensures Guarded(WithRequest(t, q, app).0, p, b)
  {
    if (q, app) !in t.approvals { GuardNewRequest(t, q, app, p, b); }
  }

  lemma GuardMembership(t: Policy, q: string, group: string, app: string, member: bool, p: string, b: string)
    requires Guarded(t, p, b) && Trimmed(app) && (q == p ==> app !in PendingApps(t, p))
    ensures Guarded(WithMembership(t, q, group, app, member).0, p, b)
  {
    MembershipKeepsNames(t, q, group, app, member, p, b, PendingApps(t, p));
  }

  lemma GuardDecided(t: Policy, q: string, app: string, approve: bool, p: string, b: string)
    requires Guarded(t, p, b) && Trimmed(app)
    ensures var (after, ok) := WithDecision(t, q, app, approve);
            Guarded(after, p, b) && (ok && q == p ==> app !in PendingApps(after, p))
  {
    if ParseAppId(app).Some? {
      var decided := t.(approvals := t.approvals[(q, app) := Approved]);
      StatusSet(t, q, app, Approved, p);
      FewerNames(t.groups, t.rules, p, b, PendingApps(t, p), PendingApps(decided, p));
      if BlockedGroup(t.groups, q).Some? {
        GuardMembership(decided, q, BlockedGroup(t.groups, q).value, app, !approve, p, b);
      }
    }
  }

  lemma GuardTrimmedDecision(t: Policy, q: string, app: string, approve: bool, into: Option<string>, p: string, b: string)
    requires Guarded(t, p, b) && Trimmed(app)
    ensures Guarded(Apply(t, Decision(q, app, approve, into)), p, b)
  {
    GuardDecided(t, q, app, approve, p, b);
    var (after, ok) := WithDecision(t, q, app, approve);
    if ok && into.Some? { GuardMembership(after, q, into.value, app, true, p, b); }
  }

  /** Answering the notice first does not change what a move does. */
  lemma SeenGuards(t: Policy, q: string, app: string, p: string, b: string)
    requires Guarded(t, p, b)
    ensures var seen := WithSeen(t, q, app); Guarded(seen, p, b) && (q == p ==> app !in PendingApps(seen, p))
  {
    if (q, app) in t.approvals {
      StatusSet(t, q, app, Approved, p);
      FewerNames(t.groups, t.rules, p, b, PendingApps(t, p), PendingApps(WithSeen(t, q, app), p));
    }
  }

  lemma GuardTrimmedMove(t: Policy, q: string, group: string, app: string, member: bool, p: string, b: string)
    requires Guarded(t, p, b) && Trimmed(app)
    ensures Guarded(Apply(t, Move(q, group, app, member)), p, b)
  {
    var (after, ok) := WithMembership(t, q, group, app, member);
    if ParseAppId(app).Some? && HasGroup(ListGroups(t.groups, q), group) {
      TrimTrims(app);
      SeenGuards(t, q, app, p, b);
      GuardMembership(WithSeen(t, q, app), q, group, app, member, p, b);
      assert ok && WithSeen(after, q, app) == WithMembership(WithSeen(t, q, app), q, group, app, member).0;
    }
  }

  // ---- Untrimmed ids ----------------------------------------------------------------------

  lemma PendingAreTrimmed(t: Policy, p: string, b: string, app: string)
    requires Guarded(t, p, b) && TrimmedRules(t.rules) && app in PendingApps(t, p)
    ensures Trimmed(app)
  {
    assert RuleRow(b, Include(app)) in t.rules;
  }

  lemma UntrimmedIsNotBlocked(t: Policy, p: string, b: string, app: string, cats: seq<string>)
    requires Guarded(t, p, b) && TrimmedRules(t.rules) && !Trimmed(app)
    ensures GroupOf(ListGroups(t.groups, p), t.rules, app, cats) != Some(b)
  {
    OnlyNamedAppsAreBlocked(t.groups, t.rules, p, b, app, cats);
  }

  /** A membership call with an untrimmed id stores an entry for the trimmed one. */
  predicate StoresTrimmed(t: Policy, q: string, group: string, app: string, member: bool) {
    && ParseAppId(app).Some? && HasGroup(ListGroups(t.groups, q), group) && ParseAppId(Trim(app)).Some?
    && member != (GroupOf(ListGroups(t.groups, q), t.rules, app, CategoriesOf(t, app)) == Some(group))
  }

  /** What a membership call with an untrimmed id adds, if anything. */
  lemma UntrimmedEdit(t: Policy, q: string, group: string, app: string, member: bool)
    requires TrimmedRules(t.rules) && !Trimmed(app)
    ensures WithMembership(t, q, group, app, member).0
         == if StoresTrimmed(t, q, group, app, member)
            then t.(rules := WithRule(t.rules, group, GroupRule(ByAppId, app, !member)).value) else t
  {
    UntrimmedClearsNothing(ListGroups(t.groups, q), t.rules, group, app, member);
  }

  /** An entry for the trimmed id only matters when it names a pending app outside Blocked. */
  lemma GuardTrimmedEntry(t: Policy, q: string, group: string, value: string, member: bool, p: string, b: string)
    requires Guarded(t, p, b) && HasGroup(ListGroups(t.groups, q), group) && (group == b ==> member)
    requires Trimmed(value) && ParseAppId(value).Some?
    ensures var after := t.(rules := WithRule(t.rules, group, GroupRule(ByAppId, value, !member)).value);
            Guarded(after, p, b) <==> !(q == p && group != b && member && value in PendingApps(t, p))
  {
    TrimTrims(value);
    ListedMeansOwned(t.groups, q, group);
    var rule := GroupRule(ByAppId, value, !member);
    GuardAddedRule(t, q, group, rule, WithRule(t.rules, group, rule).value, p, b);
  }

  /** An entry is stored for the id as it is trimmed. */
  lemma TrimsFirst(rules: set<RuleRow>, group: string, app: string, exclude: bool)
    ensures WithRule(rules, group, GroupRule(ByAppId, app, exclude)) == WithRule(rules, group, GroupRule(ByAppId, Trim(app), exclude))
    ensures Trimmed(Trim(app))
  {
    TrimTrims(app);
    TrimTrims(Trim(app));
  }

  lemma GuardUntrimmed(t: Policy, q: string, group: string, app: string, member: bool, p: string, b: string)
    requires Guarded(t, p, b) && TrimmedRules(t.rules) && !Trimmed(app)
    ensures Guarded(WithMembership(t, q, group, app, member).0, p, b) <==> !(q == p && member && Misplaces(t, p, b, group, app))
  {
    UntrimmedEdit(t, q, group, app, member);
    if StoresTrimmed(t, q, group, app, member) {
      TrimsFirst(t.rules, group, app, !member);
      if group == b && !member { UntrimmedBlockedIsForeign(t, q, app, p, b); }
      GuardTrimmedEntry(t, q, group, Trim(app), member, p, b);
    }
  }

  /** An untrimmed app is in no profile's group `b`. */
  lemma UntrimmedBlockedIsForeign(t: Policy, q: string, app: string, p: string, b: string)
    requires Guarded(t, p, b) && TrimmedRules(t.rules) && !Trimmed(app) && HasGroup(ListGroups(t.groups, q), b)
    ensures GroupOf(ListGroups(t.groups, q), t.rules, app, CategoriesOf(t, app)) != Some(b)
  {
    ListedMeansOwned(t.groups, q, b);
    var own :| own in t.groups && IsBuiltin(own, p, Blocked) && own.id == b;
    var row :| row in t.groups && row.id == b && row.profile == Some(q);
    OwnersAreUnique(t.groups, row, own);
    UntrimmedIsNotBlocked(t, p, b, app, CategoriesOf(t, app));
  }

  // ---- Requests, decisions and moves ------------------------------------------------------

  lemma GuardAppRequest(t: Policy, q: string, app: string, cats: seq<string>, p: string, b: string)
    requires Guarded(t, p, b) && TrimmedRules(t.rules)
    ensures Guarded(Apply(t, AppRequest(q, app, cats)), p, b) <==> !Breaks(t, AppRequest(q, app, cats), p, b)
  {
    if ParseAppId(app).Some? && IsApp(ParseAppId(app).value) {
      var known := if app in t.categories then t else t.(categories := t.categories[app := RequestCategories(cats)]);
      if Trimmed(app) {
        GuardRequest(known, q, app, p, b);
      } else if (q, app) !in t.approvals {
        GuardUntrimmedRequest(known, q, app, p, b);
      }
    }
  }

  lemma GuardUntrimmedRequest(t: Policy, q: string, app: string, p: string, b: string)
    requires Guarded(t, p, b) && TrimmedRules(t.rules) && !Trimmed(app) && (q, app) !in t.approvals
    ensures Guarded(WithRequest(t, q, app).0, p, b) <==> q != p
  {
    var recorded := t.(approvals := t.approvals[(q, app) := Pending]);
    var after := WithRequest(t, q, app).0;
    StatusSet(t, q, app, Pending, p);
    if q == p {
      UntrimmedEdit(recorded, q, b, app, true);
      BlockingTrims(recorded, q, app, true);
      assert app in PendingApps(after, p);
      if Guarded(after, p, b) { PendingAreTrimmed(after, p, b, app); }
    } else if BlockedGroup(t.groups, q).Some? {
      GuardUntrimmed(recorded, q, BlockedGroup(t.groups, q).value, app, true, p, b);
    }
  }

  lemma BlockingTrims(t: Policy, q: string, app: string, blocked: bool)
    requires TrimmedRules(t.rules)
    ensures TrimmedRules(WithBlocked(t, q, app, blocked).0.rules)
  {
    if BlockedGroup(t.groups, q).Some? {
      MovingTrims(ListGroups(t.groups, q), t.rules, BlockedGroup(t.groups, q).value, app, CategoriesOf(t, app), blocked);
    }
  }

  lemma GuardSeen(t: Policy, q: string, app: string, p: string, b: string)
    requires app !in PendingApps(t, p) && forall k :: k in t.approvals && k.0 == p ==> t.approvals[k] != Denied
    ensures Guarded(WithSeen(t, q, app), p, b) <==> Guarded(t, p, b)
  {
    if (q, app) in t.approvals { StatusSet(t, q, app, Approved, p); }
  }

  lemma GuardUntrimmedMove(t: Policy, q: string, group: string, app: string, member: bool, p: string, b: string)
    requires Guarded(t, p, b) && TrimmedRules(t.rules) && !Trimmed(app)
    ensures Guarded(Apply(t, Move(q, group, app, member)), p, b) <==> !(q == p && member && Misplaces(t, p, b, group, app))
  {
    var after := WithMembership(t, q, group, app, member).0;
    GuardUntrimmed(t, q, group, app, member, p, b);
    if app in PendingApps(t, p) { PendingAreTrimmed(t, p, b, app); }
    MembershipKeepsTheRest(t, q, group, app, member);
    assert PendingApps(after, p) == PendingApps(t, p);
    GuardSeen(after, q, app, p, b);
  }

  lemma GuardMove(t: Policy, q: string, group: string, app: string, member: bool, p: string, b: string)
    requires Guarded(t, p, b) && TrimmedRules(t.rules)
    ensures Guarded(Apply(t, Move(q, group, app, member)), p, b) <==> !Breaks(t, Move(q, group, app, member), p, b)
  {
    if Trimmed(app) { GuardTrimmedMove(t, q, group, app, member, p, b); } else { GuardUntrimmedMove(t, q, group, app, member, p, b); }
  }

  lemma GuardUntrimmedBlocking(t: Policy, q: string, app: string, blocked: bool, p: string, b: string)
    requires Guarded(t, p, b) && TrimmedRules(t.rules) && !Trimmed(app)
    ensures Guarded(WithBlocked(t, q, app, blocked).0, p, b)
  {
    if BlockedGroup(t.groups, q).Some? { GuardUntrimmed(t, q, BlockedGroup(t.groups, q).value, app, blocked, p, b); }
  }

  lemma GuardUntrimmedDecision(t: Policy, q: string, app: string, approve: bool, p: string, b: string)
    requires Guarded(t, p, b) && TrimmedRules(t.rules) && !Trimmed(app) && ParseAppId(app).Some?
    ensures var after := WithDecision(t, q, app, approve).0;
            && Guarded(after, p, b) && TrimmedRules(after.rules) && after.groups == t.groups && after.categories == t.categories
            && PendingApps(after, p) == PendingApps(t, p)
  {
    var decided := t.(approvals := t.approvals[(q, app) := Approved]);
    DecidedGuards(t, q, app, p, b);
    BlockingTrims(decided, q, app, !approve);
    BlockingKeepsTheRest(decided, q, app, !approve);
    GuardUntrimmedBlocking(decided, q, app, !approve, p, b);
  }

  /** An untrimmed app waits for no decision. */
  lemma DecidedGuards(t: Policy, q: string, app: string, p: string, b: string)
    requires Guarded(t, p, b) && TrimmedRules(t.rules) && !Trimmed(app)
    ensures var decided := t.(approvals := t.approvals[(q, app) := Approved]);
            Guarded(decided, p, b) && PendingApps(decided, p) == PendingApps(t, p)
  {
    if app in PendingApps(t, p) { PendingAreTrimmed(t, p, b, app); }
    StatusSet(t, q, app, Approved, p);
  }

  /** Approving an untrimmed id succeeds and leaves the rules alone: Blocked does not have it. */
  lemma UntrimmedApproval(t: Policy, app: string, p: string, b: string)
    requires Guarded(t, p, b) && TrimmedRules(t.rules) && !Trimmed(app) && ParseAppId(app).Some?
    ensures var (after, ok) := WithDecision(t, p, app, true); ok && after.rules == t.rules
  {
    UntrimmedClearsNothing(ListGroups(t.groups, p), t.rules, b, app, false);
    UntrimmedIsNotBlocked(t, p, b, app, CategoriesOf(t, app));
  }

  lemma GuardDecision(t: Policy, q: string, app: string, approve: bool, into: Option<string>, p: string, b: string)
    requires Guarded(t, p, b) && TrimmedRules(t.rules)
    ensures Guarded(Apply(t, Decision(q, app, approve, into)), p, b) <==> !Breaks(t, Decision(q, app, approve, into), p, b)
  {
    if Trimmed(app) {
      GuardTrimmedDecision(t, q, app, approve, into, p, b);
    } else {
      if ParseAppId(app).Some? {
        GuardUntrimmedDecision(t, q, app, approve, p, b);
        if q == p && approve { UntrimmedApproval(t, app, p, b); }
      }
      var (after, ok) := WithDecision(t, q, app, approve);
      if ok && approve && into.Some? && into.value != "" { GuardUntrimmed(after, q, into.value, app, true, p, b); }
    }
  }

  lemma {:induction false} WithoutKeepsOthers(groups: seq<GroupRow>, group: string)
    requires DistinctIds(groups)
    ensures DistinctIds(Without(groups, {group}))
    ensures forall r :: r in Without(groups, {group}) <==> r in groups && r.id != group
  {
    if groups != [] {
      var init, last := groups[..|groups| - 1], groups[|groups| - 1];
      WithoutKeepsOthers(init, group);
      assert groups == init + [last];
      forall r | r in Without(init, {group}) ensures r.id != last.id {
        assert r in init;
      }
    }
  }

  lemma GuardCreate(t: Policy, q: string, name: string, id: string, p: string, b: string)
    requires Guarded(t, p, b) && WellFormed(t, CreateGroup(q, name, id))
    ensures Guarded(Apply(t, CreateGroup(q, name, id)), p, b)
  {
    var own :| own in t.groups && IsBuiltin(own, p, Blocked) && own.id == b;
    var after := Apply(t, CreateGroup(q, name, id));
    OneBlockedMeans(after.groups, p, b, own);
  }

  ghost predicate SameButName(x: GroupRow, y: GroupRow) {
    x.id == y.id && x.profile == y.profile && x.builtin == y.builtin
  }

  lemma RenamedFrom(groups: seq<GroupRow>, q: string, group: string, name: string)
    requires DistinctIds(groups)
    ensures DistinctIds(RenamedRows(groups, q, group, name))
    ensures forall r :: r in RenamedRows(groups, q, group, name) ==> exists x :: x in groups && SameButName(x, r)
    ensures forall x :: x in groups ==> exists r :: r in RenamedRows(groups, q, group, name) && SameButName(x, r)
  {
    var after := RenamedRows(groups, q, group, name);
    forall r | r in after ensures exists x :: x in groups && SameButName(x, r) {
      var i :| 0 <= i < |after| && after[i] == r;
      assert SameButName(groups[i], r);
    }
    forall x | x in groups ensures exists r :: r in after && SameButName(x, r) {
      var i :| 0 <= i < |groups| && groups[i] == x;
      assert SameButName(x, after[i]);
    }
  }

  lemma NamedAfterRename(groups: seq<GroupRow>, after: seq<GroupRow>, rules: set<RuleRow>, p: string, b: string, apps: set<string>)
    requires Named(groups, rules, p, b, apps)
    requires forall r :: r in after ==> exists x :: x in groups && SameButName(x, r)
    ensures Named(after, rules, p, b, apps)
  {
    forall a, row | a in apps && row in after && row.profile == Some(p) && row.id != b ensures RuleRow(row.id, Include(a)) !in rules {
      var x :| x in groups && SameButName(x, row);
    }
  }

  lemma OneBlockedAfterRename(groups: seq<GroupRow>, q: string, group: string, name: string, p: string, b: string)
    requires OneBlocked(groups, p, b)
    ensures OneBlocked(RenamedRows(groups, q, group, name), p, b)
  {
    var after := RenamedRows(groups, q, group, name);
    RenamedFrom(groups, q, group, name);
    var own :| own in groups && IsBuiltin(own, p, Blocked) && own.id == b;
    var renamed :| renamed in after && SameButName(own, renamed);
    OneBlockedMeans(after, p, b, renamed);
  }

  lemma GroupsChanged(t: Policy, groups: seq<GroupRow>, p: string, b: string)
    requires Guarded(t, p, b) && OneBlocked(groups, p, b) && Named(groups, t.rules, p, b, PendingApps(t, p))
    ensures Guarded(t.(groups := groups), p, b)
  {
    assert PendingApps(t.(groups := groups), p) == PendingApps(t, p);
  }

  lemma GuardRename(t: Policy, q: string, group: string, name: string, p: string, b: string)
    requires Guarded(t, p, b)
    ensures Guarded(Apply(t, RenameGroup(q, group, name)), p, b)
  {
    if CleanName(name).Ok? {
      var after := RenamedRows(t.groups, q, group, CleanName(name).value);
      RenamedFrom(t.groups, q, group, CleanName(name).value);
      OneBlockedAfterRename(t.groups, q, group, CleanName(name).value, p, b);
      NamedAfterRename(t.groups, after, t.rules, p, b, PendingApps(t, p));
      GroupsChanged(t, after, p, b);
    }
  }

  lemma GuardDelete(t: Policy, q: string, group: string, p: string, b: string)
    requires Guarded(t, p, b)
    ensures Guarded(Apply(t, DeleteGroup(q, group)), p, b)
  {
    var own :| own in t.groups && IsBuiltin(own, p, Blocked) && own.id == b;
    var after := Apply(t, DeleteGroup(q, group));
    if after != t {
      var row :| row in t.groups && row.id == group && row.profile == Some(q);
      if group == b { OwnersAreUnique(t.groups, row, own); }
      WithoutKeepsOthers(t.groups, group);
      OneBlockedMeans(after.groups, p, b, own);
    }
  }

  /** A new rule of another group only matters when it names a pending app. */
  lemma NamedAfterRule(t: Policy, row: GroupRow, added: RuleRow, after: set<RuleRow>, p: string, b: string)
    requires Guarded(t, p, b) && row in t.groups && row.id == added.group
    requires added in after && forall r :: r in after ==> r in t.rules || r == added
    requires forall r :: r in t.rules && r !in after ==> r.group == added.group && r.rule == added.rule.(exclude := !added.rule.exclude)
    requires row.id == b ==> added.rule == Include(added.rule.value)
    requires row.profile != Some(p) ==> row.id != b
    ensures Named(t.groups, after, p, b, PendingApps(t, p))
        <==> !(row.profile == Some(p) && row.id != b && added.rule == Include(added.rule.value) && added.rule.value in PendingApps(t, p))
  {}

  lemma NamedAfterAdding(t: Policy, q: string, group: string, rule: GroupRule, rules: set<RuleRow>, p: string, b: string)
    requires Guarded(t, p, b) && GroupExists(t, q, group)
    requires WithRule(t.rules, group, rule).Ok? && rules == WithRule(t.rules, group, rule).value
    requires group == b ==> rule.kind == ByAppId && !rule.exclude
    ensures Named(t.groups, rules, p, b, PendingApps(t, p))
        <==> !(q == p && group != b && rule.kind == ByAppId && !rule.exclude && Trim(rule.value) in PendingApps(t, p))
  {
    var own :| own in t.groups && IsBuiltin(own, p, Blocked) && own.id == b;
    var row :| row in t.groups && row.id == group && row.profile == Some(q);
    if group == b { OwnersAreUnique(t.groups, row, own); }
    NamedAfterRule(t, row, RuleRow(group, rule.(value := Trim(rule.value))), rules, p, b);
  }

  lemma GuardAddedRule(t: Policy, q: string, group: string, rule: GroupRule, rules: set<RuleRow>, p: string, b: string)
    requires Guarded(t, p, b) && GroupExists(t, q, group)
    requires WithRule(t.rules, group, rule).Ok? && rules == WithRule(t.rules, group, rule).value
    requires group == b ==> rule.kind == ByAppId && !rule.exclude
    ensures Guarded(t.(rules := rules), p, b)
        <==> !(q == p && group != b && rule.kind == ByAppId && !rule.exclude && Trim(rule.value) in PendingApps(t, p))
  {
    NamedAfterAdding(t, q, group, rule, rules, p, b);
    assert PendingApps(t.(rules := rules), p) == PendingApps(t, p);
  }

  /** Group `b` belongs to the profile whose Blocked group it is. */
  lemma OnlyOwnerHasBlocked(t: Policy, q: string, p: string, b: string)
    requires OneBlocked(t.groups, p, b) && GroupExists(t, q, b)
    ensures q == p && IsBlockedGroup(t, q, b)
  {
    var own :| own in t.groups && IsBuiltin(own, p, Blocked) && own.id == b;
    var row :| row in t.groups && row.id == b && row.profile == Some(q);
    OwnersAreUnique(t.groups, row, own);
  }

  lemma GuardPostRule(t: Policy, q: string, group: string, rule: GroupRule, p: string, b: string)
    requires Guarded(t, p, b)
    ensures Guarded(Apply(t, PostRule(q, group, rule)), p, b) <==> !Breaks(t, PostRule(q, group, rule), p, b)
  {
    var with := WithRule(t.rules, group, rule);
    if GroupExists(t, q, group) && with.Ok? {
      if group == b { OnlyOwnerHasBlocked(t, q, p, b); }
      if (rule.kind == ByAppId && !rule.exclude) || !IsBlockedGroup(t, q, group) { GuardAddedRule(t, q, group, rule, with.value, p, b); }
    }
  }

  lemma GuardDropRule(t: Policy, q: string, group: string, rule: GroupRule, p: string, b: string)
    requires Guarded(t, p, b)
    ensures Guarded(Apply(t, DropRule(q, group, rule)), p, b) <==> !Breaks(t, DropRule(q, group, rule), p, b)
  {
    var own :| own in t.groups && IsBuiltin(own, p, Blocked) && own.id == b;
    var op := DropRule(q, group, rule);
    var after := Apply(t, op);
    if Breaks(t, op, p, b) {
      assert rule == Include(rule.value);
      assert RuleRow(b, Include(rule.value)) !in after.rules;
    } else if GroupExists(t, q, group) {
      var row :| row in t.groups && row.id == group && row.profile == Some(q);
      if group == b { OwnersAreUnique(t.groups, row, own); }
    }
  }

  lemma GuardLimits(t: Policy, q: string, group: string, entries: seq<(nat, int)>, p: string, b: string)
    requires Guarded(t, p, b)
    ensures Guarded(Apply(t, PutLimits(q, group, entries)), p, b)
  {
    var own :| own in t.groups && IsBuiltin(own, p, Blocked) && own.id == b;
    if GroupExists(t, q, group) {
      var row :| row in t.groups && row.id == group && row.profile == Some(q);
      if group == b { OwnersAreUnique(t.groups, row, own); }
    }
  }

  lemma GuardMode(t: Policy, q: string, on: bool, used: set<string>, p: string, b: string)
    requires Guarded(t, p, b)
    ensures Guarded(WithMode(t, q, on, used), p, b)
  {}

  /** Every call keeps app ids in rules trimmed. */
  lemma StepTrims(t: Policy, op: Op)
    requires TrimmedRules(t.rules)
    ensures TrimmedRules(Apply(t, op).rules)
  {
    match op
    case AppRequest(q, app, cats) =>
      var known := if app in t.categories then t else t.(categories := t.categories[app := RequestCategories(cats)]);
      BlockingTrims(known.(approvals := t.approvals[(q, app) := Pending]), q, app, true);
    case Decision(q, app, approve, into) =>
      BlockingTrims(t.(approvals := t.approvals[(q, app) := Approved]), q, app, !approve);
      if into.Some? { MembershipTrims(WithDecision(t, q, app, approve).0, q, into.value, app, true); }
    case Move(q, group, app, member) => MembershipTrims(t, q, group, app, member);
    case PostRule(q, group, rule) => if WithRule(t.rules, group, rule).Ok? { AddingTrims(t.rules, group, rule); }
    case _ =>
  }

  lemma MembershipTrims(t: Policy, q: string, group: string, app: string, member: bool)
    requires TrimmedRules(t.rules)
    ensures TrimmedRules(WithMembership(t, q, group, app, member).0.rules)
  {
    MovingTrims(ListGroups(t.groups, q), t.rules, group, app, CategoriesOf(t, app), member);
  }

  /** Every call keeps new apps blocked and only there, except exactly the ones that break it. */
  lemma GuardStep(t: Policy, op: Op, p: string, b: string)
    requires Guarded(t, p, b) && TrimmedRules(t.rules) && WellFormed(t, op)
    ensures Guarded(Apply(t, op), p, b) <==> !Breaks(t, op, p, b)
  {
    match op
    case AppRequest(q, app, cats) => GuardAppRequest(t, q, app, cats, p, b);
    case Decision(q, app, approve, into) => GuardDecision(t, q, app, approve, into, p, b);
    case Move(q, group, app, member) => GuardMove(t, q, group, app, member, p, b);
    case Mode(q, on, used) => GuardMode(t, q, on, used, p, b);
    case CreateGroup(q, name, id) => GuardCreate(t, q, name, id, p, b);
    case RenameGroup(q, group, name) => GuardRename(t, q, group, name, p, b);
    case DeleteGroup(q, group) => GuardDelete(t, q, group, p, b);
    case PostRule(q, group, rule) => GuardPostRule(t, q, group, rule, p, b);
    case DropRule(q, group, rule) => GuardDropRule(t, q, group, rule, p, b);
    case PutLimits(q, group, entries) => GuardLimits(t, q, group, entries, p, b);
    case Catalogue(app, cats) =>
  }

  /** The catalogue may change an app's categories at any time, and nothing else with it. */
  lemma CatalogueSets(t: Policy, app: string, cats: seq<string>)
    ensures var after := Apply(t, Catalogue(app, cats));
            CategoriesOf(after, app) == cats && after == t.(categories := after.categories)
            && forall other :: other != app ==> CategoriesOf(after, other) == CategoriesOf(t, other)
  {}

  // ---- Every run --------------------------------------------------------------------------

  /** The call `op` takes the policy from `s` to `t`. */
  ghost predicate IsCall(s: Policy, op: Op, t: Policy) { WellFormed(s, op) && t == Apply(s, op) }

  /** The policies a run of calls goes through. */
  ghost predicate IsRun(states: seq<Policy>, ops: seq<Op>) {
    |states| == |ops| + 1 && forall i :: 0 <= i < |ops| ==> IsCall(states[i], ops[i], states[i + 1])
  }

  lemma CallGuards(s: Policy, op: Op, t: Policy, p: string, b: string)
    requires IsCall(s, op, t) && TrimmedRules(s.rules)
    ensures TrimmedRules(t.rules)
    ensures Guarded(s, p, b) ==> (Guarded(t, p, b) <==> !Breaks(s, op, p, b))
  {
    StepTrims(s, op);
    if Guarded(s, p, b) { GuardStep(s, op, p, b); }
  }

  ghost predicate GuardedTo(states: seq<Policy>, n: nat, p: string, b: string)
    requires n < |states|
  {
    forall i :: 0 <= i <= n ==> Guarded(states[i], p, b)
  }

  predicate Harmless(t: Policy, op: Op, p: string, b: string) { !Breaks(t, op, p, b) }

  ghost predicate HarmlessTo(states: seq<Policy>, ops: seq<Op>, n: nat, p: string, b: string)
    requires n <= |ops| <= |states|
  {
    forall i :: 0 <= i < n ==> Harmless(states[i], ops[i], p, b)
  }

  /** New apps stay blocked throughout a run exactly when no call of it breaks the guard. */
  lemma {:induction false} NewAppsStayBlocked(states: seq<Policy>, ops: seq<Op>, n: nat, p: string, b: string)
    requires IsRun(states, ops) && n <= |ops| && Guarded(states[0], p, b) && TrimmedRules(states[0].rules)
    ensures TrimmedRules(states[n].rules)
    ensures GuardedTo(states, n, p, b) <==> HarmlessTo(states, ops, n, p, b)
  {
    if n > 0 {
      NewAppsStayBlocked(states, ops, n - 1, p, b);
      var k := n - 1;
      assert IsCall(states[k], ops[k], states[k + 1]);
      CallGuards(states[k], ops[k], states[k + 1], p, b);
    }
  }
}

/** A new app does not run: from the server's guarded policy, through the configuration pushed for
    it, to the targets the agent closes. */
module ClosedApps {
  import opened Apps
  import opened Store
  import opened AppGroups
  import opened AppLimits
  import opened Approvals
  import opened ConfigPush
  import opened Membership
  import opened NewApps
  import opened Wrappers
  import Agent = AppEnforce

  /** The agent holds, for user `uid` of profile `p`, the configuration built from `t`; its group
      status comes from it with any weekday, local and remote usage and extra time. */
  ghost predicate HoldsConfig(ctx: Agent.Context, uid: nat, t: Policy, p: string) {
    && LimitKeys(t.limits)
    && uid >= 1000 && uid in ctx.managed && uid in ctx.groups && uid in ctx.status
    && IsPushed(ctx.groups[uid], t, p)
    && IsPushedApproval(if uid in ctx.approval then Some(ctx.approval[uid]) else None, t, p)
    && exists day: nat, used, elsewhere, adjustments :: day < 7 && ctx.status[uid] == GroupStatuses(ctx.groups[uid], day, used, elsewhere, adjustments)
  }

  /** What the server builds from its tables is such a configuration: the agent of a managed user
      that received it, and computed its group status from it, holds the server's policy. */
  method PushConfig(db: DbPool, p: string, uid: nat, day: nat, names: map<(nat, AppId), Agent.Shown>,
                    used: map<string, nat>, elsewhere: map<string, nat>, extra: map<string, int>) returns (ctx: Agent.Context)
    requires LimitKeys(db.limits) && uid >= 1000 && day < 7
    ensures HoldsConfig(ctx, uid, PolicyOf(db), p)
  {
    var groups := BuildGroups(db, p, extra);
    var approval := BuildApproval(db, p);
    var status := GroupStatuses(groups, day, used, elsewhere, extra);
    ctx := Agent.Context(map[uid := status], map[uid := groups], if approval.Some? then map[uid := approval.value] else map[], names, {uid});
  }

  lemma PushedOrder(gs: seq<GroupConfig>, t: Policy, p: string)
    requires IsPushed(gs, t, p)
    ensures Agent.OrderOf(gs) == Order(ListGroups(t.groups, p), t.rules)
  {}

  lemma {:induction false} LimitOnFinds(limits: seq<(nat, nat)>, day: nat, minutes: nat)
    requires (day, minutes) in limits && forall m: nat :: (day, m) in limits ==> m == minutes
    ensures LimitOn(limits, day) == Some(minutes)
  {
    assert limits == [limits[0]] + limits[1..];
    if limits[0].0 == day { assert (day, limits[0].1) in limits; }
    else { LimitOnFinds(limits[1..], day, minutes); }
  }

  /** Blocked's pushed limit is zero every day. */
  lemma BlockedHasNoTime(gs: seq<GroupConfig>, t: Policy, p: string, b: string, g: GroupConfig, day: nat)
    requires NoTime(t.limits, p, b) && IsPushed(gs, t, p) && day < 7 && g in gs && g.id == b
    ensures LimitOn(g.dailyLimits, day) == Some(0)
  {
    var i :| 0 <= i < |gs| && gs[i] == g;
    assert IsPushedGroup(gs[i], ListGroups(t.groups, p)[i], t, p);
    LimitOnFinds(g.dailyLimits, day, 0);
  }

  lemma BlockedIsPushed(gs: seq<GroupConfig>, t: Policy, p: string, b: string) returns (g: GroupConfig)
    requires OneBlocked(t.groups, p, b) && IsPushed(gs, t, p)
    ensures g in gs && g.id == b
  {
    var rows := ListGroups(t.groups, p);
    BlockedIsListed(t.groups, p, b);
    var k := RowIndex(rows, b);
    assert IsPushedGroup(gs[k], rows[k], t, p);
    g := gs[k];
  }

  /** However the time was used, Blocked is a blocked group on every day. */
  lemma BlockedGroupIsExhausted(gs: seq<GroupConfig>, t: Policy, p: string, b: string, day: nat,
                                used: map<string, nat>, elsewhere: map<string, nat>, adjustments: map<string, int>)
    requires Guarded(t, p, b) && IsPushed(gs, t, p) && day < 7
    ensures var s := Agent.ExhaustedGroup(GroupStatuses(gs, day, used, elsewhere, adjustments), Some(b));
            s.Some? && s.value.groupId == b && s.value.IsBlocked()
  {
    var status := GroupStatuses(gs, day, used, elsewhere, adjustments);
    forall g | g in gs && g.id == b ensures LimitOn(g.dailyLimits, day) == Some(0) { BlockedHasNoTime(gs, t, p, b, g, day); }
    var g := BlockedIsPushed(gs, t, p, b);
    var own := StatusOf(g, 0, GetOr(used, b, 0) + GetOr(elsewhere, b, 0), GetOr(adjustments, b, 0));
    StatusIsOfLimitedGroups(gs, day, used, elsewhere, adjustments, own);
    Agent.ExhaustedGroupIsOne(status, Some(b));
    var s := Agent.ExhaustedGroup(status, Some(b));
    assert own in status && own.IsExhausted() && own.groupId == b;
    StatusIsOfLimitedGroups(gs, day, used, elsewhere, adjustments, s.value);
  }

  /** A process of a pending app is closed as blocked, whatever the time used and whether or not
      the mode is on. */
  lemma PendingAppIsBlocked(ctx: Agent.Context, proc: Agent.RunningProc, t: Policy, p: string, b: string)
    requires Guarded(t, p, b) && HoldsConfig(ctx, proc.uid, t, p)
    requires Display(proc.appId) in PendingApps(t, p) && !Agent.IsOwn(proc)
    ensures var target := Agent.TargetOf(ctx, proc);
            target.Some? && target.value.reason == Agent.GroupBlocked && target.value.key == b && target.value.pid == proc.pid
  {
    var gs, app := ctx.groups[proc.uid], Display(proc.appId);
    PushedOrder(gs, t, p);
    NamedAppsAreBlocked(t.groups, t.rules, p, b, PendingApps(t, p), app, Agent.CategoriesOf(ctx, proc));
    var day: nat, used, elsewhere, adjustments :|
      day < 7 && ctx.status[proc.uid] == GroupStatuses(gs, day, used, elsewhere, adjustments);
    BlockedGroupIsExhausted(gs, t, p, b, day, used, elsewhere, adjustments);
    assert proc.uid in ctx.approval ==> app in ctx.approval[proc.uid].approved;
  }

  /** Who is closed for approval: exactly, with the mode on, the processes not started by the
      session of apps the server does not know. */
  lemma ClosedForApproval(ctx: Agent.Context, proc: Agent.RunningProc, t: Policy, p: string, b: string)
    requires Guarded(t, p, b) && HoldsConfig(ctx, proc.uid, t, p) && !Agent.IsOwn(proc)
    ensures var target := Agent.TargetOf(ctx, proc);
            (target.Some? && target.value.reason == Agent.NeedsApproval)
            <==> p in t.modes && !proc.autostart && (p, Display(proc.appId)) !in t.approvals
    ensures var target := Agent.TargetOf(ctx, proc);
            target.Some? ==> target.value.reason != Agent.NotAllowed
  {}

  /** Turning the mode on closes nothing the child has already used. */
  lemma TurningOnKeepsUsedApps(ctx: Agent.Context, proc: Agent.RunningProc, t: Policy, p: string, b: string, used: set<string>)
    requires Guarded(t, p, b) && HoldsConfig(ctx, proc.uid, WithMode(t, p, true, used), p) && !Agent.IsOwn(proc)
    requires Display(proc.appId) in used
    ensures var target := Agent.TargetOf(ctx, proc);
            target.Some? ==> target.value.reason == Agent.Limit || target.value.reason == Agent.GroupBlocked
  {}

  /** Turning the mode on closes every app the server does not know, unless the session started it;
      turning it off closes none for approval. */
  lemma TurningOnClosesNewApps(ctx: Agent.Context, proc: Agent.RunningProc, t: Policy, p: string, used: set<string>, on: bool)
    requires HoldsConfig(ctx, proc.uid, WithMode(t, p, on, used), p) && !Agent.IsOwn(proc)
    requires (p, Display(proc.appId)) !in t.approvals && Display(proc.appId) !in used && !proc.autostart
    ensures var target := Agent.TargetOf(ctx, proc);
            (target.Some? && target.value.reason == Agent.NeedsApproval) <==> on
  {}

  /** A new app that is requested under a trimmed id waits for the parents and belongs to Blocked,
      whatever its categories; the call says it was new. */
  lemma NewAppIsBlocked(t: Policy, p: string, b: string, app: string, cats: seq<string>)
    requires Guarded(t, p, b) && Trimmed(app) && ParseAppId(app).Some? && (p, app) !in t.approvals
    ensures var (after, r) := WithRequest(t, p, app);
            && r == Ok(true) && after.approvals == t.approvals[(p, app) := Pending]
            && RuleRow(b, GroupRule(ByAppId, app, false)) in after.rules
            && GroupOf(ListGroups(after.groups, p), after.rules, app, cats) == Some(b)
  {
    var recorded := t.(approvals := t.approvals[(p, app) := Pending]);
    var after, apps := WithBlocked(recorded, p, app, true).0, PendingApps(t, p) + {app};
    BlockingNamesIt(recorded, app, p, b, PendingApps(t, p));
    BlockingKeepsTheRest(recorded, p, app, true);
    assert WithRequest(t, p, app) == (after, Ok(true));
    hide WithBlocked, WithRequest;
    NamedAppsAreBlocked(after.groups, after.rules, p, b, apps, app, cats);
  }

  lemma TargetIsListed(ctx: Agent.Context, procs: seq<Agent.RunningProc>, proc: Agent.RunningProc, t: Agent.Target)
    requires proc in procs && Agent.TargetOf(ctx, proc) == Some(t)
    ensures exists top :: t.(top := top) in Agent.TargetsOf(ctx, procs)
  {
    Agent.CollectedAreTheTargets(ctx, procs, t);
    var collected, out := Agent.Collected(ctx, procs), Agent.TargetsOf(ctx, procs);
    var i :| 0 <= i < |collected| && collected[i] == t;
    assert out[i] == t.(top := out[i].top);
  }

  /** End to end: at every point of a run of the server's calls that never breaks the guard, a
      pending app's process is among the targets the agent closes, as blocked. */
  lemma NewAppsAreClosed(states: seq<Policy>, ops: seq<Op>, n: nat, p: string, b: string, ctx: Agent.Context,
                         procs: seq<Agent.RunningProc>, proc: Agent.RunningProc)
    requires IsRun(states, ops) && n <= |ops| && Guarded(states[0], p, b) && TrimmedRules(states[0].rules)
    requires HarmlessTo(states, ops, n, p, b) && HoldsConfig(ctx, proc.uid, states[n], p)
    requires proc in procs && Display(proc.appId) in PendingApps(states[n], p) && !Agent.IsOwn(proc)
    ensures exists t :: t in Agent.TargetsOf(ctx, procs) && t.pid == proc.pid && t.reason == Agent.GroupBlocked && t.key == b
  {
    NewAppsStayBlocked(states, ops, n, p, b);
    PendingAppIsBlocked(ctx, proc, states[n], p, b);
    TargetIsListed(ctx, procs, proc, Agent.TargetOf(ctx, proc).value);
  }

  /** Once the parents allow the app, Blocked no longer has it, whatever its categories become. */
  lemma ApprovedAppIsNotBlocked(t: Policy, p: string, b: string, app: string, cats: seq<string>)
    requires Guarded(t, p, b) && TrimmedRules(t.rules) && ParseAppId(app).Some?
    ensures var after := WithDecision(t, p, app, true).0;
            GroupOf(ListGroups(after.groups, p), after.rules, app, cats) != Some(b)
  {
    var after := WithDecision(t, p, app, true).0;
    BlockedIsListed(t.groups, p, b);
    if Trimmed(app) {
      GuardDecided(t, p, app, true, p, b);
      OnlyNamedAppsAreBlocked(after.groups, after.rules, p, b, app, cats);
      TakenOutIsNotNamed(t.(approvals := t.approvals[(p, app) := Approved]), p, b, app);
    } else {
      GuardUntrimmedDecision(t, p, app, true, p, b);
      UntrimmedIsNotBlocked(after, p, b, app, cats);
    }
  }

  /** When the parents keep an app blocked, it belongs to Blocked, whatever its categories, exactly
      if its id is trimmed. */
  lemma RefusedAppStaysBlocked(t: Policy, p: string, b: string, app: string, cats: seq<string>)
    requires Guarded(t, p, b) && TrimmedRules(t.rules) && ParseAppId(app).Some?
    ensures var after := WithDecision(t, p, app, false).0;
            GroupOf(ListGroups(after.groups, p), after.rules, app, cats) == Some(b) <==> Trimmed(app)
  {
    if Trimmed(app) {
      KeptBlockedIsNamed(t, p, b, app, cats);
    } else {
      GuardUntrimmedDecision(t, p, app, false, p, b);
      UntrimmedIsNotBlocked(WithDecision(t, p, app, false).0, p, b, app, cats);
    }
  }

  /** Kept blocked, a trimmed id belongs to Blocked, and to no other group by name. */
  lemma KeptBlockedIsNamed(t: Policy, p: string, b: string, app: string, cats: seq<string>)
    requires Guarded(t, p, b) && Trimmed(app) && ParseAppId(app).Some?
    ensures var after := WithDecision(t, p, app, false).0;
            && GroupOf(ListGroups(after.groups, p), after.rules, app, cats) == Some(b)
            && forall row :: row in after.groups && row.profile == Some(p) && row.id != b ==> RuleRow(row.id, Include(app)) !in after.rules
  {
    var decided := t.(approvals := t.approvals[(p, app) := Approved]);
    StatusSet(t, p, app, Approved, p);
    var others := PendingApps(decided, p);
    FewerNames(t.groups, t.rules, p, b, PendingApps(t, p), others);
    BlockingNamesIt(decided, app, p, b, others);
    var after := WithBlocked(decided, p, app, true).0;
    NamedAppsAreBlocked(after.groups, after.rules, p, b, others + {app}, app, cats);
  }

  /** A decision ends the notice, and no other app's notice comes or goes. */
  lemma DecisionEndsTheNotice(t: Policy, p: string, app: string, approve: bool, into: Option<string>)
    requires ParseAppId(app).Some?
    ensures PendingApps(Apply(t, Decision(p, app, approve, into)), p) == PendingApps(t, p) - {app}
  {
    StatusSet(t, p, app, Approved, p);
    var decided, after := t.(approvals := t.approvals[(p, app) := Approved]), Apply(t, Decision(p, app, approve, into));
    assert after.approvals == decided.approvals;
  }

  /** So does a board move exactly if it succeeds. */
  lemma MoveEndsTheNotice(t: Policy, p: string, group: string, app: string, member: bool)
    ensures var ok := WithMembership(t, p, group, app, member).1 && HasGroup(ListGroups(t.groups, p), group);
            PendingApps(Apply(t, Move(p, group, app, member)), p) == if ok then PendingApps(t, p) - {app} else PendingApps(t, p)
  {
    var moved := WithMembership(t, p, group, app, member).0;
    if (p, app) in t.approvals { StatusSet(moved, p, app, Approved, p); }
  }

  lemma TakenOutIsNotNamed(t: Policy, p: string, b: string, app: string)
    requires HasGroup(ListGroups(t.groups, p), b) && BlockedGroup(t.groups, p) == Some(b) && ParseAppId(app).Some?
    ensures RuleRow(b, Include(app)) !in WithBlocked(t, p, app, false).0.rules
  {
    ClearedIsStable(ListGroups(t.groups, p), t.rules, b, app, CategoriesOf(t, app), false);
  }

  /** An id with surrounding whitespace slips through: the entry stored for it is the trimmed one. */
  lemma UntrimmedAppIsNotNamed(t: Policy, p: string, b: string, app: string)
    requires Guarded(t, p, b) && ParseAppId(app).Some? && (p, app) !in t.approvals
    requires RuleRow(b, Include(app)) !in t.rules
    ensures Guarded(WithRequest(t, p, app).0, p, b) <==> Trimmed(app)
  {
    if Trimmed(app) {
      GuardRequest(t, p, app, p, b);
    } else {
      var recorded := t.(approvals := t.approvals[(p, app) := Pending]);
      TrimTrims(app);
      StatusSet(t, p, app, Pending, p);
      BlockedIsListed(t.groups, p, b);
      OtherGroupsStay(ListGroups(t.groups, p), t.rules, b, app, CategoriesOf(t, app), true, RuleRow(b, Include(app)));
      assert RuleRow(b, Include(app)) !in WithBlocked(recorded, p, app, true).0.rules;
    }
  }
}

/** The part of the configuration that decides about apps, as the server pushes it to an agent
    (crates/server/src/remaining.rs, `build_config_push`; `config` of app_approvals.rs). */
module ConfigPush {
  import opened Apps
  import opened Store
  import opened AppGroups
  import opened AppLimits
  import opened AppEnforce
  import opened Approvals
  import opened Wrappers

  /** One row per profile, group and day: the table's primary key. */
  ghost predicate LimitKeys(limits: set<LimitRow>) {
    && (forall r :: r in limits ==> r.day < 7 && 0 <= r.minutes)
    && forall r, q :: r in limits && q in limits && r.profile == q.profile && r.group == q.group && r.day == q.day ==> r == q
  }

  /** Replacing limits keeps the key. */
  lemma ReplacingKeepsKeys(limits: set<LimitRow>, profile: string, group: string, entries: seq<(nat, int)>)
    requires LimitKeys(limits) && ValidLimits(entries)
    ensures LimitKeys(LimitsReplaced(limits, profile, group, entries))
  {
    forall e, f | e in entries && f in entries && e.0 == f.0 ensures e == f {
      var i, j :| 0 <= i < |entries| && entries[i] == e && 0 <= j < |entries| && entries[j] == f;
    }
  }

  /** `g` is the pushed form of group row `row`. */
  ghost predicate IsPushedGroup(g: GroupConfig, row: GroupRow, t: Policy, profile: string) {
    && g.id == row.id && g.name == row.name && g.builtin == row.builtin
    && g.rules == RulesOf(t.rules, row.id)
    && (forall d: nat, m: nat :: (d, m) in g.dailyLimits <==> LimitRow(profile, row.id, d, m) in t.limits)
  }

  /** The profile's groups in display order, each with its rules and limits. */
  ghost predicate IsPushed(gs: seq<GroupConfig>, t: Policy, profile: string) {
    var rows := ListGroups(t.groups, profile);
    |gs| == |rows| && forall i :: 0 <= i < |gs| ==> IsPushedGroup(gs[i], rows[i], t, profile)
  }

  method BuildLimits(limits: set<LimitRow>, profile: string, group: string) returns (out: seq<(nat, nat)>)
    requires LimitKeys(limits)
    ensures forall d: nat, m: nat :: (d, m) in out <==> LimitRow(profile, group, d, m) in limits
  {
    out := [];
    for day := 0 to 7
      invariant forall d: nat, m: nat :: (d, m) in out <==> d < day && LimitRow(profile, group, d, m) in limits
    {
      var today := set r | r in limits && r.profile == profile && r.group == group && r.day == day;
      if today != {} {
        var r :| r in today;
        out := out + [(day, r.minutes)];
      }
      forall d: nat, m: nat ensures (d, m) in out <==> d < day + 1 && LimitRow(profile, group, d, m) in limits {
        if LimitRow(profile, group, day, m) in limits { assert LimitRow(profile, group, day, m) in today; }
      }
    }
    forall d: nat, m: nat ensures (d, m) in out <==> LimitRow(profile, group, d, m) in limits {}
  }

  method BuildGroups(db: DbPool, profile: string, adjustments: map<string, int>) returns (gs: seq<GroupConfig>)
    requires LimitKeys(db.limits)
    ensures IsPushed(gs, PolicyOf(db), profile)
    ensures forall i :: 0 <= i < |gs| ==> gs[i].adjustmentToday == GetOr(adjustments, gs[i].id, 0)
  {
    gs := [];
    var rows := ListGroups(db.groups, profile);
    for i := 0 to |rows|
      invariant |gs| == i
      invariant forall j :: 0 <= j < i ==> IsPushedGroup(gs[j], rows[j], PolicyOf(db), profile)
      invariant forall j :: 0 <= j < i ==> gs[j].adjustmentToday == GetOr(adjustments, gs[j].id, 0)
    {
      var limits := BuildLimits(db.limits, profile, rows[i].id);
      gs := gs + [GroupConfig(rows[i].id, rows[i].name, rows[i].builtin, RulesOf(db.rules, rows[i].id), limits,
                              GetOr(adjustments, rows[i].id, 0))];
    }
  }

  /** With the mode on, every known app counts as approved: a new one is kept closed by the
      Blocked group, not by this list. With the mode off nothing is pushed. */
  ghost predicate IsPushedApproval(a: Option<ApprovalConfig>, t: Policy, profile: string) {
    && (a.Some? <==> profile in t.modes)
    && (a.Some? ==>
          && (forall app :: app in a.value.approved <==> (profile, app) in t.approvals && t.approvals[(profile, app)] != Denied)
          && (forall app :: app in a.value.denied <==> (profile, app) in t.approvals && t.approvals[(profile, app)] == Denied))
  }

  ghost predicate IsDone(approvals: Statuses, todo: set<(string, string)>, profile: string, app: string) {
    (profile, app) in approvals && (profile, app) !in todo
  }

  method BuildApproval(db: DbPool, profile: string) returns (a: Option<ApprovalConfig>)
    ensures IsPushedApproval(a, PolicyOf(db), profile)
  {
    if profile !in db.approvalMode { return None; }
    var approved: seq<string>, denied: seq<string> := [], [];
    var todo := db.approvals.Keys;
    while todo != {}
      invariant todo <= db.approvals.Keys
      invariant forall app :: app in approved <==> IsDone(db.approvals, todo, profile, app) && db.approvals[(profile, app)] != Denied
      invariant forall app :: app in denied <==> IsDone(db.approvals, todo, profile, app) && db.approvals[(profile, app)] == Denied
      decreases todo
    {
      var k :| k in todo;
      if k.0 == profile {
        if db.approvals[k] == Denied { denied := denied + [k.1]; } else { approved := approved + [k.1]; }
      }
      todo := todo - {k};
    }
    return Some(ApprovalConfig(approved, denied));
  }
}

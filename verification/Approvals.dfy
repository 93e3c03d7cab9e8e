/** Blocking new apps (crates/server/src/app_approvals.rs). */
module Approvals {
  import opened Apps
  import opened Store
  import opened AppGroups
  import opened Wrappers

  type Statuses = map<(string, string), Status>

  /** The tables that decide what happens to an app. */
  datatype Policy = Policy(groups: seq<GroupRow>, rules: set<RuleRow>, limits: set<LimitRow>, approvals: Statuses,
                           modes: set<string>, categories: map<string, seq<string>>)

  function PolicyOf(db: DbPool): Policy
    reads db
  {
    Policy(db.groups, db.rules, db.limits, db.approvals, db.approvalMode, db.categories)
  }

  function CategoriesOf(t: Policy, app: string): seq<string> {
    if app in t.categories then t.categories[app] else []
  }

  // ---- Specifications ---------------------------------------------------------------------

  /** The policy once the profile's group `group` was told to take the app in or out, and whether
      that succeeded; no such group is not a failure here. */
  function WithMembership(t: Policy, profile: string, group: string, app: string, member: bool): (Policy, bool) {
    var rows := ListGroups(t.groups, profile);
    if ParseAppId(app).None? then (t, false)
    else if !HasGroup(rows, group) then (t, true)
    else
      var (rules, ok) := Moved(rows, t.rules, group, app, CategoriesOf(t, app), member);
      (t.(rules := rules), ok)
  }

  function WithBlocked(t: Policy, profile: string, app: string, blocked: bool): (Policy, bool) {
    match BlockedGroup(t.groups, profile)
    case None => (t, true)
    case Some(group) => WithMembership(t, profile, group, app, blocked)
  }

  /** A membership call goes by the app's stored categories, none if the catalogue does not have it. */
  lemma MembershipGoesByCategories(t: Policy, profile: string, group: string, app: string, member: bool)
    requires ParseAppId(app).Some? && HasGroup(ListGroups(t.groups, profile), group)
    ensures var cats := if app in t.categories then t.categories[app] else [];
            WithMembership(t, profile, group, app, member).0
            == t.(rules := Moved(ListGroups(t.groups, profile), t.rules, group, app, cats, member).0)
  {}

  /** Turning the mode on makes every app the child has used a known one. */
  function WithKnown(approvals: Statuses, profile: string, used: set<string>): Statuses {
    map k | k in approvals.Keys + (set a | a in used :: (profile, a)) :: if k in approvals then approvals[k] else Approved
  }

  function WithMode(t: Policy, profile: string, on: bool, used: set<string>): Policy {
    t.(modes := if on then t.modes + {profile} else t.modes - {profile},
       approvals := if on then WithKnown(t.approvals, profile, used) else t.approvals)
  }

  /** A request for an app that is not known yet; `Ok(true)` if it was new. */
  function WithRequest(t: Policy, profile: string, app: string): (Policy, Result<bool>) {
    if (profile, app) in t.approvals then (t, Ok(false))
    else
      var (after, ok) := WithBlocked(t.(approvals := t.approvals[(profile, app) := Pending]), profile, app, true);
      (after, if ok then Ok(true) else Err)
  }

  function WithDecision(t: Policy, profile: string, app: string, approve: bool): (Policy, bool) {
    if ParseAppId(app).None? then (t, false)
    else WithBlocked(t.(approvals := t.approvals[(profile, app) := Approved]), profile, app, !approve)
  }

  function WithSeen(t: Policy, profile: string, app: string): Policy {
    t.(approvals := if (profile, app) in t.approvals then t.approvals[(profile, app) := Approved] else t.approvals)
  }

  // ---- Methods ----------------------------------------------------------------------------

  method SetBlocked(db: DbPool, profile: string, app: string, blocked: bool) returns (ok: bool)
    modifies db`rules
    ensures (PolicyOf(db), ok) == WithBlocked(old(PolicyOf(db)), profile, app, blocked)
  {
    var group := BlockedGroup(db.groups, profile);
    if group.None? { return true; }
    var cats := if app in db.categories then db.categories[app] else [];
    var r := SetMembership(db, profile, group.value, app, cats, blocked);
    return r.Ok?;
  }

  function AppsUsedBy(db: DbPool, profile: string): set<string>
    reads db
  {
    set u | u in db.appsUsed && u.0 in db.userProfile && db.userProfile[u.0] == profile :: u.1
  }

  /** What some user of the profile has used. */
  lemma UsedIsByUsers(db: DbPool, profile: string)
    ensures forall app :: app in AppsUsedBy(db, profile)
                          <==> exists u :: (u, app) in db.appsUsed && u in db.userProfile && db.userProfile[u] == profile
    ensures forall u, app :: (u, app) in db.appsUsed && u in db.userProfile && db.userProfile[u] == profile ==> app in AppsUsedBy(db, profile)
  {
    forall u, app | (u, app) in db.appsUsed && u in db.userProfile && db.userProfile[u] == profile ensures app in AppsUsedBy(db, profile) {
      assert (u, app).1 in AppsUsedBy(db, profile);
    }
  }

  method ApproveUsed(db: DbPool, profile: string, used: set<string>)
    modifies db`approvals
    ensures db.approvals == WithKnown(old(db.approvals), profile, used)
  {
    var todo := used;
    ghost var start := db.approvals;
    while todo != {}
      invariant todo <= used
      invariant db.approvals == WithKnown(start, profile, used - todo)
      decreases todo
    {
      var app :| app in todo;
      if (profile, app) !in db.approvals {
        db.approvals := db.approvals[(profile, app) := Approved];
      }
      todo := todo - {app};
    }
    assert used - todo == used;
  }

  /** Turns the mode on or off; turning it on approves every app the child has already used. */
  method SetMode(db: DbPool, profile: string, on: bool)
    modifies db`approvals, db`approvalMode
    ensures PolicyOf(db) == WithMode(old(PolicyOf(db)), profile, on, AppsUsedBy(db, profile))
    ensures profile in db.approvalMode <==> on
    ensures forall q :: q != profile ==> (q in db.approvalMode <==> q in old(db.approvalMode))
    ensures !on ==> db.approvals == old(db.approvals)
    ensures forall k :: k in old(db.approvals) ==> k in db.approvals && db.approvals[k] == old(db.approvals)[k]
    ensures on ==> forall u, app :: (u, app) in db.appsUsed && u in db.userProfile && db.userProfile[u] == profile ==>
                     (profile, app) in db.approvals
    ensures forall k :: k in db.approvals && k !in old(db.approvals) ==>
              && k.0 == profile && db.approvals[k] == Approved
              && exists u :: (u, k.1) in db.appsUsed && u in db.userProfile && db.userProfile[u] == profile
  {
    db.approvalMode := db.approvalMode - {profile};
    if on {
      db.approvalMode := db.approvalMode + {profile};
      ApproveUsed(db, profile, AppsUsedBy(db, profile));
      UsedIsByUsers(db, profile);
      assert db.approvalMode == old(db.approvalMode) + {profile};
    }
  }

  /** A new app was started: record it and put it into the Blocked group. */
  method Request(db: DbPool, profile: string, app: string) returns (r: Result<bool>)
    modifies db`approvals, db`rules
    ensures (PolicyOf(db), r) == WithRequest(old(PolicyOf(db)), profile, app)
    ensures r == Ok(false) <==> (profile, app) in old(db.approvals)
    ensures r == Ok(false) ==> db.rules == old(db.rules)
    ensures db.approvals == if r == Ok(false) then old(db.approvals) else old(db.approvals)[(profile, app) := Pending]
  {
    if (profile, app) in db.approvals { return Ok(false); }
    db.approvals := db.approvals[(profile, app) := Pending];
    var ok := SetBlocked(db, profile, app, true);
    return if ok then Ok(true) else Err;
  }

  method SetStatus(db: DbPool, profile: string, app: string, status: Status)
    modifies db`approvals
    ensures db.approvals == old(db.approvals)[(profile, app) := status]
  {
    db.approvals := db.approvals[(profile, app) := status];
  }

  /** The parents allow a new app or keep it blocked; either way the notice is gone. */
  method Decide(db: DbPool, profile: string, app: string, approve: bool) returns (ok: bool)
    modifies db`approvals, db`rules
    ensures (PolicyOf(db), ok) == WithDecision(old(PolicyOf(db)), profile, app, approve)
    ensures ParseAppId(app).None? ==> !ok && db.rules == old(db.rules)
    ensures db.approvals == if ParseAppId(app).None? then old(db.approvals) else old(db.approvals)[(profile, app) := Approved]
  {
    if ParseAppId(app).None? { return false; }
    SetStatus(db, profile, app, Approved);
    ok := SetBlocked(db, profile, app, !approve);
  }

  /** The parents moved the app themselves: the notice is gone. */
  method Seen(db: DbPool, profile: string, app: string)
    modifies db`approvals
    ensures PolicyOf(db) == WithSeen(old(PolicyOf(db)), profile, app)
    ensures forall k :: k in db.approvals <==> k in old(db.approvals)
    ensures forall k :: k in db.approvals ==> db.approvals[k] == if k == (profile, app) then Approved else old(db.approvals)[k]
  {
    if (profile, app) in db.approvals && db.approvals[(profile, app)] != Approved {
      db.approvals := db.approvals[(profile, app) := Approved];
    }
    assert (profile, app) in db.approvals ==> db.approvals == old(db.approvals)[(profile, app) := Approved];
  }
}

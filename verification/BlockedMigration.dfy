/** How the guard on new apps begins: seeding a profile, and migration v17, which gives every
    profile its Blocked group and moves denied and waiting apps into it
    (crates/server/src/app_approvals.rs, `move_into_blocked`). */
module BlockedMigration {
  import opened Apps
  import opened Store
  import opened AppGroups
  import opened Approvals
  import opened Membership
  import opened NewApps
  import opened Wrappers

  /** The policy once the profile's Blocked group is seeded under the id `b`. */
  function WithBlockedSeeded(t: Policy, p: string, b: string): Policy {
    var after := SeededOne(GroupTables(t.groups, t.rules, t.limits), p, Some(Blocked), Blocked, b);
    t.(groups := after.groups, rules := after.rules, limits := after.limits)
  }

  /** `b` is a random id nothing uses yet. */
  ghost predicate Unused(t: Policy, b: string) {
    && (forall row :: row in t.groups ==> row.id != b)
    && (forall r :: r in t.rules ==> r.group != b)
    && (forall r :: r in t.limits ==> r.group != b)
  }

  /** Everything the guard says except that the statuses are converted: `b` blocks `apps`. */
  ghost predicate Blocks(t: Policy, p: string, b: string, apps: set<string>) {
    OneBlocked(t.groups, p, b) && Named(t.groups, t.rules, p, b, apps) && NoTime(t.limits, p, b)
  }

  lemma SeededLimits(t: Policy, p: string, b: string)
    requires Unused(t, b)
    ensures NoTime(LimitsReplaced(t.limits, p, b, NO_TIME), p, b)
    ensures forall r :: r in LimitsReplaced(t.limits, p, b, NO_TIME) && r.group != b ==> r in t.limits
    ensures t.limits <= LimitsReplaced(t.limits, p, b, NO_TIME)
  {}

  /** A freshly seeded Blocked group blocks every day and names nothing. */
  lemma SeedingBlocks(t: Policy, p: string, b: string)
    requires DistinctIds(t.groups) && !HasBuiltin(t.groups, p, Blocked) && Unused(t, b)
    ensures Blocks(WithBlockedSeeded(t, p, b), p, b, {})
  {
    var after := WithBlockedSeeded(t, p, b);
    SeededLimits(t, p, b);
    OneBlockedMeans(after.groups, p, b, after.groups[|after.groups| - 1]);
  }

  lemma SeedingKeepsOthers(t: Policy, q: string, id: string, p: string, b: string, apps: set<string>)
    requires Blocks(t, p, b, apps) && !HasBuiltin(t.groups, q, Blocked) && Unused(t, id)
    ensures Blocks(WithBlockedSeeded(t, q, id), p, b, apps)
  {
    var after := WithBlockedSeeded(t, q, id);
    SeededLimits(t, q, id);
    var own :| own in t.groups && IsBuiltin(own, p, Blocked) && own.id == b;
    OneBlockedMeans(after.groups, p, b, own);
  }

  /** A profile with freshly seeded groups and no requests yet is guarded. */
  lemma SeedingGuards(t: Policy, p: string, b: string)
    requires DistinctIds(t.groups) && !HasBuiltin(t.groups, p, Blocked) && Unused(t, b)
    requires forall k :: k in t.approvals ==> k.0 != p
    ensures Guarded(WithBlockedSeeded(t, p, b), p, b)
  {
    SeedingBlocks(t, p, b);
  }

  // ---- Migration v17 ----------------------------------------------------------------------

  type Keys = set<(string, string)>

  /** Denied apps among `keys` count as known now. */
  function Converted(approvals: Statuses, keys: Keys): Statuses {
    map k | k in approvals :: if k in keys && approvals[k] == Denied then Approved else approvals[k]
  }

  /** Apps among `keys` that end up in Blocked: those whose id is trimmed. */
  function Moving(approvals: Statuses, keys: Keys): set<string> {
    set k | k in keys && k in approvals && approvals[k] != Approved && Trimmed(k.1) :: k.1
  }

  /** The id can be stored in a rule, as it is or trimmed. */
  predicate Movable(app: string) { ParseAppId(app).Some? && ParseAppId(Trim(app)).Some? }

  /** Nothing stops the migration at `k`. */
  predicate CanMove(approvals: Statuses, k: (string, string)) { k in approvals && approvals[k] != Approved ==> Movable(k.1) }

  /** `b` blocks `apps`, in rules as they are stored. */
  ghost predicate Settles(t: Policy, p: string, b: string, apps: set<string>) { Blocks(t, p, b, apps) && TrimmedRules(t.rules) }

  function KeysOf(approvals: Statuses, p: string): Keys { set k | k in approvals && k.0 == p }

  /** What a step for profile `p` with Blocked group `b` leaves alone. */
  ghost predicate OthersKept(before: Policy, after: Policy, p: string, b: string) {
    && after.groups == before.groups && after.limits == before.limits
    && after.modes == before.modes && after.categories == before.categories
    && (forall r :: r in after.rules ==> r in before.rules || r.group == b)
    && (forall q, c, apps :: q != p && Settles(before, q, c, apps) ==> Settles(after, q, c, apps))
  }

  lemma BlockingTrimmed(t: Policy, p: string, b: string, apps: set<string>, app: string)
    requires Settles(t, p, b, apps) && Trimmed(app) && ParseAppId(app).Some? && app !in apps
    ensures var (after, ok) := WithBlocked(t, p, app, true);
            ok && Settles(after, p, b, apps + {app}) && OthersKept(t, after, p, b)
  {
    var after := WithBlocked(t, p, app, true).0;
    BlockingNamesIt(t, app, p, b, apps);
    BlockingTrims(t, p, app, true);
    forall q, c, others | q != p && Settles(t, q, c, others) ensures Settles(after, q, c, others) {
      MembershipKeepsNames(t, p, b, app, true, q, c, others);
    }
    forall r | r in after.rules ensures r in t.rules || r.group == b { MembershipEdits(t, p, b, app, true, r); }
  }

  /** With an untrimmed id Blocked gets an entry for the trimmed one, if that is an id at all. */
  lemma BlockingUntrimmed(t: Policy, p: string, b: string, apps: set<string>, app: string)
    requires Settles(t, p, b, apps) && !Trimmed(app) && ParseAppId(app).Some?
    ensures var (after, ok) := WithBlocked(t, p, app, true);
            && ok == ParseAppId(Trim(app)).Some?
            && after == if ok then t.(rules := t.rules + {RuleRow(b, Include(Trim(app)))}) else t
  {
    BlockedIsListed(t.groups, p, b);
    UntrimmedClearsNothing(ListGroups(t.groups, p), t.rules, b, app, true);
    OnlyNamedAppsAreBlocked(t.groups, t.rules, p, b, app, CategoriesOf(t, app));
    assert RuleRow(b, Exclude(Trim(app))) !in t.rules;
    assert RuleRow(b, Include(Trim(app))) in t.rules ==> t.rules + {RuleRow(b, Include(Trim(app)))} == t.rules;
  }

  lemma OneEntryInBlocked(t: Policy, p: string, b: string, apps: set<string>, value: string)
    requires Settles(t, p, b, apps) && Trimmed(value)
    ensures var after := t.(rules := t.rules + {RuleRow(b, Include(value))});
            Settles(after, p, b, apps) && OthersKept(t, after, p, b)
  {
    var after := t.(rules := t.rules + {RuleRow(b, Include(value))});
    var own :| own in t.groups && IsBuiltin(own, p, Blocked) && own.id == b;
    forall q, c, others | q != p && Settles(t, q, c, others) ensures Settles(after, q, c, others) {
      var theirs :| theirs in t.groups && IsBuiltin(theirs, q, Blocked) && theirs.id == c;
      if b == c { OwnersAreUnique(t.groups, own, theirs); }
      forall row | row in t.groups && row.profile == Some(q) ensures row.id != b {
        if row.id == b { OwnersAreUnique(t.groups, own, row); }
      }
    }
  }

  /** Moving an app into Blocked works exactly if its id, trimmed, is one; only a trimmed id is then
      named there. */
  lemma BlockingAny(t: Policy, p: string, b: string, apps: set<string>, app: string)
    requires Settles(t, p, b, apps) && app !in apps
    ensures var (after, ok) := WithBlocked(t, p, app, true);
            && (ok <==> Movable(app))
            && (ok ==> Settles(after, p, b, apps + if Trimmed(app) then {app} else {}) && OthersKept(t, after, p, b))
  {
    TrimTrims(app);
    if ParseAppId(app).Some? {
      if Trimmed(app) {
        BlockingTrimmed(t, p, b, apps, app);
      } else {
        BlockingUntrimmed(t, p, b, apps, app);
        assert apps + {} == apps;
        OneEntryInBlocked(t, p, b, apps, Trim(app));
      }
    }
  }

  lemma OneKey(approvals: Statuses, k: (string, string))
    requires k in approvals
    ensures Converted(approvals, {k}) == if approvals[k] == Denied then approvals[(k.0, k.1) := Approved] else approvals
    ensures Moving(approvals, {k}) == if approvals[k] != Approved && Trimmed(k.1) then {k.1} else {}
  {}

  method MoveOne(db: DbPool, k: (string, string), ghost b: string, ghost apps: set<string>) returns (ok: bool)
    requires k in db.approvals && k.1 !in apps && Settles(PolicyOf(db), k.0, b, apps)
    modifies db`approvals, db`rules
    ensures ok <==> CanMove(old(db.approvals), k)
    ensures ok ==> db.approvals == Converted(old(db.approvals), {k})
    ensures ok ==> Settles(PolicyOf(db), k.0, b, apps + Moving(old(db.approvals), {k}))
    ensures ok ==> OthersKept(old(PolicyOf(db)), PolicyOf(db), k.0, b)
  {
    var status := db.approvals[k];
    OneKey(db.approvals, k);
    ok := true;
    if status != Approved {
      if status == Denied { SetStatus(db, k.0, k.1, Approved); }
      BlockingAny(PolicyOf(db), k.0, b, apps, k.1);
      ok := SetBlocked(db, k.0, k.1, true);
    }
  }

  lemma OneMoreKey(approvals: Statuses, done: Keys, k: (string, string), p: string)
    requires k !in done && forall d :: d in done + {k} ==> d.0 == p
    ensures Converted(Converted(approvals, done), {k}) == Converted(approvals, done + {k})
    ensures Moving(approvals, done) + Moving(Converted(approvals, done), {k}) == Moving(approvals, done + {k})
    ensures k.1 !in Moving(approvals, done)
  {}

  /** From policy `t` to `now`, the apps `done` of profile `p` were moved. */
  ghost predicate MovedApps(t: Policy, now: Policy, p: string, b: string, done: Keys) {
    && now.approvals == Converted(t.approvals, done)
    && Settles(now, p, b, Moving(t.approvals, done))
    && OthersKept(t, now, p, b)
  }

  lemma OneMoreApp(t: Policy, before: Policy, now: Policy, p: string, b: string, done: Keys, k: (string, string))
    requires MovedApps(t, before, p, b, done) && k !in done && forall d :: d in done + {k} ==> d.0 == p
    requires now.approvals == Converted(before.approvals, {k}) && OthersKept(before, now, p, b)
    requires Settles(now, p, b, Moving(t.approvals, done) + Moving(before.approvals, {k}))
    ensures MovedApps(t, now, p, b, done + {k})
  {}

  /** Of the apps `keys` all but those still to do were moved, which each of them could be. */
  ghost predicate MovedBut(t: Policy, now: Policy, p: string, b: string, keys: Keys, todo: Keys) {
    && todo <= keys && keys <= t.approvals.Keys && (forall k :: k in keys ==> k.0 == p)
    && MovedApps(t, now, p, b, keys - todo)
    && forall k :: k in keys - todo ==> CanMove(t.approvals, k)
  }

  lemma NothingMoved(t: Policy, p: string, b: string, keys: Keys)
    requires Settles(t, p, b, {}) && keys <= t.approvals.Keys && forall k :: k in keys ==> k.0 == p
    ensures MovedBut(t, t, p, b, keys, keys)
  {
    assert keys - keys == {};
  }

  method MoveNext(db: DbPool, k: (string, string), ghost t: Policy, ghost p: string, ghost b: string, ghost keys: Keys, ghost todo: Keys)
    returns (ok: bool)
    requires MovedBut(t, PolicyOf(db), p, b, keys, todo) && k in todo
    modifies db`approvals, db`rules
    ensures if ok then MovedBut(t, PolicyOf(db), p, b, keys, todo - {k}) else !CanMove(t.approvals, k)
  {
    ghost var before, done := PolicyOf(db), keys - todo;
    assert keys - (todo - {k}) == done + {k};
    OneMoreKey(t.approvals, done, k, p);
    ok := MoveOne(db, k, b, Moving(t.approvals, done));
    if ok { OneMoreApp(t, before, PolicyOf(db), p, b, done, k); }
  }

  method MoveKeys(db: DbPool, keys: Keys, ghost p: string, ghost b: string) returns (ok: bool)
    requires Settles(PolicyOf(db), p, b, {})
    requires keys <= db.approvals.Keys && forall k :: k in keys ==> k.0 == p
    modifies db`approvals, db`rules
    ensures ok <==> forall k :: k in keys ==> CanMove(old(db.approvals), k)
    ensures ok ==> MovedApps(old(PolicyOf(db)), PolicyOf(db), p, b, keys)
  {
    var todo := keys;
    ghost var t := PolicyOf(db);
    NothingMoved(t, p, b, keys);
    while todo != {}
      invariant MovedBut(t, PolicyOf(db), p, b, keys, todo)
      decreases todo
    {
      var k :| k in todo;
      ok := MoveNext(db, k, t, p, b, keys, todo);
      if !ok { return; }
      todo := todo - {k};
    }
    assert keys - todo == keys;
    ok := true;
  }

  predicate AllCanMove(approvals: Statuses, p: string) { forall k :: k in approvals && k.0 == p ==> CanMove(approvals, k) }

  method MoveListed(db: DbPool, p: string, ghost b: string) returns (ok: bool)
    requires Settles(PolicyOf(db), p, b, {})
    modifies db`approvals, db`rules
    ensures ok <==> AllCanMove(old(db.approvals), p)
    ensures ok ==> MovedApps(old(PolicyOf(db)), PolicyOf(db), p, b, KeysOf(old(db.approvals), p))
  {
    ok := MoveKeys(db, KeysOf(db.approvals, p), p, b);
  }

  /** Before v17 a profile has no Blocked group, or a freshly seeded one. */
  ghost predicate Unmoved(t: Policy, p: string, id: string) {
    && Unused(t, id)
    && (HasBuiltin(t.groups, p, Blocked) ==> Settles(t, p, BlockedGroup(t.groups, p).value, {}))
  }

  /** `before` and `now` differ in profile `p` only. */
  ghost predicate OthersStay(before: Policy, now: Policy, p: string) {
    && (forall q, c, apps :: q != p && Settles(before, q, c, apps) ==> Settles(now, q, c, apps))
    && (forall q: string, id :: q != p && Unmoved(before, q, id) && Unused(now, id) ==> Unmoved(now, q, id))
  }

  lemma BlockedAfterAppend(groups: seq<GroupRow>, row: GroupRow, q: string)
    requires !IsBuiltin(row, q, Blocked)
    ensures BlockedGroup(groups + [row], q) == BlockedGroup(groups, q)
    ensures HasBuiltin(groups + [row], q, Blocked) == HasBuiltin(groups, q, Blocked)
  {
    if groups == [] {
      assert groups + [row] == [row];
    } else {
      BlockedAfterAppend(groups[1..], row, q);
      assert (groups + [row])[1..] == groups[1..] + [row];
      assert groups == [groups[0]] + groups[1..];
    }
  }

  lemma SeedingTrims(t: Policy, p: string, id: string)
    requires TrimmedRules(t.rules)
    ensures TrimmedRules(WithBlockedSeeded(t, p, id).rules)
  {}

  lemma SeedOthersStay(t: Policy, p: string, id: string)
    requires DistinctIds(t.groups) && Unused(t, id) && !HasBuiltin(t.groups, p, Blocked) && TrimmedRules(t.rules)
    ensures OthersStay(t, WithBlockedSeeded(t, p, id), p)
  {
    var now := WithBlockedSeeded(t, p, id);
    SeedingTrims(t, p, id);
    forall q, c, apps | q != p && Settles(t, q, c, apps) ensures Settles(now, q, c, apps) {
      SeedingKeepsOthers(t, p, id, q, c, apps);
    }
    forall q: string, other | q != p && Unmoved(t, q, other) && Unused(now, other) ensures Unmoved(now, q, other) {
      BlockedAfterAppend(t.groups, now.groups[|now.groups| - 1], q);
    }
  }

  lemma SeedStep(t: Policy, p: string, id: string, other: string)
    requires DistinctIds(t.groups) && Unmoved(t, p, id) && TrimmedRules(t.rules)
    ensures var now := WithBlockedSeeded(t, p, id);
            && TrimmedRules(now.rules) && DistinctIds(now.groups) && now.approvals == t.approvals
            && (exists b :: Settles(now, p, b, {}))
            && OthersStay(t, now, p)
            && (Unused(t, other) && other != id ==> Unused(now, other))
  {
    SeedingTrims(t, p, id);
    if !HasBuiltin(t.groups, p, Blocked) {
      SeedingBlocks(t, p, id);
      assert Settles(WithBlockedSeeded(t, p, id), p, id, {});
      SeedOthersStay(t, p, id);
    }
  }

  lemma MoveStep(t: Policy, now: Policy, p: string, b: string)
    requires Settles(t, p, b, {}) && OthersKept(t, now, p, b)
    ensures OthersStay(t, now, p)
    ensures forall other: string :: Unused(t, other) ==> Unused(now, other)
  {}

  method SeedBlocked(db: DbPool, p: string, id: string)
    requires Unused(PolicyOf(db), id)
    modifies db`groups, db`rules, db`limits
    ensures PolicyOf(db) == WithBlockedSeeded(old(PolicyOf(db)), p, id)
  {
    SeedOne(db, p, Some(Blocked), Blocked, id);
  }

  /** From `before` to `now` profile `p` got its Blocked group, with the apps that were denied or
      waiting in it, and only the id `id` was taken into use. */
  ghost predicate SettlesOne(before: Policy, now: Policy, p: string, id: string) {
    && DistinctIds(now.groups) && TrimmedRules(now.rules)
    && now.approvals == Converted(before.approvals, KeysOf(before.approvals, p))
    && (exists b :: Settles(now, p, b, Moving(before.approvals, KeysOf(before.approvals, p))))
    && OthersStay(before, now, p)
    && (forall other: string :: other != id && Unused(before, other) ==> Unused(now, other))
  }

  method SettleProfile(db: DbPool, p: string, id: string) returns (ok: bool)
    requires DistinctIds(db.groups) && TrimmedRules(db.rules) && Unmoved(PolicyOf(db), p, id)
    modifies db`groups, db`rules, db`limits, db`approvals
    ensures ok <==> AllCanMove(old(db.approvals), p)
    ensures ok ==> SettlesOne(old(PolicyOf(db)), PolicyOf(db), p, id)
  {
    ghost var t := PolicyOf(db);
    SeedBlocked(db, p, id);
    ghost var seeded := PolicyOf(db);
    forall other: string ensures Unused(t, other) && other != id ==> Unused(seeded, other) { SeedStep(t, p, id, other); }
    SeedStep(t, p, id, id);
    ghost var b :| Settles(seeded, p, b, {});
    ok := MoveListed(db, p, b);
    if ok { MoveStep(seeded, PolicyOf(db), p, b); }
  }

  function KeysOfAll(approvals: Statuses, profiles: seq<string>): Keys { set k | k in approvals && k.0 in profiles }

  /** Profile `p` has its Blocked group, which blocks the apps that were denied or waiting. */
  ghost predicate Settled(t: Policy, now: Policy, p: string) {
    exists b :: Settles(now, p, b, Moving(t.approvals, KeysOf(t.approvals, p)))
  }

  ghost predicate SettledUpTo(t: Policy, now: Policy, profiles: seq<string>, ids: string -> string, n: nat)
    requires n <= |profiles|
  {
    && DistinctIds(now.groups) && TrimmedRules(now.rules)
    && now.approvals == Converted(t.approvals, KeysOfAll(t.approvals, profiles[..n]))
    && (forall i :: 0 <= i < n ==> Settled(t, now, profiles[i]))
    && (forall i :: n <= i < |profiles| ==> Unmoved(now, profiles[i], ids(profiles[i])))
  }

  lemma ConvertedProfile(approvals: Statuses, profiles: seq<string>, n: nat)
    requires n < |profiles| && forall i :: 0 <= i < n ==> profiles[i] != profiles[n]
    ensures var done := Converted(approvals, KeysOfAll(approvals, profiles[..n]));
            var own := KeysOf(done, profiles[n]);
            && Converted(done, own) == Converted(approvals, KeysOfAll(approvals, profiles[..n + 1]))
            && Moving(done, own) == Moving(approvals, KeysOf(approvals, profiles[n]))
  {}

  lemma SettleNext(t: Policy, before: Policy, now: Policy, profiles: seq<string>, ids: string -> string, n: nat)
    requires n < |profiles| && DistinctProfiles(profiles) && forall p, q :: ids(p) == ids(q) ==> p == q
    requires SettledUpTo(t, before, profiles, ids, n) && SettlesOne(before, now, profiles[n], ids(profiles[n]))
    ensures SettledUpTo(t, now, profiles, ids, n + 1)
  {
    ConvertedProfile(t.approvals, profiles, n);
    forall i | 0 <= i < n ensures Settled(t, now, profiles[i]) {
      var b :| Settles(before, profiles[i], b, Moving(t.approvals, KeysOf(t.approvals, profiles[i])));
    }
    forall i | n + 1 <= i < |profiles| ensures Unmoved(now, profiles[i], ids(profiles[i])) {
      assert Unmoved(before, profiles[i], ids(profiles[i])) && Unused(now, ids(profiles[i]));
    }
  }

  /** After v17: the same apps are waiting, what was denied counts as known, and new apps are blocked
      and only there exactly if the ids of the waiting ones are trimmed; a denied app is named by
      Blocked if its id is. */
  ghost predicate Converts(t: Policy, now: Policy, p: string, b: string) {
    && TrimmedRules(now.rules)
    && (Guarded(now, p, b) <==> forall app :: app in PendingApps(t, p) ==> Trimmed(app))
    && PendingApps(now, p) == PendingApps(t, p)
    && (forall k :: k in t.approvals && k.0 == p && t.approvals[k] == Denied ==>
          k in now.approvals && now.approvals[k] == Approved && (RuleRow(b, Include(k.1)) in now.rules <==> Trimmed(k.1)))
  }

  lemma ConvertedStatuses(t: Policy, now: Policy, p: string, keys: Keys)
    requires now.approvals == Converted(t.approvals, keys) && KeysOf(t.approvals, p) <= keys
    ensures PendingApps(now, p) == PendingApps(t, p)
    ensures forall app :: app in PendingApps(t, p) && Trimmed(app) ==> app in Moving(t.approvals, KeysOf(t.approvals, p))
    ensures forall k :: k in t.approvals && k.0 == p && t.approvals[k] == Denied && Trimmed(k.1) ==>
              k.1 in Moving(t.approvals, KeysOf(t.approvals, p))
    ensures forall k :: k in now.approvals && k.0 == p ==> now.approvals[k] != Denied
  {}

  lemma SettledConverts(t: Policy, now: Policy, profiles: seq<string>, ids: string -> string, p: string)
    requires SettledUpTo(t, now, profiles, ids, |profiles|) && p in profiles
    ensures exists b :: Converts(t, now, p, b)
  {
    assert profiles[..|profiles|] == profiles;
    var i :| 0 <= i < |profiles| && profiles[i] == p;
    var moving := Moving(t.approvals, KeysOf(t.approvals, p));
    var b :| Settles(now, p, b, moving);
    ConvertedStatuses(t, now, p, KeysOfAll(t.approvals, profiles));
    GuardedIfTrimmed(now, p, b, moving);
    assert Converts(t, now, p, b);
  }

  lemma GuardedIfTrimmed(t: Policy, p: string, b: string, apps: set<string>)
    requires Settles(t, p, b, apps) && forall k :: k in t.approvals && k.0 == p ==> t.approvals[k] != Denied
    requires forall app :: app in PendingApps(t, p) && Trimmed(app) ==> app in apps
    ensures Guarded(t, p, b) <==> forall app :: app in PendingApps(t, p) ==> Trimmed(app)
  {
    if forall app :: app in PendingApps(t, p) ==> Trimmed(app) {
      FewerNames(t.groups, t.rules, p, b, apps, PendingApps(t, p));
    }
    if Guarded(t, p, b) {
      forall app | app in PendingApps(t, p) ensures Trimmed(app) { PendingAreTrimmed(t, p, b, app); }
    }
  }

  ghost predicate AllConvert(t: Policy, now: Policy, profiles: seq<string>) {
    forall p :: p in profiles ==> exists b :: Converts(t, now, p, b)
  }

  /** What v17 starts from: no profile's Blocked group has anything in it, and new ids are unused. */
  ghost predicate Migratable(t: Policy, profiles: seq<string>, ids: string -> string) {
    && DistinctIds(t.groups) && TrimmedRules(t.rules)
    && forall i :: 0 <= i < |profiles| ==> Unmoved(t, profiles[i], ids(profiles[i]))
  }

  lemma NothingSettled(t: Policy, profiles: seq<string>, ids: string -> string)
    requires Migratable(t, profiles, ids)
    ensures SettledUpTo(t, t, profiles, ids, 0)
  {}

  lemma NextCanMove(t: Policy, before: Policy, profiles: seq<string>, ids: string -> string, n: nat)
    requires n < |profiles| && DistinctProfiles(profiles) && SettledUpTo(t, before, profiles, ids, n)
    ensures AllCanMove(before.approvals, profiles[n]) <==> AllCanMove(t.approvals, profiles[n])
  {
    forall k: (string, string) | k.0 == profiles[n] ensures CanMove(before.approvals, k) <==> CanMove(t.approvals, k) {
      assert profiles[n] !in profiles[..n];
    }
  }

  predicate EveryoneCanMove(approvals: Statuses, profiles: seq<string>) { forall p :: p in profiles ==> AllCanMove(approvals, p) }

  lemma OneMoreCanMove(approvals: Statuses, profiles: seq<string>, n: nat)
    requires n < |profiles|
    ensures EveryoneCanMove(approvals, profiles[..n + 1]) <==> EveryoneCanMove(approvals, profiles[..n]) && AllCanMove(approvals, profiles[n])
    ensures EveryoneCanMove(approvals, profiles) ==> AllCanMove(approvals, profiles[n])
  {
    assert profiles[..n + 1] == profiles[..n] + [profiles[n]];
  }

  method SettleNextProfile(db: DbPool, ids: string -> string, n: nat, ghost t: Policy) returns (ok: bool)
    requires n < |db.profiles| && DistinctProfiles(db.profiles) && forall p, q :: ids(p) == ids(q) ==> p == q
    requires SettledUpTo(t, PolicyOf(db), db.profiles, ids, n)
    requires EveryoneCanMove(t.approvals, db.profiles[..n])
    modifies db`groups, db`rules, db`limits, db`approvals
    ensures if ok then SettledUpTo(t, PolicyOf(db), db.profiles, ids, n + 1) && EveryoneCanMove(t.approvals, db.profiles[..n + 1])
            else !EveryoneCanMove(t.approvals, db.profiles)
  {
    ghost var before := PolicyOf(db);
    OneMoreCanMove(t.approvals, db.profiles, n);
    NextCanMove(t, before, db.profiles, ids, n);
    ok := SettleProfile(db, db.profiles[n], ids(db.profiles[n]));
    if ok { SettleNext(t, before, PolicyOf(db), db.profiles, ids, n); }
  }

  lemma AllSettledConvert(t: Policy, now: Policy, profiles: seq<string>, ids: string -> string)
    requires SettledUpTo(t, now, profiles, ids, |profiles|)
    ensures AllConvert(t, now, profiles)
  {
    forall p | p in profiles ensures exists b :: Converts(t, now, p, b) { SettledConverts(t, now, profiles, ids, p); }
  }

  lemma EveryoneCanMoveMeans(approvals: Statuses, profiles: seq<string>)
    ensures EveryoneCanMove(approvals, profiles)
        <==> forall p, app :: p in profiles && (p, app) in approvals && approvals[(p, app)] != Approved ==>
               ParseAppId(app).Some? && ParseAppId(Trim(app)).Some?
  {
    if forall p, app :: p in profiles && (p, app) in approvals && approvals[(p, app)] != Approved ==>
         ParseAppId(app).Some? && ParseAppId(Trim(app)).Some? {
      forall p, k: (string, string) | p in profiles && k in approvals && k.0 == p ensures CanMove(approvals, k) { assert k == (p, k.1); }
    }
    if EveryoneCanMove(approvals, profiles) {
      forall p, app | p in profiles && (p, app) in approvals && approvals[(p, app)] != Approved
        ensures ParseAppId(app).Some? && ParseAppId(Trim(app)).Some?
      {
        assert AllCanMove(approvals, p) && CanMove(approvals, (p, app));
      }
    }
  }

  /** Migration v17: fails exactly at an app that waits or was denied and whose id, trimmed, is none. */
  method MoveIntoBlocked(db: DbPool, ids: string -> string) returns (ok: bool)
    requires DistinctProfiles(db.profiles) && forall p, q :: ids(p) == ids(q) ==> p == q
    requires Migratable(PolicyOf(db), db.profiles, ids)
    modifies db`groups, db`rules, db`limits, db`approvals
    ensures ok <==> forall p, app :: p in db.profiles && (p, app) in old(db.approvals) && old(db.approvals)[(p, app)] != Approved ==>
                      ParseAppId(app).Some? && ParseAppId(Trim(app)).Some?
    ensures ok ==> AllConvert(old(PolicyOf(db)), PolicyOf(db), db.profiles)
  {
    ghost var t := PolicyOf(db);
    ghost var now := t;
    var profiles := db.profiles;
    EveryoneCanMoveMeans(t.approvals, profiles);
    NothingSettled(t, profiles, ids);
    for n := 0 to |profiles|
      invariant now == PolicyOf(db) && db.profiles == profiles && SettledUpTo(t, now, profiles, ids, n)
      invariant EveryoneCanMove(t.approvals, profiles[..n])
    {
      ok := SettleNextProfile(db, ids, n, t);
      if !ok { return; }
      now := PolicyOf(db);
    }
    assert profiles[..|profiles|] == profiles;
    AllSettledConvert(t, now, profiles, ids);
    ok := true;
  }
}

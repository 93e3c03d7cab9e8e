/** Migration v16 (crates/server/src/app_groups.rs, `split_shared_groups`): every profile gets its
    own copy of the shared groups, and its limits, extra time and recorded time move to the copies. */
module GroupMigration {
  import opened Apps
  import opened Store
  import opened AppGroups
  import opened Wrappers

  /** Stands for the random ids: the id of a profile's copy of a shared group. */
  type Mint = (string, string) -> string

  /** (profile, shared group) pairs copied so far. */
  type Done = set<(string, string)>

  // ---- Rows under a renaming of groups ----------------------------------------------------

  function Image<A, B>(s: set<A>, f: A -> B): set<B> { set a | a in s :: f(a) }

  function Renamed(done: Done, mint: Mint, profile: string, group: string): string {
    if (profile, group) in done then mint(profile, group) else group
  }

  function LimitTo(done: Done, mint: Mint): LimitRow -> LimitRow {
    (r: LimitRow) => r.(group := Renamed(done, mint, r.profile, r.group))
  }

  function AdjustmentTo(done: Done, mint: Mint): AdjustmentRow -> AdjustmentRow {
    (r: AdjustmentRow) => r.(group := Renamed(done, mint, r.profile, r.group))
  }

  function UsageTo(users: map<string, string>, done: Done, mint: Mint): GroupUsageRow -> GroupUsageRow {
    (r: GroupUsageRow) => if r.user in users then r.(group := Renamed(done, mint, users[r.user], r.group)) else r
  }

  /** The rules of the copies made so far, beside all the rules there were. */
  function WithCopies(rules: set<RuleRow>, done: Done, mint: Mint): set<RuleRow> {
    rules + set d, row | d in done && row in rules && row.group == d.1 :: RuleRow(mint(d.0, d.1), row.rule)
  }

  function CopyRow(row: GroupRow, profile: string, mint: Mint): GroupRow {
    row.(id := mint(profile, row.id), profile := Some(profile))
  }

  function Copies(shared: seq<GroupRow>, profile: string, mint: Mint): seq<GroupRow> {
    seq(|shared|, i requires 0 <= i < |shared| => CopyRow(shared[i], profile, mint))
  }

  function AllCopies(shared: seq<GroupRow>, profiles: seq<string>, mint: Mint): seq<GroupRow> {
    if profiles == [] then []
    else AllCopies(shared, profiles[..|profiles| - 1], mint) + Copies(shared, profiles[|profiles| - 1], mint)
  }

  function OwnPairs(profile: string, shared: seq<GroupRow>): Done {
    set row | row in shared :: (profile, row.id)
  }

  function Pairs(profiles: seq<string>, shared: seq<GroupRow>): Done {
    set p, row | p in profiles && row in shared :: (p, row.id)
  }

  function IdsOf(rows: seq<GroupRow>): set<string> { set r | r in rows :: r.id }

  /** Random ids are all different and none of them is a shared group's. */
  ghost predicate FreshIds(mint: Mint, used: set<string>) {
    && (forall p, g, q, h :: mint(p, g) == mint(q, h) ==> p == q && g == h)
    && (forall p, g :: mint(p, g) !in used)
  }

  lemma ImageCompose<A, B, C>(s: set<A>, f: A -> B, g: B -> C, h: A -> C)
    requires forall a :: a in s ==> g(f(a)) == h(a)
    ensures Image(Image(s, f), g) == Image(s, h)
  {}

  // ---- The queries ------------------------------------------------------------------------

  function OwnLimit(profile: string, shared: string, copy: string): LimitRow -> LimitRow {
    (r: LimitRow) => if r.group == shared && r.profile == profile then r.(group := copy) else r
  }

  function OwnAdjustment(profile: string, shared: string, copy: string): AdjustmentRow -> AdjustmentRow {
    (r: AdjustmentRow) => if r.group == shared && r.profile == profile then r.(group := copy) else r
  }

  function OwnUsage(users: map<string, string>, profile: string, shared: string, copy: string): GroupUsageRow -> GroupUsageRow {
    (r: GroupUsageRow) => if r.group == shared && r.user in users && users[r.user] == profile then r.(group := copy) else r
  }

  /** An INSERT per rule of the shared group. */
  method CopyRules(db: DbPool, shared: string, copy: string)
    modifies db`rules
    ensures db.rules == old(db.rules) + set row | row in old(db.rules) && row.group == shared :: RuleRow(copy, row.rule)
  {
    var own := set row | row in db.rules && row.group == shared;
    var todo := own;
    ghost var start := db.rules;
    while todo != {}
      invariant todo <= own
      invariant db.rules == start + set row | row in own - todo :: RuleRow(copy, row.rule)
      decreases todo
    {
      var row :| row in todo;
      db.rules := db.rules + {RuleRow(copy, row.rule)};
      todo := todo - {row};
    }
  }

  // ---- One copy ---------------------------------------------------------------------------

  lemma OneMoreCopy(limits: set<LimitRow>, adjustments: set<AdjustmentRow>, usage: set<GroupUsageRow>,
                    users: map<string, string>, done: Done, mint: Mint, p: string, g: string)
    requires (p, g) !in done && forall q, h :: mint(q, h) != g
    ensures Image(Image(limits, LimitTo(done, mint)), OwnLimit(p, g, mint(p, g)))
         == Image(limits, LimitTo(done + {(p, g)}, mint))
    ensures Image(Image(adjustments, AdjustmentTo(done, mint)), OwnAdjustment(p, g, mint(p, g)))
         == Image(adjustments, AdjustmentTo(done + {(p, g)}, mint))
    ensures Image(Image(usage, UsageTo(users, done, mint)), OwnUsage(users, p, g, mint(p, g)))
         == Image(usage, UsageTo(users, done + {(p, g)}, mint))
  {
    ImageCompose(limits, LimitTo(done, mint), OwnLimit(p, g, mint(p, g)), LimitTo(done + {(p, g)}, mint));
    ImageCompose(adjustments, AdjustmentTo(done, mint), OwnAdjustment(p, g, mint(p, g)), AdjustmentTo(done + {(p, g)}, mint));
    ImageCompose(usage, UsageTo(users, done, mint), OwnUsage(users, p, g, mint(p, g)), UsageTo(users, done + {(p, g)}, mint));
  }

  lemma OneMoreRuleCopy(rules: set<RuleRow>, done: Done, mint: Mint, p: string, g: string)
    requires forall q, h :: mint(q, h) != g
    ensures WithCopies(rules, done, mint) + (set row | row in WithCopies(rules, done, mint) && row.group == g :: RuleRow(mint(p, g), row.rule))
         == WithCopies(rules, done + {(p, g)}, mint)
  {}

  /** The group tables before the migration. */
  datatype Snapshot = Snapshot(groups: seq<GroupRow>, rules: set<RuleRow>, limits: set<LimitRow>,
                               adjustments: set<AdjustmentRow>, usage: set<GroupUsageRow>, users: map<string, string>)

  function SnapshotOf(db: DbPool): Snapshot
    reads db
  {
    Snapshot(db.groups, db.rules, db.limits, db.adjustments, db.groupUsage, db.userProfile)
  }

  /** The tables with copies appended for the pairs in `done`, their rows moved to the copies. */
  function Copied(s: Snapshot, copies: seq<GroupRow>, done: Done, mint: Mint): Snapshot {
    Snapshot(s.groups + copies, WithCopies(s.rules, done, mint), Image(s.limits, LimitTo(done, mint)),
             Image(s.adjustments, AdjustmentTo(done, mint)), Image(s.usage, UsageTo(s.users, done, mint)), s.users)
  }

  /** The tables without the groups in `ids` and their rows. */
  function Dropped(s: Snapshot, ids: set<string>): Snapshot {
    Snapshot(Without(s.groups, ids), (set r | r in s.rules && r.group !in ids), (set r | r in s.limits && r.group !in ids),
             (set r | r in s.adjustments && r.group !in ids), (set r | r in s.usage && r.group !in ids), s.users)
  }

  /** The profile's copy of one shared group. */
  method CopyGroup(db: DbPool, profile: string, row: GroupRow, mint: Mint, ghost s: Snapshot, ghost copies: seq<GroupRow>,
                   ghost done: Done)
    requires SnapshotOf(db) == Copied(s, copies, done, mint)
    requires (profile, row.id) !in done && forall q, h :: mint(q, h) != row.id
    modifies db`groups, db`rules, db`limits, db`adjustments, db`groupUsage
    ensures SnapshotOf(db) == Copied(s, copies + [CopyRow(row, profile, mint)], done + {(profile, row.id)}, mint)
  {
    var copy := mint(profile, row.id);
    OneMoreCopy(s.limits, s.adjustments, s.usage, s.users, done, mint, profile, row.id);
    OneMoreRuleCopy(s.rules, done, mint, profile, row.id);
    db.groups := db.groups + [GroupRow(copy, Some(profile), row.name, row.builtin)];
    CopyRules(db, row.id, copy);
    db.limits := Image(db.limits, OwnLimit(profile, row.id, copy));
    db.adjustments := Image(db.adjustments, OwnAdjustment(profile, row.id, copy));
    db.groupUsage := Image(db.groupUsage, OwnUsage(db.userProfile, profile, row.id, copy));
  }

  lemma OneMoreRow(profile: string, shared: seq<GroupRow>, i: nat, mint: Mint)
    requires i < |shared|
    ensures Copies(shared[..i + 1], profile, mint) == Copies(shared[..i], profile, mint) + [CopyRow(shared[i], profile, mint)]
    ensures OwnPairs(profile, shared[..i + 1]) == OwnPairs(profile, shared[..i]) + {(profile, shared[i].id)}
    ensures IdsOf(shared[..i + 1]) == IdsOf(shared[..i]) + {shared[i].id}
    ensures DistinctIds(shared) ==> (profile, shared[i].id) !in OwnPairs(profile, shared[..i])
  {}

  lemma OneMoreProfile(profiles: seq<string>, shared: seq<GroupRow>, i: nat, mint: Mint)
    requires i < |profiles|
    ensures AllCopies(shared, profiles[..i + 1], mint) == AllCopies(shared, profiles[..i], mint) + Copies(shared, profiles[i], mint)
    ensures Pairs(profiles[..i + 1], shared) == Pairs(profiles[..i], shared) + OwnPairs(profiles[i], shared)
  {
    assert profiles[..i + 1] == profiles[..i] + [profiles[i]];
    assert profiles[..i + 1][..i] == profiles[..i];
    var rhs := Pairs(profiles[..i], shared) + OwnPairs(profiles[i], shared);
    forall d | d in rhs ensures d in Pairs(profiles[..i + 1], shared) {
      assert d.0 in profiles[..i + 1];
    }
    forall d | d in Pairs(profiles[..i + 1], shared) ensures d in rhs {
      assert d.0 == profiles[i] || d.0 in profiles[..i];
    }
  }

  /** A profile's copies of all shared groups. */
  method CopyGroups(db: DbPool, profile: string, shared: seq<GroupRow>, mint: Mint, ghost s: Snapshot,
                    ghost copies: seq<GroupRow>, ghost done: Done)
    requires SnapshotOf(db) == Copied(s, copies, done, mint)
    requires DistinctIds(shared) && FreshIds(mint, IdsOf(shared)) && forall d :: d in done ==> d.0 != profile
    modifies db`groups, db`rules, db`limits, db`adjustments, db`groupUsage
    ensures SnapshotOf(db) == Copied(s, copies + Copies(shared, profile, mint), done + OwnPairs(profile, shared), mint)
  {
    assert copies + Copies(shared[..0], profile, mint) == copies && done + OwnPairs(profile, shared[..0]) == done;
    for i := 0 to |shared|
      invariant SnapshotOf(db) == Copied(s, copies + Copies(shared[..i], profile, mint), done + OwnPairs(profile, shared[..i]), mint)
    {
      OneMoreRow(profile, shared, i, mint);
      assert shared[i].id in IdsOf(shared);
      CopyGroup(db, profile, shared[i], mint, s, copies + Copies(shared[..i], profile, mint), done + OwnPairs(profile, shared[..i]));
      assert copies + Copies(shared[..i], profile, mint) + [CopyRow(shared[i], profile, mint)]
          == copies + Copies(shared[..i + 1], profile, mint);
      assert done + OwnPairs(profile, shared[..i]) + {(profile, shared[i].id)} == done + OwnPairs(profile, shared[..i + 1]);
    }
    assert shared[..|shared|] == shared;
  }

  method CopyAll(db: DbPool, shared: seq<GroupRow>, mint: Mint)
    requires DistinctProfiles(db.profiles)
    requires DistinctIds(shared) && FreshIds(mint, IdsOf(shared))
    modifies db`groups, db`rules, db`limits, db`adjustments, db`groupUsage
    ensures SnapshotOf(db)
         == Copied(old(SnapshotOf(db)), AllCopies(shared, db.profiles, mint), Pairs(db.profiles, shared), mint)
  {
    ghost var s := SnapshotOf(db);
    NothingCopied(s, mint);
    assert Pairs(db.profiles[..0], shared) == {};
    for i := 0 to |db.profiles|
      invariant SnapshotOf(db) == Copied(s, AllCopies(shared, db.profiles[..i], mint), Pairs(db.profiles[..i], shared), mint)
    {
      OneMoreProfile(db.profiles, shared, i, mint);
      CopyGroups(db, db.profiles[i], shared, mint, s, AllCopies(shared, db.profiles[..i], mint), Pairs(db.profiles[..i], shared));
    }
    assert db.profiles[..|db.profiles|] == db.profiles;
  }

  lemma NothingCopied(s: Snapshot, mint: Mint)
    ensures Copied(s, [], {}, mint) == s
  {}

  lemma {:induction false} WithoutOneMore(rows: seq<GroupRow>, ids: set<string>, id: string)
    ensures Without(Without(rows, ids), {id}) == Without(rows, ids + {id})
  {
    if rows != [] {
      var init, last := rows[..|rows| - 1], rows[|rows| - 1];
      WithoutOneMore(init, ids, id);
      if last.id !in ids {
        assert (Without(init, ids) + [last])[..|Without(init, ids)|] == Without(init, ids);
      } else {
        assert Without(rows, ids) == Without(init, ids);
      }
    }
  }

  lemma {:induction false} WithoutNone(rows: seq<GroupRow>)
    ensures Without(rows, {}) == rows
  {
    if rows != [] { WithoutNone(rows[..|rows| - 1]); }
  }

  method DropShared(db: DbPool, shared: seq<GroupRow>)
    modifies db`groups, db`rules, db`limits, db`adjustments, db`groupUsage
    ensures SnapshotOf(db) == Dropped(old(SnapshotOf(db)), IdsOf(shared))
  {
    ghost var s := SnapshotOf(db);
    WithoutNone(s.groups);
    assert IdsOf(shared[..0]) == {};
    for i := 0 to |shared|
      invariant SnapshotOf(db) == Dropped(s, IdsOf(shared[..i]))
    {
      DeleteGroupRows(db, shared[i].id);
      WithoutOneMore(s.groups, IdsOf(shared[..i]), shared[i].id);
      assert IdsOf(shared[..i + 1]) == IdsOf(shared[..i]) + {shared[i].id} by {
        assert shared[..i + 1] == shared[..i] + [shared[i]];
      }
    }
    assert shared[..|shared|] == shared;
  }

  /** Seeding every profile, for a database without any shared group. */
  function SeededAll(t: GroupTables, profiles: seq<string>, seedIds: (string, Builtin) -> string): GroupTables {
    if profiles == [] then t
    else
      var p := profiles[|profiles| - 1];
      Seeded(SeededAll(t, profiles[..|profiles| - 1], seedIds), p, None, k => seedIds(p, k))
  }

  lemma {:induction false} SeededRuleGroups(t: GroupTables, profiles: seq<string>, seedIds: (string, Builtin) -> string, r: RuleRow)
    requires r in SeededAll(t, profiles, seedIds).rules
    ensures r in t.rules || exists p, k :: p in profiles && r.group == seedIds(p, k)
  {
    if profiles != [] {
      var init := profiles[..|profiles| - 1];
      if r in SeededAll(t, init, seedIds).rules { SeededRuleGroups(t, init, seedIds, r); }
    }
  }

  /** Afterwards every profile has every predefined group, and the groups there were are still there. */
  lemma {:induction false} SeededAllMeans(t: GroupTables, profiles: seq<string>, seedIds: (string, Builtin) -> string, p: string, key: Builtin)
    ensures t.groups <= SeededAll(t, profiles, seedIds).groups
    ensures p in profiles ==>
              exists row :: row in SeededAll(t, profiles, seedIds).groups && row.profile == Some(p) && row.builtin == Some(key)
  {
    hide Seeded, SeededOne;
    if profiles != [] {
      var init, last := profiles[..|profiles| - 1], profiles[|profiles| - 1];
      var before := SeededAll(t, init, seedIds);
      SeededAllMeans(t, init, seedIds, p, key);
      SeededMeans(before, last, None, k => seedIds(last, k), key);
      assert profiles == init + [last];
      if p in init {
        var row :| row in before.groups && row.profile == Some(p) && row.builtin == Some(key);
        assert row in SeededAll(t, profiles, seedIds).groups;
      }
    }
  }

  method SeedAll(db: DbPool, seedIds: (string, Builtin) -> string)
    requires DistinctProfiles(db.profiles)
    requires forall p, k, q, l :: seedIds(p, k) == seedIds(q, l) ==> p == q && k == l
    requires forall p, k, r :: r in db.rules ==> seedIds(p, k) != r.group
    modifies db`groups, db`rules, db`limits
    ensures GroupTables(db.groups, db.rules, db.limits)
         == SeededAll(old(GroupTables(db.groups, db.rules, db.limits)), db.profiles, seedIds)
  {
    ghost var t := GroupTables(db.groups, db.rules, db.limits);
    for i := 0 to |db.profiles|
      invariant GroupTables(db.groups, db.rules, db.limits) == SeededAll(t, db.profiles[..i], seedIds)
    {
      var p := db.profiles[i];
      forall k, r | r in db.rules ensures r.group != seedIds(p, k) {
        SeededRuleGroups(t, db.profiles[..i], seedIds, r);
      }
      Seed(db, p, None, k => seedIds(p, k));
      assert db.profiles[..i + 1][..i] == db.profiles[..i];
    }
    assert db.profiles[..|db.profiles|] == db.profiles;
  }

  /** The tables after the migration when there are shared groups. */
  function Split(s: Snapshot, profiles: seq<string>, mint: Mint): Snapshot {
    var shared := RowsOf(s.groups, None);
    Dropped(Copied(s, AllCopies(shared, profiles, mint), Pairs(profiles, shared), mint), IdsOf(shared))
  }

  /** Migration v16. */
  method SplitSharedGroups(db: DbPool, mint: Mint, seedIds: (string, Builtin) -> string)
    requires DistinctIds(db.groups) && FreshIds(mint, IdsOf(db.groups))
    requires DistinctProfiles(db.profiles)
    requires forall p, k, q, l :: seedIds(p, k) == seedIds(q, l) ==> p == q && k == l
    requires forall p, k, r :: r in db.rules ==> seedIds(p, k) != r.group
    modifies db`groups, db`rules, db`limits, db`adjustments, db`groupUsage
    ensures RowsOf(old(db.groups), None) == [] ==>
              && GroupTables(db.groups, db.rules, db.limits)
                 == SeededAll(old(GroupTables(db.groups, db.rules, db.limits)), db.profiles, seedIds)
              && db.adjustments == old(db.adjustments) && db.groupUsage == old(db.groupUsage)
    ensures RowsOf(old(db.groups), None) != [] ==> SnapshotOf(db) == Split(old(SnapshotOf(db)), db.profiles, mint)
  {
    var shared := RowsOf(db.groups, None);
    if shared == [] {
      SeedAll(db, seedIds);
    } else {
      RowsOfSelects(db.groups, None);
      assert IdsOf(shared) <= IdsOf(db.groups);
      CopyAll(db, shared, mint);
      DropShared(db, shared);
    }
  }
}

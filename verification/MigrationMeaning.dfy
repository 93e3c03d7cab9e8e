/** Migration v16 keeps what the groups meant: for every profile the copies stand for the shared
    groups, in the same order, with the same apps, limits, extra time and recorded time. */
module MigrationMeaning {
  import opened Apps
  import opened Store
  import opened AppGroups
  import opened GroupMigration
  import opened Wrappers

  /** A database before v16: every group is shared and every rule belongs to one. */
  ghost predicate AllShared(s: Snapshot) {
    && DistinctIds(s.groups)
    && (forall r :: r in s.groups ==> r.profile == None)
    && (forall r :: r in s.rules ==> r.group in IdsOf(s.groups))
  }

  lemma {:induction false} RowsOfShared(groups: seq<GroupRow>)
    requires forall r :: r in groups ==> r.profile == None
    ensures RowsOf(groups, None) == groups
  {
    if groups != [] { RowsOfShared(groups[1..]); }
  }

  lemma {:induction false} RowsOfAppend(a: seq<GroupRow>, b: seq<GroupRow>, profile: Option<string>)
    ensures RowsOf(a + b, profile) == RowsOf(a, profile) + RowsOf(b, profile)
  {
    if a == [] {
      assert a + b == b;
    } else {
      RowsOfAppend(a[1..], b, profile);
      assert (a + b)[1..] == a[1..] + b && (a + b)[0] == a[0];
      var first := if a[0].profile == profile then [a[0]] else [];
      assert RowsOf(a, profile) == first + RowsOf(a[1..], profile);
      assert RowsOf(a + b, profile) == first + (RowsOf(a[1..], profile) + RowsOf(b, profile));
    }
  }

  lemma {:induction false} RowsOfCopies(shared: seq<GroupRow>, q: string, p: string, mint: Mint)
    ensures RowsOf(Copies(shared, q, mint), Some(p)) == if p == q then Copies(shared, p, mint) else []
  {
    if shared != [] {
      RowsOfCopies(shared[1..], q, p, mint);
      assert Copies(shared, q, mint)[1..] == Copies(shared[1..], q, mint);
    }
  }

  lemma {:induction false} RowsOfAllCopies(shared: seq<GroupRow>, profiles: seq<string>, p: string, mint: Mint)
    requires DistinctProfiles(profiles)
    ensures RowsOf(AllCopies(shared, profiles, mint), Some(p)) == if p in profiles then Copies(shared, p, mint) else []
  {
    if profiles != [] {
      var init, last := profiles[..|profiles| - 1], profiles[|profiles| - 1];
      RowsOfAllCopies(shared, init, p, mint);
      RowsOfCopies(shared, last, p, mint);
      RowsOfAppend(AllCopies(shared, init, mint), Copies(shared, last, mint), Some(p));
      assert profiles == init + [last];
    }
  }

  lemma {:induction false} WithoutAppend(a: seq<GroupRow>, b: seq<GroupRow>, ids: set<string>)
    ensures Without(a + b, ids) == Without(a, ids) + Without(b, ids)
  {
    if b == [] {
      assert a + b == a;
    } else {
      WithoutAppend(a, b[..|b| - 1], ids);
      assert (a + b)[..|a + b| - 1] == a + b[..|b| - 1];
    }
  }

  lemma {:induction false} WithoutAll(rows: seq<GroupRow>, ids: set<string>)
    requires forall r :: r in rows ==> r.id in ids
    ensures Without(rows, ids) == []
  {
    if rows != [] { WithoutAll(rows[..|rows| - 1], ids); }
  }

  lemma {:induction false} WithoutUnused(rows: seq<GroupRow>, ids: set<string>)
    requires forall r :: r in rows ==> r.id !in ids
    ensures Without(rows, ids) == rows
  {
    if rows != [] { WithoutUnused(rows[..|rows| - 1], ids); }
  }

  lemma {:induction false} AllCopiesAreFresh(shared: seq<GroupRow>, profiles: seq<string>, mint: Mint, ids: set<string>, r: GroupRow)
    requires FreshIds(mint, ids) && r in AllCopies(shared, profiles, mint)
    ensures r.id !in ids && r.profile.Some?
  {
    if r !in Copies(shared, profiles[|profiles| - 1], mint) {
      AllCopiesAreFresh(shared, profiles[..|profiles| - 1], mint, ids, r);
    }
  }

  /** After the migration the groups are exactly the copies. */
  lemma OnlyCopiesRemain(s: Snapshot, profiles: seq<string>, mint: Mint)
    requires AllShared(s) && FreshIds(mint, IdsOf(s.groups))
    ensures Split(s, profiles, mint).groups == AllCopies(s.groups, profiles, mint)
  {
    var ids, copies := IdsOf(s.groups), AllCopies(s.groups, profiles, mint);
    RowsOfShared(s.groups);
    WithoutAppend(s.groups, copies, ids);
    WithoutAll(s.groups, ids);
    forall r | r in copies ensures r.id !in ids { AllCopiesAreFresh(s.groups, profiles, mint, ids, r); }
    WithoutUnused(copies, ids);
  }

  lemma {:induction false} InsertCopy(x: GroupRow, s: seq<GroupRow>, p: string, mint: Mint)
    ensures InsertRow(CopyRow(x, p, mint), Copies(s, p, mint)) == Copies(InsertRow(x, s), p, mint)
  {
    if s != [] && Before(s[0], x) {
      InsertCopy(x, s[1..], p, mint);
      assert Copies(s, p, mint)[1..] == Copies(s[1..], p, mint);
      assert Copies(s, p, mint)[0] == CopyRow(s[0], p, mint);
    }
  }

  lemma {:induction false} SortCopies(s: seq<GroupRow>, p: string, mint: Mint)
    ensures SortRows(Copies(s, p, mint)) == Copies(SortRows(s), p, mint)
  {
    if s != [] {
      SortCopies(s[1..], p, mint);
      InsertCopy(s[0], SortRows(s[1..]), p, mint);
      assert Copies(s, p, mint)[1..] == Copies(s[1..], p, mint);
    }
  }

  /** A profile lists its copies in the order the shared groups were listed in. */
  lemma CopiesAreListedAlike(s: Snapshot, profiles: seq<string>, mint: Mint, p: string)
    requires AllShared(s) && FreshIds(mint, IdsOf(s.groups)) && DistinctProfiles(profiles) && p in profiles
    ensures ListGroups(Split(s, profiles, mint).groups, p) == Copies(SortRows(s.groups), p, mint)
  {
    OnlyCopiesRemain(s, profiles, mint);
    RowsOfAllCopies(s.groups, profiles, p, mint);
    SortCopies(s.groups, p, mint);
  }

  /** A copy has exactly the rules of the group it copies. */
  lemma CopiesKeepTheirRules(s: Snapshot, profiles: seq<string>, mint: Mint, p: string, g: string)
    requires AllShared(s) && FreshIds(mint, IdsOf(s.groups)) && p in profiles && g in IdsOf(s.groups)
    ensures RulesOf(Split(s, profiles, mint).rules, mint(p, g)) == RulesOf(s.rules, g)
  {
    RowsOfShared(s.groups);
    var done, after := Pairs(profiles, s.groups), Split(s, profiles, mint).rules;
    assert (p, g) in done;
    forall r: GroupRule ensures RuleRow(mint(p, g), r) in after <==> RuleRow(g, r) in s.rules {
      if RuleRow(g, r) in s.rules {
        assert RuleRow(mint((p, g).0, (p, g).1), RuleRow(g, r).rule) in WithCopies(s.rules, done, mint);
      }
    }
  }

  /** The meaning is preserved: in every profile, every app's group is the profile's copy of the
      group it had. */
  lemma MeaningIsPreserved(s: Snapshot, profiles: seq<string>, mint: Mint, p: string, app: string, cats: seq<string>)
    requires AllShared(s) && FreshIds(mint, IdsOf(s.groups)) && DistinctProfiles(profiles) && p in profiles
    ensures var after := Split(s, profiles, mint);
            var before := GroupOf(SortRows(s.groups), s.rules, app, cats);
            GroupOf(ListGroups(after.groups, p), after.rules, app, cats)
            == if before.Some? then Some(mint(p, before.value)) else None
  {
    var after := Split(s, profiles, mint);
    var sorted := SortRows(s.groups);
    CopiesAreListedAlike(s, profiles, mint, p);
    SortKeepsDistinct(s.groups);
    var was, now := Order(sorted, s.rules), Order(Copies(sorted, p, mint), after.rules);
    forall i | 0 <= i < |sorted| ensures now[i] == (mint(p, was[i].0), was[i].1) {
      assert sorted[i] in s.groups;
      CopiesKeepTheirRules(s, profiles, mint, p, sorted[i].id);
    }
    AssignDependsOnMatches(was, now, app, cats);
  }

  /** A profile's limits, extra time and recorded time are the old rows under the renaming. */
  lemma ProfileRowsAreRenamed(s: Snapshot, profiles: seq<string>, mint: Mint, p: string)
    requires AllShared(s) && FreshIds(mint, IdsOf(s.groups)) && p in profiles
    ensures var after, done := Split(s, profiles, mint), Pairs(profiles, s.groups);
            && (set r | r in after.limits && r.profile == p)
               == Image((set r | r in s.limits && r.profile == p), LimitTo(done, mint))
            && (set r | r in after.adjustments && r.profile == p)
               == Image((set r | r in s.adjustments && r.profile == p), AdjustmentTo(done, mint))
            && (set r | r in after.usage && r.user in s.users && s.users[r.user] == p)
               == Image((set r | r in s.usage && r.user in s.users && s.users[r.user] == p), UsageTo(s.users, done, mint))
  {
    RowsOfShared(s.groups);
    var done := Pairs(profiles, s.groups);
    assert forall g :: g in IdsOf(s.groups) ==> (p, g) in done;
    assert forall g :: Renamed(done, mint, p, g) !in IdsOf(s.groups);
  }

  /** In particular a copy has exactly the limits its shared group had for the profile. */
  lemma CopiesKeepTheirLimits(s: Snapshot, profiles: seq<string>, mint: Mint, p: string, g: string, day: nat, minutes: int)
    requires AllShared(s) && FreshIds(mint, IdsOf(s.groups)) && p in profiles && g in IdsOf(s.groups)
    requires forall r :: r in s.limits ==> r.group in IdsOf(s.groups)
    ensures LimitRow(p, mint(p, g), day, minutes) in Split(s, profiles, mint).limits <==> LimitRow(p, g, day, minutes) in s.limits
  {
    ProfileRowsAreRenamed(s, profiles, mint, p);
    var done, row := Pairs(profiles, s.groups), LimitRow(p, g, day, minutes);
    var after := set r | r in Split(s, profiles, mint).limits && r.profile == p;
    var mine := set r | r in s.limits && r.profile == p;
    assert (p, g) in done;
    assert LimitTo(done, mint)(row) == row.(group := mint(p, g));
    if row.(group := mint(p, g)) in after {
      var r :| r in mine && LimitTo(done, mint)(r) == row.(group := mint(p, g));
      assert (p, r.group) in done;
    }
  }

  /** Nothing shared is left: no group without a profile and no row of a shared group. */
  lemma NothingSharedIsLeft(s: Snapshot, profiles: seq<string>, mint: Mint)
    requires AllShared(s) && FreshIds(mint, IdsOf(s.groups))
    ensures var after, ids := Split(s, profiles, mint), IdsOf(s.groups);
            && (forall r :: r in after.groups ==> r.profile.Some? && r.id !in ids)
            && (forall r :: r in after.rules ==> r.group !in ids)
            && (forall r :: r in after.limits ==> r.group !in ids)
            && (forall r :: r in after.adjustments ==> r.group !in ids)
            && (forall r :: r in after.usage ==> r.group !in ids)
  {
    RowsOfShared(s.groups);
    OnlyCopiesRemain(s, profiles, mint);
    forall r | r in Split(s, profiles, mint).groups ensures r.profile.Some? && r.id !in IdsOf(s.groups) {
      AllCopiesAreFresh(s.groups, profiles, mint, IdsOf(s.groups), r);
    }
  }
}

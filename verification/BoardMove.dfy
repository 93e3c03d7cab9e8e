/** Dragging an app to "Unmanaged" on the apps board (webui/app.py, `board_move`): it is taken out
    of one group after another until no group picks it up, in at most five rounds. */
module BoardMove {
  import opened Apps
  import opened Store
  import opened AppGroups
  import opened Membership
  import opened Approvals
  import opened AppsApi
  import opened Wrappers

  const ROUNDS: nat := 5

  /** The rules after at most `rounds` rounds, the first of which takes the app out of `from`.
      `listed`: the board shows the app, so the next group is known. */
  function TakeOut(rows: seq<GroupRow>, rules: set<RuleRow>, app: string, cats: seq<string>,
                   from: Option<string>, listed: bool, rounds: nat): set<RuleRow>
    decreases rounds
  {
    if rounds == 0 || from.None? || from.value == "" || !HasGroup(rows, from.value) then rules
    else
      var (after, ok) := Moved(rows, rules, from.value, app, cats, false);
      if !ok then after
      else TakeOut(rows, after, app, cats, if listed then GroupOf(rows, after, app, cats) else None, listed, rounds - 1)
  }

  /** An app the board does not show is taken out of one group only. */
  lemma UnlistedTakesOneRound(rows: seq<GroupRow>, rules: set<RuleRow>, app: string, cats: seq<string>, from: string, rounds: nat)
    requires rounds > 0 && from != "" && HasGroup(rows, from)
    ensures TakeOut(rows, rules, app, cats, Some(from), false, rounds) == Moved(rows, rules, from, app, cats, false).0
  {}

  /** Groups that name the app and do not exclude it. */
  function Naming(rows: seq<GroupRow>, rules: set<RuleRow>, app: string, cats: seq<string>): set<nat> {
    set i: nat | i < |rows| && Explicit(RulesOf(rules, rows[i].id), app, cats)
  }

  /** Groups that would match the app by category or prefix alone. */
  function Matching(rows: seq<GroupRow>, rules: set<RuleRow>, app: string, cats: seq<string>): set<nat> {
    set i: nat | i < |rows| && GroupMatches(RulesOf(rules, rows[i].id) - {Include(app)}, app, cats)
  }

  predicate IsFirst(i: nat, s: set<nat>) { i in s && forall j :: j in s ==> i <= j }

  predicate IsLast(i: nat, s: set<nat>) { i in s && forall j :: j in s ==> j <= i }

  /** The last group to name the app is also the first to match it: losing its entry and gaining
      an exclusion happen in one round. */
  predicate Merges(naming: set<nat>, matching: set<nat>) {
    exists i :: i in naming && IsLast(i, naming) && IsFirst(i, matching)
  }

  function Rounds(naming: set<nat>, matching: set<nat>): int {
    |naming| + |matching| - (if Merges(naming, matching) then 1 else 0)
  }

  /** Rounds needed until no group has the app: one per entry and one per match. */
  function RoundsNeeded(rows: seq<GroupRow>, rules: set<RuleRow>, app: string, cats: seq<string>): int {
    Rounds(Naming(rows, rules, app, cats), Matching(rows, rules, app, cats))
  }

  lemma MatchesOrNames(rows: seq<GroupRow>, rules: set<RuleRow>, app: string, cats: seq<string>, i: nat)
    requires i < |rows|
    ensures GroupMatches(RulesOf(rules, rows[i].id), app, cats)
        <==> i in Naming(rows, rules, app, cats) || i in Matching(rows, rules, app, cats)
  {}

  /** The assigned group is the first that names the app, else the first that matches it. */
  lemma CurrentGroup(rows: seq<GroupRow>, rules: set<RuleRow>, app: string, cats: seq<string>, i: nat)
    requires i < |rows|
    ensures AssignIndex(Order(rows, rules), app, cats) == i
        <==> var naming, matching := Naming(rows, rules, app, cats), Matching(rows, rules, app, cats);
             IsFirst(i, if naming != {} then naming else matching)
  {
    var naming, matching := Naming(rows, rules, app, cats), Matching(rows, rules, app, cats);
    forall j: nat | j < |rows|
      ensures GroupMatches(RulesOf(rules, rows[j].id), app, cats) <==> j in naming || j in matching
    {
      MatchesOrNames(rows, rules, app, cats, j);
    }
    var order := Order(rows, rules);
    assert forall j: nat :: j < |rows| ==> (j in naming <==> Explicit(order[j].1, app, cats));
    assert forall j: nat :: j < |rows| ==> (GroupMatches(order[j].1, app, cats) <==> j in naming || j in matching);
    AssignIndexIsTheWinner(order, app, cats, i);
    var first := if naming != {} then naming else matching;
    if IsFirst(i, first) {
      if naming == {} { assert i in matching && forall j: nat | j < i :: j !in matching; }
      assert Wins(order, app, cats, i);
    }
    if Wins(order, app, cats, i) {
      assert i in first;
      forall j | j in first ensures i <= j {
        assert j in naming <==> Explicit(order[j].1, app, cats);
      }
    }
  }

  lemma {:induction false} LastExists(s: set<nat>, x: nat) returns (i: nat)
    requires x in s
    ensures IsLast(i, s)
    decreases s
  {
    i := x;
    if z :| z in s - {x} {
      var y := LastExists(s - {x}, z);
      i := if x > y then x else y;
    }
    forall j | j in s ensures j <= i { assert j == x || j in s - {x}; }
  }

  /** One removal takes away exactly one entry, one match, or the two that merge. */
  lemma RemovalSets(rows: seq<GroupRow>, rules: set<RuleRow>, app: string, cats: seq<string>, k: nat)
    requires DistinctIds(rows) && k < |rows| && ParseAppId(app).Some? && Trimmed(app)
    requires AssignIndex(Order(rows, rules), app, cats) == k
    ensures var (after, ok) := Moved(rows, rules, rows[k].id, app, cats, false);
            var naming, matching := Naming(rows, rules, app, cats), Matching(rows, rules, app, cats);
            && ok
            && Naming(rows, after, app, cats) == naming - {k}
            && Matching(rows, after, app, cats)
               == if naming - {k} == {} && IsFirst(k, matching) then matching - {k} else matching
  {
    var group := rows[k].id;
    var cleared := Cleared(rows, rules, group, app, false);
    var after := Moved(rows, rules, group, app, cats, false).0;
    var naming, matching := Naming(rows, rules, app, cats), Matching(rows, rules, app, cats);
    CurrentGroup(rows, rules, app, cats, k);
    TrimTrims(app);
    assert RowIndex(rows, group) == k;
    ClearedSets(rows, rules, app, cats, k);
    CurrentGroup(rows, cleared, app, cats, k);
    GroupOfIsAssigned(rows, cleared, app, cats, group);
    if naming - {k} == {} && IsFirst(k, matching) {
      assert RuleRow(group, Exclude(app)) in after;
      ExcludedSets(rows, cleared, app, cats, k);
    }
  }

  lemma ClearedSets(rows: seq<GroupRow>, rules: set<RuleRow>, app: string, cats: seq<string>, k: nat)
    requires DistinctIds(rows) && k < |rows|
    ensures var cleared := Cleared(rows, rules, rows[k].id, app, false);
            && Naming(rows, cleared, app, cats) == Naming(rows, rules, app, cats) - {k}
            && Matching(rows, cleared, app, cats) == Matching(rows, rules, app, cats)
  {}

  lemma ExcludedSets(rows: seq<GroupRow>, rules: set<RuleRow>, app: string, cats: seq<string>, k: nat)
    requires DistinctIds(rows) && k < |rows| && k !in Naming(rows, rules, app, cats)
    ensures var after := rules - {RuleRow(rows[k].id, Include(app))} + {RuleRow(rows[k].id, Exclude(app))};
            && Naming(rows, after, app, cats) == Naming(rows, rules, app, cats)
            && Matching(rows, after, app, cats) == Matching(rows, rules, app, cats) - {k}
  {}

  lemma RemovalCount(naming: set<nat>, matching: set<nat>, k: nat)
    requires IsFirst(k, if naming != {} then naming else matching)
    ensures var left := naming - {k};
            Rounds(left, if left == {} && IsFirst(k, matching) then matching - {k} else matching)
            == Rounds(naming, matching) - 1
  {
    var left := naming - {k};
    if z :| z in left {
      assert |left| == |naming| - 1;
      var last := LastExists(left, z);
      assert forall j :: j in naming ==> j == k || j in left;
      assert last in naming && k <= last && IsLast(last, naming);
      MergesAtLast(naming, matching, last);
      MergesAtLast(left, matching, last);
    } else {
      assert left == {};
      assert naming == {k} || naming == {};
      if naming == {k} { MergesAtLast(naming, matching, k); }
      if IsFirst(k, matching) { assert |matching - {k}| == |matching| - 1; }
    }
  }

  lemma MergesAtLast(naming: set<nat>, matching: set<nat>, last: nat)
    requires IsLast(last, naming)
    ensures Merges(naming, matching) <==> IsFirst(last, matching)
  {}

  lemma TrimmedRemoval(rows: seq<GroupRow>, rules: set<RuleRow>, app: string, cats: seq<string>, group: string)
    requires DistinctIds(rows) && ParseAppId(app).Some? && Trimmed(app)
    requires GroupOf(rows, rules, app, cats) == Some(group)
    ensures var (after, ok) := Moved(rows, rules, group, app, cats, false);
            ok && RoundsNeeded(rows, after, app, cats) == RoundsNeeded(rows, rules, app, cats) - 1
  {
    var k := AssignIndex(Order(rows, rules), app, cats);
    assert rows[k].id == group;
    CurrentGroup(rows, rules, app, cats, k);
    RemovalSets(rows, rules, app, cats, k);
    RemovalCount(Naming(rows, rules, app, cats), Matching(rows, rules, app, cats), k);
  }

  /** No round is needed exactly when the app is in no group. */
  lemma DoneMeansUnmanaged(rows: seq<GroupRow>, rules: set<RuleRow>, app: string, cats: seq<string>)
    ensures RoundsNeeded(rows, rules, app, cats) >= 0
    ensures RoundsNeeded(rows, rules, app, cats) == 0 <==> GroupOf(rows, rules, app, cats) == None
  {
    var naming, matching := Naming(rows, rules, app, cats), Matching(rows, rules, app, cats);
    UnassignedMeansNoMatch(Order(rows, rules), app, cats);
    forall j: nat | j < |rows|
      ensures GroupMatches(Order(rows, rules)[j].1, app, cats) <==> j in naming || j in matching
    {
      MatchesOrNames(rows, rules, app, cats, j);
    }
    if naming != {} || matching != {} {
      var j :| j in naming + matching;
      assert GroupMatches(Order(rows, rules)[j].1, app, cats);
      if Merges(naming, matching) { assert |naming| >= 1 && |matching| >= 1; }
      else if naming == {} { assert |matching| >= 1; } else { assert |naming| >= 1; }
    }
  }

  /** The loop, started from the app's current group, leaves it in no group. */
  predicate EndsUnmanaged(rows: seq<GroupRow>, rules: set<RuleRow>, app: string, cats: seq<string>, rounds: nat) {
    GroupOf(rows, TakeOut(rows, rules, app, cats, GroupOf(rows, rules, app, cats), true, rounds), app, cats) == None
  }

  predicate NamedRows(rows: seq<GroupRow>) { forall r :: r in rows ==> r.id != "" }

  type Rules = set<RuleRow>

  /** What a round from the app's current group leaves. */
  function NextRound(rows: seq<GroupRow>, rules: Rules, app: string, cats: seq<string>): Option<Rules> {
    match GroupOf(rows, rules, app, cats)
    case None => None
    case Some(current) => Some(Moved(rows, rules, current, app, cats, false).0)
  }

  function Iterate(next: Rules -> Option<Rules>, r: Rules, rounds: nat): Rules
    decreases rounds
  {
    if rounds == 0 || next(r).None? then r else Iterate(next, next(r).value, rounds - 1)
  }

  /** `needed` counts the rounds still to go. */
  predicate CountsDown(next: Rules -> Option<Rules>, needed: Rules -> int, r: Rules) {
    match next(r)
    case None => needed(r) == 0
    case Some(after) => needed(r) > 0 && needed(after) == needed(r) - 1
  }

  lemma {:induction false} CountDown(next: Rules -> Option<Rules>, needed: Rules -> int, r: Rules, rounds: nat)
    requires forall s :: CountsDown(next, needed, s)
    ensures next(Iterate(next, r, rounds)).None? <==> needed(r) <= rounds
    decreases rounds
  {
    assert CountsDown(next, needed, r);
    if next(r).Some? && rounds > 0 { CountDown(next, needed, next(r).value, rounds - 1); }
  }

  /** The loop takes one round at a time, each from the app's current group. */
  predicate TakesOneRound(rows: seq<GroupRow>, rules: Rules, app: string, cats: seq<string>, rounds: nat, next: Option<Rules>) {
    TakeOut(rows, rules, app, cats, GroupOf(rows, rules, app, cats), true, rounds)
    == if rounds == 0 || next.None? then rules
       else TakeOut(rows, next.value, app, cats, GroupOf(rows, next.value, app, cats), true, rounds - 1)
  }

  lemma OneRound(rows: seq<GroupRow>, rules: Rules, app: string, cats: seq<string>, rounds: nat)
    requires DistinctIds(rows) && ParseAppId(app).Some? && Trimmed(app) && NamedRows(rows)
    ensures TakesOneRound(rows, rules, app, cats, rounds, NextRound(rows, rules, app, cats))
  {
    var current := GroupOf(rows, rules, app, cats);
    if current.Some? {
      var k := AssignIndex(Order(rows, rules), app, cats);
      assert rows[k] in rows && rows[k].id == current.value;
      TrimmedRemoval(rows, rules, app, cats, current.value);
    }
  }

  lemma {:induction false} TakeOutIterates(rows: seq<GroupRow>, rules: Rules, app: string, cats: seq<string>,
                                           next: Rules -> Option<Rules>, rounds: nat)
    requires forall rs, n: nat :: TakesOneRound(rows, rs, app, cats, n, next(rs))
    ensures TakeOut(rows, rules, app, cats, GroupOf(rows, rules, app, cats), true, rounds) == Iterate(next, rules, rounds)
    decreases rounds
  {
    assert TakesOneRound(rows, rules, app, cats, rounds, next(rules));
    if rounds > 0 && next(rules).Some? { TakeOutIterates(rows, next(rules).value, app, cats, next, rounds - 1); }
  }

  lemma RoundCounts(rows: seq<GroupRow>, rules: Rules, app: string, cats: seq<string>, next: Rules -> Option<Rules>, needed: Rules -> int)
    requires DistinctIds(rows) && ParseAppId(app).Some? && Trimmed(app)
    requires forall rs :: next(rs) == NextRound(rows, rs, app, cats) && needed(rs) == RoundsNeeded(rows, rs, app, cats)
    ensures CountsDown(next, needed, rules)
  {
    var current := GroupOf(rows, rules, app, cats);
    DoneMeansUnmanaged(rows, rules, app, cats);
    if current.Some? { TrimmedRemoval(rows, rules, app, cats, current.value); }
  }

  lemma TrimmedLoop(rows: seq<GroupRow>, rules: Rules, app: string, cats: seq<string>, rounds: nat)
    requires DistinctIds(rows) && ParseAppId(app).Some? && Trimmed(app) && NamedRows(rows)
    ensures EndsUnmanaged(rows, rules, app, cats, rounds) <==> RoundsNeeded(rows, rules, app, cats) <= rounds
  {
    var next := (rs: Rules) => NextRound(rows, rs, app, cats);
    var needed := (rs: Rules) => RoundsNeeded(rows, rs, app, cats);
    forall rs ensures CountsDown(next, needed, rs) { RoundCounts(rows, rs, app, cats, next, needed); }
    CountDown(next, needed, rules, rounds);
    forall rs, n: nat ensures TakesOneRound(rows, rs, app, cats, n, next(rs)) { OneRound(rows, rs, app, cats, n); }
    TakeOutIterates(rows, rules, app, cats, next, rounds);
  }

  /** The entries and matches an app has left: what the loop works off. */
  function Left(rows: seq<GroupRow>, rules: set<RuleRow>, app: string, cats: seq<string>): nat {
    |Naming(rows, rules, app, cats)| + |Matching(rows, rules, app, cats)|
  }

  lemma TrimmedDecreases(rows: seq<GroupRow>, rules: set<RuleRow>, app: string, cats: seq<string>, group: string)
    requires DistinctIds(rows) && ParseAppId(app).Some? && Trimmed(app)
    requires GroupOf(rows, rules, app, cats) == Some(group)
    ensures Left(rows, Moved(rows, rules, group, app, cats, false).0, app, cats) < Left(rows, rules, app, cats)
  {
    var k := AssignIndex(Order(rows, rules), app, cats);
    CurrentGroup(rows, rules, app, cats, k);
    RemovalSets(rows, rules, app, cats, k);
    var naming, matching := Naming(rows, rules, app, cats), Matching(rows, rules, app, cats);
    if k in naming { assert |naming - {k}| == |naming| - 1; } else { assert naming == {} && naming - {k} == {}; }
  }

  // ---- All ids ----------------------------------------------------------------------------

  lemma SetsDependOnOwnRules(rows: seq<GroupRow>, a: set<RuleRow>, b: set<RuleRow>, app: string, cats: seq<string>)
    requires AgreeOn(a, b, app)
    ensures Naming(rows, a, app, cats) == Naming(rows, b, app, cats) && Matching(rows, a, app, cats) == Matching(rows, b, app, cats)
  {
    forall i | 0 <= i < |rows|
      ensures Explicit(RulesOf(a, rows[i].id), app, cats) == Explicit(RulesOf(b, rows[i].id), app, cats)
      ensures GroupMatches(RulesOf(a, rows[i].id) - {Include(app)}, app, cats) == GroupMatches(RulesOf(b, rows[i].id) - {Include(app)}, app, cats)
    {
      forall r: GroupRule | Hits(r, app, cats) || r == Include(app)
        ensures r in RulesOf(a, rows[i].id) <==> r in RulesOf(b, rows[i].id)
      {
        assert RuleRow(rows[i].id, r) in a <==> RuleRow(rows[i].id, r) in b;
      }
    }
  }

  /** Taking the app out of its current group brings it one round closer exactly if its id is
      trimmed; for another id the entry stored is about a different app, and nothing changes. */
  lemma RemovalIsOneRound(rows: seq<GroupRow>, rules: set<RuleRow>, app: string, cats: seq<string>, group: string)
    requires DistinctIds(rows) && ParseAppId(app).Some? && TrimmedRules(rules)
    requires GroupOf(rows, rules, app, cats) == Some(group)
    ensures RoundsNeeded(rows, Moved(rows, rules, group, app, cats, false).0, app, cats)
         == RoundsNeeded(rows, rules, app, cats) - if Trimmed(app) then 1 else 0
  {
    if Trimmed(app) {
      TrimmedRemoval(rows, rules, app, cats, group);
    } else {
      UntrimmedStays(rows, rules, group, app, cats, false);
      SetsDependOnOwnRules(rows, rules, Moved(rows, rules, group, app, cats, false).0, app, cats);
    }
  }

  /** A removal strictly decreases what is left exactly if the id is trimmed. */
  lemma RemovalDecreases(rows: seq<GroupRow>, rules: set<RuleRow>, app: string, cats: seq<string>, group: string)
    requires DistinctIds(rows) && ParseAppId(app).Some? && TrimmedRules(rules)
    requires GroupOf(rows, rules, app, cats) == Some(group)
    ensures Left(rows, Moved(rows, rules, group, app, cats, false).0, app, cats) < Left(rows, rules, app, cats) <==> Trimmed(app)
  {
    if Trimmed(app) {
      TrimmedDecreases(rows, rules, app, cats, group);
    } else {
      UntrimmedStays(rows, rules, group, app, cats, false);
      SetsDependOnOwnRules(rows, rules, Moved(rows, rules, group, app, cats, false).0, app, cats);
    }
  }

  /** What every removal keeps, the loop keeps. */
  lemma {:induction false} TakeOutKeeps(rows: seq<GroupRow>, rules: Rules, app: string, cats: seq<string>,
                                        from: Option<string>, rounds: nat, inv: Rules -> bool)
    requires inv(rules)
    requires forall rs, g :: inv(rs) ==> inv(Moved(rows, rs, g, app, cats, false).0)
    ensures inv(TakeOut(rows, rules, app, cats, from, true, rounds))
    decreases rounds
  {
    if rounds > 0 && from.Some? && from.value != "" && HasGroup(rows, from.value) {
      var (after, ok) := Moved(rows, rules, from.value, app, cats, false);
      assert inv(Moved(rows, rules, from.value, app, cats, false).0);
      if ok { TakeOutKeeps(rows, after, app, cats, GroupOf(rows, after, app, cats), rounds - 1, inv); }
    }
  }

  lemma UntrimmedNeverLeaves(rows: seq<GroupRow>, rules: Rules, app: string, cats: seq<string>, from: Option<string>, rounds: nat)
    requires TrimmedRules(rules) && !Trimmed(app)
    ensures GroupOf(rows, TakeOut(rows, rules, app, cats, from, true, rounds), app, cats) == GroupOf(rows, rules, app, cats)
  {
    var group := GroupOf(rows, rules, app, cats);
    var inv := (rs: Rules) => TrimmedRules(rs) && GroupOf(rows, rs, app, cats) == group;
    forall rs, g | inv(rs) ensures inv(Moved(rows, rs, g, app, cats, false).0) {
      UntrimmedStays(rows, rs, g, app, cats, false);
      MovingTrims(rows, rs, g, app, cats, false);
    }
    TakeOutKeeps(rows, rules, app, cats, from, rounds, inv);
  }

  /** The loop, started from the app's current group, leaves it unmanaged exactly when it was so
      already, or its id is trimmed and there are enough rounds. */
  lemma LoopEndsUnmanaged(rows: seq<GroupRow>, rules: set<RuleRow>, app: string, cats: seq<string>, rounds: nat)
    requires DistinctIds(rows) && ParseAppId(app).Some? && NamedRows(rows) && TrimmedRules(rules)
    ensures EndsUnmanaged(rows, rules, app, cats, rounds)
        <==> GroupOf(rows, rules, app, cats) == None || (Trimmed(app) && RoundsNeeded(rows, rules, app, cats) <= rounds)
  {
    DoneMeansUnmanaged(rows, rules, app, cats);
    if Trimmed(app) { TrimmedLoop(rows, rules, app, cats, rounds); }
    else { UntrimmedNeverLeaves(rows, rules, app, cats, GroupOf(rows, rules, app, cats), rounds); }
  }

  /** Five rounds are enough for five entries and matches. */
  lemma FiveRoundsAreEnough(rows: seq<GroupRow>, rules: set<RuleRow>, app: string, cats: seq<string>)
    requires DistinctIds(rows) && ParseAppId(app).Some? && NamedRows(rows) && TrimmedRules(rules)
    requires Left(rows, rules, app, cats) <= ROUNDS
    ensures EndsUnmanaged(rows, rules, app, cats, ROUNDS) <==> GroupOf(rows, rules, app, cats) == None || Trimmed(app)
  {
    LoopEndsUnmanaged(rows, rules, app, cats, ROUNDS);
  }

  function KnownCategories(db: DbPool, app: string): seq<string>
    reads db
  {
    if app in db.categories then db.categories[app] else []
  }

  /** One round; returns the group for the next one, if the loop goes on. */
  method TakeOutOnce(db: DbPool, profile: string, app: string, group: string, listed: bool, ghost left: nat)
    returns (next: Option<string>)
    requires ParseAppId(app).Some? && group != "" && left > 0
    modifies db`rules, db`approvals
    ensures var rows, cats := ListGroups(db.groups, profile), KnownCategories(db, app);
            TakeOut(rows, old(db.rules), app, cats, Some(group), listed, left)
            == TakeOut(rows, db.rules, app, cats, next, listed, left - 1)
  {
    var ok := MembershipCall(db, profile, group, app, false);
    if !ok { return None; }
    Seen(db, profile, app);
    next := if listed then GroupOf(ListGroups(db.groups, profile), db.rules, app, KnownCategories(db, app)) else None;
  }

  /** The loop itself, one membership call a round; with an invalid id the first call fails. */
  method MoveToUnmanaged(db: DbPool, profile: string, app: string, from: Option<string>, listed: bool)
    modifies db`rules, db`approvals
    ensures db.rules == if ParseAppId(app).None? then old(db.rules)
                        else TakeOut(ListGroups(db.groups, profile), old(db.rules), app,
                                     if app in db.categories then db.categories[app] else [], from, listed, 5)
  {
    if ParseAppId(app).None? { return; }
    var group, left := from, ROUNDS;
    ghost var rows, start, cats := ListGroups(db.groups, profile), db.rules, KnownCategories(db, app);
    while left > 0 && group.Some? && group.value != ""
      invariant TakeOut(rows, start, app, cats, from, listed, ROUNDS) == TakeOut(rows, db.rules, app, cats, group, listed, left)
    {
      group := TakeOutOnce(db, profile, app, group.value, listed, left);
      left := left - 1;
    }
  }
}

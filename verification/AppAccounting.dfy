/** App time per tick (crates/agent/src/app_usage.rs): whole seconds with a carried remainder, given
    once to every running app and once to every group that has one. */
module AppAccounting {
  import opened Apps
  import opened Wrappers

  // ---- Seconds per user -------------------------------------------------------------------

  /** Instants in milliseconds; the remainder per user is below a second. */
  datatype Clock = Clock(last: Option<nat>, carry: map<nat, nat>)

  /** `counting`: users whose session counts; `active`: users with an app running. */
  datatype Tick = Tick(now: nat, counting: set<nat>, active: set<nat>)

  const START := Clock(None, map[])

  /** Time since the last tick, at most two intervals. */
  function Elapsed(c: Clock, t: Tick, interval: nat): nat {
    if c.last.Some? && t.now >= c.last.value then Min(t.now - c.last.value, 2 * interval) else 0
  }

  function CarryOf(c: Clock, uid: nat): nat { if uid in c.carry then c.carry[uid] else 0 }

  function Kept(carry: map<nat, nat>, counting: set<nat>): map<nat, nat> { map u | u in carry && u in counting :: carry[u] }

  /** The clock after a tick; the first tick only starts it. */
  function Ticked(c: Clock, t: Tick, interval: nat): Clock {
    if c.last.None? then c.(last := Some(t.now))
    else
      var kept := Kept(c.carry, t.counting);
      Clock(Some(t.now), map u | u in kept.Keys + (t.active * t.counting) ::
                           if u in t.active && u in t.counting then (CarryOf(c, u) + Elapsed(c, t, interval)) % 1000 else kept[u])
  }

  /** Whole seconds the tick gives a user. */
  function Credit(c: Clock, t: Tick, uid: nat, interval: nat): nat {
    if c.last.Some? && uid in t.active && uid in t.counting then (CarryOf(c, uid) + Elapsed(c, t, interval)) / 1000 else 0
  }

  class Accounting {
    const interval: nat
    var lastTick: Option<nat>
    var carryMs: map<nat, nat>

    function Current(): Clock
      reads this
    {
      Clock(lastTick, carryMs)
    }

    constructor (interval: nat)
      ensures this.interval == interval && Current() == START
    {
      this.interval := interval;
      lastTick, carryMs := None, map[];
    }

    /** Whole seconds per user for this tick, for users that count and have something running. */
    method Seconds(now: nat, counting: set<nat>, active: set<nat>) returns (out: map<nat, nat>)
      modifies this
      ensures Current() == Ticked(old(Current()), Tick(now, counting, active), interval)
      ensures forall uid :: uid in out ==> out[uid] > 0
      ensures forall uid :: (if uid in out then out[uid] else 0) == Credit(old(Current()), Tick(now, counting, active), uid, interval)
      ensures lastTick == Some(now)
      ensures old(lastTick).None? ==> out == map[] && carryMs == old(carryMs)
      ensures old(lastTick).Some? ==> forall uid :: AccountsFor(uid, now, counting, active, old(lastTick).value, old(carryMs), carryMs, out)
    {
      var last := lastTick;
      lastTick := Some(now);
      out := map[];
      if last.None? { return; }
      var elapsed := if now >= last.value then Min(now - last.value, 2 * interval) else 0;
      ghost var c := old(Current());
      carryMs := Kept(carryMs, counting);
      out := GiveSeconds(counting, active, elapsed, c);
      TickAccounts(c, Tick(now, counting, active), out);
      hide AccountsFor;
    }

    /** What a tick does for one user: while counting with an app running, whole seconds of the time
        since the last tick (at most two intervals) and the remainder before; while counting without
        one, the remainder stays; otherwise it is dropped. */
    predicate AccountsFor(uid: nat, now: nat, counting: set<nat>, active: set<nat>, last: nat, before: map<nat, nat>, after: map<nat, nat>,
                          out: map<nat, nat>)
    {
      if uid !in counting then uid !in after && uid !in out
      else if uid !in active then (if uid in before then uid in after && after[uid] == before[uid] else uid !in after) && uid !in out
      else
        var gap := if now < last then 0 else if now - last < 2 * interval then now - last else 2 * interval;
        var total := gap + if uid in before then before[uid] else 0;
        var k := if uid in out then out[uid] else 0;
        1000 * k <= total < 1000 * (k + 1) && uid in after && after[uid] == total - 1000 * k
    }

    lemma TickAccounts(c: Clock, t: Tick, out: map<nat, nat>)
      requires c.last.Some? && forall uid :: uid in out ==> out[uid] > 0
      requires forall uid :: (if uid in out then out[uid] else 0) == Credit(c, t, uid, interval)
      ensures forall uid :: AccountsFor(uid, t.now, t.counting, t.active, c.last.value, c.carry, Ticked(c, t, interval).carry, out)
    {}

    method GiveSeconds(counting: set<nat>, active: set<nat>, elapsed: nat, ghost c: Clock) returns (out: map<nat, nat>)
      requires carryMs == Kept(c.carry, counting)
      modifies this`carryMs
      ensures carryMs == CarryMap(c, counting, active, elapsed)
      ensures out == CreditMap(c, counting, active, elapsed)
    {
      out := map[];
      var todo := active;
      ghost var done: set<nat> := {};
      while todo != {}
        invariant todo <= active && done == active - todo
        invariant carryMs == CarryMap(c, counting, done, elapsed)
        invariant out == CreditMap(c, counting, done, elapsed)
        decreases todo
      {
        var uid :| uid in todo;
        out := GiveUser(uid, elapsed, counting, out, c, done);
        todo, done := todo - {uid}, done + {uid};
      }
      assert done == active;
    }

    method GiveUser(uid: nat, elapsed: nat, counting: set<nat>, credit: map<nat, nat>, ghost c: Clock, ghost done: set<nat>)
      returns (out: map<nat, nat>)
      requires uid !in done && carryMs == CarryMap(c, counting, done, elapsed) && credit == CreditMap(c, counting, done, elapsed)
      modifies this`carryMs
      ensures carryMs == CarryMap(c, counting, done + {uid}, elapsed) && out == CreditMap(c, counting, done + {uid}, elapsed)
    {
      out := credit;
      OneMoreCarry(c, counting, done, uid, elapsed);
      OneMoreCredit(c, counting, done, uid, elapsed);
      if uid in counting {
        var total := (if uid in carryMs then carryMs[uid] else 0) + elapsed;
        carryMs := carryMs[uid := total % 1000];
        if total >= 1000 { out := out[uid := total / 1000]; }
      }
    }
  }

  /** Remainders once the users in `done` were given their seconds. */
  function CarryMap(c: Clock, counting: set<nat>, done: set<nat>, elapsed: nat): map<nat, nat> {
    map u | u in Kept(c.carry, counting).Keys + done * counting ::
      if u in done then (CarryOf(c, u) + elapsed) % 1000 else CarryOf(c, u)
  }

  function CreditMap(c: Clock, counting: set<nat>, done: set<nat>, elapsed: nat): map<nat, nat> {
    map u | u in done * counting && CarryOf(c, u) + elapsed >= 1000 :: (CarryOf(c, u) + elapsed) / 1000
  }

  lemma OneMoreCarry(c: Clock, counting: set<nat>, done: set<nat>, uid: nat, elapsed: nat)
    requires uid !in done
    ensures var carry := CarryMap(c, counting, done, elapsed);
            && CarryMap(c, counting, done + {uid}, elapsed)
               == (if uid in counting then carry[uid := (CarryOf(c, uid) + elapsed) % 1000] else carry)
            && (uid in counting ==> (if uid in carry then carry[uid] else 0) == CarryOf(c, uid))
  {}

  lemma OneMoreCredit(c: Clock, counting: set<nat>, done: set<nat>, uid: nat, elapsed: nat)
    requires uid !in done
    ensures var total := CarryOf(c, uid) + elapsed;
            var credit := CreditMap(c, counting, done, elapsed);
            CreditMap(c, counting, done + {uid}, elapsed)
            == if uid in counting && total >= 1000 then credit[uid := total / 1000] else credit
  {}

  // ---- Conservation -----------------------------------------------------------------------

  function Run(ticks: seq<Tick>, n: nat, interval: nat): Clock
    requires n <= |ticks|
  {
    if n == 0 then START else Ticked(Run(ticks, n - 1, interval), ticks[n - 1], interval)
  }

  /** Seconds credited to a user by the ticks from `m` to `n`. */
  function Credited(ticks: seq<Tick>, m: nat, n: nat, uid: nat, interval: nat): nat
    requires m <= n <= |ticks|
  {
    if m == n then 0
    else Credited(ticks, m, n - 1, uid, interval) + Credit(Run(ticks, n - 1, interval), ticks[n - 1], uid, interval)
  }

  /** The capped elapsed time of those of the ticks that found an app of the user running. */
  function Active(ticks: seq<Tick>, m: nat, n: nat, uid: nat, interval: nat): nat
    requires m <= n <= |ticks|
  {
    if m == n then 0
    else
      Active(ticks, m, n - 1, uid, interval)
      + if uid in ticks[n - 1].active then Elapsed(Run(ticks, n - 1, interval), ticks[n - 1], interval) else 0
  }

  lemma TickConserves(c: Clock, t: Tick, uid: nat, interval: nat)
    requires uid in t.counting
    ensures 1000 * Credit(c, t, uid, interval) + CarryOf(Ticked(c, t, interval), uid)
         == CarryOf(c, uid) + if uid in t.active then Elapsed(c, t, interval) else 0
  {}

  /** App time is conserved while a user keeps counting: what is credited, plus the remainder, is
      the time that passed; the remainder stays below a second. */
  lemma {:induction false} TimeIsConserved(ticks: seq<Tick>, m: nat, n: nat, uid: nat, interval: nat)
    requires m <= n <= |ticks| && forall i :: m <= i < n ==> uid in ticks[i].counting
    ensures 1000 * Credited(ticks, m, n, uid, interval) + CarryOf(Run(ticks, n, interval), uid)
         == CarryOf(Run(ticks, m, interval), uid) + Active(ticks, m, n, uid, interval)
  {
    if m < n {
      TimeIsConserved(ticks, m, n - 1, uid, interval);
      TickConserves(Run(ticks, n - 1, interval), ticks[n - 1], uid, interval);
    }
  }

  lemma {:induction false} CarryIsBelowASecond(ticks: seq<Tick>, n: nat, uid: nat, interval: nat)
    requires n <= |ticks|
    ensures CarryOf(Run(ticks, n, interval), uid) < 1000
    ensures Run(ticks, n, interval).last == if n == 0 then None else Some(ticks[n - 1].now)
    ensures Run(ticks, n, interval).last.None? ==> Run(ticks, n, interval).carry == map[]
  {
    if n > 0 { CarryIsBelowASecond(ticks, n - 1, uid, interval); }
  }

  /** Counting afresh: a tick at which the user does not count drops the remainder, so from there
      on nothing earlier is credited. */
  lemma ConservedFromAFreshStart(ticks: seq<Tick>, m: nat, n: nat, uid: nat, interval: nat)
    requires m <= n <= |ticks| && forall i :: m <= i < n ==> uid in ticks[i].counting
    requires m == 0 || uid !in ticks[m - 1].counting
    ensures 1000 * Credited(ticks, m, n, uid, interval) + CarryOf(Run(ticks, n, interval), uid) == Active(ticks, m, n, uid, interval)
    ensures CarryOf(Run(ticks, n, interval), uid) < 1000
  {
    TimeIsConserved(ticks, m, n, uid, interval);
    CarryIsBelowASecond(ticks, n, uid, interval);
    if m > 0 { CarryIsBelowASecond(ticks, m - 1, uid, interval); }
  }

  // ---- Groups -----------------------------------------------------------------------------

  /** What a user runs at a tick: the apps, their categories, and the groups of the profile. */
  datatype Running = Running(apps: set<string>, cats: map<string, seq<string>>, order: RuleList)

  function GroupOfApp(r: Running, app: string): Option<string> {
    AssignGroup(r.order, app, if app in r.cats then r.cats[app] else [])
  }

  function GroupsRunning(r: Running): set<string> {
    set a | a in r.apps && GroupOfApp(r, a).Some? :: GroupOfApp(r, a).value
  }

  /** Each running app's one group gets the tick, once per group. */
  method CountGroups(r: Running, seconds: nat) returns (credit: map<string, nat>)
    ensures forall g :: g in credit <==> exists a :: a in r.apps && AssignGroup(r.order, a, if a in r.cats then r.cats[a] else []) == Some(g)
    ensures forall g :: g in credit ==> credit[g] == seconds
  {
    credit := map[];
    var todo := r.apps;
    while todo != {}
      invariant todo <= r.apps
      invariant forall g :: g in credit <==>
                  exists a :: a in r.apps - todo && AssignGroup(r.order, a, if a in r.cats then r.cats[a] else []) == Some(g)
      invariant forall g :: g in credit ==> credit[g] == seconds
      decreases todo
    {
      var a :| a in todo;
      var g := GroupOfApp(r, a);
      if g.Some? { credit := credit[g.value := seconds]; }
      todo := todo - {a};
    }
    assert r.apps - todo == r.apps;
  }

  /** Seconds of a user over a run of ticks, given to what `credited` selects. */
  function Total(seconds: seq<nat>, credited: seq<bool>): nat
    requires |seconds| == |credited|
  {
    if seconds == [] then 0
    else Total(seconds[..|seconds| - 1], credited[..|credited| - 1]) + if credited[|credited| - 1] then seconds[|seconds| - 1] else 0
  }

  /** Every second of a tick that counts is in the total, and nothing else is. */
  lemma {:induction false} TotalAddsUp(seconds: seq<nat>, credited: seq<bool>, x: nat, counts: bool)
    requires |seconds| == |credited|
    ensures Total([], []) == 0
    ensures Total(seconds + [x], credited + [counts]) == Total(seconds, credited) + if counts then x else 0
  {
    assert (seconds + [x])[..|seconds|] == seconds && (credited + [counts])[..|credited|] == credited;
  }

  function InGroup(runs: seq<Running>, group: string): seq<bool> {
    seq(|runs|, i requires 0 <= i < |runs| => group in GroupsRunning(runs[i]))
  }

  function HasApp(runs: seq<Running>, app: string): seq<bool> {
    seq(|runs|, i requires 0 <= i < |runs| => app in runs[i].apps)
  }

  lemma {:induction false} TotalIsMonotone(seconds: seq<nat>, a: seq<bool>, b: seq<bool>)
    requires |seconds| == |a| == |b| && forall i :: 0 <= i < |a| && a[i] ==> b[i]
    ensures Total(seconds, a) <= Total(seconds, b)
  {
    if seconds != [] { TotalIsMonotone(seconds[..|seconds| - 1], a[..|a| - 1], b[..|b| - 1]); }
  }

  /** Over any ticks a group gets at most the user's seconds, and at least those of every app that
      belongs to it whenever it runs: two members open at once do not count twice. */
  lemma GroupTimeIsBounded(seconds: seq<nat>, runs: seq<Running>, group: string, app: string)
    requires |seconds| == |runs|
    requires forall i :: 0 <= i < |runs| && app in runs[i].apps ==>
               AssignGroup(runs[i].order, app, if app in runs[i].cats then runs[i].cats[app] else []) == Some(group)
    ensures Total(seconds, HasApp(runs, app)) <= Total(seconds, InGroup(runs, group))
    ensures Total(seconds, InGroup(runs, group)) <= Total(seconds, seq(|runs|, i => true))
  {
    TotalIsMonotone(seconds, HasApp(runs, app), InGroup(runs, group));
    TotalIsMonotone(seconds, InGroup(runs, group), seq(|runs|, i => true));
  }
}

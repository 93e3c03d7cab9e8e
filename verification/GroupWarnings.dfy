/** Warning before a group's time is up (crates/agent/src/app_limits.rs, `due_warnings`): at most
    once per threshold, until the time left rises above it again. */
module GroupWarnings {
  import opened AppLimits
  import opened Wrappers

  /** Whole minutes left, rounded up. */
  function MinutesLeft(s: GroupStatus): nat { ((if s.remainingSeconds > 0 then s.remainingSeconds else 0) + 59) / 60 }

  /** Only groups in use are warned about; one out of time gets its apps closed instead. */
  predicate MayWarn(s: GroupStatus, inUse: set<string>) { !s.IsExhausted() && !s.IsBlocked() && s.groupId in inUse }

  /** The minutes left are the seconds left, rounded up; none when the time is up. */
  lemma MinutesLeftMeans(s: GroupStatus)
    ensures s.remainingSeconds <= 0 ==> MinutesLeft(s) == 0
    ensures s.remainingSeconds > 0 ==> 60 * (MinutesLeft(s) - 1) < s.remainingSeconds <= 60 * MinutesLeft(s)
  {}

  function Kept(fired: set<nat>, left: nat): set<nat> { set t | t in fired && left <= t }

  /** The thresholds reached that have not fired. */
  function Crossed(thresholds: seq<nat>, left: nat, fired: set<nat>): set<nat> { set t | t in thresholds && left <= t && t !in fired }

  predicate Warns(fired: set<nat>, s: GroupStatus, inUse: set<string>, thresholds: seq<nat>) {
    MayWarn(s, inUse) && Crossed(thresholds, MinutesLeft(s), Kept(fired, MinutesLeft(s))) != {}
  }

  function FiredAfter(fired: set<nat>, s: GroupStatus, inUse: set<string>, thresholds: seq<nat>): set<nat> {
    var kept := Kept(fired, MinutesLeft(s));
    if MayWarn(s, inUse) then kept + Crossed(thresholds, MinutesLeft(s), kept) else kept
  }

  type Notified = map<string, set<nat>>

  function FiredOf(notified: Notified, group: string): set<nat> { if group in notified then notified[group] else {} }

  ghost predicate DistinctGroups(status: seq<GroupStatus>) {
    forall i, j :: 0 <= i < j < |status| ==> status[i].groupId != status[j].groupId
  }

  class Warner {
    var notified: Notified

    constructor ()
      ensures notified == map[]
    {
      notified := map[];
    }

    /** The thresholds of one group; returns whether to warn. */
    method Look(g: GroupStatus, inUse: set<string>, thresholds: seq<nat>) returns (warn: bool)
      modifies this
      ensures notified == old(notified)[g.groupId := FiredAfter(FiredOf(old(notified), g.groupId), g, inUse, thresholds)]
      ensures warn == Warns(FiredOf(old(notified), g.groupId), g, inUse, thresholds)
    {
      var left := MinutesLeft(g);
      var fired := if g.groupId in notified then notified[g.groupId] else {};
      fired := Kept(fired, left);
      warn := false;
      if !g.IsExhausted() && !g.IsBlocked() && g.groupId in inUse {
        var crossed := Crossed(thresholds, left, fired);
        warn := crossed != {};
        fired := fired + crossed;
      }
      notified := notified[g.groupId := fired];
    }

    /** The warnings to give now, as group and minutes left: exactly for the groups that warn. */
    method DueWarnings(status: seq<GroupStatus>, inUse: set<string>, thresholds: seq<nat>) returns (out: seq<(string, nat)>)
      requires DistinctGroups(status)
      modifies this
      ensures forall g :: g in status ==> FiredOf(notified, g.groupId) == FiredAfter(FiredOf(old(notified), g.groupId), g, inUse, thresholds)
      ensures forall id :: (forall g :: g in status ==> g.groupId != id) ==> FiredOf(notified, id) == FiredOf(old(notified), id)
      ensures forall w :: w in out <==> exists g :: g in status && w == (g.groupId, MinutesLeft(g))
                                                    && Warns(FiredOf(old(notified), g.groupId), g, inUse, thresholds)
    {
      out := [];
      ghost var start := notified;
      for i := 0 to |status|
        invariant forall g :: g in status[..i] ==> FiredOf(notified, g.groupId) == FiredAfter(FiredOf(start, g.groupId), g, inUse, thresholds)
        invariant forall id :: (forall g :: g in status[..i] ==> g.groupId != id) ==> FiredOf(notified, id) == FiredOf(start, id)
        invariant forall w :: w in out <==> exists g :: g in status[..i] && w == (g.groupId, MinutesLeft(g))
                                                        && Warns(FiredOf(start, g.groupId), g, inUse, thresholds)
      {
        assert status[..i + 1] == status[..i] + [status[i]];
        assert forall g :: g in status[..i] ==> g.groupId != status[i].groupId;
        var warn := Look(status[i], inUse, thresholds);
        if warn { out := out + [(status[i].groupId, MinutesLeft(status[i]))]; }
      }
      assert status[..|status|] == status;
    }
  }

  // ---- Every run --------------------------------------------------------------------------

  /** One group at one tick. */
  datatype Tick = Tick(status: GroupStatus, inUse: set<string>, thresholds: seq<nat>)

  function Left(ticks: seq<Tick>, i: nat): nat
    requires i < |ticks|
  {
    MinutesLeft(ticks[i].status)
  }

  function Fired(ticks: seq<Tick>, n: nat): set<nat>
    requires n <= |ticks|
  {
    if n == 0 then {} else FiredAfter(Fired(ticks, n - 1), ticks[n - 1].status, ticks[n - 1].inUse, ticks[n - 1].thresholds)
  }

  predicate WarnsAt(ticks: seq<Tick>, n: nat) {
    n < |ticks| && Warns(Fired(ticks, n), ticks[n].status, ticks[n].inUse, ticks[n].thresholds)
  }

  /** At tick `j` the group could be warned about and threshold `t` was reached. */
  predicate Reached(ticks: seq<Tick>, j: nat, t: nat) {
    && j < |ticks| && t in ticks[j].thresholds && Left(ticks, j) <= t
    && ticks[j].status.remainingSeconds > 0 && ticks[j].status.limitMinutes != 0 && ticks[j].status.groupId in ticks[j].inUse
  }

  /** Threshold `t` was reached at `j` and the time left has not been above it since. */
  ghost predicate HeldSince(ticks: seq<Tick>, j: nat, n: nat, t: nat) {
    j < n <= |ticks| && Reached(ticks, j, t) && forall k :: j < k < n ==> Left(ticks, k) <= t
  }

  /** What fired is what was reached and has held since. */
  lemma {:induction false} FiredIsExact(ticks: seq<Tick>, n: nat, t: nat)
    requires n <= |ticks|
    ensures t in Fired(ticks, n) <==> exists j: nat :: HeldSince(ticks, j, n, t)
  {
    if n > 0 {
      FiredIsExact(ticks, n - 1, t);
      if t in Fired(ticks, n) {
        if t in Fired(ticks, n - 1) {
          var j: nat :| HeldSince(ticks, j, n - 1, t);
          assert HeldSince(ticks, j, n, t);
        } else {
          assert HeldSince(ticks, n - 1, n, t);
        }
      }
      if j: nat :| HeldSince(ticks, j, n, t) {
        if j < n - 1 {
          assert HeldSince(ticks, j, n - 1, t) && Left(ticks, n - 1) <= t;
        } else {
          assert Reached(ticks, n - 1, t);
        }
      }
    }
  }

  /** When there is a warning: exactly when the group may be warned about and some threshold is
      reached that was not reached before, or that the time left rose above in between. */
  lemma WarningIsExact(ticks: seq<Tick>, n: nat)
    requires n < |ticks|
    ensures WarnsAt(ticks, n) <==> exists t: nat :: Reached(ticks, n, t) && !exists j: nat :: HeldSince(ticks, j, n, t)
  {
    forall t: nat ensures t in Fired(ticks, n) <==> exists j: nat :: HeldSince(ticks, j, n, t) { FiredIsExact(ticks, n, t); }
    var crossed := Crossed(ticks[n].thresholds, Left(ticks, n), Kept(Fired(ticks, n), Left(ticks, n)));
    if t: nat :| Reached(ticks, n, t) && !exists j: nat :: HeldSince(ticks, j, n, t) { assert t in crossed; }
    if WarnsAt(ticks, n) {
      var t :| t in crossed;
      assert Reached(ticks, n, t);
    }
  }

  /** No nagging: while no time is added, a second warning means another threshold was passed. */
  lemma SecondWarningIsTighter(ticks: seq<Tick>, m: nat, n: nat)
    requires m < n < |ticks| && WarnsAt(ticks, m) && WarnsAt(ticks, n)
    requires ticks[m].thresholds == ticks[n].thresholds
    requires forall k :: m < k <= n ==> Left(ticks, k) <= Left(ticks, m)
    ensures exists t :: t in ticks[n].thresholds && Left(ticks, n) <= t < Left(ticks, m)
  {
    WarningIsExact(ticks, n);
    var t: nat :| Reached(ticks, n, t) && !exists j: nat :: HeldSince(ticks, j, n, t);
    if Left(ticks, m) <= t { assert HeldSince(ticks, m, n, t); }
  }
}

/** Remaining time per app group (crates/agent/src/app_limits.rs). */
module AppLimits {
  import opened Apps
  import opened Store
  import opened Wrappers

  /** A group as the server pushes it to the agent; limits are (weekday, minutes). */
  datatype GroupConfig = GroupConfig(id: string, name: string, builtin: Option<Builtin>, rules: set<GroupRule>,
                                     dailyLimits: seq<(nat, nat)>, adjustmentToday: int)

  datatype GroupStatus = GroupStatus(groupId: string, name: string, limitMinutes: nat, usedSeconds: nat, remainingSeconds: int)
  {
    predicate IsBlocked() { limitMinutes == 0 }
    predicate IsExhausted() { remainingSeconds <= 0 }
  }

  function LimitOn(limits: seq<(nat, nat)>, weekday: nat): Option<nat> {
    if limits == [] then None
    else if limits[0].0 == weekday then Some(limits[0].1)
    else LimitOn(limits[1..], weekday)
  }

  function GetOr<V>(m: map<string, V>, key: string, default: V): V {
    if key in m then m[key] else default
  }

  function StatusOf(g: GroupConfig, limit: nat, used: nat, adjustment: int): GroupStatus {
    // a blocked day stays blocked: extra time is for groups with time
    var allowed := if limit == 0 then 0 else if limit + adjustment < 0 then 0 else limit + adjustment;
    GroupStatus(g.id, g.name, limit, used, allowed * 60 - used)
  }

  /** Status of every group that has a limit on `weekday`. */
  function GroupStatuses(groups: seq<GroupConfig>, weekday: nat, localUsed: map<string, nat>, elsewhere: map<string, nat>,
                  adjustments: map<string, int>): seq<GroupStatus>
  {
    if groups == [] then []
    else
      var g := groups[0];
      var rest := GroupStatuses(groups[1..], weekday, localUsed, elsewhere, adjustments);
      match LimitOn(g.dailyLimits, weekday)
      case None => rest
      case Some(limit) =>
        [StatusOf(g, limit, GetOr(localUsed, g.id, 0) + GetOr(elsewhere, g.id, 0), GetOr(adjustments, g.id, 0))] + rest
  }

  /** A group is reported exactly when it has a limit that day, and it is out of time exactly when
      the day is blocked or the time used, here and elsewhere, reaches the adjusted limit. */
  lemma {:induction false} StatusIsOfLimitedGroups(groups: seq<GroupConfig>, weekday: nat, localUsed: map<string, nat>,
                                                   elsewhere: map<string, nat>, adjustments: map<string, int>, s: GroupStatus)
    ensures s in GroupStatuses(groups, weekday, localUsed, elsewhere, adjustments)
        <==> exists g :: g in groups && LimitOn(g.dailyLimits, weekday).Some?
               && s == StatusOf(g, LimitOn(g.dailyLimits, weekday).value,
                                GetOr(localUsed, g.id, 0) + GetOr(elsewhere, g.id, 0), GetOr(adjustments, g.id, 0))
  {
    if groups != [] {
      StatusIsOfLimitedGroups(groups[1..], weekday, localUsed, elsewhere, adjustments, s);
      assert groups == [groups[0]] + groups[1..];
    }
  }

  lemma OutOfTime(g: GroupConfig, limit: nat, used: nat, adjustment: int)
    ensures StatusOf(g, limit, used, adjustment).IsExhausted()
        <==> limit == 0 || limit + adjustment <= 0 || used >= 60 * (limit + adjustment)
    ensures StatusOf(g, limit, used, adjustment).IsBlocked() <==> limit == 0
    ensures StatusOf(g, limit, used, adjustment).IsBlocked() ==> StatusOf(g, limit, used, adjustment).IsExhausted()
  {}

  /** The limit of a day is its first entry, if there is one. */
  lemma {:induction false} LimitOnMeans(limits: seq<(nat, nat)>, weekday: nat)
    ensures LimitOn(limits, weekday).None? <==> forall i :: 0 <= i < |limits| ==> limits[i].0 != weekday
    ensures forall i :: 0 <= i < |limits| && limits[i].0 == weekday && (forall j :: 0 <= j < i ==> limits[j].0 != weekday) ==>
              LimitOn(limits, weekday) == Some(limits[i].1)
  {
    if limits != [] {
      LimitOnMeans(limits[1..], weekday);
      assert limits == [limits[0]] + limits[1..];
    }
  }

  /** What is reported about a group: used is the time used here and elsewhere, and what remains is the
      limit with the extra time, in seconds, less that; on a blocked day extra time adds nothing. */
  lemma StatusMeans(g: GroupConfig, weekday: nat, here: map<string, nat>, elsewhere: map<string, nat>, extra: map<string, int>)
    requires LimitOn(g.dailyLimits, weekday).Some?
    ensures var limit := LimitOn(g.dailyLimits, weekday).value;
            var used := (if g.id in here then here[g.id] else 0) + (if g.id in elsewhere then elsewhere[g.id] else 0);
            var adjusted := if limit == 0 then 0 else limit + if g.id in extra then extra[g.id] else 0;
            GroupStatuses([g], weekday, here, elsewhere, extra)
            == [GroupStatus(g.id, g.name, limit, used, (if adjusted < 0 then 0 else adjusted) * 60 - used)]
  {
    assert [g][1..] == [];
  }
}

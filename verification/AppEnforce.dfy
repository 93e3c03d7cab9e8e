/** Which processes to close, and why (crates/agent/src/app_enforce.rs, `targets`). */
module AppEnforce {
  import opened Apps
  import opened AppLimits
  import opened Wrappers

  datatype RunningProc = RunningProc(pid: nat, ppid: nat, autostart: bool, startTicks: nat, uid: nat, appId: AppId,
                                     comm: string, exe: Option<string>)

  datatype Reason = Limit | GroupBlocked | NeedsApproval | NotAllowed
  {
    predicate Immediate() { !Limit? }
  }

  /** `top`: its parent is not the same app, so it is the one to get SIGTERM. */
  datatype Target = Target(pid: nat, startTicks: nat, top: bool, uid: nat, appId: AppId, key: string, groupName: string,
                           appName: string, reason: Reason)

  datatype ApprovalConfig = ApprovalConfig(approved: seq<string>, denied: seq<string>)

  datatype Shown = Shown(name: string, categories: seq<string>)

  /** What the agent holds when it looks for processes to close. */
  datatype Context = Context(status: map<nat, seq<GroupStatus>>, groups: map<nat, seq<GroupConfig>>,
                             approval: map<nat, ApprovalConfig>, names: map<(nat, AppId), Shown>, managed: set<nat>)

  predicate Contains(s: string, part: string) {
    exists i :: 0 <= i <= |s| && part <= s[i..]
  }

  predicate IsOwn(p: RunningProc) {
    Contains(p.comm, "screenguard") || (p.exe.Some? && Contains(p.exe.value, "screenguard"))
  }

  function OrderOf(groups: seq<GroupConfig>): RuleList {
    seq(|groups|, i requires 0 <= i < |groups| => (groups[i].id, groups[i].rules))
  }

  /** The first exhausted group with the given id. */
  function ExhaustedGroup(status: seq<GroupStatus>, group: Option<string>): Option<GroupStatus> {
    if status == [] then None
    else if status[0].IsExhausted() && Some(status[0].groupId) == group then Some(status[0])
    else ExhaustedGroup(status[1..], group)
  }

  function CategoriesOf(ctx: Context, p: RunningProc): seq<string> {
    if (p.uid, p.appId) in ctx.names then ctx.names[(p.uid, p.appId)].categories else []
  }

  function NameOf(ctx: Context, p: RunningProc): string {
    if (p.uid, p.appId) in ctx.names then ctx.names[(p.uid, p.appId)].name else p.appId.name
  }

  /** The process as a target, if it has to be closed. */
  function TargetOf(ctx: Context, p: RunningProc): Option<Target> {
    var id := Display(p.appId);
    if p.uid < 1000 || p.uid !in ctx.managed || IsOwn(p) then None
    else if p.uid in ctx.approval && !p.autostart && id !in ctx.approval[p.uid].approved then
      Some(Target(p.pid, p.startTicks, true, p.uid, p.appId, id, "", NameOf(ctx, p),
                  if id in ctx.approval[p.uid].denied then NotAllowed else NeedsApproval))
    else if p.uid !in ctx.status || p.uid !in ctx.groups then None
    else
      var group := AssignGroup(OrderOf(ctx.groups[p.uid]), id, CategoriesOf(ctx, p));
      match ExhaustedGroup(ctx.status[p.uid], group)
      case None => None
      case Some(s) =>
        Some(Target(p.pid, p.startTicks, true, p.uid, p.appId, s.groupId, s.name, NameOf(ctx, p),
                    if s.IsBlocked() then GroupBlocked else Limit))
  }

  function Collected(ctx: Context, procs: seq<RunningProc>): seq<Target> {
    if procs == [] then []
    else
      var t := TargetOf(ctx, procs[|procs| - 1]);
      Collected(ctx, procs[..|procs| - 1]) + (if t.Some? then [t.value] else [])
  }

  function AppsByPid(procs: seq<RunningProc>): map<nat, AppId> {
    if procs == [] then map[]
    else var p := procs[|procs| - 1]; AppsByPid(procs[..|procs| - 1])[p.pid := p.appId]
  }

  function ParentsByPid(procs: seq<RunningProc>): map<nat, nat> {
    if procs == [] then map[]
    else var p := procs[|procs| - 1]; ParentsByPid(procs[..|procs| - 1])[p.pid := p.ppid]
  }

  /** A target whose parent is a target of the same app is a helper, not the top. */
  predicate IsTop(t: Target, targeted: set<nat>, ofApp: map<nat, AppId>, parents: map<nat, nat>) {
    t.pid in parents ==> !(parents[t.pid] in targeted && parents[t.pid] in ofApp && ofApp[parents[t.pid]] == t.appId)
  }

  function PidsOf(ts: seq<Target>): set<nat> { set t | t in ts :: t.pid }

  function TargetsOf(ctx: Context, procs: seq<RunningProc>): seq<Target> {
    var ts := Collected(ctx, procs);
    seq(|ts|, i requires 0 <= i < |ts| =>
      if ts[i].pid in ParentsByPid(procs) then
        ts[i].(top := IsTop(ts[i], PidsOf(ts), AppsByPid(procs), ParentsByPid(procs)))
      else ts[i])
  }

  /** Processes to close. */
  method Targets(ctx: Context, procs: seq<RunningProc>) returns (out: seq<Target>)
    ensures out == TargetsOf(ctx, procs)
  {
    out := [];
    var ofApp: map<nat, AppId> := map[];
    var parents: map<nat, nat> := map[];
    for i := 0 to |procs|
      invariant out == Collected(ctx, procs[..i])
      invariant ofApp == AppsByPid(procs[..i]) && parents == ParentsByPid(procs[..i])
    {
      assert procs[..i + 1][..i] == procs[..i];
      var t := TargetOf(ctx, procs[i]);
      if t.Some? { out := out + [t.value]; }
      ofApp := ofApp[procs[i].pid := procs[i].appId];
      parents := parents[procs[i].pid := procs[i].ppid];
    }
    assert procs[..|procs|] == procs;
    ghost var collected := out;
    var targeted := PidsOf(out);
    for i := 0 to |out|
      invariant |out| == |collected|
      invariant forall j :: 0 <= j < |out| ==> out[j] == if j < i then TargetsOf(ctx, procs)[j] else collected[j]
    {
      if out[i].pid in parents {
        out := out[i := out[i].(top := IsTop(out[i], targeted, ofApp, parents))];
      }
    }
  }

  // ---- Who is closed ----------------------------------------------------------------------

  lemma {:induction false} ExhaustedGroupIsOne(status: seq<GroupStatus>, group: Option<string>)
    ensures var s := ExhaustedGroup(status, group);
            && (s.Some? ==> s.value in status && s.value.IsExhausted() && Some(s.value.groupId) == group)
            && (s.None? ==> forall x :: x in status && Some(x.groupId) == group ==> !x.IsExhausted())
  {
    if status != [] {
      assert status == [status[0]] + status[1..];
      ExhaustedGroupIsOne(status[1..], group);
    }
  }

  lemma ContainsMeans(s: string, part: string)
    ensures Contains(s, part) <==> exists before, after :: s == before + part + after
  {
    if Contains(s, part) {
      var i :| 0 <= i <= |s| && part <= s[i..];
      assert s == s[..i] + part + s[i..][|part|..];
    }
    if before, after :| s == before + part + after {
      assert s[|before|..] == part + after;
    }
  }

  /** A managed child's process, never a system account's and never ScreenGuard itself. */
  predicate MayBeClosed(ctx: Context, p: RunningProc) { p.uid >= 1000 && p.uid in ctx.managed && !IsOwn(p) }

  predicate IsUnapproved(ctx: Context, p: RunningProc) {
    p.uid in ctx.approval && !p.autostart && Display(p.appId) !in ctx.approval[p.uid].approved
  }

  /** The group the process's app belongs to, by the categories it is shown with, is out of time, with
      status `s`. */
  predicate IsOverLimit(ctx: Context, p: RunningProc, s: GroupStatus) {
    && p.uid in ctx.status && p.uid in ctx.groups && s in ctx.status[p.uid] && s.remainingSeconds <= 0
    && Some(s.groupId) == AssignGroup(OrderOf(ctx.groups[p.uid]), Display(p.appId),
                                      if (p.uid, p.appId) in ctx.names then ctx.names[(p.uid, p.appId)].categories else [])
  }

  /** ScreenGuard's own processes have its name in their own name or their path. */
  lemma OwnMeansNamed(p: RunningProc)
    ensures IsOwn(p) <==> || (exists before, after :: p.comm == before + "screenguard" + after)
                          || (p.exe.Some? && exists before, after :: p.exe.value == before + "screenguard" + after)
  {
    ContainsMeans(p.comm, "screenguard");
    if p.exe.Some? { ContainsMeans(p.exe.value, "screenguard"); }
  }

  /** Who is closed, and why: exactly the processes that may be closed and are not approved, or else
      whose app's one group is out of time; approval comes first. */
  lemma WhoIsClosed(ctx: Context, p: RunningProc)
    ensures TargetOf(ctx, p).Some? <==> MayBeClosed(ctx, p) && (IsUnapproved(ctx, p) || exists s :: IsOverLimit(ctx, p, s))
    ensures TargetOf(ctx, p).Some? ==>
              var t := TargetOf(ctx, p).value;
              && t.pid == p.pid && t.startTicks == p.startTicks && t.uid == p.uid && t.appId == p.appId
              && t.appName == (if (p.uid, p.appId) in ctx.names then ctx.names[(p.uid, p.appId)].name else p.appId.name)
              && (t.reason.NeedsApproval? || t.reason.NotAllowed? <==> IsUnapproved(ctx, p))
              && (t.reason.NotAllowed? <==> IsUnapproved(ctx, p) && Display(p.appId) in ctx.approval[p.uid].denied)
              && (IsUnapproved(ctx, p) ==> t.key == Display(p.appId) && t.groupName == "")
              && (!IsUnapproved(ctx, p) ==> exists s :: IsOverLimit(ctx, p, s) && t.key == s.groupId && t.groupName == s.name
                                                        && (t.reason.GroupBlocked? <==> s.limitMinutes == 0))
  {
    if p.uid in ctx.status && p.uid in ctx.groups {
      var group := AssignGroup(OrderOf(ctx.groups[p.uid]), Display(p.appId), CategoriesOf(ctx, p));
      ExhaustedGroupIsOne(ctx.status[p.uid], group);
      var s := ExhaustedGroup(ctx.status[p.uid], group);
      if s.Some? { assert IsOverLimit(ctx, p, s.value); }
    }
  }

  // ---- Who is the top ---------------------------------------------------------------------

  ghost predicate DistinctPids(procs: seq<RunningProc>) {
    forall i, j :: 0 <= i < j < |procs| ==> procs[i].pid != procs[j].pid
  }

  lemma {:induction false} MapsHoldTheProcs(procs: seq<RunningProc>, p: RunningProc)
    requires DistinctPids(procs) && p in procs
    ensures p.pid in AppsByPid(procs) && AppsByPid(procs)[p.pid] == p.appId
    ensures p.pid in ParentsByPid(procs) && ParentsByPid(procs)[p.pid] == p.ppid
  {
    var init, last := procs[..|procs| - 1], procs[|procs| - 1];
    if p != last {
      assert p in init;
      var k :| 0 <= k < |init| && init[k] == p;
      assert procs[k].pid != procs[|procs| - 1].pid;
      MapsHoldTheProcs(init, p);
    }
  }

  /** Exactly the processes that have to be closed are targets, each with its own reason. */
  lemma {:induction false} CollectedAreTheTargets(ctx: Context, procs: seq<RunningProc>, t: Target)
    ensures t in Collected(ctx, procs) <==> exists p :: p in procs && TargetOf(ctx, p) == Some(t)
  {
    if procs != [] {
      var init, last := procs[..|procs| - 1], procs[|procs| - 1];
      CollectedAreTheTargets(ctx, init, t);
      assert procs == init + [last];
    }
  }

  /** The process behind target `i`. */
  lemma ProcOf(ctx: Context, procs: seq<RunningProc>, i: nat) returns (p: RunningProc)
    requires i < |TargetsOf(ctx, procs)|
    ensures p in procs && TargetsOf(ctx, procs)[i].pid == p.pid && TargetsOf(ctx, procs)[i].appId == p.appId
    ensures TargetOf(ctx, p) == Some(Collected(ctx, procs)[i])
  {
    var t := Collected(ctx, procs)[i];
    CollectedAreTheTargets(ctx, procs, t);
    p :| p in procs && TargetOf(ctx, p) == Some(t);
  }

  /** A target is not the top exactly when its parent is a target of the same app. */
  lemma HelperMeansTargetedParent(ctx: Context, procs: seq<RunningProc>, i: nat, p: RunningProc)
    requires DistinctPids(procs) && i < |TargetsOf(ctx, procs)|
    requires p in procs && p.pid == TargetsOf(ctx, procs)[i].pid
    ensures var ts := TargetsOf(ctx, procs);
            !ts[i].top <==> exists j :: 0 <= j < |ts| && ts[j].pid == p.ppid && ts[j].appId == ts[i].appId
  {
    var ts, collected := TargetsOf(ctx, procs), Collected(ctx, procs);
    MapsHoldTheProcs(procs, p);
    if !ts[i].top {
      var t :| t in collected && t.pid == p.ppid;
      var j :| 0 <= j < |collected| && collected[j] == t;
      var q := ProcOf(ctx, procs, j);
      MapsHoldTheProcs(procs, q);
      assert ts[j].pid == p.ppid;
    }
    if j :| 0 <= j < |ts| && ts[j].pid == p.ppid && ts[j].appId == ts[i].appId {
      var q := ProcOf(ctx, procs, j);
      MapsHoldTheProcs(procs, q);
      assert collected[j] in collected && collected[j].pid == p.ppid;
    }
  }

  /** Target `j` is the parent of target `i` and belongs to the same app. */
  ghost predicate IsParent(procs: seq<RunningProc>, ts: seq<Target>, i: nat, j: nat) {
    && i < |ts| && j < |ts| && ts[i].appId == ts[j].appId
    && exists p :: p in procs && p.pid == ts[i].pid && p.ppid == ts[j].pid
  }

  /** The path follows parents through targets of the same app. */
  ghost predicate ParentPath(procs: seq<RunningProc>, ts: seq<Target>, path: seq<nat>) {
    && path != []
    && (forall k :: 0 <= k < |path| ==> path[k] < |ts|)
    && forall k :: 0 <= k < |path| - 1 ==> IsParent(procs, ts, path[k], path[k + 1])
  }

  lemma {:induction false} HelperReachesTop(procs: seq<RunningProc>, ts: seq<Target>, depth: nat -> nat, i: nat)
    returns (path: seq<nat>)
    requires i < |ts|
    requires forall i: nat :: i < |ts| && !ts[i].top ==> exists j: nat :: IsParent(procs, ts, i, j)
    requires forall i: nat, j: nat :: IsParent(procs, ts, i, j) ==> depth(ts[j].pid) < depth(ts[i].pid)
    ensures ParentPath(procs, ts, path) && path[0] == i && ts[path[|path| - 1]].top
    decreases depth(ts[i].pid)
  {
    if ts[i].top { return [i]; }
    var j: nat :| IsParent(procs, ts, i, j);
    var rest := HelperReachesTop(procs, ts, depth, j);
    hide IsParent;
    path := [i] + rest;
    forall k | 0 <= k < |path| - 1 ensures IsParent(procs, ts, path[k], path[k + 1]) {
      if k > 0 { assert path[k] == rest[k - 1] && path[k + 1] == rest[k]; }
    }
  }

  lemma HelperHasParent(ctx: Context, procs: seq<RunningProc>, i: nat)
    requires DistinctPids(procs) && i < |TargetsOf(ctx, procs)| && !TargetsOf(ctx, procs)[i].top
    ensures exists j: nat :: IsParent(procs, TargetsOf(ctx, procs), i, j)
  {
    var ts := TargetsOf(ctx, procs);
    var p := ProcOf(ctx, procs, i);
    HelperMeansTargetedParent(ctx, procs, i, p);
    var j: nat :| j < |ts| && ts[j].pid == p.ppid && ts[j].appId == ts[i].appId;
    assert IsParent(procs, ts, i, j);
  }

  /** Every closed app has someone to ask: when the parent relation has no cycle (`depth` grows
      from parent to child), every target leads to a top of its app. */
  lemma EveryTargetHasATop(ctx: Context, procs: seq<RunningProc>, depth: nat -> nat, i: nat) returns (path: seq<nat>)
    requires DistinctPids(procs) && i < |TargetsOf(ctx, procs)|
    requires forall p, q :: p in procs && q in procs && p.ppid == q.pid ==> depth(q.pid) < depth(p.pid)
    ensures ParentPath(procs, TargetsOf(ctx, procs), path) && path[0] == i
    ensures TargetsOf(ctx, procs)[path[|path| - 1]].top
  {
    var ts := TargetsOf(ctx, procs);
    forall i: nat | i < |ts| && !ts[i].top ensures exists j: nat :: IsParent(procs, ts, i, j) {
      HelperHasParent(ctx, procs, i);
    }
    forall i: nat, j: nat | IsParent(procs, ts, i, j) ensures depth(ts[j].pid) < depth(ts[i].pid) {
      var q := ProcOf(ctx, procs, j);
    }
    path := HelperReachesTop(procs, ts, depth, i);
  }

  // ---- Chains of parents ------------------------------------------------------------------

  ghost predicate PathFrom(procs: seq<RunningProc>, ts: seq<Target>, i: nat, path: seq<nat>) {
    ParentPath(procs, ts, path) && path[0] == i
  }

  ghost predicate ReachesTop(procs: seq<RunningProc>, ts: seq<Target>, i: nat) {
    exists path :: PathFrom(procs, ts, i, path) && ts[path[|path| - 1]].top
  }

  predicate NoRepeats(path: seq<nat>) { forall a, b :: 0 <= a < b < |path| ==> path[a] != path[b] }

  /** No chain of same-app parents from target `i` comes back to a target it passed. */
  ghost predicate NoCycle(procs: seq<RunningProc>, ts: seq<Target>, i: nat) {
    forall path :: PathFrom(procs, ts, i, path) ==> NoRepeats(path)
  }

  /** A target has at most one parent among the targets, and none exactly when it is a top. */
  ghost predicate ParentsFit(procs: seq<RunningProc>, ts: seq<Target>) {
    && (forall i: nat, j: nat, k: nat :: IsParent(procs, ts, i, j) && IsParent(procs, ts, i, k) ==> j == k)
    && (forall i: nat :: i < |ts| ==> (ts[i].top <==> !exists j: nat :: IsParent(procs, ts, i, j)))
  }

  lemma {:induction false} CollectedAreDistinct(ctx: Context, procs: seq<RunningProc>)
    requires DistinctPids(procs)
    ensures forall i, j :: 0 <= i < j < |Collected(ctx, procs)| ==> Collected(ctx, procs)[i].pid != Collected(ctx, procs)[j].pid
  {
    if procs != [] {
      var init, last := procs[..|procs| - 1], procs[|procs| - 1];
      CollectedAreDistinct(ctx, init);
      forall t | t in Collected(ctx, init) ensures t.pid != last.pid {
        CollectedAreTheTargets(ctx, init, t);
        var p :| p in init && TargetOf(ctx, p) == Some(t);
        var k :| 0 <= k < |init| && init[k] == p;
        assert procs[k].pid != procs[|procs| - 1].pid;
      }
    }
  }

  lemma TargetParentsFit(ctx: Context, procs: seq<RunningProc>)
    requires DistinctPids(procs)
    ensures ParentsFit(procs, TargetsOf(ctx, procs))
  {
    var ts := TargetsOf(ctx, procs);
    CollectedAreDistinct(ctx, procs);
    forall i: nat, j: nat, k: nat | IsParent(procs, ts, i, j) && IsParent(procs, ts, i, k) ensures j == k {
      var p :| p in procs && p.pid == ts[i].pid && p.ppid == ts[j].pid;
      var q :| q in procs && q.pid == ts[i].pid && q.ppid == ts[k].pid;
      MapsHoldTheProcs(procs, p);
      MapsHoldTheProcs(procs, q);
    }
    forall i: nat | i < |ts| ensures ts[i].top <==> !exists j: nat :: IsParent(procs, ts, i, j) {
      if !ts[i].top { HelperHasParent(ctx, procs, i); }
      if j: nat :| IsParent(procs, ts, i, j) {
        var p :| p in procs && p.pid == ts[i].pid && p.ppid == ts[j].pid;
        HelperMeansTargetedParent(ctx, procs, i, p);
      }
    }
  }

  /** There is only one chain from a target: it can be long, but it does not branch. */
  lemma {:induction false} PathsAgree(procs: seq<RunningProc>, ts: seq<Target>, i: nat, p: seq<nat>, q: seq<nat>, k: nat)
    requires ParentsFit(procs, ts) && PathFrom(procs, ts, i, p) && PathFrom(procs, ts, i, q) && k < |p| && k < |q|
    ensures p[k] == q[k]
  {
    if k > 0 {
      PathsAgree(procs, ts, i, p, q, k - 1);
      var j := k - 1;
      assert IsParent(procs, ts, p[j], p[j + 1]) && IsParent(procs, ts, q[j], q[j + 1]);
    }
  }

  lemma PathGoesOn(procs: seq<RunningProc>, ts: seq<Target>, path: seq<nat>, k: nat)
    requires ParentPath(procs, ts, path) && k < |path| - 1
    ensures exists j: nat :: IsParent(procs, ts, path[k], j)
  {
    assert IsParent(procs, ts, path[k], path[k + 1]);
  }

  lemma TopEndsThePath(procs: seq<RunningProc>, ts: seq<Target>, i: nat, p: seq<nat>, q: seq<nat>)
    requires ParentsFit(procs, ts) && PathFrom(procs, ts, i, p) && PathFrom(procs, ts, i, q) && ts[p[|p| - 1]].top
    ensures |q| <= |p|
  {
    if |p| < |q| {
      PathGoesOn(procs, ts, q, |p| - 1);
      PathsAgree(procs, ts, i, p, q, |p| - 1);
    }
  }

  lemma PathSuffix(procs: seq<RunningProc>, ts: seq<Target>, path: seq<nat>, a: nat)
    requires ParentPath(procs, ts, path) && a < |path|
    ensures PathFrom(procs, ts, path[a], path[a..])
  {
    var rest := path[a..];
    forall k | 0 <= k < |rest| - 1 ensures IsParent(procs, ts, rest[k], rest[k + 1]) {
      assert IsParent(procs, ts, path[a + k], path[a + k + 1]);
    }
  }

  lemma TopMeansNoCycle(procs: seq<RunningProc>, ts: seq<Target>, i: nat, p: seq<nat>, q: seq<nat>)
    requires ParentsFit(procs, ts) && PathFrom(procs, ts, i, p) && ts[p[|p| - 1]].top && PathFrom(procs, ts, i, q)
    ensures NoRepeats(q)
  {
    TopEndsThePath(procs, ts, i, p, q);
    forall a, b | 0 <= a < b < |q| ensures q[a] != q[b] {
      PathsAgree(procs, ts, i, p, q, a);
      PathsAgree(procs, ts, i, p, q, b);
      if q[a] == q[b] {
        PathSuffix(procs, ts, p, a);
        PathSuffix(procs, ts, p, b);
        TopEndsThePath(procs, ts, p[a], p[b..], p[a..]);
      }
    }
  }

  lemma {:induction false} NoRepeatsIsShort(path: seq<nat>, n: nat)
    requires NoRepeats(path) && forall k :: 0 <= k < |path| ==> path[k] < n
    ensures |path| <= n
    decreases n
  {
    assert path != [] ==> path[0] < n;
    if k :| 0 <= k < |path| && path[k] == n - 1 {
      NoRepeatsIsShort(path[..k] + path[k + 1..], n - 1);
    } else if n > 0 {
      NoRepeatsIsShort(path, n - 1);
    }
  }

  lemma {:induction false} NoCycleMeansTop(procs: seq<RunningProc>, ts: seq<Target>, i: nat, path: seq<nat>)
    requires ParentsFit(procs, ts) && NoCycle(procs, ts, i) && PathFrom(procs, ts, i, path)
    ensures ReachesTop(procs, ts, i)
    decreases |ts| - |path|
  {
    var last := path[|path| - 1];
    if !ts[last].top {
      var j: nat :| IsParent(procs, ts, last, j);
      var longer := path + [j];
      forall k | 0 <= k < |longer| - 1 ensures IsParent(procs, ts, longer[k], longer[k + 1]) {
        if k < |path| - 1 { assert IsParent(procs, ts, path[k], path[k + 1]); }
      }
      assert PathFrom(procs, ts, i, longer);
      NoRepeatsIsShort(longer, |ts|);
      NoCycleMeansTop(procs, ts, i, longer);
    }
  }

  /** A closed process has someone to ask exactly when its chain of same-app parents has no cycle. */
  lemma TopIsReachedExactly(ctx: Context, procs: seq<RunningProc>, i: nat)
    requires DistinctPids(procs) && i < |TargetsOf(ctx, procs)|
    ensures ReachesTop(procs, TargetsOf(ctx, procs), i) <==> NoCycle(procs, TargetsOf(ctx, procs), i)
  {
    var ts := TargetsOf(ctx, procs);
    TargetParentsFit(ctx, procs);
    if ReachesTop(procs, ts, i) {
      var p :| PathFrom(procs, ts, i, p) && ts[p[|p| - 1]].top;
      forall q | PathFrom(procs, ts, i, q) ensures NoRepeats(q) { TopMeansNoCycle(procs, ts, i, p, q); }
    }
    if NoCycle(procs, ts, i) { NoCycleMeansTop(procs, ts, i, [i]); }
  }

  /** With a cycle nobody is asked: a process that is its own parent is never a top. */
  lemma OwnParentIsNoTop(ctx: Context, p: RunningProc)
    requires p.ppid == p.pid && TargetOf(ctx, p).Some?
    ensures |TargetsOf(ctx, [p])| == 1 && !TargetsOf(ctx, [p])[0].top
  {
    assert Collected(ctx, [p]) == Collected(ctx, []) + [TargetOf(ctx, p).value];
    HelperMeansTargetedParent(ctx, [p], 0, p);
    assert TargetsOf(ctx, [p])[0].pid == p.ppid;
  }
}

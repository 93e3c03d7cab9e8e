/** Locking sessions (crates/agent/src/enforcement.rs, `execute_lock`; the arming in heartbeat.rs):
    tasks that sleep and re-check share the set of armed uids with the handlers that arm and disarm. */
module LockTasks {
  import opened Wrappers

  /** Times in milliseconds. */
  const WARNING: nat := 4_000
  const MINUTE: nat := 60_000

  datatype Action = Allow | Warn | Lock

  datatype Settings = Settings(graceMinutes: nat, preserve: bool)

  /** Where a lock task is; between two phases anything else may run. `Ended(true)` means the
      sessions were preserved and the uid stays armed. */
  datatype Phase =
    | Spawned
    | Warning(until: nat)
    | Locking
    | Sleeping(until: nat)
    | Checked
    | Removing
    | Ended(preserved: bool)

  datatype Task = Task(uid: nat, phase: Phase, settings: Settings)

  datatype State = State(now: nat, armed: set<nat>, tasks: seq<Task>, settings: map<nat, Settings>, sessions: map<nat, set<nat>>)

  /** One atomic action: time passing, the cached configuration or the sessions changing, a handler
      arming or disarming a uid, or a task's next step, whose calls succeed or fail. */
  datatype Event =
    | Pass(ms: nat)
    | Cache(uid: nat, settings: Settings)
    | Sessions(uid: nat, ids: set<nat>)
    | Arm(uid: nat)
    | Disarm(uid: nat)
    | Run(task: nat, ok: bool)

  const START := State(0, {}, [], map[], map[])
  const DEFAULTS := Settings(5, false)

  function SessionsOf(s: State, uid: nat): set<nat> { if uid in s.sessions then s.sessions[uid] else {} }
  function SettingsOf(s: State, uid: nat): Settings { if uid in s.settings then s.settings[uid] else DEFAULTS }

  /** A task's next step. */
  function Advanced(s: State, t: Task, ok: bool): Task {
    match t.phase
    case Spawned =>
      if !ok || SessionsOf(s, t.uid) == {} then t.(phase := Removing)
      else
        var own := SettingsOf(s, t.uid);
        t.(settings := own, phase := if own.graceMinutes > 0 then Warning(s.now + WARNING) else Locking)
    case Warning(until) => if s.now < until then t else t.(phase := Locking)
    case Locking =>
      t.(phase := if !ok then Removing
                  else if t.settings.preserve then Ended(true)
                  else Sleeping(s.now + t.settings.graceMinutes * MINUTE))
    case Sleeping(until) => if s.now < until then t else t.(phase := if t.uid in s.armed then Checked else Removing)
    case Checked => t.(phase := Removing)
    case Removing => t.(phase := Ended(false))
    case Ended(_) => t
  }

  function Step(s: State, e: Event): State {
    match e
    case Pass(ms) => s.(now := s.now + ms)
    case Cache(uid, settings) => s.(settings := s.settings[uid := settings])
    case Sessions(uid, ids) => s.(sessions := s.sessions[uid := ids])
    case Arm(uid) =>
      if uid in s.armed then s
      else s.(armed := s.armed + {uid}, tasks := s.tasks + [Task(uid, Spawned, DEFAULTS)])
    case Disarm(uid) => s.(armed := s.armed - {uid})
    case Run(i, ok) =>
      if i >= |s.tasks| then s
      else
        s.(armed := if s.tasks[i].phase.Removing? then s.armed - {s.tasks[i].uid} else s.armed,
           tasks := s.tasks[i := Advanced(s, s.tasks[i], ok)])
  }

  type History = seq<Event>

  function Replay(h: History, n: nat): State
    requires n <= |h|
  {
    if n == 0 then START else Step(Replay(h, n - 1), h[n - 1])
  }

  /** At event `n` task `i` terminates sessions of its uid: all of them, or some if a call fails. */
  predicate Kills(h: History, n: nat, i: nat) {
    && n < |h| && h[n].Run? && h[n].task == i
    && var s := Replay(h, n); i < |s.tasks| && s.tasks[i].phase.Checked? && SessionsOf(s, s.tasks[i].uid) != {}
  }

  // ---- What a task went through -----------------------------------------------------------

  predicate Runs(h: History, n: nat, i: nat, phase: Phase) {
    n < |h| && h[n].Run? && h[n].task == i && var s := Replay(h, n); i < |s.tasks| && s.tasks[i].phase == phase
  }

  /** Task `i` took its settings from the cached configuration at event `a`. */
  predicate Started(h: History, a: nat, i: nat, settings: Settings) {
    Runs(h, a, i, Spawned) && h[a].ok && var s := Replay(h, a); settings == SettingsOf(s, s.tasks[i].uid)
  }

  /** By event `n` task `i` has taken its settings, and with a grace period its warning is over. */
  ghost predicate Announced(h: History, n: nat, i: nat, settings: Settings)
    requires n <= |h|
  {
    exists a: nat :: a < n && Started(h, a, i, settings)
                     && (settings.graceMinutes > 0 ==> Replay(h, a).now + WARNING <= Replay(h, n).now)
  }

  /** Task `i` locked the screen at event `b`, its settings taken before and its warning given. */
  ghost predicate Locked(h: History, b: nat, i: nat, settings: Settings) {
    Runs(h, b, i, Locking) && h[b].ok && Announced(h, b, i, settings)
  }

  /** Task `i` found its uid armed at event `c`, after its whole grace. */
  ghost predicate Passed(h: History, c: nat, i: nat, settings: Settings) {
    && c < |h| && h[c].Run? && h[c].task == i
    && i < |Replay(h, c).tasks| && Replay(h, c).tasks[i].phase.Sleeping? && Replay(h, c).tasks[i].uid in Replay(h, c).armed
    && exists b: nat :: b < c && Locked(h, b, i, settings) && Replay(h, b).now + settings.graceMinutes * MINUTE <= Replay(h, c).now
  }

  ghost predicate Story(h: History, n: nat, i: nat, t: Task)
    requires n <= |h|
  {
    match t.phase
    case Warning(until) =>
      t.settings.graceMinutes > 0 && exists a: nat :: a < n && Started(h, a, i, t.settings) && until == Replay(h, a).now + WARNING
    case Locking => Announced(h, n, i, t.settings)
    case Sleeping(until) =>
      && !t.settings.preserve
      && exists b: nat :: b < n && Locked(h, b, i, t.settings) && until == Replay(h, b).now + t.settings.graceMinutes * MINUTE
    case Checked => !t.settings.preserve && exists c: nat :: c < n && Passed(h, c, i, t.settings)
    case _ => true
  }

  lemma {:induction false} TaskStory(h: History, n: nat, i: nat)
    requires n <= |h| && i < |Replay(h, n).tasks|
    ensures Story(h, n, i, Replay(h, n).tasks[i])
  {
    var now := Replay(h, n).tasks;
    if n > 0 && i < |Replay(h, n - 1).tasks| {
      TaskStory(h, n - 1, i);
      var t, e := Replay(h, n - 1).tasks[i], h[n - 1];
      if e.Run? && e.task == i && now[i] != t {
        StoryAdvances(h, n - 1, i, t);
      } else {
        StoryWaits(h, n - 1, i, t);
      }
    }
  }

  lemma StoryWaits(h: History, n: nat, i: nat, t: Task)
    requires n < |h| && Story(h, n, i, t)
    ensures Story(h, n + 1, i, t)
  {
    assert Replay(h, n).now <= Replay(h, n + 1).now;
  }

  lemma StoryAdvances(h: History, n: nat, i: nat, t: Task)
    requires n < |h| && h[n].Run? && h[n].task == i && i < |Replay(h, n).tasks| && t == Replay(h, n).tasks[i]
    requires Story(h, n, i, t) && Replay(h, n + 1).tasks[i] != t
    ensures Story(h, n + 1, i, Replay(h, n + 1).tasks[i])
  {
    assert Replay(h, n).now == Replay(h, n + 1).now;
    match t.phase
    case Spawned =>
      if Replay(h, n + 1).tasks[i].phase != Removing {
        assert Started(h, n, i, Replay(h, n + 1).tasks[i].settings);
      }
    case Warning(until) =>
      var a: nat :| a < n && Started(h, a, i, t.settings) && until == Replay(h, a).now + WARNING;
      assert Announced(h, n + 1, i, t.settings);
    case Locking =>
      if h[n].ok { assert Locked(h, n, i, t.settings); }
    case Sleeping(until) =>
      var b: nat :| b < n && Locked(h, b, i, t.settings) && until == Replay(h, b).now + t.settings.graceMinutes * MINUTE;
      if t.uid in Replay(h, n).armed { assert Passed(h, n, i, t.settings); }
    case _ =>
  }

  /** A session is killed only by a task that took preserve-off settings from the configuration,
      warned if they give any grace, locked the screen, waited out the whole grace, and then found
      its uid armed. */
  lemma KillIsJustified(h: History, n: nat, i: nat)
    requires Kills(h, n, i)
    ensures exists settings: Settings, c: nat :: !settings.preserve && c < n && Passed(h, c, i, settings)
  {
    TaskStory(h, n, i);
  }

  // ---- After the kill ---------------------------------------------------------------------

  /** Task `i` takes no step between `m` and `n`. */
  ghost predicate Rests(h: History, m: nat, n: nat, i: nat)
    requires n <= |h|
  {
    forall k :: m <= k < n ==> !(h[k].Run? && h[k].task == i)
  }

  lemma {:induction false} RestingStays(h: History, m: nat, n: nat, i: nat)
    requires m <= n <= |h| && Rests(h, m, n, i) && i < |Replay(h, m).tasks|
    ensures i < |Replay(h, n).tasks| && Replay(h, n).tasks[i] == Replay(h, m).tasks[i]
  {
    if m < n { RestingStays(h, m, n - 1, i); }
  }

  /** A task kills once: with its next step, whether or not that succeeds, it is over and its user is
      no longer armed. */
  lemma KillEndsTheTask(h: History, n: nat, m: nat, i: nat)
    requires Kills(h, n, i) && n < m < |h| && h[m].Run? && h[m].task == i && Rests(h, n + 1, m, i)
    ensures i < |Replay(h, m + 1).tasks|
    ensures var t := Replay(h, m + 1).tasks[i];
            t.phase == Ended(false) && t.uid == Replay(h, n).tasks[i].uid && t.uid !in Replay(h, m + 1).armed
  {
    RestingStays(h, n + 1, m, i);
  }

  // ---- Disarming --------------------------------------------------------------------------

  lemma {:induction false} TasksStay(h: History, m: nat, n: nat)
    requires m <= n <= |h|
    ensures var s, t := Replay(h, m).tasks, Replay(h, n).tasks;
            |s| <= |t| && forall i :: 0 <= i < |s| ==> t[i].uid == s[i].uid
  {
    if m < n { TasksStay(h, m, n - 1); }
  }

  ghost predicate NoArm(h: History, m: nat, n: nat, uid: nat)
    requires n <= |h|
  {
    forall k :: m <= k < n ==> h[k] != Arm(uid)
  }

  /** Between the check and the kill. */
  predicate PastCheck(s: State, i: nat) { i < |s.tasks| && s.tasks[i].phase.Checked? }

  lemma {:induction false} DisarmedStays(h: History, m: nat, n: nat, uid: nat, i: nat)
    requires m <= n <= |h| && uid !in Replay(h, m).armed && NoArm(h, m, n, uid)
    requires i < |Replay(h, n).tasks| && Replay(h, n).tasks[i].uid == uid && !PastCheck(Replay(h, m), i)
    ensures uid !in Replay(h, n).armed && !PastCheck(Replay(h, n), i)
  {
    if m < n {
      if i < |Replay(h, n - 1).tasks| {
        TasksStay(h, n - 1, n);
        DisarmedStays(h, m, n - 1, uid, i);
      }
    }
  }

  /** Once a uid is disarmed and not armed again, none of its tasks kills it, however many sleep;
      only one that had already passed its check still can. */
  lemma DisarmedIsSafe(h: History, m: nat, n: nat, i: nat)
    requires m <= n && Kills(h, n, i) && !PastCheck(Replay(h, m), i)
    requires Replay(h, n).tasks[i].uid !in Replay(h, m).armed
    ensures !NoArm(h, m, n, Replay(h, n).tasks[i].uid)
  {
    if NoArm(h, m, n, Replay(h, n).tasks[i].uid) {
      DisarmedStays(h, m, n, Replay(h, n).tasks[i].uid, i);
    }
  }

  /** Event `r` takes `uid` out of the armed set: a handler lifts the lock, or a task is done. */
  predicate Disarms(h: History, r: nat, uid: nat) {
    r < |h| && (h[r] == Disarm(uid) || (h[r].Run? && var s := Replay(h, r);
                 h[r].task < |s.tasks| && s.tasks[h[r].task].phase.Removing? && s.tasks[h[r].task].uid == uid))
  }

  /** Nothing took `uid` out since `c` without a handler arming it again. */
  ghost predicate KeptArmed(h: History, c: nat, n: nat, uid: nat)
    requires n <= |h|
  {
    forall r: nat :: c <= r < n && Disarms(h, r, uid) ==> !NoArm(h, r + 1, n, uid)
  }

  lemma {:induction false} ArmedSince(h: History, c: nat, n: nat, uid: nat)
    requires c <= n <= |h| && uid in Replay(h, c).armed
    ensures uid in Replay(h, n).armed <==> KeptArmed(h, c, n, uid)
  {
    if c < n {
      ArmedSince(h, c, n - 1, uid);
      if uid in Replay(h, n - 1).armed && !Disarms(h, n - 1, uid) {
        forall r: nat | c <= r < n && Disarms(h, r, uid) ensures !NoArm(h, r + 1, n, uid) {
          assert !NoArm(h, r + 1, n - 1, uid);
        }
      } else if Disarms(h, n - 1, uid) {
        assert NoArm(h, n, n, uid);
      } else {
        var r: nat :| c <= r < n - 1 && Disarms(h, r, uid) && NoArm(h, r + 1, n - 1, uid);
        assert h[n - 1] != Arm(uid) ==> NoArm(h, r + 1, n, uid);
        if h[n - 1] == Arm(uid) {
          forall q: nat | c <= q < n && Disarms(h, q, uid) ensures !NoArm(h, q + 1, n, uid) {}
        }
      }
    }
  }

  /** Whether the uid is still armed when its session is killed: exactly if nothing disarmed it for
      good since the check, which is a step of its own. */
  lemma ArmedWhenKilled(h: History, n: nat, i: nat) returns (c: nat)
    requires Kills(h, n, i)
    ensures c < n && exists settings: Settings :: Passed(h, c, i, settings)
    ensures var uid := Replay(h, n).tasks[i].uid; uid in Replay(h, n).armed <==> KeptArmed(h, c, n, uid)
  {
    TaskStory(h, n, i);
    var t := Replay(h, n).tasks[i];
    c :| c < n && Passed(h, c, i, t.settings);
    TasksStay(h, c, n);
    ArmedSince(h, c, n, t.uid);
  }

  // ---- The latest task --------------------------------------------------------------------

  predicate IsLatest(tasks: seq<Task>, i: nat) {
    i < |tasks| && forall j :: i < j < |tasks| ==> tasks[j].uid != tasks[i].uid
  }

  /** An armed uid is looked after: the task that armed it last is still live or ended preserving
      the sessions. */
  lemma {:induction false} ArmedHasATask(h: History, n: nat, uid: nat) returns (i: nat)
    requires n <= |h| && uid in Replay(h, n).armed
    ensures var tasks := Replay(h, n).tasks;
            IsLatest(tasks, i) && tasks[i].uid == uid && tasks[i].phase != Ended(false)
  {
    var before, after := Replay(h, n - 1), Replay(h, n);
    if uid in before.armed {
      i := ArmedHasATask(h, n - 1, uid);
      assert forall j :: 0 <= j < |before.tasks| ==> after.tasks[j].uid == before.tasks[j].uid;
    } else {
      i := |before.tasks|;
    }
  }

  /** A uid is armed again only by a handler, so each arming has its own task. */
  lemma NewArmingNewTask(h: History, n: nat, uid: nat)
    requires n < |h| && uid !in Replay(h, n).armed && uid in Replay(h, n + 1).armed
    ensures h[n] == Arm(uid) && Replay(h, n + 1).tasks == Replay(h, n).tasks + [Task(uid, Spawned, DEFAULTS)]
  {}

  // ---- One task a user --------------------------------------------------------------------

  predicate LiveAt(s: State, i: nat, uid: nat) { i < |s.tasks| && s.tasks[i].uid == uid && !s.tasks[i].phase.Ended? }

  ghost predicate AtMostOneLive(s: State, uid: nat) {
    forall i: nat, j: nat :: LiveAt(s, i, uid) && LiveAt(s, j, uid) ==> i == j
  }

  ghost predicate NoneLive(s: State, uid: nat) { forall i: nat :: !LiveAt(s, i, uid) }

  /** Event `k` does not arm the user, or finds no task of theirs live. */
  ghost predicate ArmsIdle(h: History, k: nat, uid: nat) {
    k < |h| && (h[k] == Arm(uid) && uid !in Replay(h, k).armed ==> NoneLive(Replay(h, k), uid))
  }

  lemma StepAddsATask(s: State, e: Event, uid: nat)
    requires AtMostOneLive(s, uid)
    ensures AtMostOneLive(Step(s, e), uid) <==> (e == Arm(uid) && uid !in s.armed ==> NoneLive(s, uid))
  {
    var t := Step(s, e);
    if e == Arm(uid) && uid !in s.armed {
      assert LiveAt(t, |s.tasks|, uid);
      forall i: nat ensures LiveAt(t, i, uid) <==> LiveAt(s, i, uid) || i == |s.tasks| {}
      if i: nat :| LiveAt(s, i, uid) { assert LiveAt(t, i, uid) && i != |s.tasks|; }
    } else {
      forall i: nat | LiveAt(t, i, uid) ensures LiveAt(s, i, uid) {}
    }
  }

  ghost predicate OneTaskUpTo(h: History, n: nat, uid: nat)
    requires n <= |h|
  {
    forall m: nat :: m <= n ==> AtMostOneLive(Replay(h, m), uid)
  }

  /** A user never has two live tasks exactly when every arming finds none of theirs live: whoever
      sets a block again can tell before. */
  lemma {:induction false} OneTaskExactly(h: History, n: nat, uid: nat)
    requires n <= |h|
    ensures OneTaskUpTo(h, n, uid) <==> forall k: nat :: k < n ==> ArmsIdle(h, k, uid)
  {
    if n > 0 {
      OneTaskExactly(h, n - 1, uid);
      assert OneTaskUpTo(h, n, uid) <==> OneTaskUpTo(h, n - 1, uid) && AtMostOneLive(Replay(h, n), uid);
      if AtMostOneLive(Replay(h, n - 1), uid) { StepAddsATask(Replay(h, n - 1), h[n - 1], uid); }
      assert Replay(h, n) == Step(Replay(h, n - 1), h[n - 1]);
      if OneTaskUpTo(h, n - 1, uid) { assert AtMostOneLive(Replay(h, n), uid) <==> ArmsIdle(h, n - 1, uid); }
    }
  }

  lemma {:induction false} TimeGoesOn(h: History, m: nat, n: nat)
    requires m <= n <= |h|
    ensures Replay(h, m).now <= Replay(h, n).now
  {
    if m < n { TimeGoesOn(h, m, n - 1); }
  }

  lemma StepLive(s: State, e: Event, i: nat, uid: nat)
    requires LiveAt(Step(s, e), i, uid) && i < |s.tasks|
    ensures LiveAt(s, i, uid)
  {}

  lemma {:induction false} LiveBefore(h: History, m: nat, n: nat, i: nat, uid: nat)
    requires m <= n <= |h| && LiveAt(Replay(h, n), i, uid) && i < |Replay(h, m).tasks|
    ensures LiveAt(Replay(h, m), i, uid)
  {
    hide Step;
    if m < n {
      TasksStay(h, m, n - 1);
      StepLive(Replay(h, n - 1), h[n - 1], i, uid);
      LiveBefore(h, m, n - 1, i, uid);
    }
  }

  /** Then a kill comes a whole grace after the user was last armed. */
  lemma FullGraceSinceArming(h: History, n: nat, i: nat, k: nat)
    requires Kills(h, n, i) && k < n
    requires var uid := Replay(h, n).tasks[i].uid; ArmsIdle(h, k, uid) && h[k] == Arm(uid) && uid !in Replay(h, k).armed
    ensures Replay(h, k).now + Replay(h, n).tasks[i].settings.graceMinutes * MINUTE <= Replay(h, n).now
  {
    var t := Replay(h, n).tasks[i];
    TaskStory(h, n, i);
    var c: nat :| c < n && Passed(h, c, i, t.settings);
    var b: nat :| b < c && Locked(h, b, i, t.settings) && Replay(h, b).now + t.settings.graceMinutes * MINUTE <= Replay(h, c).now;
    if i < |Replay(h, k).tasks| { LiveBefore(h, k, n, i, t.uid); }
    if b < k { TasksStay(h, b, k); }
    TimeGoesOn(h, k, b);
    TimeGoesOn(h, c, n);
  }

  // ---- Where it can go wrong --------------------------------------------------------------

  /** One task up to its check, with a grace of `grace` minutes and no break. */
  function FirstLock(uid: nat, grace: nat, ids: set<nat>): History {
    [Cache(uid, Settings(grace, false)), Sessions(uid, ids), Arm(uid), Run(0, true), Pass(WARNING), Run(0, true), Run(0, true),
     Pass(grace * MINUTE)]
  }

  lemma ReplayPrefix(h: History, more: History, n: nat)
    requires n <= |h|
    ensures Replay(h + more, n) == Replay(h, n)
  {
    PrefixDecides(START, Step, (h: History, n: nat) => if n <= |h| then Replay(h, n) else START, h, more, n);
  }

  lemma AfterFirstLock(uid: nat, grace: nat, ids: set<nat>)
    requires grace > 0 && ids != {}
    ensures var h, settings := FirstLock(uid, grace, ids), Settings(grace, false);
            Replay(h, |h|) == State(WARNING + grace * MINUTE, {uid}, [Task(uid, Sleeping(WARNING + grace * MINUTE), settings)],
                                    map[uid := settings], map[uid := ids])
  {
    var h, settings := FirstLock(uid, grace, ids), Settings(grace, false);
    var s := map[uid := settings];
    assert Replay(h, 2) == State(0, {}, [], s, map[uid := ids]) by { assert Replay(h, 1) == State(0, {}, [], s, map[]); }
    assert Replay(h, 3) == State(0, {uid}, [Task(uid, Spawned, DEFAULTS)], s, map[uid := ids]);
    assert Replay(h, 4) == State(0, {uid}, [Task(uid, Warning(WARNING), settings)], s, map[uid := ids]);
    assert Replay(h, 6) == State(WARNING, {uid}, [Task(uid, Locking, settings)], s, map[uid := ids]) by {
      assert Replay(h, 5) == State(WARNING, {uid}, [Task(uid, Warning(WARNING), settings)], s, map[uid := ids]);
    }
    assert Replay(h, 7) == State(WARNING, {uid}, [Task(uid, Sleeping(WARNING + grace * MINUTE), settings)], s, map[uid := ids]);
  }

  lemma ReplayMore(h: History, more: History)
    requires |more| == 1
    ensures Replay(h + more, |h| + 1) == Step(Replay(h, |h|), more[0])
  {
    ReplayPrefix(h, more, |h|);
  }

  /** Lifting the block and setting it again while a task sleeps leaves two live tasks for one uid;
      the old one kills at once, without any grace since the block was set again. */
  lemma RearmingSharesTheOldGrace(uid: nat, grace: nat, ids: set<nat>)
    requires grace > 0 && ids != {}
    ensures var h := FirstLock(uid, grace, ids) + [Disarm(uid)] + [Arm(uid)] + [Run(0, true)] + [Run(0, true)];
            var s := Replay(h, 10);
            && |s.tasks| == 2 && s.tasks[0].phase.Sleeping? && s.tasks[1].phase.Spawned? && s.tasks[1].uid == uid
            && Kills(h, 11, 0) && Replay(h, 11).now == s.now
  {
    var first := FirstLock(uid, grace, ids);
    AfterFirstLock(uid, grace, ids);
    ReplayMore(first, [Disarm(uid)]);
    ReplayMore(first + [Disarm(uid)], [Arm(uid)]);
    ReplayMore(first + [Disarm(uid)] + [Arm(uid)], [Run(0, true)]);
    var h := first + [Disarm(uid)] + [Arm(uid)] + [Run(0, true)];
    ReplayPrefix(h, [Run(0, true)], 10);
    ReplayPrefix(h, [Run(0, true)], 11);
    ReplayPrefix(first + [Disarm(uid)] + [Arm(uid)], [Run(0, true)], 10);
  }

  /** The check and the kill are two steps: a block lifted between them still costs the session. */
  lemma LiftAfterTheCheckIsTooLate(uid: nat, grace: nat, ids: set<nat>)
    requires grace > 0 && ids != {}
    ensures var h := FirstLock(uid, grace, ids) + [Run(0, true)] + [Disarm(uid)] + [Run(0, true)];
            Kills(h, 10, 0) && uid !in Replay(h, 10).armed
  {
    var first := FirstLock(uid, grace, ids);
    AfterFirstLock(uid, grace, ids);
    ReplayMore(first, [Run(0, true)]);
    ReplayMore(first + [Run(0, true)], [Disarm(uid)]);
    ReplayPrefix(first + [Run(0, true)] + [Disarm(uid)], [Run(0, true)], 10);
  }
}

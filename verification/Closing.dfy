/** Closing apps step by step: warn, SIGTERM, SIGKILL (crates/agent/src/app_enforce.rs, `Closer`). */
module Closing {
  import opened Apps
  import opened AppEnforce
  import opened Wrappers

  /** Instants and durations in milliseconds. */
  const GRACE: nat := 10_000
  const RELAUNCH_WINDOW: nat := 60_000

  function DurationSince(now: nat, at: nat): nat { if now >= at then now - at else 0 }

  datatype Stage = Warned(at: nat) | Termed(at: nat)

  type ProcKey = (nat, nat)
  type ToldKey = (nat, string)

  /** `closesIn` is zero when the app closes now. */
  datatype Notice = Notice(target: Target, closesIn: nat)

  datatype Signal = NoSignal | Sigterm | Sigkill

  /** What one target gets in one call. */
  datatype Output = Output(signal: Signal, notice: Option<Notice>)

  const NOTHING := Output(NoSignal, None)

  function KeyOf(t: Target): ProcKey { (t.pid, t.startTicks) }
  function ToldKeyOf(t: Target): ToldKey { (t.uid, t.key) }
  function Wanted(targets: seq<Target>): set<ProcKey> { set t | t in targets :: KeyOf(t) }

  // ---- Specification ----------------------------------------------------------------------

  datatype Memory = Memory(stage: map<ProcKey, Stage>, told: map<ToldKey, nat>)

  const START := Memory(map[], map[])

  /** A call begins, then visits its targets in order; `alive` is what the system answered. */
  datatype Event = Begin(now: nat, targets: seq<Target>) | Visit(now: nat, target: Target, alive: bool)

  predicate RecentlyTold(told: map<ToldKey, nat>, key: ToldKey, now: nat) {
    key in told && DurationSince(now, told[key]) < RELAUNCH_WINDOW
  }

  function Recent(told: map<ToldKey, nat>, now: nat): map<ToldKey, nat> {
    map k | k in told && DurationSince(now, told[k]) < RELAUNCH_WINDOW * 10 :: told[k]
  }

  function Kept(stage: map<ProcKey, Stage>, wanted: set<ProcKey>): map<ProcKey, Stage> {
    map k | k in stage && k in wanted :: stage[k]
  }

  function Term(t: Target): Signal { if t.top then Sigterm else NoSignal }

  function Step(m: Memory, e: Event, prune: bool): (Memory, Output) {
    match e
    case Begin(now, targets) => (Memory(Kept(m.stage, Wanted(targets)), if prune then Recent(m.told, now) else m.told), NOTHING)
    case Visit(now, t, alive) =>
      var key := KeyOf(t);
      if !alive then (m.(stage := m.stage - {key}), NOTHING)
      else if key !in m.stage then
        var told := RecentlyTold(m.told, ToldKeyOf(t), now);
        var immediate := t.reason.Immediate() || told;
        (Memory(m.stage[key := if immediate then Termed(now) else Warned(now)], if told then m.told else m.told[ToldKeyOf(t) := now]),
         Output(if immediate then Term(t) else NoSignal, if told then None else Some(Notice(t, if immediate then 0 else GRACE))))
      else if DurationSince(now, m.stage[key].at) < GRACE then (m, NOTHING)
      else if m.stage[key].Warned? then (m.(stage := m.stage[key := Termed(now)]), Output(Term(t), None))
      else (m, Output(Sigkill, None))
  }

  /** Everything that happened to a closer, one event after another. */
  type History = seq<Event>

  function Replay(h: History, n: nat, prune: bool): Memory
    requires n <= |h|
  {
    if n == 0 then START else Step(Replay(h, n - 1, prune), h[n - 1], prune).0
  }

  function OutputAt(h: History, n: nat): Output
    requires n < |h|
  {
    Step(Replay(h, n, true), h[n], true).1
  }

  /** What came before does not depend on what follows. */
  lemma ReplayPrefixes(h: History, more: History)
    ensures forall n: nat, prune :: n <= |h| ==> Replay(h + more, n, prune) == Replay(h, n, prune)
    ensures forall n: nat :: n < |h| ==> OutputAt(h + more, n) == OutputAt(h, n)
  {
    forall n: nat, prune | n <= |h| ensures Replay(h + more, n, prune) == Replay(h, n, prune) {
      PrefixDecides(START, (m: Memory, e: Event) => Step(m, e, prune).0,
                    (h: History, n: nat) => if n <= |h| then Replay(h, n, prune) else START, h, more, n);
    }
  }

  function EventsOf(now: nat, targets: seq<Target>, alive: seq<bool>): History
    requires |alive| == |targets|
  {
    [Begin(now, targets)] + seq(|targets|, i requires 0 <= i < |targets| => Visit(now, targets[i], alive[i]))
  }

  // ---- The class --------------------------------------------------------------------------

  class Closer {
    var stage: map<ProcKey, Stage>
    var told: map<ToldKey, nat>
    ghost var history: History

    ghost predicate Valid()
      reads this
    {
      Memory(stage, told) == Replay(history, |history|, true)
    }

    constructor ()
      ensures Valid() && history == []
    {
      stage, told, history := map[], map[], [];
    }

    /** Visits one target. */
    method Advance(now: nat, t: Target, alive: bool) returns (out: Output)
      modifies this`stage, this`told
      ensures (Memory(stage, told), out) == Step(old(Memory(stage, told)), Visit(now, t, alive), true)
    {
      var key, toldKey := KeyOf(t), ToldKeyOf(t);
      out := NOTHING;
      if !alive {
        stage := stage - {key};
        return;
      }
      var recentlyTold := toldKey in told && DurationSince(now, told[toldKey]) < RELAUNCH_WINDOW;
      if key !in stage {
        var immediate := t.reason.Immediate() || recentlyTold;
        if !recentlyTold {
          told := told[toldKey := now];
          out := out.(notice := Some(Notice(t, if immediate then 0 else GRACE)));
        }
        if immediate {
          if t.top { out := out.(signal := Sigterm); }
          stage := stage[key := Termed(now)];
        } else {
          stage := stage[key := Warned(now)];
        }
      } else if stage[key].Warned? && DurationSince(now, stage[key].at) >= GRACE {
        if t.top { out := out.(signal := Sigterm); }
        stage := stage[key := Termed(now)];
      } else if stage[key].Termed? && DurationSince(now, stage[key].at) >= GRACE {
        out := out.(signal := Sigkill);
      }
    }

    /** Forgets processes that are no longer targets, and old notices. */
    method BeginCall(now: nat, targets: seq<Target>)
      requires Valid()
      modifies this
      ensures Valid() && history == old(history) + [Begin(now, targets)]
    {
      ReplayPrefixes(history, [Begin(now, targets)]);
      stage := Kept(stage, Wanted(targets));
      told := Recent(told, now);
      history := history + [Begin(now, targets)];
    }

    /** Visits one target and adds the visit to the history. */
    method VisitNext(now: nat, t: Target, alive: bool) returns (out: Output)
      requires Valid()
      modifies this
      ensures Valid() && history == old(history) + [Visit(now, t, alive)]
      ensures out == OutputAt(history, |old(history)|)
      ensures forall n: nat :: n < |old(history)| ==> OutputAt(history, n) == OutputAt(old(history), n)
    {
      ReplayPrefixes(history, [Visit(now, t, alive)]);
      out := Advance(now, t, alive);
      history := history + [Visit(now, t, alive)];
    }

    /** Advances every target one step; `alive[i]` is whether target `i` still exists when it is
        visited. The outputs are those of the history, which grows by this call. */
    method Enforce(now: nat, targets: seq<Target>, alive: seq<bool>) returns (outs: seq<Output>)
      requires Valid() && |alive| == |targets|
      modifies this
      ensures Valid() && |outs| == |targets|
      ensures history == old(history) + EventsOf(now, targets, alive)
      ensures forall i :: 0 <= i < |outs| ==> outs[i] == OutputAt(history, |old(history)| + 1 + i)
    {
      ghost var events := EventsOf(now, targets, alive);
      BeginCall(now, targets);
      outs := [];
      for i := 0 to |targets|
        invariant Valid() && |outs| == i
        invariant history == old(history) + events[..i + 1]
        invariant forall j :: 0 <= j < i ==> outs[j] == OutputAt(history, |old(history)| + 1 + j)
      {
        var out := VisitNext(now, targets[i], alive[i]);
        outs := outs + [out];
        assert events[..i + 2] == events[..i + 1] + [events[i + 1]];
      }
      assert events[..|targets| + 1] == events;
    }
  }

  /** A process is known by pid and start time, and notices are counted per user and group or app. */
  lemma KeysMean(t: Target, targets: seq<Target>, key: ProcKey)
    ensures KeyOf(t) == (t.pid, t.startTicks) && ToldKeyOf(t) == (t.uid, t.key)
    ensures key in Wanted(targets) <==> exists w :: w in targets && w.pid == key.0 && w.startTicks == key.1
  {
    if w :| w in targets && w.pid == key.0 && w.startTicks == key.1 { assert KeyOf(w) in Wanted(targets); }
  }

  /** A call forgets exactly what was told ten windows ago or earlier, so the memory stays small. */
  lemma OldNoticesAreForgotten(told: map<ToldKey, nat>, now: nat, key: ToldKey)
    ensures key in Recent(told, now) <==> key in told && now < told[key] + 10 * RELAUNCH_WINDOW
    ensures key in Recent(told, now) ==> Recent(told, now)[key] == told[key]
  {}

  // ---- Every run --------------------------------------------------------------------------

  /** The clock never goes back. */
  ghost predicate Monotone(h: History) {
    forall i, j :: 0 <= i < j < |h| ==> h[i].now <= h[j].now
  }

  predicate Sees(e: Event, key: ProcKey) { e.Visit? && KeyOf(e.target) == key }

  /** Process `key` was alive at visit `j`, and up to `n` it was targeted in every call and alive
      at every visit. */
  ghost predicate Since(h: History, j: nat, n: nat, key: ProcKey) {
    && j < n <= |h| && Sees(h[j], key) && h[j].alive
    && forall i :: j < i < n ==> (h[i].Begin? ==> key in Wanted(h[i].targets)) && (Sees(h[i], key) ==> h[i].alive)
  }

  /** The stage visit `j` leaves its process in. */
  predicate LeavesIn(h: History, j: nat, stage: Stage)
    requires j < |h| && h[j].Visit?
  {
    var after := Replay(h, j + 1, true).stage;
    KeyOf(h[j].target) in after && after[KeyOf(h[j].target)] == stage
  }

  /** What a stage remembers of the visit that set it. */
  ghost predicate Explains(h: History, j: nat, stage: Stage)
    requires j < |h| && h[j].Visit?
  {
    && stage.at == h[j].now && LeavesIn(h, j, stage)
    && (stage.Warned? ==> h[j].target.reason == Limit && OutputAt(h, j).notice == Some(Notice(h[j].target, GRACE)))
    && (stage.Termed? && h[j].target.top ==> OutputAt(h, j).signal == Sigterm)
  }

  /** A visit explains the stage it sets; any other stage was there before the event. */
  lemma SetOrKept(h: History, n: nat, key: ProcKey)
    requires n < |h| && key in Replay(h, n + 1, true).stage
    ensures var before, after := Replay(h, n, true).stage, Replay(h, n + 1, true).stage;
            || (Since(h, n, n + 1, key) && Explains(h, n, after[key]))
            || (key in before && before[key] == after[key] && forall j :: Since(h, j, n, key) ==> Since(h, j, n + 1, key))
  {}

  /** A stage lost is a process no longer targeted, or dead when visited. */
  lemma LostIsOver(h: History, n: nat, key: ProcKey, j: nat)
    requires n < |h| && key !in Replay(h, n + 1, true).stage && Since(h, j, n + 1, key)
    ensures j < n && Since(h, j, n, key) && key !in Replay(h, n, true).stage
  {}

  /** A process has a stage exactly when it was targeted and alive without a break. */
  lemma {:induction false} StageHasStory(h: History, n: nat, key: ProcKey)
    requires n <= |h|
    ensures var stage := Replay(h, n, true).stage;
            && (key in stage <==> exists j: nat :: Since(h, j, n, key))
            && (key in stage ==> exists j: nat :: Since(h, j, n, key) && Explains(h, j, stage[key]))
  {
    if n > 0 {
      StageHasStory(h, n - 1, key);
      if key in Replay(h, n, true).stage { SetOrKept(h, n - 1, key); }
      else if j: nat :| Since(h, j, n, key) { LostIsOver(h, n - 1, key, j); }
    }
  }

  ghost predicate Told(h: History, j: nat, key: ToldKey) {
    j < |h| && h[j].Visit? && ToldKeyOf(h[j].target) == key && OutputAt(h, j).notice.Some?
  }

  lemma {:induction false} ToldHasNotice(h: History, n: nat, key: ToldKey)
    requires n <= |h| && key in Replay(h, n, true).told
    ensures exists j: nat :: j < n && Told(h, j, key) && h[j].now == Replay(h, n, true).told[key]
  {
    if n > 0 {
      var before := Replay(h, n - 1, true).told;
      if key in before && before[key] == Replay(h, n, true).told[key] {
        ToldHasNotice(h, n - 1, key);
      } else {
        assert Told(h, n - 1, key);
      }
    }
  }

  /** SIGKILL goes exactly to the living processes that were marked Termed at least GRACE ago and
      were targeted and alive ever since; a top got SIGTERM when it was marked. */
  lemma KillIsExact(h: History, n: nat)
    requires n < |h|
    ensures OutputAt(h, n).signal == Sigkill
        <==> h[n].Visit? && h[n].alive && exists j: nat :: MarkedTermed(h, j, n, KeyOf(h[n].target)) && h[j].now + GRACE <= h[n].now
  {
    if h[n].Visit? && h[n].alive {
      var key := KeyOf(h[n].target);
      StageHasStory(h, n, key);
      if OutputAt(h, n).signal == Sigkill {
        var j: nat :| Since(h, j, n, key) && Explains(h, j, Replay(h, n, true).stage[key]);
        assert MarkedTermed(h, j, n, key);
      }
      if j: nat :| MarkedTermed(h, j, n, key) && h[j].now + GRACE <= h[n].now { TermedStays(h, j, n, key); }
    }
  }

  /** Visit `j` marked the process Termed, and it was targeted and alive from there to `n`. */
  ghost predicate MarkedTermed(h: History, j: nat, n: nat, key: ProcKey) {
    && Since(h, j, n, key) && LeavesIn(h, j, Termed(h[j].now))
    && (h[j].target.top ==> OutputAt(h, j).signal == Sigterm)
  }

  /** SIGTERM goes only to tops. One that ran into its limit had an uninterrupted warning at least
      GRACE old, or a notice for its user and group less than RELAUNCH_WINDOW ago. */
  lemma TermIsSafe(h: History, n: nat)
    requires n < |h| && OutputAt(h, n).signal == Sigterm
    ensures h[n].Visit? && h[n].alive && h[n].target.top
    ensures h[n].target.reason == Limit ==>
              || (exists j: nat :: Since(h, j, n, KeyOf(h[n].target)) && h[j].now + GRACE <= h[n].now
                              && OutputAt(h, j).notice == Some(Notice(h[j].target, GRACE)))
              || (exists j: nat :: j < n && Told(h, j, ToldKeyOf(h[n].target)) && h[n].now < h[j].now + RELAUNCH_WINDOW)
  {
    var m := Replay(h, n, true);
    StageHasStory(h, n, KeyOf(h[n].target));
    if RecentlyTold(m.told, ToldKeyOf(h[n].target), h[n].now) { ToldHasNotice(h, n, ToldKeyOf(h[n].target)); }
  }

  /** What is forgotten was told long ago; what is remembered is the last notice. */
  lemma {:induction false} NoticesAreRemembered(h: History, n: nat, j: nat, key: ToldKey)
    requires Monotone(h) && j < n <= |h| && Told(h, j, key)
    ensures var told := Replay(h, n, true).told;
            if key in told then h[j].now <= told[key] <= h[n - 1].now else h[j].now + 10 * RELAUNCH_WINDOW <= h[n - 1].now
  {
    if j < n - 1 {
      NoticesAreRemembered(h, n - 1, j, key);
      assert h[n - 2].now <= h[n - 1].now;
    }
  }

  /** The child was told about a group less than RELAUNCH_WINDOW ago: the memory knows exactly. */
  lemma RecentlyToldIsExact(h: History, n: nat, key: ToldKey)
    requires Monotone(h) && n < |h|
    ensures RecentlyTold(Replay(h, n, true).told, key, h[n].now)
        <==> exists j: nat :: j < n && Told(h, j, key) && h[n].now < h[j].now + RELAUNCH_WINDOW
  {
    if RecentlyTold(Replay(h, n, true).told, key, h[n].now) { ToldHasNotice(h, n, key); }
    if j: nat :| j < n && Told(h, j, key) && h[n].now < h[j].now + RELAUNCH_WINDOW {
      NoticesAreRemembered(h, n, j, key);
      assert h[n - 1].now <= h[n].now;
    }
  }

  /** Visit `j` warned the process, and it was targeted and alive from there to `n` without being
      marked Termed. */
  ghost predicate StillWarned(h: History, j: nat, n: nat, key: ProcKey) {
    && Since(h, j, n, key) && LeavesIn(h, j, Warned(h[j].now)) && !exists i: nat :: MarkedTermed(h, i, n, key)
  }

  lemma {:induction false} WarnedStays(h: History, j: nat, n: nat, key: ProcKey)
    requires Since(h, j, n, key) && LeavesIn(h, j, Warned(h[j].now))
    ensures var stage := Replay(h, n, true).stage; key in stage && (stage[key] == Warned(h[j].now) || stage[key].Termed?)
  {
    if j < n - 1 { WarnedStays(h, j, n - 1, key); }
  }

  /** A process is due for SIGTERM exactly when it has a warning at least GRACE old. */
  lemma WarningIsExact(h: History, n: nat, key: ProcKey)
    requires n < |h|
    ensures var stage := Replay(h, n, true).stage;
            (key in stage && stage[key].Warned? && stage[key].at + GRACE <= h[n].now)
            <==> exists j: nat :: StillWarned(h, j, n, key) && h[j].now + GRACE <= h[n].now
  {
    var stage := Replay(h, n, true).stage;
    StageHasStory(h, n, key);
    if key in stage && stage[key].Warned? {
      var j: nat :| Since(h, j, n, key) && Explains(h, j, stage[key]);
      if i: nat :| MarkedTermed(h, i, n, key) { TermedStays(h, i, n, key); }
      assert StillWarned(h, j, n, key);
    }
    if j: nat :| StillWarned(h, j, n, key) && h[j].now + GRACE <= h[n].now {
      WarnedStays(h, j, n, key);
      if stage[key].Termed? {
        var i: nat :| Since(h, i, n, key) && Explains(h, i, stage[key]);
        assert MarkedTermed(h, i, n, key);
      }
    }
  }

  /** SIGTERM goes exactly to the living tops that have a warning at least GRACE old, or that are
      targeted for the first time without a break and get no grace: blocked or unapproved, or told
      about within RELAUNCH_WINDOW. */
  lemma TermIsExact(h: History, n: nat)
    requires Monotone(h) && n < |h|
    ensures OutputAt(h, n).signal == Sigterm
        <==> && h[n].Visit? && h[n].alive && h[n].target.top
             && if exists j: nat :: Since(h, j, n, KeyOf(h[n].target)) then
                  exists j: nat :: StillWarned(h, j, n, KeyOf(h[n].target)) && h[j].now + GRACE <= h[n].now
                else
                  h[n].target.reason.Immediate()
                  || exists j: nat :: j < n && Told(h, j, ToldKeyOf(h[n].target)) && h[n].now < h[j].now + RELAUNCH_WINDOW
  {
    if h[n].Visit? && h[n].alive {
      StageHasStory(h, n, KeyOf(h[n].target));
      WarningIsExact(h, n, KeyOf(h[n].target));
      RecentlyToldIsExact(h, n, ToldKeyOf(h[n].target));
    }
  }

  /** When the child is told: exactly when a living process is targeted for the first time without
      a break and nothing was said about its group within RELAUNCH_WINDOW. The notice gives it ten
      seconds if it ran into its limit, and none otherwise. */
  lemma NoticeIsExact(h: History, n: nat)
    requires Monotone(h) && n < |h| && h[n].Visit? && h[n].alive
    ensures var t := h[n].target;
            OutputAt(h, n).notice.Some?
            <==> (!exists j: nat :: Since(h, j, n, KeyOf(t)))
                 && !exists j: nat :: j < n && Told(h, j, ToldKeyOf(t)) && h[n].now < h[j].now + RELAUNCH_WINDOW
    ensures OutputAt(h, n).notice.Some? ==>
              OutputAt(h, n).notice == Some(Notice(h[n].target, if h[n].target.reason == Limit then 10_000 else 0))
  {
    StageHasStory(h, n, KeyOf(h[n].target));
    RecentlyToldIsExact(h, n, ToldKeyOf(h[n].target));
  }

  /** Whether a process that ran into its limit is closed on sight, without any grace: exactly when
      the child was told about its group within RELAUNCH_WINDOW, be it in the same call. */
  lemma GraceIsSkippedExactly(h: History, n: nat)
    requires Monotone(h) && n < |h| && h[n].Visit? && h[n].alive && h[n].target.top && h[n].target.reason == Limit
    requires !exists j: nat :: Since(h, j, n, KeyOf(h[n].target))
    ensures OutputAt(h, n).signal == Sigterm
        <==> exists j: nat :: j < n && Told(h, j, ToldKeyOf(h[n].target)) && h[n].now < h[j].now + RELAUNCH_WINDOW
  {
    StageHasStory(h, n, KeyOf(h[n].target));
    RecentlyToldIsExact(h, n, ToldKeyOf(h[n].target));
  }

  /** No spam: two notices about one user and group are at least RELAUNCH_WINDOW apart. */
  lemma NoticesAreApart(h: History, j: nat, n: nat, key: ToldKey)
    requires Monotone(h) && j < n < |h| && Told(h, j, key) && Told(h, n, key)
    ensures h[j].now + RELAUNCH_WINDOW <= h[n].now
  {
    RecentlyToldIsExact(h, n, key);
  }

  /** `m` is `full` less some notices that were old at `last`. */
  ghost predicate Forgot(m: Memory, full: Memory, last: nat) {
    && m.stage == full.stage
    && (forall k :: k in m.told ==> k in full.told && full.told[k] == m.told[k])
    && (forall k :: k in full.told && k !in m.told ==> full.told[k] + 10 * RELAUNCH_WINDOW <= last)
  }

  lemma StepForgets(m: Memory, full: Memory, e: Event, last: nat)
    requires Forgot(m, full, last) && last <= e.now
    ensures Step(m, e, true).1 == Step(full, e, false).1
    ensures Forgot(Step(m, e, true).0, Step(full, e, false).0, e.now)
  {}

  /** Pruning is invisible: a closer that never forgot a notice behaves the same. */
  lemma {:induction false} PruningIsInvisible(h: History, n: nat)
    requires Monotone(h) && n <= |h|
    ensures Forgot(Replay(h, n, true), Replay(h, n, false), if n == 0 then 0 else h[n - 1].now)
    ensures n < |h| ==> OutputAt(h, n) == Step(Replay(h, n, false), h[n], false).1
  {
    if n > 0 {
      PruningIsInvisible(h, n - 1);
      StepForgets(Replay(h, n - 1, true), Replay(h, n - 1, false), h[n - 1], if n == 1 then 0 else h[n - 2].now);
    }
    if n < |h| {
      StepForgets(Replay(h, n, true), Replay(h, n, false), h[n], if n == 0 then 0 else h[n - 1].now);
    }
  }

  lemma {:induction false} StageStays(h: History, a: nat, n: nat, key: ProcKey)
    requires Monotone(h) && Since(h, a, n, key)
    ensures var stage := Replay(h, n, true).stage; key in stage && (stage[key].Warned? ==> stage[key].at <= h[a].now)
  {
    if a < n - 1 { StageStays(h, a, n - 1, key); }
    else { StageHasStory(h, a, key); StageHasStory(h, n, key); StageAtMostNow(h, n, key); }
  }

  lemma StageAtMostNow(h: History, n: nat, key: ProcKey)
    requires Monotone(h) && 0 < n <= |h| && key in Replay(h, n, true).stage
    ensures Replay(h, n, true).stage[key].at <= h[n - 1].now
  {}

  lemma {:induction false} TermedStays(h: History, b: nat, n: nat, key: ProcKey)
    requires Since(h, b, n, key)
    requires var stage := Replay(h, b + 1, true).stage; key in stage && stage[key].Termed?
    ensures key in Replay(h, n, true).stage && Replay(h, n, true).stage[key] == Replay(h, b + 1, true).stage[key]
  {
    if b < n - 1 { TermedStays(h, b, n - 1, key); }
  }

  /** Nothing escapes: a process that stays alive and targeted through visits at `a`, `b` and `c`,
      each GRACE or more after the one before, gets SIGKILL at `c`. */
  lemma KillIsReached(h: History, a: nat, b: nat, c: nat, key: ProcKey)
    requires Monotone(h) && a < b < c < |h| && Since(h, a, c, key)
    requires Sees(h[b], key) && Sees(h[c], key) && h[c].alive
    requires h[a].now + GRACE <= h[b].now && h[b].now + GRACE <= h[c].now
    ensures OutputAt(h, c).signal == Sigkill
  {
    assert Since(h, a, b, key) && Since(h, b, c, key);
    StageStays(h, a, b, key);
    TermedStays(h, b, c, key);
    StageAtMostNow(h, b + 1, key);
  }

  /** The grace period is skipped for the second of two fresh processes of one group, even in the
      call that first tells the child. */
  lemma SecondProcessSkipsGrace(first: Target, second: Target, now: nat)
    requires KeyOf(first) != KeyOf(second) && ToldKeyOf(first) == ToldKeyOf(second)
    requires first.reason == Limit && second.reason == Limit && second.top
    ensures var h := EventsOf(now, [first, second], [true, true]);
            && OutputAt(h, 1) == Output(NoSignal, Some(Notice(first, GRACE)))
            && OutputAt(h, 2) == Output(Sigterm, None)
  {
    var h := EventsOf(now, [first, second], [true, true]);
    assert h == [Begin(now, [first, second]), Visit(now, first, true), Visit(now, second, true)];
    assert Replay(h, 1, true) == Memory(map[], map[]);
  }
}

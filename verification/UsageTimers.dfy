/** Screen-time timers (crates/agent/src/heartbeat.rs, dbus.rs): session and suspend events start and
    stop a timer per user, and each heartbeat turns what it ran into whole seconds. */
module UsageTimers {
  import opened Wrappers

  datatype SessionState = SessionState(active: Option<bool>, locked: Option<bool>, idle: Option<bool>)

  const UNKNOWN := SessionState(None, None, None)

  predicate SessionCounts(s: SessionState) { s.active == Some(true) && s.locked == Some(false) && s.idle == Some(false) }

  /** Sessions per user; a user without sessions has no entry. */
  type Sessions = map<nat, map<string, SessionState>>

  /** When the timer of each user was started, if it runs. */
  type Timers = map<nat, Option<nat>>

  predicate UidCounts(sessions: Sessions, uid: nat) {
    uid in sessions && exists id :: id in sessions[uid] && SessionCounts(sessions[uid][id])
  }

  predicate Running(timers: Timers, uid: nat) { uid in timers && timers[uid].Some? }

  // ---- Specification ----------------------------------------------------------------------

  datatype State = State(sessions: Sessions, timers: Timers)

  /** Instants in milliseconds. A beat covers the managed users. */
  datatype Event =
    | Started(now: nat, uid: nat, id: string)
    | Ended(now: nat, uid: nat, id: string)
    | Changed(now: nat, uid: nat, id: string, state: SessionState)
    | Sleep(now: nat, suspend: bool)
    | Beat(now: nat, managed: set<nat>)

  const START := State(map[], map[])

  function UpdatedTimer(timers: Timers, uid: nat, counted: bool, counts: bool, now: nat): Timers {
    if !counted && counts then timers[uid := Some(now)]
    else if counted && !counts then timers[uid := None]
    else if !counted && uid !in timers then timers[uid := None]
    else timers
  }

  function WithSession(s: State, uid: nat, id: string, state: SessionState, now: nat): State {
    var own := if uid in s.sessions then s.sessions[uid] else map[];
    var sessions := s.sessions[uid := own[id := state]];
    State(sessions, UpdatedTimer(s.timers, uid, UidCounts(s.sessions, uid), UidCounts(sessions, uid), now))
  }

  function WithoutSession(s: State, uid: nat, id: string, now: nat): State {
    if uid !in s.sessions then s.(timers := s.timers - {uid})
    else
      var own := s.sessions[uid] - {id};
      if own == map[] then State(s.sessions - {uid}, s.timers - {uid})
      else
        var sessions := s.sessions[uid := own];
        State(sessions, UpdatedTimer(s.timers, uid, UidCounts(s.sessions, uid), UidCounts(sessions, uid), now))
  }

  function Since(now: nat, at: nat): nat { if now >= at then now - at else 0 }

  /** Whole seconds a beat counts for a timer, at most one interval. */
  function CountedSeconds(since: nat, now: nat, interval: nat): nat { Min(Since(now, since) / 1000, interval / 1000) }

  /** The fraction carries into the next beat; a gap of more than two intervals is dropped. */
  function AdvancedTimer(since: nat, counted: nat, now: nat, interval: nat): nat {
    if Since(now, since) > interval * 2 then now else since + counted * 1000
  }

  predicate Covers(s: State, managed: set<nat>, uid: nat) { uid in managed && uid in s.sessions && Running(s.timers, uid) }

  function Step(s: State, e: Event, interval: nat): State {
    match e
    case Started(now, uid, id) => WithSession(s, uid, id, UNKNOWN, now)
    case Ended(now, uid, id) => WithoutSession(s, uid, id, now)
    case Changed(now, uid, id, state) =>
      if uid in s.sessions && id in s.sessions[uid] then WithSession(s, uid, id, state, now) else s
    case Sleep(now, suspend) =>
      s.(timers := if suspend then map uid | uid in s.timers :: None
                   else map uid | uid in s.sessions :: if UidCounts(s.sessions, uid) then Some(now) else None)
    case Beat(now, managed) =>
      s.(timers := map uid | uid in s.timers ::
           if Covers(s, managed, uid)
           then Some(AdvancedTimer(s.timers[uid].value, CountedSeconds(s.timers[uid].value, now, interval), now, interval))
           else s.timers[uid])
  }

  /** What a beat counts for a user. */
  function Gain(s: State, e: Event, uid: nat, interval: nat): nat {
    if e.Beat? && Covers(s, e.managed, uid) then CountedSeconds(s.timers[uid].value, e.now, interval) else 0
  }

  type History = seq<Event>

  function Replay(h: History, n: nat, interval: nat): State
    requires n <= |h|
  {
    if n == 0 then START else Step(Replay(h, n - 1, interval), h[n - 1], interval)
  }

  // ---- Which timers run -------------------------------------------------------------------

  predicate Suspended(h: History, n: nat)
    requires n <= |h|
  {
    n > 0 && if h[n - 1].Sleep? then h[n - 1].suspend else Suspended(h, n - 1)
  }

  /** The computer sleeps exactly when the last sleep event was a suspend. */
  lemma {:induction false} SuspendedMeans(h: History, n: nat)
    requires n <= |h|
    ensures Suspended(h, n)
        <==> exists i: nat :: i < n && h[i].Sleep? && h[i].suspend && forall j :: i < j < n ==> !h[j].Sleep?
  {
    if n > 0 {
      SuspendedMeans(h, n - 1);
      if !h[n - 1].Sleep? && Suspended(h, n - 1) {
        var i: nat :| i < n - 1 && h[i].Sleep? && h[i].suspend && forall j :: i < j < n - 1 ==> !h[j].Sleep?;
        assert forall j :: i < j < n ==> !h[j].Sleep?;
      }
    }
  }

  /** Only a user whose session counts has a running timer; while the computer is awake, exactly
      those do. A timer belongs to a user with a session. */
  ghost predicate TimersFit(s: State, suspended: bool, uid: nat) {
    && (Running(s.timers, uid) ==> UidCounts(s.sessions, uid))
    && (!suspended ==> (Running(s.timers, uid) <==> UidCounts(s.sessions, uid)))
  }

  lemma StepFits(s: State, e: Event, suspended: bool, uid: nat, interval: nat)
    requires TimersFit(s, suspended, uid)
    ensures TimersFit(Step(s, e, interval), if e.Sleep? then e.suspend else suspended, uid)
  {}

  lemma {:induction false} RunningMeansCounting(h: History, n: nat, uid: nat, interval: nat)
    requires n <= |h|
    ensures TimersFit(Replay(h, n, interval), Suspended(h, n), uid)
  {
    if n > 0 {
      RunningMeansCounting(h, n - 1, uid, interval);
      StepFits(Replay(h, n - 1, interval), h[n - 1], Suspended(h, n - 1), uid, interval);
    }
  }

  /** The last state reported for a session that was started and has not ended. */
  function Report(h: History, n: nat, uid: nat, id: string): Option<SessionState>
    requires n <= |h|
  {
    if n == 0 then None
    else
      var before := Report(h, n - 1, uid, id);
      match h[n - 1]
      case Started(_, u, i) => if u == uid && i == id then Some(SessionState(None, None, None)) else before
      case Ended(_, u, i) => if u == uid && i == id then None else before
      case Changed(_, u, i, state) => if u == uid && i == id && before.Some? then Some(state) else before
      case _ => before
  }

  lemma {:induction false} SessionsAreReported(h: History, n: nat, uid: nat, id: string, interval: nat)
    requires n <= |h|
    ensures var sessions := Replay(h, n, interval).sessions;
            Report(h, n, uid, id) == if uid in sessions && id in sessions[uid] then Some(sessions[uid][id]) else None
  {
    if n > 0 {
      SessionsAreReported(h, n - 1, uid, id, interval);
      StepReports(Replay(h, n - 1, interval), h[n - 1], uid, id, interval);
    }
  }

  function StateOf(s: State, uid: nat, id: string): Option<SessionState> {
    if uid in s.sessions && id in s.sessions[uid] then Some(s.sessions[uid][id]) else None
  }

  lemma StepReports(s: State, e: Event, uid: nat, id: string, interval: nat)
    ensures StateOf(Step(s, e, interval), uid, id)
         == match e
            case Started(_, u, i) => if u == uid && i == id then Some(SessionState(None, None, None)) else StateOf(s, uid, id)
            case Ended(_, u, i) => if u == uid && i == id then None else StateOf(s, uid, id)
            case Changed(_, u, i, state) => if u == uid && i == id && StateOf(s, uid, id).Some? then Some(state) else StateOf(s, uid, id)
            case _ => StateOf(s, uid, id)
  {
    if e.Ended? && e.uid == uid && uid in s.sessions && id in s.sessions[uid] && id != e.id {
      assert id in s.sessions[uid] - {e.id};
    }
  }

  /** While the computer is awake a user's timer runs exactly when one of the user's sessions was last
      reported active, unlocked and not idle. */
  lemma TimerRunsExactly(h: History, n: nat, uid: nat, interval: nat)
    requires n <= |h| && !Suspended(h, n)
    ensures var timers := Replay(h, n, interval).timers;
            (uid in timers && timers[uid].Some?)
            <==> exists id :: Report(h, n, uid, id) == Some(SessionState(Some(true), Some(false), Some(false)))
  {
    RunningMeansCounting(h, n, uid, interval);
    var s := Replay(h, n, interval);
    if UidCounts(s.sessions, uid) {
      var id :| id in s.sessions[uid] && SessionCounts(s.sessions[uid][id]);
      SessionsAreReported(h, n, uid, id, interval);
      assert Report(h, n, uid, id) == Some(SessionState(Some(true), Some(false), Some(false)));
    }
    if id :| Report(h, n, uid, id) == Some(SessionState(Some(true), Some(false), Some(false))) {
      SessionsAreReported(h, n, uid, id, interval);
      assert uid in s.sessions && id in s.sessions[uid] && SessionCounts(s.sessions[uid][id]);
    }
  }

  // ---- How much is counted ----------------------------------------------------------------

  ghost predicate Monotone(h: History) { forall i, j :: 0 <= i < j < |h| ==> h[i].now <= h[j].now }

  /** Seconds counted for a user. */
  function Counted(h: History, n: nat, uid: nat, interval: nat): nat
    requires n <= |h|
  {
    if n == 0 then 0 else Counted(h, n - 1, uid, interval) + Gain(Replay(h, n - 1, interval), h[n - 1], uid, interval)
  }

  /** Wall time the user's timer ran, up to the last event. */
  function Ran(h: History, n: nat, uid: nat, interval: nat): nat
    requires n <= |h|
  {
    if n <= 1 then 0
    else
      Ran(h, n - 1, uid, interval)
      + if Running(Replay(h, n - 1, interval).timers, uid) then Since(h[n - 1].now, h[n - 2].now) else 0
  }

  /** How far a beat moves a user's timer. */
  function BeatAdvance(s: State, e: Event, uid: nat, interval: nat): nat {
    if e.Beat? && Covers(s, e.managed, uid) then
      var since := s.timers[uid].value;
      Since(AdvancedTimer(since, CountedSeconds(since, e.now, interval), e.now, interval), since)
    else 0
  }

  /** How far all beats moved the user's timer. */
  function Advance(h: History, n: nat, uid: nat, interval: nat): nat
    requires n <= |h|
  {
    if n == 0 then 0 else Advance(h, n - 1, uid, interval) + BeatAdvance(Replay(h, n - 1, interval), h[n - 1], uid, interval)
  }

  /** The beat came more than two intervals after the user's timer was last moved. */
  predicate TooLate(s: State, e: Event, uid: nat, interval: nat) {
    e.Beat? && Covers(s, e.managed, uid) && Since(e.now, s.timers[uid].value) > interval * 2
  }

  predicate BigGap(h: History, i: nat, uid: nat, interval: nat) { i < |h| && TooLate(Replay(h, i, interval), h[i], uid, interval) }

  /** What the running timer has not been counted for yet. */
  function Uncounted(s: State, uid: nat, now: nat): nat {
    if Running(s.timers, uid) then Since(now, s.timers[uid].value) else 0
  }

  lemma BeatMovesTimer(since: nat, now: nat, interval: nat)
    requires since <= now
    ensures var counted := CountedSeconds(since, now, interval);
            var next := AdvancedTimer(since, counted, now, interval);
            && since + 1000 * counted <= next <= now
            && (next == since + 1000 * counted <==> now - since <= interval * 2)
  {}

  lemma {:induction false} TimersStartInThePast(h: History, n: nat, uid: nat, interval: nat)
    requires n <= |h| && Monotone(h) && Running(Replay(h, n, interval).timers, uid)
    ensures n > 0 && Replay(h, n, interval).timers[uid].value <= h[n - 1].now
  {
    if n > 0 && Running(Replay(h, n - 1, interval).timers, uid) {
      TimersStartInThePast(h, n - 1, uid, interval);
      BeatMovesTimer(Replay(h, n - 1, interval).timers[uid].value, h[n - 1].now, interval);
    }
  }

  lemma UncountedGrows(s: State, uid: nat, before: nat, now: nat)
    requires before <= now && (Running(s.timers, uid) ==> s.timers[uid].value <= before)
    ensures Uncounted(s, uid, now) == Uncounted(s, uid, before) + if Running(s.timers, uid) then Since(now, before) else 0
  {}

  /** The counted seconds, and the fraction still running, never exceed the wall time the timer ran. */
  lemma {:induction false} CountedAtMostRan(h: History, n: nat, uid: nat, interval: nat)
    requires n <= |h| && Monotone(h)
    ensures 1000 * Counted(h, n, uid, interval) + (if n == 0 then 0 else Uncounted(Replay(h, n, interval), uid, h[n - 1].now))
         <= Ran(h, n, uid, interval)
  {
    if n > 0 {
      CountedAtMostRan(h, n - 1, uid, interval);
      var s := Replay(h, n - 1, interval);
      if Running(s.timers, uid) { TimersStartInThePast(h, n - 1, uid, interval); }
      if n > 1 { UncountedGrows(s, uid, h[n - 2].now, h[n - 1].now); }
      StepUncounted(s, h[n - 1], uid, interval);
    }
  }

  lemma StepUncounted(s: State, e: Event, uid: nat, interval: nat)
    requires Running(s.timers, uid) ==> s.timers[uid].value <= e.now
    ensures 1000 * Gain(s, e, uid, interval) + Uncounted(Step(s, e, interval), uid, e.now) <= Uncounted(s, uid, e.now)
  {}

  ghost predicate OnTime(h: History, n: nat, uid: nat, interval: nat) { forall i: nat :: i < n ==> !BigGap(h, i, uid, interval) }

  lemma OnTimeSoFar(h: History, n: nat, uid: nat, interval: nat)
    requires 0 < n <= |h|
    ensures OnTime(h, n, uid, interval)
        <==> OnTime(h, n - 1, uid, interval) && !TooLate(Replay(h, n - 1, interval), h[n - 1], uid, interval)
  {
    assert BigGap(h, n - 1, uid, interval) <==> TooLate(Replay(h, n - 1, interval), h[n - 1], uid, interval);
  }

  lemma BeatCountsItsAdvance(s: State, e: Event, uid: nat, interval: nat)
    requires Running(s.timers, uid) ==> s.timers[uid].value <= e.now
    ensures 1000 * Gain(s, e, uid, interval) <= BeatAdvance(s, e, uid, interval)
    ensures 1000 * Gain(s, e, uid, interval) == BeatAdvance(s, e, uid, interval) <==> !TooLate(s, e, uid, interval)
  {}

  /** The counted seconds are the timer's advance exactly when no beat came too late. */
  lemma {:induction false} CountedIsTheAdvance(h: History, n: nat, uid: nat, interval: nat)
    requires n <= |h| && Monotone(h)
    ensures 1000 * Counted(h, n, uid, interval) <= Advance(h, n, uid, interval)
    ensures 1000 * Counted(h, n, uid, interval) == Advance(h, n, uid, interval)
        <==> OnTime(h, n, uid, interval)
  {
    if n > 0 {
      CountedIsTheAdvance(h, n - 1, uid, interval);
      var s := Replay(h, n - 1, interval);
      if Running(s.timers, uid) { TimersStartInThePast(h, n - 1, uid, interval); }
      BeatCountsItsAdvance(s, h[n - 1], uid, interval);
      OnTimeSoFar(h, n, uid, interval);
    }
  }

  // ---- What a beat counts, and what is never counted --------------------------------------

  /** A covered beat counts the whole seconds its timer ran, up to one interval. */
  lemma BeatCountsWholeSeconds(s: State, e: Event, uid: nat, interval: nat)
    requires e.Beat? && uid in e.managed && uid in s.sessions && uid in s.timers && s.timers[uid].Some?
    ensures var ran := if s.timers[uid].value < e.now then e.now - s.timers[uid].value else 0;
            var k := Gain(s, e, uid, interval);
            1000 * k <= (if ran < interval then ran else interval) < 1000 * (k + 1)
  {}

  /** A beat for a user who is not managed, has no session or whose timer stands counts nothing. */
  lemma OtherwiseNothing(s: State, e: Event, uid: nat, interval: nat)
    requires !(e.Beat? && uid in e.managed && uid in s.sessions && uid in s.timers && s.timers[uid].Some?)
    ensures Gain(s, e, uid, interval) == 0
  {}

  /** Time a running timer is not counted for: what it ran since the last beat when an event stops it
      or starts it anew, and what a beat more than two intervals late leaves out. */
  function Drops(s: State, e: Event, uid: nat, interval: nat): nat {
    if uid !in s.timers || s.timers[uid].None? || e.now < s.timers[uid].value then 0
    else
      var ran := e.now - s.timers[uid].value;
      match e
      case Beat(now, managed) =>
        if uid in managed && uid in s.sessions && ran > 2 * interval then ran - interval / 1000 * 1000 else 0
      case Sleep(_, _) => ran
      case _ => if uid in Step(s, e, interval).timers && Step(s, e, interval).timers[uid].Some? then 0 else ran
  }

  function Dropped(h: History, n: nat, uid: nat, interval: nat): nat
    requires n <= |h|
  {
    if n == 0 then 0 else Dropped(h, n - 1, uid, interval) + Drops(Replay(h, n - 1, interval), h[n - 1], uid, interval)
  }

  lemma StepAccounts(s: State, e: Event, uid: nat, interval: nat)
    requires TimersFit(s, true, uid) && (Running(s.timers, uid) ==> s.timers[uid].value <= e.now)
    ensures 1000 * Gain(s, e, uid, interval) + Drops(s, e, uid, interval) + Uncounted(Step(s, e, interval), uid, e.now)
         == Uncounted(s, uid, e.now)
  {}

  lemma LastStepAccounts(h: History, n: nat, uid: nat, interval: nat)
    requires 0 < n <= |h| && Monotone(h)
    ensures var s, e := Replay(h, n - 1, interval), h[n - 1];
            Ran(h, n, uid, interval) - Ran(h, n - 1, uid, interval) + (if n == 1 then 0 else Uncounted(s, uid, h[n - 2].now))
            == 1000 * Gain(s, e, uid, interval) + Drops(s, e, uid, interval) + Uncounted(Replay(h, n, interval), uid, e.now)
  {
    var s := Replay(h, n - 1, interval);
    RunningMeansCounting(h, n - 1, uid, interval);
    if Running(s.timers, uid) { TimersStartInThePast(h, n - 1, uid, interval); }
    StepAccounts(s, h[n - 1], uid, interval);
    hide Step, Gain, Drops;
    if n > 1 { UncountedGrows(s, uid, h[n - 2].now, h[n - 1].now); }
  }

  lemma LastBeatAdds(h: History, n: nat, uid: nat, interval: nat)
    requires 0 < n <= |h|
    ensures Counted(h, n, uid, interval) == Counted(h, n - 1, uid, interval) + Gain(Replay(h, n - 1, interval), h[n - 1], uid, interval)
    ensures Dropped(h, n, uid, interval) == Dropped(h, n - 1, uid, interval) + Drops(Replay(h, n - 1, interval), h[n - 1], uid, interval)
  {}

  lemma StepIsAccounted(h: History, n: nat, uid: nat, interval: nat, known: int)
    requires 0 < n <= |h| && Monotone(h)
    requires Ran(h, n - 1, uid, interval)
          == known + if n == 1 then 0 else Uncounted(Replay(h, n - 1, interval), uid, h[n - 2].now)
    requires known == 1000 * Counted(h, n - 1, uid, interval) + Dropped(h, n - 1, uid, interval)
    ensures Ran(h, n, uid, interval)
         == 1000 * Counted(h, n, uid, interval) + Dropped(h, n, uid, interval) + Uncounted(Replay(h, n, interval), uid, h[n - 1].now)
  {
    hide *;
    LastStepAccounts(h, n, uid, interval);
    LastBeatAdds(h, n, uid, interval);
  }

  /** Screen time is conserved: the time the user's timer ran is counted, dropped or still running. */
  lemma {:induction false} RanIsCountedOrDropped(h: History, n: nat, uid: nat, interval: nat)
    requires n <= |h| && Monotone(h)
    ensures Ran(h, n, uid, interval)
         == 1000 * Counted(h, n, uid, interval) + Dropped(h, n, uid, interval)
            + if n == 0 then 0 else Uncounted(Replay(h, n, interval), uid, h[n - 1].now)
  {
    if n > 0 {
      RanIsCountedOrDropped(h, n - 1, uid, interval);
      StepIsAccounted(h, n, uid, interval, 1000 * Counted(h, n - 1, uid, interval) + Dropped(h, n - 1, uid, interval));
    }
  }

  /** Right after a beat at most one interval after the one before, less than a second of what ran is
      neither counted nor dropped. */
  lemma BeatLeavesAFraction(h: History, n: nat, uid: nat, interval: nat)
    requires 0 < n <= |h| && Monotone(h) && h[n - 1].Beat? && uid in h[n - 1].managed
    requires var s := Replay(h, n - 1, interval); Running(s.timers, uid) ==> h[n - 1].now <= s.timers[uid].value + interval
    ensures var ran := Ran(h, n, uid, interval);
            var known := 1000 * Counted(h, n, uid, interval) + Dropped(h, n, uid, interval);
            known <= ran < known + 1000
  {
    RanIsCountedOrDropped(h, n, uid, interval);
    RunningMeansCounting(h, n - 1, uid, interval);
    if Running(Replay(h, n - 1, interval).timers, uid) { TimersStartInThePast(h, n - 1, uid, interval); }
  }
}

/** The timers in place: `handle_session_event` and the counting part of `send_heartbeat`. Each
    event is added to the history the properties of UsageTimers are about. */
module UsageClock {
  import opened UsageTimers
  import opened Wrappers

  class HeartbeatLoop {
    const interval: nat
    var sessionStates: Sessions
    var activeSince: Timers
    ghost var history: History

    function Current(): State
      reads this
    {
      State(sessionStates, activeSince)
    }

    ghost predicate Valid()
      reads this
    {
      Current() == Replay(history, |history|, interval)
    }

    constructor (interval: nat)
      ensures Valid() && history == [] && this.interval == interval
    {
      this.interval := interval;
      sessionStates, activeSince, history := map[], map[], [];
    }

    ghost method Record(e: Event)
      requires Current() == Step(Replay(history, |history|, interval), e, interval)
      modifies this`history
      ensures Valid() && history == old(history) + [e]
    {
      var every := interval;
      OneMoreEvent(START, (s: State, e: Event) => Step(s, e, every),
                   (h: History, n: nat) => if n <= |h| then Replay(h, n, every) else START, history, e);
      history := history + [e];
    }

    method UpdateUsageTimer(uid: nat, wasCounting: bool, isCounting: bool, now: nat)
      modifies this`activeSince
      ensures activeSince == UpdatedTimer(old(activeSince), uid, wasCounting, isCounting, now)
    {
      if !wasCounting && isCounting {
        activeSince := activeSince[uid := Some(now)];
      } else if wasCounting && !isCounting {
        activeSince := activeSince[uid := None];
      } else if !wasCounting && uid !in activeSince {
        activeSince := activeSince[uid := None];
      }
    }

    method SetSession(uid: nat, id: string, state: SessionState, now: nat)
      modifies this`sessionStates, this`activeSince
      ensures Current() == WithSession(old(Current()), uid, id, state, now)
    {
      var was := UidCounts(sessionStates, uid);
      var own := if uid in sessionStates then sessionStates[uid] else map[];
      sessionStates := sessionStates[uid := own[id := state]];
      UpdateUsageTimer(uid, was, UidCounts(sessionStates, uid), now);
    }

    method SessionStarted(now: nat, uid: nat, id: string)
      requires Valid()
      modifies this
      ensures Valid() && history == old(history) + [Started(now, uid, id)]
    {
      SetSession(uid, id, UNKNOWN, now);
      Record(Started(now, uid, id));
    }

    method SessionEnded(now: nat, uid: nat, id: string)
      requires Valid()
      modifies this
      ensures Valid() && history == old(history) + [Ended(now, uid, id)]
    {
      var was := UidCounts(sessionStates, uid);
      if uid in sessionStates {
        var own := sessionStates[uid] - {id};
        sessionStates := if own == map[] then sessionStates - {uid} else sessionStates[uid := own];
      }
      if uid !in sessionStates {
        activeSince := activeSince - {uid};
      } else {
        UpdateUsageTimer(uid, was, UidCounts(sessionStates, uid), now);
      }
      Record(Ended(now, uid, id));
    }

    /** A state update for a session that ended is ignored. */
    method StateChanged(now: nat, uid: nat, id: string, state: SessionState)
      requires Valid()
      modifies this
      ensures Valid() && history == old(history) + [Changed(now, uid, id, state)]
    {
      if uid in sessionStates && id in sessionStates[uid] { SetSession(uid, id, state, now); }
      Record(Changed(now, uid, id, state));
    }

    method PrepareForSleep(now: nat, suspend: bool)
      requires Valid()
      modifies this
      ensures Valid() && history == old(history) + [Sleep(now, suspend)]
    {
      if suspend {
        activeSince := map uid | uid in activeSince :: None;
      } else {
        activeSince := map[];
        var todo := sessionStates.Keys;
        while todo != {}
          invariant todo <= sessionStates.Keys && sessionStates == old(sessionStates) && history == old(history)
          invariant activeSince
                 == map uid | uid in sessionStates && uid !in todo :: if UidCounts(sessionStates, uid) then Some(now) else None
          decreases todo
        {
          var uid :| uid in todo;
          activeSince := activeSince[uid := if UidCounts(sessionStates, uid) then Some(now) else None];
          todo := todo - {uid};
        }
      }
      Record(Sleep(now, suspend));
    }

    /** Counts one user's timer and moves it on. */
    method CountUser(now: nat, uid: nat, ghost s: State, ghost done: set<nat>) returns (counted: nat)
      requires uid !in done && sessionStates == s.sessions && activeSince == Step(s, Beat(now, done), interval).timers
      modifies this`activeSince
      ensures activeSince == Step(s, Beat(now, done + {uid}), interval).timers
      ensures counted == Gain(s, Beat(now, {uid}), uid, interval)
    {
      counted := 0;
      if uid in sessionStates && uid in activeSince && activeSince[uid].Some? {
        var since := activeSince[uid].value;
        counted := CountedSeconds(since, now, interval);
        activeSince := activeSince[uid := Some(AdvancedTimer(since, counted, now, interval))];
      }
    }

    /** What this beat adds to each user's screen time, and the timers moved on by as much. */
    method CountBeat(now: nat, managed: set<nat>) returns (added: map<nat, nat>)
      requires Valid()
      modifies this
      ensures Valid() && history == old(history) + [Beat(now, managed)]
      ensures added == Gains(old(Current()), now, managed, interval)
      ensures forall uid :: uid in added ==> added[uid] > 0 && uid in managed && uid in sessionStates
      ensures forall uid :: uid in managed && uid in sessionStates && uid in old(activeSince) && old(activeSince)[uid].Some? ==>
                var ran := if old(activeSince)[uid].value < now then now - old(activeSince)[uid].value else 0;
                var k := if uid in added then added[uid] else 0;
                1000 * k <= (if ran < interval then ran else interval) < 1000 * (k + 1)
    {
      added := map[];
      var todo := managed;
      ghost var s := Current();
      while todo != {}
        invariant todo <= managed && sessionStates == s.sessions && history == old(history)
        invariant activeSince == Step(s, Beat(now, managed - todo), interval).timers
        invariant added == Gains(s, now, managed - todo, interval)
        decreases todo
      {
        var uid :| uid in todo;
        OneMoreGain(s, now, managed - todo, uid, interval);
        var counted := CountUser(now, uid, s, managed - todo);
        assert managed - todo + {uid} == managed - (todo - {uid});
        if counted > 0 { added := added[uid := counted]; }
        todo := todo - {uid};
      }
      assert managed - todo == managed;
      GainsAreWholeSeconds(s, now, managed, interval);
      Record(Beat(now, managed));
    }
  }

  /** The users a beat counts something for, and how much. */
  function Gains(s: State, now: nat, managed: set<nat>, interval: nat): map<nat, nat> {
    map uid | uid in managed && Gain(s, Beat(now, managed), uid, interval) > 0 :: Gain(s, Beat(now, managed), uid, interval)
  }

  lemma GainsAreWholeSeconds(s: State, now: nat, managed: set<nat>, interval: nat)
    ensures var added := Gains(s, now, managed, interval);
            && (forall uid :: uid in added ==> added[uid] > 0 && uid in managed && uid in s.sessions)
            && forall uid :: uid in managed && uid in s.sessions && uid in s.timers && s.timers[uid].Some? ==>
                 var ran := if s.timers[uid].value < now then now - s.timers[uid].value else 0;
                 var k := if uid in added then added[uid] else 0;
                 1000 * k <= (if ran < interval then ran else interval) < 1000 * (k + 1)
  {
    forall uid | uid in managed && uid in s.sessions && uid in s.timers && s.timers[uid].Some?
      ensures var ran := if s.timers[uid].value < now then now - s.timers[uid].value else 0;
              1000 * Gain(s, Beat(now, managed), uid, interval) <= (if ran < interval then ran else interval)
              < 1000 * (Gain(s, Beat(now, managed), uid, interval) + 1)
    {
      BeatCountsWholeSeconds(s, Beat(now, managed), uid, interval);
    }
  }

  lemma OneMoreGain(s: State, now: nat, done: set<nat>, uid: nat, interval: nat)
    requires uid !in done
    ensures var counted := Gain(s, Beat(now, {uid}), uid, interval);
            Gains(s, now, done + {uid}, interval)
            == if counted > 0 then Gains(s, now, done, interval)[uid := counted] else Gains(s, now, done, interval)
  {}
}

/** The handlers that arm and disarm lock tasks (crates/agent/src/heartbeat.rs, `handle_midnight` of
    enforcement.rs). Each adds its actions to the history the properties of LockTasks are about. */
module LockAgent {
  import opened LockTasks
  import opened Wrappers

  function OnlineAction(uid: nat, action: Action): History { if action == Lock then [Arm(uid)] else [Disarm(uid)] }

  function OfflineAction(uid: nat, action: Action): History {
    match action
    case Lock => [Arm(uid)]
    case Warn => []
    case Allow => [Disarm(uid)]
  }

  function MidnightAction(uid: nat, action: Action): History { if action == Lock then [Arm(uid)] else [] }

  function Eviction(uid: nat, settings: Settings): History { if settings.preserve then [] else [Disarm(uid)] }

  function Caching(uid: nat, settings: Settings): History { [Cache(uid, settings)] }

  /** The actions of a handler that goes through its entries in order. */
  function Each<T>(entries: seq<(nat, T)>, f: (nat, T) -> History): History {
    if entries == [] then []
    else var last := entries[|entries| - 1]; Each(entries[..|entries| - 1], f) + f(last.0, last.1)
  }

  class Agent {
    var now: nat
    var lockedUids: set<nat>
    var tasks: seq<Task>
    var settings: map<nat, Settings>
    var sessions: map<nat, set<nat>>
    ghost var history: History

    function Current(): State
      reads this
    {
      State(now, lockedUids, tasks, settings, sessions)
    }

    ghost predicate Valid()
      reads this
    {
      Current() == Replay(history, |history|)
    }

    constructor ()
      ensures Valid() && history == []
    {
      now, lockedUids, tasks, settings, sessions := 0, {}, [], map[], map[];
      history := [];
    }

    ghost method Record(e: Event)
      requires Current() == Step(Replay(history, |history|), e)
      modifies this`history
      ensures Valid() && history == old(history) + [e]
    {
      ReplayMore(history, [e]);
      history := history + [e];
    }

    method ArmUid(uid: nat)
      requires Valid()
      modifies this
      ensures Valid() && history == old(history) + [Arm(uid)]
      ensures lockedUids == old(lockedUids) + {uid}
      ensures tasks == if uid in old(lockedUids) then old(tasks) else old(tasks) + [Task(uid, Spawned, Settings(5, false))]
    {
      if uid !in lockedUids {
        lockedUids := lockedUids + {uid};
        tasks := tasks + [Task(uid, Spawned, DEFAULTS)];
      }
      Record(Arm(uid));
    }

    method DisarmUid(uid: nat)
      requires Valid()
      modifies this
      ensures Valid() && history == old(history) + [Disarm(uid)]
      ensures lockedUids == old(lockedUids) - {uid} && tasks == old(tasks)
    {
      lockedUids := lockedUids - {uid};
      Record(Disarm(uid));
    }

    /** The server's view of every user: lock, or lift the lock (a warning lifts it too). */
    method RemainingUpdate(entries: seq<(nat, Action)>)
      requires Valid()
      modifies this
      ensures Valid() && history == old(history) + Each(entries, OnlineAction)
    {
      for i := 0 to |entries|
        invariant Valid() && history == old(history) + Each(entries[..i], OnlineAction)
      {
        assert entries[..i + 1][..i] == entries[..i];
        if entries[i].1 == Lock { ArmUid(entries[i].0); } else { DisarmUid(entries[i].0); }
      }
      assert entries[..|entries|] == entries;
    }

    /** Without the server: a warning leaves a lock in place. */
    method OfflineBeat(entries: seq<(nat, Action)>)
      requires Valid()
      modifies this
      ensures Valid() && history == old(history) + Each(entries, OfflineAction)
    {
      for i := 0 to |entries|
        invariant Valid() && history == old(history) + Each(entries[..i], OfflineAction)
      {
        assert entries[..i + 1][..i] == entries[..i];
        match entries[i].1
        case Lock => ArmUid(entries[i].0);
        case Warn =>
        case Allow => DisarmUid(entries[i].0);
      }
      assert entries[..|entries|] == entries;
    }

    method HandleMidnight(entries: seq<(nat, Action)>)
      requires Valid()
      modifies this
      ensures Valid() && history == old(history) + Each(entries, MidnightAction)
    {
      for i := 0 to |entries|
        invariant Valid() && history == old(history) + Each(entries[..i], MidnightAction)
      {
        assert entries[..i + 1][..i] == entries[..i];
        if entries[i].1 == Lock { ArmUid(entries[i].0); }
      }
      assert entries[..|entries|] == entries;
    }

    /** Caches the new settings, then evicts armed users whose sessions are not to be preserved. */
    method ConfigPush(users: seq<(nat, Settings)>)
      requires Valid()
      modifies this
      ensures Valid() && history == old(history) + Each(users, Caching) + Each(users, Eviction)
    {
      for i := 0 to |users|
        invariant Valid() && history == old(history) + Each(users[..i], Caching)
      {
        assert users[..i + 1][..i] == users[..i];
        settings := settings[users[i].0 := users[i].1];
        Record(Cache(users[i].0, users[i].1));
      }
      assert users[..|users|] == users;
      for i := 0 to |users|
        invariant Valid() && history == old(history) + Each(users, Caching) + Each(users[..i], Eviction)
      {
        assert users[..i + 1][..i] == users[..i];
        if !users[i].1.preserve { DisarmUid(users[i].0); }
      }
    }

    /** `execute_lock` up to its next pause, and what it sets out to terminate on the way; when a
        call fails some of these may survive. */
    method ExecuteStep(t: Task, ok: bool) returns (next: Task, killed: set<nat>)
      ensures next == Advanced(Current(), t, ok)
      ensures killed == if t.phase.Checked? then SessionsOf(Current(), t.uid) else {}
    {
      next, killed := t, {};
      var sessionIds := if t.uid in sessions then sessions[t.uid] else {};
      match t.phase
      case Spawned =>
        if !ok || sessionIds == {} {
          next := t.(phase := Removing);
        } else {
          var own := if t.uid in settings then settings[t.uid] else DEFAULTS;
          next := t.(settings := own, phase := Locking);
          if own.graceMinutes > 0 { next := next.(phase := Warning(now + WARNING)); }
        }
      case Warning(until) =>
        if until <= now { next := t.(phase := Locking); }
      case Locking =>
        if !ok { next := t.(phase := Removing); }
        else if t.settings.preserve { next := t.(phase := Ended(true)); }
        else { next := t.(phase := Sleeping(now + t.settings.graceMinutes * MINUTE)); }
      case Sleeping(until) =>
        if until <= now {
          if t.uid !in lockedUids { next := t.(phase := Removing); } else { next := t.(phase := Checked); }
        }
      case Checked =>
        killed := sessionIds;
        next := t.(phase := Removing);
      case Removing => next := t.(phase := Ended(false));
      case Ended(_) =>
    }

    /** A lock task's next step; `ok`: its calls succeed. Returns the sessions it sets out
        to terminate. */
    method RunTask(i: nat, ok: bool) returns (killed: set<nat>)
      requires Valid()
      modifies this
      ensures Valid() && history == old(history) + [Run(i, ok)]
      ensures killed != {} <==> Kills(history, |old(history)|, i)
      ensures killed != {} ==> i < |old(tasks)| && killed == SessionsOf(old(Current()), old(tasks)[i].uid)
    {
      killed := {};
      ghost var h := history;
      if i < |tasks| {
        var t := tasks[i];
        var next: Task;
        next, killed := ExecuteStep(t, ok);
        tasks := tasks[i := next];
        if t.phase.Removing? { lockedUids := lockedUids - {t.uid}; }
      }
      Record(Run(i, ok));
      ReplayPrefix(h, [Run(i, ok)], |h|);
    }
  }

  // ---- What the handlers leave ------------------------------------------------------------

  function After(h: History): State { Replay(h, |h|) }

  lemma EntryStep<T>(h: History, entries: seq<(nat, T)>, uid: nat, x: T, f: (nat, T) -> History)
    requires |f(uid, x)| <= 1
    ensures var before := After(h + Each(entries, f));
            After(h + Each(entries + [(uid, x)], f)) == if f(uid, x) == [] then before else Step(before, f(uid, x)[0])
  {
    var all := entries + [(uid, x)];
    assert all[..|all| - 1] == entries && all[|all| - 1] == (uid, x);
    assert h + Each(all, f) == h + Each(entries, f) + f(uid, x);
    if f(uid, x) == [] { assert h + Each(entries, f) + [] == h + Each(entries, f); }
    else { ReplayMore(h + Each(entries, f), f(uid, x)); }
  }

  lemma StepActs(s: State, acts: History)
    requires |acts| == 1
    ensures acts[0].Disarm? ==> Step(s, acts[0]) == s.(armed := s.armed - {acts[0].uid})
    ensures acts[0].Arm? ==>
              Step(s, acts[0]) == if acts[0].uid in s.armed then s
                                  else s.(armed := s.armed + {acts[0].uid}, tasks := s.tasks + [Task(acts[0].uid, Spawned, Settings(5, false))])
  {}

  /** One more entry of an update from the server: Lock arms the user and spawns one task if the user
      was not armed; a warning, like Allow, only lifts. */
  lemma OnlineEntry(h: History, entries: seq<(nat, Action)>, uid: nat, action: Action)
    ensures var before := After(h + Each(entries, OnlineAction));
            After(h + Each(entries + [(uid, action)], OnlineAction))
            == if action != Lock then before.(armed := before.armed - {uid})
               else if uid in before.armed then before
               else before.(armed := before.armed + {uid}, tasks := before.tasks + [Task(uid, Spawned, Settings(5, false))])
  {
    var acts := OnlineAction(uid, action);
    EntryStep(h, entries, uid, action, OnlineAction);
    hide After, Each, Replay, Step;
    StepActs(After(h + Each(entries, OnlineAction)), acts);
  }

  lemma OfflineEntry(h: History, entries: seq<(nat, Action)>, uid: nat, action: Action)
    ensures var before := After(h + Each(entries, OfflineAction));
            After(h + Each(entries + [(uid, action)], OfflineAction))
            == if action == Allow then before.(armed := before.armed - {uid})
               else if action == Warn || uid in before.armed then before
               else before.(armed := before.armed + {uid}, tasks := before.tasks + [Task(uid, Spawned, Settings(5, false))])
  {
    var acts := OfflineAction(uid, action);
    EntryStep(h, entries, uid, action, OfflineAction);
    hide After, Each, Replay, Step;
    if acts != [] { StepActs(After(h + Each(entries, OfflineAction)), acts); }
  }

  lemma MidnightEntry(h: History, entries: seq<(nat, Action)>, uid: nat, action: Action)
    ensures var before := After(h + Each(entries, MidnightAction));
            After(h + Each(entries + [(uid, action)], MidnightAction))
            == if action != Lock || uid in before.armed then before
               else before.(armed := before.armed + {uid}, tasks := before.tasks + [Task(uid, Spawned, Settings(5, false))])
  {
    var acts := MidnightAction(uid, action);
    EntryStep(h, entries, uid, action, MidnightAction);
    hide After, Each, Replay, Step;
    if acts != [] { StepActs(After(h + Each(entries, MidnightAction)), acts); }
  }

  lemma PushEntry(h: History, users: seq<(nat, Settings)>, uid: nat, own: Settings)
    ensures var before := After(h + Each(users, Caching));
            After(h + Each(users + [(uid, own)], Caching)) == before.(settings := before.settings[uid := own])
    ensures var before := After(h + Each(users, Eviction));
            After(h + Each(users + [(uid, own)], Eviction)) == if own.preserve then before else before.(armed := before.armed - {uid})
  {
    EntryStep(h, users, uid, own, Caching);
    EntryStep(h, users, uid, own, Eviction);
    hide After, Each;
  }

  /** After an update from the server a user is armed exactly if their last entry is Lock; a user
      without an entry stays as they were. */
  lemma {:induction false} UpdateSettles(h: History, entries: seq<(nat, Action)>, uid: nat)
    ensures var armed := After(h + Each(entries, OnlineAction)).armed;
            && (forall i :: 0 <= i < |entries| && entries[i].0 == uid && (forall j :: i < j < |entries| ==> entries[j].0 != uid) ==>
                  (uid in armed <==> entries[i].1 == Lock))
            && ((forall i :: 0 <= i < |entries| ==> entries[i].0 != uid) ==> (uid in armed <==> uid in After(h).armed))
  {
    if entries == [] {
      assert h + [] == h;
    } else {
      var init, last := entries[..|entries| - 1], entries[|entries| - 1];
      UpdateSettles(h, init, uid);
      OnlineEntry(h, init, last.0, last.1);
      assert entries == init + [last] && entries[|init|] == last;
    }
  }

  /** After a beat without the server a user is armed exactly if the last entry other than a warning is
      Lock; with warnings only, or no entry, they stay as they were. */
  lemma {:induction false} OfflineSettles(h: History, entries: seq<(nat, Action)>, uid: nat)
    ensures var armed := After(h + Each(entries, OfflineAction)).armed;
            && (forall i :: 0 <= i < |entries| && entries[i].0 == uid && entries[i].1 != Warn
                            && (forall j :: i < j < |entries| && entries[j].0 == uid ==> entries[j].1 == Warn) ==>
                  (uid in armed <==> entries[i].1 == Lock))
            && ((forall i :: 0 <= i < |entries| && entries[i].0 == uid ==> entries[i].1 == Warn) ==> (uid in armed <==> uid in After(h).armed))
  {
    if entries == [] {
      assert h + [] == h;
    } else {
      var init, last := entries[..|entries| - 1], entries[|entries| - 1];
      OfflineSettles(h, init, uid);
      OfflineEntry(h, init, last.0, last.1);
      assert entries == init + [last] && entries[|init|] == last;
    }
  }

  /** Midnight arms exactly the users with a Lock entry, and lifts no lock. */
  lemma {:induction false} MidnightSettles(h: History, entries: seq<(nat, Action)>, uid: nat)
    ensures uid in After(h + Each(entries, MidnightAction)).armed <==> uid in After(h).armed || (uid, Lock) in entries
  {
    if entries == [] {
      assert h + [] == h;
    } else {
      var init, last := entries[..|entries| - 1], entries[|entries| - 1];
      MidnightSettles(h, init, uid);
      MidnightEntry(h, init, last.0, last.1);
      assert entries == init + [last];
    }
  }

  /** A configuration push lifts exactly the locks of users it no longer preserves the sessions of. */
  lemma {:induction false} EvictionSettles(h: History, users: seq<(nat, Settings)>, uid: nat)
    ensures uid in After(h + Each(users, Eviction)).armed
        <==> uid in After(h).armed && forall own :: (uid, own) in users ==> own.preserve
  {
    if users == [] {
      assert h + [] == h;
    } else {
      var init, last := users[..|users| - 1], users[|users| - 1];
      EvictionSettles(h, init, uid);
      PushEntry(h, init, last.0, last.1);
      assert users == init + [last];
    }
  }

  /** And the settings it caches are those it sent last. */
  lemma {:induction false} CachingSettles(h: History, users: seq<(nat, Settings)>, i: nat)
    requires i < |users| && forall j :: i < j < |users| ==> users[j].0 != users[i].0
    ensures var s := After(h + Each(users, Caching)); users[i].0 in s.settings && s.settings[users[i].0] == users[i].1
  {
    var init, last := users[..|users| - 1], users[|users| - 1];
    if i < |init| { CachingSettles(h, init, i); }
    PushEntry(h, init, last.0, last.1);
    assert users == init + [last];
  }

  /** A warning lifts a lock online and leaves it in place offline: the two leave the same users
      armed exactly if the user was not armed. */
  lemma WarningLiftsOnlyOnline(h: History, uid: nat)
    ensures var online, offline := h + Each([(uid, Warn)], OnlineAction), h + Each([(uid, Warn)], OfflineAction);
            && Replay(online, |online|).armed == Replay(h, |h|).armed - {uid}
            && Replay(offline, |offline|).armed == Replay(h, |h|).armed
            && (Replay(online, |online|).armed == Replay(offline, |offline|).armed <==> uid !in Replay(h, |h|).armed)
  {
    assert [(uid, Warn)][..0] == [];
    assert Each([(uid, Warn)], OnlineAction) == [] + [Disarm(uid)] && [] + [Disarm(uid)] == [Disarm(uid)];
    assert Each([(uid, Warn)], OfflineAction) == [] && h + [] == h;
    ReplayMore(h, [Disarm(uid)]);
  }

  /** Switching preservation off for a locked user restarts the lock: the next lock update spawns a
      task, and that task, when it starts, does not preserve. */
  lemma EvictionRestartsTheLock(h: History, uid: nat, settings: Settings)
    requires !settings.preserve
    ensures var pushed := h + Each([(uid, settings)], Caching) + Each([(uid, settings)], Eviction);
            var s := Replay(pushed + [Arm(uid)], |pushed| + 1);
            && s.tasks == Replay(h, |h|).tasks + [Task(uid, Spawned, DEFAULTS)]
            && !Advanced(s, s.tasks[|s.tasks| - 1], true).settings.preserve
  {
    assert [(uid, settings)][..0] == [];
    assert Each([(uid, settings)], Caching) == [] + [Cache(uid, settings)] && [] + [Cache(uid, settings)] == [Cache(uid, settings)];
    assert Each([(uid, settings)], Eviction) == [] + [Disarm(uid)] && [] + [Disarm(uid)] == [Disarm(uid)];
    ReplayMore(h, [Cache(uid, settings)]);
    ReplayMore(h + [Cache(uid, settings)], [Disarm(uid)]);
    ReplayMore(h + [Cache(uid, settings)] + [Disarm(uid)], [Arm(uid)]);
  }
}

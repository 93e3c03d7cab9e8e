/** Deciding about screen time twice: the agent on its own (crates/agent/src/enforcement.rs,
    `offline_evaluate`) and the server for it (crates/server/src/remaining.rs). */
module ScreenTime {
  import opened Wrappers

  datatype Action = Allow | Warn | Lock

  /** Allowed from `start` to `end`, in minutes of the day; the parts of a time that cannot be parsed
      were replaced by the same defaults on both sides. */
  datatype Window = Window(day: nat, start: nat, end: nat)

  /** Milliseconds. */
  const MINUTE: nat := 60_000
  const I32_MAX: int := 0x7fff_ffff
  const FULL_DAY: int := 1440

  /** What both sides look at; `now` is the time of day in milliseconds. */
  datatype Input = Input(weekday: nat, now: nat, limit: Option<int>, adjustment: int, thresholds: seq<int>)

  function ActionFor(remaining: int, thresholds: seq<int>): Action {
    if remaining <= 0 then Lock else if exists t :: t in thresholds && remaining <= t then Warn else Allow
  }

  function MinutesBetween(now: nat, end: nat): nat {
    if now <= end then (end - now) / 1000 / 60 else 0
  }

  // ---- The agent --------------------------------------------------------------------------

  /** Both ends belong to the window. */
  predicate HoldsOffline(w: Window, weekday: nat, now: nat) {
    w.day == weekday && w.start * MINUTE <= now <= w.end * MINUTE
  }

  function FirstMatch(windows: seq<Window>, weekday: nat, now: nat): Option<Window> {
    if windows == [] then None
    else if HoldsOffline(windows[0], weekday, now) then Some(windows[0])
    else FirstMatch(windows[1..], weekday, now)
  }

  /** Minutes left in the current window; `None` outside all windows. */
  function OfflineWindow(windows: seq<Window>, i: Input): Option<int> {
    if windows == [] then Some(I32_MAX)
    else
      match FirstMatch(windows, i.weekday, i.now)
      case None => None
      case Some(w) => Some(MinutesBetween(i.now, w.end * MINUTE))
  }

  function OfflineAction(windows: seq<Window>, i: Input, usedSeconds: nat): Action {
    var window := OfflineWindow(windows, i);
    if window.None? then Lock
    else
      var time := if i.limit.Some? then i.limit.value + i.adjustment - usedSeconds / 60 else I32_MAX;
      ActionFor(Min(time, window.value), i.thresholds)
  }

  // ---- The server -------------------------------------------------------------------------

  /** The end does not belong to the window. */
  predicate HoldsOnline(w: Window, weekday: nat, now: nat) {
    w.day == weekday && w.start * MINUTE <= now < w.end * MINUTE
  }

  /** The earliest end of a current window. */
  function ActiveEnd(windows: seq<Window>, weekday: nat, now: nat): Option<nat> {
    if windows == [] then None
    else
      var rest := ActiveEnd(windows[1..], weekday, now);
      if !HoldsOnline(windows[0], weekday, now) then rest
      else if rest.Some? && rest.value < windows[0].end then rest
      else Some(windows[0].end)
  }

  function ServerTime(i: Input, usedSeconds: nat): int {
    Max((if i.limit.Some? then i.limit.value else FULL_DAY) + i.adjustment - usedSeconds / 60, 0)
  }

  function OnlineAction(windows: seq<Window>, i: Input, usedSeconds: nat): Action {
    var end := ActiveEnd(windows, i.weekday, i.now);
    if end.None? && windows != [] then Lock
    else
      var time := ServerTime(i, usedSeconds);
      ActionFor(if end.Some? then Min(time, MinutesBetween(i.now, end.value * MINUTE)) else time, i.thresholds)
  }

  /** The day's minutes, all of them without a limit, with the extra time and without those used. */
  function ServerMinutes(i: Input, usedSeconds: nat): (minutes: int)
    ensures var left := (if i.limit.Some? then i.limit.value else 24 * 60) + i.adjustment - usedSeconds / 60;
            minutes == if left < 0 then 0 else left
  {
    ServerTime(i, usedSeconds)
  }

  /** Among the windows that hold the instant, their ends excluded, none ends before `w`. */
  predicate IsEarliest(w: Window, windows: seq<Window>, i: Input) {
    && w.day == i.weekday && w.start * 60_000 <= i.now < w.end * 60_000
    && forall v :: v in windows && v.day == i.weekday && v.start * 60_000 <= i.now < v.end * 60_000 ==> w.end <= v.end
  }

  /** The window that decides for the server, if there is one. */
  lemma EndMeans(windows: seq<Window>, i: Input)
    ensures var end := ActiveEnd(windows, i.weekday, i.now);
            && (end.None? <==> forall w :: w in windows ==> !(w.day == i.weekday && w.start * 60_000 <= i.now < w.end * 60_000))
            && (end.Some? ==> exists w :: w in windows && IsEarliest(w, windows, i) && w.end == end.value
                                          && MinutesBetween(i.now, end.value * MINUTE) == (w.end * 60_000 - i.now) / 60_000)
  {
    ActiveEndIsEarliest(windows, i.weekday, i.now);
    var end := ActiveEnd(windows, i.weekday, i.now);
    if end.Some? {
      var w :| w in windows && HoldsOnline(w, i.weekday, i.now) && w.end == end.value;
      assert IsEarliest(w, windows, i);
    }
  }

  method CalculateRemaining(windows: seq<Window>, i: Input, usedSeconds: nat) returns (action: Action, remaining: int)
    ensures action == OnlineAction(windows, i, usedSeconds) && remaining >= 0
    ensures action == Lock <==> remaining == 0
    ensures action == Warn <==> remaining > 0 && exists t :: t in i.thresholds && remaining <= t
    ensures windows == [] ==> remaining == ServerMinutes(i, usedSeconds)
    ensures windows != [] ==>
              if forall w :: w in windows ==> !(w.day == i.weekday && w.start * 60_000 <= i.now < w.end * 60_000) then remaining == 0
              else exists w :: w in windows && IsEarliest(w, windows, i)
                               && remaining == Min(ServerMinutes(i, usedSeconds), (w.end * 60_000 - i.now) / 60_000)
  {
    EndMeans(windows, i);
    hide ActiveEnd, IsEarliest;
    var limit := if i.limit.Some? then i.limit.value else FULL_DAY;
    remaining := limit + i.adjustment - usedSeconds / 60;
    if remaining < 0 { remaining := 0; }
    var end := ActiveEnd(windows, i.weekday, i.now);
    if end.None? && windows != [] { return Lock, 0; }
    if end.Some? {
      var left := MinutesBetween(i.now, end.value * MINUTE);
      if left < remaining { remaining := left; }
    }
    if remaining <= 0 {
      action := Lock;
    } else if exists t :: t in i.thresholds && remaining <= t {
      action := Warn;
    } else {
      action := Allow;
    }
  }

  // ---- When they agree --------------------------------------------------------------------

  predicate ShareAnInstant(u: Window, v: Window) {
    u.day == v.day && u.start <= u.end && v.start <= v.end && u.start <= v.end && v.start <= u.end
  }

  /** Any two windows of the day that overlap or touch end together. */
  predicate EndTogether(windows: seq<Window>, weekday: nat) {
    forall u, v :: u in windows && v in windows && u.day == weekday && ShareAnInstant(u, v) ==> u.end == v.end
  }

  lemma {:induction false} FirstMatchIsOne(windows: seq<Window>, weekday: nat, now: nat)
    ensures var w := FirstMatch(windows, weekday, now);
            && (w.Some? ==> exists k :: 0 <= k < |windows| && windows[k] == w.value && HoldsOffline(w.value, weekday, now)
                                        && forall j :: 0 <= j < k ==> !HoldsOffline(windows[j], weekday, now))
            && (w.None? ==> forall v :: v in windows ==> !HoldsOffline(v, weekday, now))
  {
    if windows != [] {
      FirstMatchIsOne(windows[1..], weekday, now);
      assert windows == [windows[0]] + windows[1..];
      var rest := FirstMatch(windows[1..], weekday, now);
      if !HoldsOffline(windows[0], weekday, now) && rest.Some? {
        var k :| 0 <= k < |windows[1..]| && windows[1..][k] == rest.value
                 && forall j :: 0 <= j < k ==> !HoldsOffline(windows[1..][j], weekday, now);
        forall j | 0 <= j < k + 1 ensures !HoldsOffline(windows[j], weekday, now) {
          assert j > 0 ==> windows[j] == windows[1..][j - 1];
        }
        assert windows[k + 1] == rest.value;
      }
    }
  }

  /** The window holds the instant for the agent, both ends included. */
  predicate IsOpen(w: Window, i: Input) { w.day == i.weekday && w.start * 60_000 <= i.now <= w.end * 60_000 }

  /** On its own the agent locks outside all windows. */
  lemma OutsideMeansLock(windows: seq<Window>, i: Input, usedSeconds: nat)
    requires windows != [] && forall w :: w in windows ==> !IsOpen(w, i)
    ensures OfflineAction(windows, i, usedSeconds) == Lock
  {
    FirstMatchIsOne(windows, i.weekday, i.now);
    var w := FirstMatch(windows, i.weekday, i.now);
    if w.Some? { assert w.value in windows && IsOpen(w.value, i); }
  }

  /** In window `k`, the first that is open, it goes by what is left of the window and of the limit. */
  lemma OfflineMeans(windows: seq<Window>, i: Input, usedSeconds: nat, k: nat)
    requires k < |windows| && IsOpen(windows[k], i) && forall j :: 0 <= j < k ==> !IsOpen(windows[j], i)
    ensures var left := (windows[k].end * 60_000 - i.now) / 60_000;
            var minutes := if i.limit.None? then Min(I32_MAX, left) else Min(i.limit.value + i.adjustment - usedSeconds / 60, left);
            && (OfflineAction(windows, i, usedSeconds) == Lock <==> minutes <= 0)
            && (OfflineAction(windows, i, usedSeconds) == Warn <==> minutes > 0 && exists t :: t in i.thresholds && minutes <= t)
  {
    FirstMatchIsOne(windows, i.weekday, i.now);
    var w := FirstMatch(windows, i.weekday, i.now);
    assert windows[k] in windows && HoldsOffline(windows[k], i.weekday, i.now);
    var f :| 0 <= f < |windows| && windows[f] == w.value && HoldsOffline(w.value, i.weekday, i.now)
             && forall j :: 0 <= j < f ==> !HoldsOffline(windows[j], i.weekday, i.now);
    assert !(f < k) && !(k < f);
  }

  /** The earliest end among the current windows, whatever their order. */
  lemma {:induction false} ActiveEndIsEarliest(windows: seq<Window>, weekday: nat, now: nat)
    ensures var end := ActiveEnd(windows, weekday, now);
            && (end.Some? ==> exists w :: w in windows && HoldsOnline(w, weekday, now) && w.end == end.value)
            && (end.Some? ==> forall w :: w in windows && HoldsOnline(w, weekday, now) ==> end.value <= w.end)
            && (end.None? ==> forall w :: w in windows ==> !HoldsOnline(w, weekday, now))
  {
    if windows != [] {
      ActiveEndIsEarliest(windows[1..], weekday, now);
      assert windows == [windows[0]] + windows[1..];
    }
  }

  /** Both sides see the same minutes left, or both lock: the agent because none are left. */
  lemma WindowsAgree(windows: seq<Window>, i: Input)
    requires EndTogether(windows, i.weekday) && windows != []
    ensures var offline, end := OfflineWindow(windows, i), ActiveEnd(windows, i.weekday, i.now);
            && (end.Some? ==> offline == Some(MinutesBetween(i.now, end.value * MINUTE)))
            && (end.None? ==> offline.None? || offline.value == 0)
  {
    FirstMatchIsOne(windows, i.weekday, i.now);
    ActiveEndIsEarliest(windows, i.weekday, i.now);
    var first, end := FirstMatch(windows, i.weekday, i.now), ActiveEnd(windows, i.weekday, i.now);
    if end.Some? {
      var w :| w in windows && HoldsOnline(w, i.weekday, i.now) && w.end == end.value;
      assert HoldsOffline(w, i.weekday, i.now) && ShareAnInstant(first.value, w);
    } else if first.Some? {
      assert !HoldsOnline(first.value, i.weekday, i.now);
    }
  }

  /** With a limit set and the same usage, both sides decide alike at every instant, ends included. */
  lemma DecideAlike(windows: seq<Window>, i: Input, usedSeconds: nat)
    requires EndTogether(windows, i.weekday) && i.limit.Some?
    requires windows == [] ==> i.limit.value + i.adjustment - usedSeconds / 60 <= I32_MAX
    ensures OfflineAction(windows, i, usedSeconds) == OnlineAction(windows, i, usedSeconds)
  {
    if windows != [] { WindowsAgree(windows, i); }
  }

  /** Both sides agree with the schedule stored in any order, at every instant and for every limit,
      adjustment, usage and threshold list. */
  ghost predicate AlwaysAgree(windows: seq<Window>, weekday: nat) {
    forall order, i: Input, usedSeconds ::
      (multiset(order) == multiset(windows) && i.weekday == weekday && i.limit.Some? && i.limit.value + i.adjustment <= I32_MAX)
      ==> OfflineAction(order, i, usedSeconds) == OnlineAction(windows, i, usedSeconds)
  }

  lemma OrderDoesNotMatterOnline(a: seq<Window>, b: seq<Window>, weekday: nat, now: nat)
    requires multiset(a) == multiset(b)
    ensures ActiveEnd(a, weekday, now) == ActiveEnd(b, weekday, now)
  {
    ActiveEndIsEarliest(a, weekday, now);
    ActiveEndIsEarliest(b, weekday, now);
    forall w ensures w in a <==> w in b { assert w in multiset(a) <==> w in multiset(b); }
  }

  lemma EndTogetherSuffices(windows: seq<Window>, weekday: nat)
    requires EndTogether(windows, weekday)
    ensures AlwaysAgree(windows, weekday)
  {
    forall order, i: Input, usedSeconds |
      multiset(order) == multiset(windows) && i.weekday == weekday && i.limit.Some? && i.limit.value + i.adjustment <= I32_MAX
      ensures OfflineAction(order, i, usedSeconds) == OnlineAction(windows, i, usedSeconds)
    {
      forall w ensures w in order <==> w in windows { assert w in multiset(order) <==> w in multiset(windows); }
      DecideAlike(order, i, usedSeconds);
      OrderDoesNotMatterOnline(order, windows, weekday, i.now);
      assert |order| == |windows| by { assert |multiset(order)| == |multiset(windows)|; }
    }
  }

  lemma AllowedOnline(windows: seq<Window>, v: Window, i: Input)
    requires v in windows && HoldsOnline(v, i.weekday, i.now) && i.now % MINUTE == 0
    requires i.limit == Some(FULL_DAY) && i.adjustment == 0 && i.thresholds == []
    ensures OnlineAction(windows, i, 0) == Allow
  {
    ActiveEndIsEarliest(windows, i.weekday, i.now);
    var end := ActiveEnd(windows, i.weekday, i.now).value;
    assert end * MINUTE - i.now >= MINUTE;
  }

  /** At the end of a window that another outlasts, stored first, the agent locks and the server
      allows. */
  lemma OverlapLocks(windows: seq<Window>, u: Window, v: Window) returns (order: seq<Window>, i: Input)
    requires u in windows && v in windows && ShareAnInstant(u, v) && u.end < v.end
    ensures multiset(order) == multiset(windows) && i == Input(u.day, u.end * MINUTE, Some(FULL_DAY), 0, [])
    ensures OfflineAction(order, i, 0) == Lock && OnlineAction(windows, i, 0) == Allow
  {
    var k :| 0 <= k < |windows| && windows[k] == u;
    order := [u] + (windows[..k] + windows[k + 1..]);
    assert windows == windows[..k] + [u] + windows[k + 1..];
    i := Input(u.day, u.end * MINUTE, Some(FULL_DAY), 0, []);
    assert order[0] == u && HoldsOffline(u, u.day, i.now);
    AllowedOnline(windows, v, i);
  }

  /** Where they differ: at the end of a window that another outlasts. */
  lemma OverlapDisagrees(windows: seq<Window>, u: Window, v: Window)
    requires u in windows && v in windows && ShareAnInstant(u, v) && u.end < v.end
    ensures !AlwaysAgree(windows, u.day)
  {
    var order, i := OverlapLocks(windows, u, v);
  }

  /** Offline and online agree exactly when the day's windows that overlap or touch end together;
      strictly separated windows do. */
  lemma AgreementIsExact(windows: seq<Window>, weekday: nat)
    ensures AlwaysAgree(windows, weekday) <==> EndTogether(windows, weekday)
  {
    if EndTogether(windows, weekday) {
      EndTogetherSuffices(windows, weekday);
    } else {
      var u, v :| u in windows && v in windows && u.day == weekday && ShareAnInstant(u, v) && u.end != v.end;
      if u.end < v.end { OverlapDisagrees(windows, u, v); } else { OverlapDisagrees(windows, v, u); }
    }
  }

  // ---- Without a limit, and with less usage -----------------------------------------------

  lemma ThresholdsTellApart(a: int, b: int)
    ensures (forall thresholds :: ActionFor(a, thresholds) == ActionFor(b, thresholds)) <==> a == b || (a <= 0 && b <= 0)
  {
    if a != b && (a > 0 || b > 0) {
      var low := Min(a, b);
      assert low in [low] && ActionFor(a, [low]) != ActionFor(b, [low]);
    }
  }

  /** No limit today: the agent takes that for unlimited, the server for a full day less what was
      used. They agree exactly while that is no less than the window leaves. */
  lemma NoLimitIsExact(windows: seq<Window>, i: Input, usedSeconds: nat)
    requires EndTogether(windows, i.weekday) && i.limit.None? && OfflineWindow(windows, i).Some?
    requires OfflineWindow(windows, i).value <= I32_MAX && OfflineWindow(windows, i).value > 0
    ensures (forall thresholds ::
               OfflineAction(windows, i.(thresholds := thresholds), usedSeconds)
               == OnlineAction(windows, i.(thresholds := thresholds), usedSeconds))
        <==> if windows == [] then ServerTime(i, usedSeconds) == I32_MAX
             else ServerTime(i, usedSeconds) >= OfflineWindow(windows, i).value
  {
    if windows != [] { WindowsAgree(windows, i); }
    var left := OfflineWindow(windows, i).value;
    var time := if windows == [] then ServerTime(i, usedSeconds) else Min(ServerTime(i, usedSeconds), left);
    forall thresholds
      ensures OfflineAction(windows, i.(thresholds := thresholds), usedSeconds) == ActionFor(left, thresholds)
      ensures OnlineAction(windows, i.(thresholds := thresholds), usedSeconds) == ActionFor(time, thresholds)
    {}
    ThresholdsTellApart(left, time);
  }

  function Strictness(a: Action): nat {
    match a
    case Allow => 0
    case Warn => 1
    case Lock => 2
  }

  lemma LockIsStrictest()
    ensures Strictness(Allow) < Strictness(Warn) < Strictness(Lock)
  {}

  /** The agent knows its own usage only, so it is never stricter than the server. */
  lemma OfflineIsNeverStricter(windows: seq<Window>, i: Input, local: nat, everywhere: nat)
    requires EndTogether(windows, i.weekday) && local <= everywhere
    requires ServerTime(i, everywhere) <= I32_MAX
    ensures Strictness(OfflineAction(windows, i, local)) <= Strictness(OnlineAction(windows, i, everywhere))
  {
    if windows != [] { WindowsAgree(windows, i); }
  }

  /** Offline is never stricter, with the schedule stored in any order, at every instant and whatever
      was used here and elsewhere. */
  ghost predicate NeverStricter(windows: seq<Window>, weekday: nat) {
    forall order, i: Input, local: nat, everywhere: nat ::
      (multiset(order) == multiset(windows) && i.weekday == weekday && local <= everywhere && ServerTime(i, everywhere) <= I32_MAX)
      ==> Strictness(OfflineAction(order, i, local)) <= Strictness(OnlineAction(windows, i, everywhere))
  }

  /** Offline is never stricter exactly when the day's windows that overlap or touch end together. */
  lemma NeverStricterIsExact(windows: seq<Window>, weekday: nat)
    ensures NeverStricter(windows, weekday) <==> EndTogether(windows, weekday)
  {
    if EndTogether(windows, weekday) {
      forall order, i: Input, local: nat, everywhere: nat |
        multiset(order) == multiset(windows) && i.weekday == weekday && local <= everywhere && ServerTime(i, everywhere) <= I32_MAX
        ensures Strictness(OfflineAction(order, i, local)) <= Strictness(OnlineAction(windows, i, everywhere))
      {
        forall w ensures w in order <==> w in windows { assert w in multiset(order) <==> w in multiset(windows); }
        OfflineIsNeverStricter(order, i, local, everywhere);
        OrderDoesNotMatterOnline(order, windows, weekday, i.now);
        assert |order| == |windows| by { assert |multiset(order)| == |multiset(windows)|; }
      }
    } else {
      var u, v :| u in windows && v in windows && u.day == weekday && ShareAnInstant(u, v) && u.end != v.end;
      var first, last := if u.end < v.end then u else v, if u.end < v.end then v else u;
      var order, i := OverlapLocks(windows, first, last);
      assert Strictness(OfflineAction(order, i, 0)) > Strictness(OnlineAction(windows, i, 0));
    }
  }
}

/** Screen time from the agent to the server (heartbeat.rs and db.rs of the agent, ws.rs and db.rs of
    the server): heartbeat deltas that are added and usage snapshots that only ever raise a total
    travel on one channel, in order, and any message may be lost. */
module UsageSync {
  import opened Wrappers

  /** A local user and a date. */
  type Key = (nat, string)

  /** A row of the agent's usage_log. */
  datatype Row = Row(seconds: nat, synced: bool)

  datatype Message = Beat(date: string, users: seq<(nat, nat)>) | Snapshot(usage: map<Key, nat>)

  datatype Link = Link(rows: map<Key, Row>, channel: seq<Message>, totals: map<Key, nat>)

  /** Users the server knows, and of those the ones with a profile. */
  datatype Users = Users(known: set<nat>, profiled: set<nat>)

  datatype Event =
    | Count(date: string, users: seq<(nat, nat)>, online: bool)
    | Sync
    | Reset(uid: nat, date: string)
    | Deliver(server: Users)
    | Lose(index: nat)

  const START := Link(map[], [], map[])

  function LocalOf(rows: map<Key, Row>, key: Key): nat { if key in rows then rows[key].seconds else 0 }
  function TotalOf(totals: map<Key, nat>, key: Key): nat { if key in totals then totals[key] else 0 }

  // ---- The agent --------------------------------------------------------------------------

  /** Every addition flags the row as not synced. */
  function WithSeconds(rows: map<Key, Row>, key: Key, seconds: nat): map<Key, Row> {
    rows[key := Row(LocalOf(rows, key) + seconds, false)]
  }

  function Counted(rows: map<Key, Row>, date: string, users: seq<(nat, nat)>): map<Key, Row> {
    if users == [] then rows
    else
      var before, last := Counted(rows, date, users[..|users| - 1]), users[|users| - 1];
      if last.1 > 0 then WithSeconds(before, (last.0, date), last.1) else before
  }

  function Unsynced(rows: map<Key, Row>): map<Key, nat> { map k | k in rows && !rows[k].synced :: rows[k].seconds }

  function Marked(rows: map<Key, Row>, keys: set<Key>): map<Key, Row> {
    map k | k in rows :: if k in keys then rows[k].(synced := true) else rows[k]
  }

  function WasReset(rows: map<Key, Row>, key: Key): map<Key, Row> { if key in rows then rows[key := Row(0, false)] else rows }

  // ---- The server -------------------------------------------------------------------------

  function WithBeat(totals: map<Key, nat>, date: string, users: seq<(nat, nat)>, profiled: set<nat>): map<Key, nat> {
    if users == [] then totals
    else
      var before, last := WithBeat(totals, date, users[..|users| - 1], profiled), users[|users| - 1];
      if last.0 in profiled && last.1 > 0 then before[(last.0, date) := TotalOf(before, (last.0, date)) + last.1] else before
  }

  function WithSnapshot(totals: map<Key, nat>, usage: map<Key, nat>, known: set<nat>): map<Key, nat> {
    map k | k in totals.Keys + (set k | k in usage && k.0 in known) ::
      if k in usage && k.0 in known then Max(TotalOf(totals, k), usage[k]) else totals[k]
  }

  function Handled(totals: map<Key, nat>, m: Message, users: Users): map<Key, nat> {
    match m
    case Beat(date, entries) => WithBeat(totals, date, entries, users.known * users.profiled)
    case Snapshot(usage) => WithSnapshot(totals, usage, users.known)
  }

  // ---- The link ---------------------------------------------------------------------------

  function Step(s: Link, e: Event): Link {
    match e
    case Count(date, users, online) =>
      Link(Counted(s.rows, date, users), if online then s.channel + [Beat(date, users)] else s.channel, s.totals)
    case Sync =>
      var usage := Unsynced(s.rows);
      if usage == map[] then s else Link(Marked(s.rows, usage.Keys), s.channel + [Snapshot(usage)], s.totals)
    case Reset(uid, date) => s.(rows := WasReset(s.rows, (uid, date)))
    case Deliver(users) =>
      if s.channel == [] then s else Link(s.rows, s.channel[1..], Handled(s.totals, s.channel[0], users))
    case Lose(i) => if i < |s.channel| then s.(channel := s.channel[..i] + s.channel[i + 1..]) else s
  }

  type History = seq<Event>

  function Replay(h: History, n: nat): Link
    requires n <= |h|
  {
    if n == 0 then START else Step(Replay(h, n - 1), h[n - 1])
  }

  // ---- One key ----------------------------------------------------------------------------

  /** The seconds `users` report for `key` on `date`. */
  function Reported(date: string, users: seq<(nat, nat)>, key: Key): nat {
    if users == [] then 0
    else
      var last := users[|users| - 1];
      Reported(date, users[..|users| - 1], key) + (if (last.0, date) == key then last.1 else 0)
  }

  /** Every second the agent ever counted for `key`. */
  function EverCounted(h: History, n: nat, key: Key): nat
    requires n <= |h|
  {
    if n == 0 then 0
    else EverCounted(h, n - 1, key) + (if h[n - 1].Count? then Reported(h[n - 1].date, h[n - 1].users, key) else 0)
  }

  /** What a total becomes when the server takes the message. */
  function Taken(total: nat, m: Message, key: Key): nat {
    match m
    case Beat(date, users) => total + Reported(date, users, key)
    case Snapshot(usage) => if key in usage then Max(total, usage[key]) else total
  }

  function Fold(total: nat, channel: seq<Message>, key: Key): nat {
    if channel == [] then total else Taken(Fold(total, channel[..|channel| - 1], key), channel[|channel| - 1], key)
  }

  lemma {:induction false} CountedAdds(rows: map<Key, Row>, date: string, users: seq<(nat, nat)>, key: Key)
    ensures LocalOf(Counted(rows, date, users), key) == LocalOf(rows, key) + Reported(date, users, key)
  {
    if users != [] { CountedAdds(rows, date, users[..|users| - 1], key); }
  }

  lemma {:induction false} BeatAddsAtMost(totals: map<Key, nat>, date: string, users: seq<(nat, nat)>, profiled: set<nat>, key: Key)
    ensures TotalOf(totals, key) <= TotalOf(WithBeat(totals, date, users, profiled), key)
    ensures TotalOf(WithBeat(totals, date, users, profiled), key)
         <= TotalOf(totals, key) + Reported(date, users, key)
    ensures key.0 in profiled ==>
              TotalOf(WithBeat(totals, date, users, profiled), key) == TotalOf(totals, key) + Reported(date, users, key)
  {
    if users != [] { BeatAddsAtMost(totals, date, users[..|users| - 1], profiled, key); }
  }

  /** Whatever the server knows about the user, it never lowers a total and never adds more than
      the message says. */
  lemma HandlingIsBounded(totals: map<Key, nat>, m: Message, users: Users, key: Key)
    ensures TotalOf(totals, key) <= TotalOf(Handled(totals, m, users), key) <= Taken(TotalOf(totals, key), m, key)
    ensures key.0 in users.known && key.0 in users.profiled ==>
              TotalOf(Handled(totals, m, users), key) == Taken(TotalOf(totals, key), m, key)
    ensures key.0 in users.known && m.Snapshot? ==>
              TotalOf(Handled(totals, m, users), key) == Taken(TotalOf(totals, key), m, key)
  {
    if m.Beat? { BeatAddsAtMost(totals, m.date, m.users, users.known * users.profiled, key); }
  }

  lemma {:induction false} FoldGrows(low: nat, high: nat, channel: seq<Message>, key: Key)
    requires low <= high
    ensures low <= Fold(low, channel, key) <= Fold(high, channel, key)
  {
    if channel != [] { FoldGrows(low, high, channel[..|channel| - 1], key); }
  }

  lemma {:induction false} FoldSplits(total: nat, a: seq<Message>, b: seq<Message>, key: Key)
    ensures Fold(total, a + b, key) == Fold(Fold(total, a, key), b, key)
  {
    if b == [] {
      assert a + b == a;
    } else {
      FoldSplits(total, a, b[..|b| - 1], key);
      assert (a + b)[..|a + b| - 1] == a + b[..|b| - 1];
    }
  }

  /** Taking the first message leaves the rest to take. */
  lemma FoldFirst(total: nat, channel: seq<Message>, key: Key)
    requires channel != []
    ensures Fold(total, channel, key) == Fold(Taken(total, channel[0], key), channel[1..], key)
  {
    FoldSplits(total, [channel[0]], channel[1..], key);
    assert [channel[0]] + channel[1..] == channel && [channel[0]][..0] == [];
  }

  lemma FoldOne(total: nat, m: Message, key: Key)
    ensures Fold(total, [m], key) == Taken(total, m, key)
  {}

  lemma FoldWithout(total: nat, a: seq<Message>, m: Message, b: seq<Message>, key: Key)
    ensures Fold(total, a + b, key) <= Fold(total, a + [m] + b, key)
  {
    var first := Fold(total, a, key);
    FoldSplits(total, a, b, key);
    FoldSplits(total, a + [m], b, key);
    FoldSplits(total, a, [m], key);
    FoldOne(first, m, key);
    FoldGrows(first, Taken(first, m, key), b, key);
  }

  lemma Around(channel: seq<Message>, i: nat)
    requires i < |channel|
    ensures channel[..i] + [channel[i]] + channel[i + 1..] == channel
  {}

  /** Losing a message can only lower what will arrive. */
  lemma FoldLosing(total: nat, channel: seq<Message>, i: nat, key: Key)
    requires i < |channel|
    ensures Fold(total, channel[..i] + channel[i + 1..], key) <= Fold(total, channel, key)
  {
    FoldWithout(total, channel[..i], channel[i], channel[i + 1..], key);
    Around(channel, i);
  }

  // ---- Every run --------------------------------------------------------------------------

  lemma MarkingKeepsSeconds(rows: map<Key, Row>, keys: set<Key>, key: Key)
    ensures LocalOf(Marked(rows, keys), key) == LocalOf(rows, key)
  {}

  /** What the server will have once everything on its way has arrived. */
  function Arriving(s: Link, key: Key): nat { Fold(TotalOf(s.totals, key), s.channel, key) }

  lemma SendingArrives(s: Link, m: Message, key: Key)
    ensures Arriving(s.(channel := s.channel + [m]), key) == Taken(Arriving(s, key), m, key)
  {}

  /** What one event does to the agent's total and to what is on its way. */
  lemma StepArrives(s: Link, e: Event, key: Key)
    ensures var t := Step(s, e);
            if e.Count? then
              && LocalOf(t.rows, key) == LocalOf(s.rows, key) + Reported(e.date, e.users, key)
              && Arriving(t, key) == Arriving(s, key) + if e.online then Reported(e.date, e.users, key) else 0
            else
              && LocalOf(t.rows, key) <= LocalOf(s.rows, key)
              && Arriving(t, key) <= if e.Sync? then Max(Arriving(s, key), LocalOf(s.rows, key)) else Arriving(s, key)
  {
    match e
    case Count(date, users, online) =>
      CountedAdds(s.rows, date, users, key);
      if online { SendingArrives(s, Beat(date, users), key); }
    case Sync =>
      MarkingKeepsSeconds(s.rows, Unsynced(s.rows).Keys, key);
      SendingArrives(s, Snapshot(Unsynced(s.rows)), key);
    case Reset(uid, date) =>
    case Deliver(users) => DeliverShrinks(s, users, key);
    case Lose(i) => if i < |s.channel| { FoldLosing(TotalOf(s.totals, key), s.channel, i, key); }
  }

  /** What is on its way never exceeds what was counted: neither does the agent's own total. */
  lemma {:induction false} NothingIsInvented(h: History, n: nat, key: Key)
    requires n <= |h|
    ensures LocalOf(Replay(h, n).rows, key) <= EverCounted(h, n, key) && Arriving(Replay(h, n), key) <= EverCounted(h, n, key)
  {
    if n > 0 {
      NothingIsInvented(h, n - 1, key);
      StepArrives(Replay(h, n - 1), h[n - 1], key);
    }
  }

  lemma DeliverShrinks(s: Link, users: Users, key: Key)
    ensures var t := Step(s, Deliver(users));
            Arriving(t, key) <= Arriving(s, key)
  {
    if s.channel != [] {
      HandlingIsBounded(s.totals, s.channel[0], users, key);
      FoldFirst(TotalOf(s.totals, key), s.channel, key);
      FoldGrows(TotalOf(Handled(s.totals, s.channel[0], users), key), Taken(TotalOf(s.totals, key), s.channel[0], key), s.channel[1..], key);
    }
  }

  /** The server never shows more screen time than the agent ever counted. */
  lemma ServerIsNeverAhead(h: History, n: nat, key: Key)
    requires n <= |h|
    ensures TotalOf(Replay(h, n).totals, key) <= EverCounted(h, n, key)
  {
    NothingIsInvented(h, n, key);
    FoldGrows(TotalOf(Replay(h, n).totals, key), TotalOf(Replay(h, n).totals, key), Replay(h, n).channel, key);
  }

  /** Nothing, the midnight reset included, ever lowers a total on the server. */
  lemma {:induction false} ServerNeverForgets(h: History, m: nat, n: nat, key: Key)
    requires m <= n <= |h|
    ensures TotalOf(Replay(h, m).totals, key) <= TotalOf(Replay(h, n).totals, key)
  {
    if m < n {
      ServerNeverForgets(h, m, n - 1, key);
      var s := Replay(h, n - 1);
      if h[n - 1].Deliver? && s.channel != [] { HandlingIsBounded(s.totals, s.channel[0], h[n - 1].server, key); }
    }
  }

  // ---- Snapshots --------------------------------------------------------------------------

  ghost predicate NoReset(h: History, n: nat, key: Key)
    requires n <= |h|
  {
    forall i :: 0 <= i < n ==> h[i] != Reset(key.0, key.1)
  }

  /** Whatever arrives before a snapshot stays within what the snapshot says. */
  ghost predicate SnapshotsFit(total: nat, channel: seq<Message>, local: nat, key: Key) {
    && Fold(total, channel, key) <= local
    && forall i: nat :: i < |channel| ==> SnapshotFits(total, channel, key, i)
  }

  /** Message `i`, if it is a snapshot for `key`, says at least what arrives before it. */
  ghost predicate SnapshotFits(total: nat, channel: seq<Message>, key: Key, i: nat)
    requires i < |channel|
  {
    channel[i].Snapshot? && key in channel[i].usage ==> Fold(total, channel[..i], key) <= channel[i].usage[key]
  }

  lemma AppendFits(total: nat, channel: seq<Message>, m: Message, local: nat, now: nat, key: Key)
    requires SnapshotsFit(total, channel, local, key) && local <= now
    requires Taken(Fold(total, channel, key), m, key) <= now
    requires m.Snapshot? && key in m.usage ==> local <= m.usage[key]
    ensures SnapshotsFit(total, channel + [m], now, key)
  {
    var longer := channel + [m];
    FoldSplits(total, channel, [m], key);
    FoldOne(Fold(total, channel, key), m, key);
    forall i: nat | i < |longer| ensures SnapshotFits(total, longer, key, i) {
      if i < |channel| {
        assert SnapshotFits(total, channel, key, i) && longer[..i] == channel[..i];
      } else {
        assert longer[..i] == channel;
      }
    }
  }

  lemma DeliverFits(total: nat, taken: nat, channel: seq<Message>, local: nat, key: Key)
    requires channel != [] && SnapshotsFit(total, channel, local, key) && taken <= Taken(total, channel[0], key)
    ensures SnapshotsFit(taken, channel[1..], local, key)
  {
    FoldFirst(total, channel, key);
    FoldGrows(taken, Taken(total, channel[0], key), channel[1..], key);
    forall i: nat | i < |channel[1..]| ensures SnapshotFits(taken, channel[1..], key, i) {
      assert SnapshotFits(total, channel, key, i + 1);
      assert channel[..i + 1][1..] == channel[1..][..i];
      FoldFirst(total, channel[..i + 1], key);
      FoldGrows(taken, Taken(total, channel[0], key), channel[1..][..i], key);
    }
  }

  lemma LoseFits(total: nat, channel: seq<Message>, j: nat, local: nat, key: Key)
    requires j < |channel| && SnapshotsFit(total, channel, local, key)
    ensures SnapshotsFit(total, channel[..j] + channel[j + 1..], local, key)
  {
    var left := channel[..j] + channel[j + 1..];
    FoldLosing(total, channel, j, key);
    forall i: nat | i < |left| ensures SnapshotFits(total, left, key, i) {
      if i < j {
        assert SnapshotFits(total, channel, key, i) && left[..i] == channel[..i];
      } else {
        assert SnapshotFits(total, channel, key, i + 1);
        FoldLosing(total, channel[..i + 1], j, key);
        assert left[..i] == channel[..i + 1][..j] + channel[..i + 1][j + 1..];
      }
    }
  }

  /** What is on its way for `key` stays within the agent's total and within every snapshot. */
  ghost predicate Ahead(s: Link, key: Key) { SnapshotsFit(TotalOf(s.totals, key), s.channel, LocalOf(s.rows, key), key) }

  lemma StepStaysAhead(s: Link, e: Event, key: Key)
    requires Ahead(s, key) && e != Reset(key.0, key.1)
    ensures Ahead(Step(s, e), key)
  {
    var total, local := TotalOf(s.totals, key), LocalOf(s.rows, key);
    match e
    case Count(date, users, online) =>
      CountedAdds(s.rows, date, users, key);
      if online { AppendFits(total, s.channel, Beat(date, users), local, local + Reported(date, users, key), key); }
    case Sync =>
      MarkingKeepsSeconds(s.rows, Unsynced(s.rows).Keys, key);
      AppendFits(total, s.channel, Snapshot(Unsynced(s.rows)), local, local, key);
    case Reset(uid, date) =>
    case Deliver(server) =>
      if s.channel != [] {
        HandlingIsBounded(s.totals, s.channel[0], server, key);
        DeliverFits(total, TotalOf(Handled(s.totals, s.channel[0], server), key), s.channel, local, key);
      }
    case Lose(i) => if i < |s.channel| { LoseFits(total, s.channel, i, local, key); }
  }

  lemma {:induction false} SnapshotsStayAhead(h: History, n: nat, key: Key)
    requires n <= |h| && NoReset(h, n, key)
    ensures Ahead(Replay(h, n), key)
  {
    if n > 0 {
      SnapshotsStayAhead(h, n - 1, key);
      StepStaysAhead(Replay(h, n - 1), h[n - 1], key);
    }
  }

  /** The event loses nothing of `key`: what is counted is sent, and the server knows the user. */
  ghost predicate Lossless(e: Event, key: Key) {
    && !e.Lose? && e != Reset(key.0, key.1)
    && (e.Deliver? ==> key.0 in e.server.known && key.0 in e.server.profiled)
    && (e.Count? && Reported(e.date, e.users, key) > 0 ==> e.online)
  }

  lemma LosslessStep(s: Link, e: Event, key: Key)
    requires Lossless(e, key) && Arriving(s, key) == LocalOf(s.rows, key)
    ensures var t := Step(s, e);
            Arriving(t, key) == LocalOf(t.rows, key) == LocalOf(s.rows, key) + if e.Count? then Reported(e.date, e.users, key) else 0
  {
    match e
    case Count(date, users, online) => StepArrives(s, e, key);
    case Sync =>
      MarkingKeepsSeconds(s.rows, Unsynced(s.rows).Keys, key);
      SendingArrives(s, Snapshot(Unsynced(s.rows)), key);
    case Reset(uid, date) =>
    case Deliver(server) =>
      if s.channel != [] {
        HandlingIsBounded(s.totals, s.channel[0], server, key);
        FoldFirst(TotalOf(s.totals, key), s.channel, key);
      }
    case Lose(i) =>
  }

  /** Without losses the two routes agree with the agent exactly: no second is dropped or counted
      twice, however heartbeats and snapshots interleave. */
  lemma {:induction false} LosslessIsExact(h: History, n: nat, key: Key)
    requires n <= |h| && forall i :: 0 <= i < n ==> Lossless(h[i], key)
    ensures Arriving(Replay(h, n), key) == LocalOf(Replay(h, n).rows, key) == EverCounted(h, n, key)
  {
    if n > 0 {
      LosslessIsExact(h, n - 1, key);
      LosslessStep(Replay(h, n - 1), h[n - 1], key);
    }
  }

  // ---- What can be lost -------------------------------------------------------------------

  lemma CountedOne(date: string, uid: nat, seconds: nat)
    requires seconds > 0
    ensures Counted(map[], date, [(uid, seconds)]) == map[(uid, date) := Row(seconds, false)]
    ensures Reported(date, [(uid, seconds)], (uid, date)) == seconds
  {}

  /** A row counts as synced once sent: when that snapshot is lost, nothing sends it again until
      more time is counted. */
  lemma LostSnapshotIsNotResent(uid: nat, date: string, seconds: nat)
    requires seconds > 0
    ensures var s := Replay([Count(date, [(uid, seconds)], false), Sync, Lose(0), Sync], 4);
            s.rows == map[(uid, date) := Row(seconds, true)] && s.channel == [] && s.totals == map[]
  {
    var h := [Count(date, [(uid, seconds)], false), Sync, Lose(0), Sync];
    var key := (uid, date);
    CountedOne(date, uid, seconds);
    assert Replay(h, 1) == Link(map[key := Row(seconds, false)], [], map[]);
    var usage := Unsynced(Replay(h, 1).rows);
    assert key in usage;
    assert Replay(h, 2) == Link(map[key := Row(seconds, true)], [Snapshot(usage)], map[]);
    assert Replay(h, 3) == Link(map[key := Row(seconds, true)], [], map[]);
    assert Unsynced(Replay(h, 3).rows) == map[];
  }

  /** What the reset costs: only what was on its way by then, and what is counted after it, can
      still reach the server. */
  lemma {:induction false} ResetDropsWhatWasNotSent(h: History, r: nat, n: nat, key: Key)
    requires r < n <= |h| && h[r] == Reset(key.0, key.1)
    ensures LocalOf(Replay(h, n).rows, key) <= EverCounted(h, n, key) - EverCounted(h, r, key)
    ensures Arriving(Replay(h, n), key) <= Arriving(Replay(h, r), key) + EverCounted(h, n, key) - EverCounted(h, r, key)
  {
    if r < n - 1 { ResetDropsWhatWasNotSent(h, r, n - 1, key); }
    StepArrives(Replay(h, n - 1), h[n - 1], key);
  }

  /** Time counted offline and not sent before midnight is gone: the reset clears it. */
  lemma MidnightDropsOfflineTime(uid: nat, date: string, seconds: nat, server: Users)
    requires seconds > 0 && uid in server.known
    ensures var h := [Count(date, [(uid, seconds)], false), Reset(uid, date), Sync, Deliver(server)];
            TotalOf(Replay(h, 4).totals, (uid, date)) == 0 && EverCounted(h, 4, (uid, date)) == seconds
  {
    var h := [Count(date, [(uid, seconds)], false), Reset(uid, date), Sync, Deliver(server)];
    var key := (uid, date);
    CountedOne(date, uid, seconds);
    assert Replay(h, 1) == Link(map[key := Row(seconds, false)], [], map[]);
    assert Replay(h, 2) == Link(map[key := Row(0, false)], [], map[]);
    var usage := Unsynced(Replay(h, 2).rows);
    assert key in usage && usage[key] == 0;
    assert Replay(h, 3).channel == [Snapshot(usage)] && Replay(h, 3).totals == map[];
    assert EverCounted(h, 1, key) == seconds && EverCounted(h, 3, key) == seconds;
  }
}

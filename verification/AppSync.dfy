/** App and group time from the agent to the server (db.rs and heartbeat.rs of the agent,
    app_usage.rs of the server). Day totals are sent whole, and the server keeps the larger one, so
    messages may be lost, repeated and reordered. */
module AppSync {
  import opened Apps
  import opened Wrappers

  const MAX_SECONDS_PER_DAY: nat := 86_400

  datatype Item = App(id: string) | Group(id: string)

  /** Local user, day and what was used. */
  datatype Key = Key(uid: nat, day: nat, item: Item)

  datatype Entry = Entry(key: Key, seconds: nat)

  datatype Row = Row(seconds: nat, synced: bool)

  type Message = seq<Entry>

  // ---- The server -------------------------------------------------------------------------

  /** What the server knows when a message arrives: its date, the agent's users, and which groups
      belong to the profile of which user. */
  datatype Context = Context(today: nat, users: set<nat>, groups: set<(nat, string)>)

  /** Agents may be up to a day ahead (time zones). */
  predicate Accepts(ctx: Context, e: Entry) {
    && e.key.day <= ctx.today + 1
    && e.key.uid in ctx.users
    && match e.key.item
       case App(id) => ParseAppId(id).Some? && IsApp(ParseAppId(id).value)
       case Group(id) => (e.key.uid, id) in ctx.groups
  }

  type Totals = map<Key, nat>

  function TotalOf(totals: Totals, key: Key): nat { if key in totals then totals[key] else 0 }

  function Stored(totals: Totals, e: Entry): Totals {
    totals[e.key := Max(TotalOf(totals, e.key), Min(e.seconds, MAX_SECONDS_PER_DAY))]
  }

  function Ingested(totals: Totals, m: Message, ctx: Context): Totals {
    if m == [] then totals
    else
      var before, last := Ingested(totals, m[..|m| - 1], ctx), m[|m| - 1];
      if Accepts(ctx, last) then Stored(before, last) else before
  }

  function AcceptedIn(m: Message, ctx: Context): nat {
    if m == [] then 0 else AcceptedIn(m[..|m| - 1], ctx) + if Accepts(ctx, m[|m| - 1]) then 1 else 0
  }

  /** The server takes time for an app, or for a group of the user's profile, of a known user and of a
      day up to tomorrow. */
  lemma AcceptedExactly(ctx: Context, e: Entry)
    ensures e.key.item.App? ==>
              (Accepts(ctx, e)
               <==> e.key.day < ctx.today + 2 && e.key.uid in ctx.users
                    && exists app :: ParseAppId(e.key.item.id) == Some(app) && app.kind != Exe)
    ensures e.key.item.Group? ==>
              (Accepts(ctx, e) <==> e.key.day < ctx.today + 2 && e.key.uid in ctx.users && (e.key.uid, e.key.item.id) in ctx.groups)
  {}

  /** Stored are as many entries as are accepted. */
  lemma {:induction false} AcceptedIsCount(m: Message, ctx: Context)
    ensures AcceptedIn(m, ctx) == |set i: nat | i < |m| && Accepts(ctx, m[i])|
  {
    if m != [] {
      var init, last := m[..|m| - 1], |m| - 1;
      AcceptedIsCount(init, ctx);
      var before, now := (set i: nat | i < |init| && Accepts(ctx, init[i])), (set i: nat | i < |m| && Accepts(ctx, m[i]));
      assert forall i :: 0 <= i < |init| ==> init[i] == m[i];
      assert now == before + if Accepts(ctx, m[last]) then {last} else {};
    }
  }

  // ---- The agent --------------------------------------------------------------------------

  function LocalOf(rows: map<Key, Row>, key: Key): nat { if key in rows then rows[key].seconds else 0 }

  function Added(rows: map<Key, Row>, key: Key, seconds: nat): map<Key, Row> {
    rows[key := Row(LocalOf(rows, key) + seconds, false)]
  }

  /** Rows not synced, and after a reconnect every row since a day. */
  predicate IsDue(rows: map<Key, Row>, key: Key, since: Option<nat>) {
    key in rows && (!rows[key].synced || (since.Some? && since.value <= key.day))
  }

  function Due(rows: map<Key, Row>, since: Option<nat>): set<Entry> {
    set k | k in rows && IsDue(rows, k, since) :: Entry(k, rows[k].seconds)
  }

  /** Due is a row's own total, when the row is not synced or its day is to be sent again. */
  lemma DueExactly(rows: map<Key, Row>, since: Option<nat>, e: Entry)
    ensures e in Due(rows, since)
        <==> e.key in rows && rows[e.key].seconds == e.seconds && (!rows[e.key].synced || (since.Some? && since.value <= e.key.day))
  {}

  /** Marks the rows that still hold what was sent. */
  function Marked(rows: map<Key, Row>, es: set<Entry>): map<Key, Row> {
    map k | k in rows :: if Entry(k, rows[k].seconds) in es then rows[k].(synced := true) else rows[k]
  }

  // ---- The link ---------------------------------------------------------------------------

  /** `batch`: read for this sync and not sent yet; `unmarked`: sent and not marked yet; `sent`:
      every message ever sent, any of which may arrive at any time, or never. */
  datatype Link = Link(rows: map<Key, Row>, batch: set<Entry>, unmarked: set<Entry>, sent: seq<Message>, totals: Totals)

  datatype Event =
    | Use(key: Key, seconds: nat)
    | Prune(before: nat)
    | Collect(since: Option<nat>)
    | SendChunk(message: Message)
    | Mark(entries: set<Entry>)
    | Deliver(index: nat, ctx: Context)

  const START := Link(map[], {}, {}, [], map[])

  function Contents(m: Message): set<Entry> { set e | e in m }

  function Step(s: Link, e: Event): Link {
    match e
    case Use(key, seconds) => s.(rows := Added(s.rows, key, seconds))
    case Prune(before) => s.(rows := map k | k in s.rows && before <= k.day :: s.rows[k])
    case Collect(since) => s.(batch := Due(s.rows, since), unmarked := {})
    case SendChunk(m) =>
      if Contents(m) <= s.batch then s.(batch := s.batch - Contents(m), unmarked := s.unmarked + Contents(m), sent := s.sent + [m])
      else s
    case Mark(es) => s.(rows := Marked(s.rows, es * s.unmarked), unmarked := s.unmarked - es)
    case Deliver(i, ctx) => if i < |s.sent| then s.(totals := Ingested(s.totals, s.sent[i], ctx)) else s
  }

  type History = seq<Event>

  function Replay(h: History, n: nat): Link
    requires n <= |h|
  {
    if n == 0 then START else Step(Replay(h, n - 1), h[n - 1])
  }

  /** Everything ever counted for a key. */
  function EverUsed(h: History, n: nat, key: Key): nat
    requires n <= |h|
  {
    if n == 0 then 0
    else EverUsed(h, n - 1, key) + if h[n - 1].Use? && h[n - 1].key == key then h[n - 1].seconds else 0
  }

  /** The largest total for `key` in a message, among entries the server accepts. */
  function Best(m: Message, ctx: Context, key: Key): nat {
    if m == [] then 0
    else
      var before, last := Best(m[..|m| - 1], ctx, key), m[|m| - 1];
      if last.key == key && Accepts(ctx, last) then Max(before, last.seconds) else before
  }

  /** The largest total ever delivered and accepted for `key`. */
  function Delivered(h: History, n: nat, key: Key): nat
    requires n <= |h|
  {
    if n == 0 then 0
    else
      Max(Delivered(h, n - 1, key), Arrives(Replay(h, n - 1), h[n - 1], key))
  }

  /** The largest total for `key` that an event delivers. */
  function Arrives(s: Link, e: Event, key: Key): nat {
    if e.Deliver? && e.index < |s.sent| then Best(s.sent[e.index], e.ctx, key) else 0
  }

  lemma {:induction false} IngestKeepsBest(totals: Totals, m: Message, ctx: Context, key: Key)
    ensures TotalOf(Ingested(totals, m, ctx), key) == Max(TotalOf(totals, key), Min(Best(m, ctx, key), MAX_SECONDS_PER_DAY))
  {
    if m != [] { IngestKeepsBest(totals, m[..|m| - 1], ctx, key); }
  }

  /** Whatever was lost, repeated or reordered, a stored total is the largest delivered one, at
      most a day. */
  lemma {:induction false} StoredIsTheLargest(h: History, n: nat, key: Key)
    requires n <= |h|
    ensures TotalOf(Replay(h, n).totals, key) == Min(Delivered(h, n, key), MAX_SECONDS_PER_DAY)
  {
    if n > 0 {
      StoredIsTheLargest(h, n - 1, key);
      var s, e := Replay(h, n - 1), h[n - 1];
      if e.Deliver? && e.index < |s.sent| { IngestKeepsBest(s.totals, s.sent[e.index], e.ctx, key); }
    }
  }

  // ---- Nothing is invented ----------------------------------------------------------------

  /** No entry says more than `used`. */
  ghost predicate AtMost(es: set<Entry>, key: Key, used: nat) {
    forall e :: e in es && e.key == key ==> e.seconds <= used
  }

  ghost predicate LinkAtMost(s: Link, key: Key, used: nat) {
    && LocalOf(s.rows, key) <= used
    && AtMost(s.batch, key, used)
    && forall i :: 0 <= i < |s.sent| ==> AtMost(Contents(s.sent[i]), key, used)
  }

  lemma {:induction false} EntriesAreUsed(h: History, n: nat, key: Key)
    requires n <= |h|
    ensures LinkAtMost(Replay(h, n), key, EverUsed(h, n, key))
  {
    if n > 0 { EntriesAreUsed(h, n - 1, key); }
  }

  lemma {:induction false} BestIsInIt(m: Message, ctx: Context, key: Key, used: nat)
    requires AtMost(Contents(m), key, used)
    ensures Best(m, ctx, key) <= used
  {
    if m != [] {
      assert Contents(m[..|m| - 1]) <= Contents(m) && m[|m| - 1] in Contents(m);
      BestIsInIt(m[..|m| - 1], ctx, key, used);
    }
  }

  lemma {:induction false} DeliveredWasUsed(h: History, n: nat, key: Key)
    requires n <= |h|
    ensures Delivered(h, n, key) <= EverUsed(h, n, key)
  {
    if n > 0 {
      DeliveredWasUsed(h, n - 1, key);
      EntriesAreUsed(h, n - 1, key);
      var s, e := Replay(h, n - 1), h[n - 1];
      if e.Deliver? && e.index < |s.sent| { BestIsInIt(s.sent[e.index], e.ctx, key, EverUsed(h, n - 1, key)); }
    }
  }

  /** A stored total never exceeds the time the agent counted, nor a day. */
  lemma StoredWasUsed(h: History, n: nat, key: Key)
    requires n <= |h|
    ensures TotalOf(Replay(h, n).totals, key) <= Min(EverUsed(h, n, key), MAX_SECONDS_PER_DAY)
  {
    StoredIsTheLargest(h, n, key);
    DeliveredWasUsed(h, n, key);
  }

  // ---- What the synced flag means ---------------------------------------------------------

  predicate WasSent(sent: seq<Message>, e: Entry) { exists i :: 0 <= i < |sent| && e in sent[i] }

  ghost predicate FlagsAreTrue(s: Link) {
    && (forall e :: e in s.unmarked ==> WasSent(s.sent, e))
    && forall k :: k in s.rows && s.rows[k].synced ==> WasSent(s.sent, Entry(k, s.rows[k].seconds))
  }

  lemma StillSent(sent: seq<Message>, m: Message)
    ensures forall e :: WasSent(sent, e) ==> WasSent(sent + [m], e)
    ensures forall e :: e in m ==> WasSent(sent + [m], e)
  {
    forall e | WasSent(sent, e) ensures WasSent(sent + [m], e) {
      var i :| 0 <= i < |sent| && e in sent[i];
      assert (sent + [m])[i] == sent[i];
    }
    forall e | e in m ensures WasSent(sent + [m], e) {
      assert (sent + [m])[|sent|] == m;
    }
  }

  /** A row flagged synced has had the total it holds sent. */
  lemma {:induction false} SyncedWasSent(h: History, n: nat)
    requires n <= |h|
    ensures FlagsAreTrue(Replay(h, n))
  {
    if n > 0 {
      SyncedWasSent(h, n - 1);
      if h[n - 1].SendChunk? { StillSent(Replay(h, n - 1).sent, h[n - 1].message); }
    }
  }

  // ---- After a reconnect ------------------------------------------------------------------

  /** Between `c` and `n`, a message with `e` was delivered to a server that accepts it. */
  ghost predicate Arrived(h: History, c: nat, n: nat, e: Entry)
    requires n <= |h|
  {
    exists d: nat :: ArrivedAt(h, c, n, e, d)
  }

  ghost predicate ArrivedAt(h: History, c: nat, n: nat, e: Entry, d: nat)
    requires n <= |h|
  {
    && c <= d < n && h[d].Deliver? && h[d].index < |Replay(h, d).sent| && e in Replay(h, d).sent[h[d].index] && Accepts(h[d].ctx, e)
  }

  lemma {:induction false} BestCovers(m: Message, ctx: Context, e: Entry)
    requires e in m && Accepts(ctx, e)
    ensures e.seconds <= Best(m, ctx, e.key)
  {
    if e != m[|m| - 1] { BestCovers(m[..|m| - 1], ctx, e); }
  }

  lemma {:induction false} DeliveredGrows(h: History, m: nat, n: nat, key: Key)
    requires m <= n <= |h|
    ensures Delivered(h, m, key) <= Delivered(h, n, key)
  {
    if m < n { DeliveredGrows(h, m, n - 1, key); }
  }

  lemma ArrivedAtCounts(h: History, c: nat, n: nat, e: Entry, d: nat)
    requires n <= |h| && ArrivedAt(h, c, n, e, d)
    ensures e.seconds <= Delivered(h, d + 1, e.key)
  {
    BestCovers(Replay(h, d).sent[h[d].index], h[d].ctx, e);
  }

  lemma ArrivedCounts(h: History, c: nat, n: nat, e: Entry)
    requires n <= |h| && Arrived(h, c, n, e)
    ensures e.seconds <= Delivered(h, n, e.key)
  {
    var d: nat :| ArrivedAt(h, c, n, e, d);
    ArrivedAtCounts(h, c, n, e, d);
    DeliveredGrows(h, d + 1, n, e.key);
  }

  ghost predicate NoUse(h: History, c: nat, n: nat, key: Key)
    requires n <= |h|
  {
    forall i :: c <= i < n ==> !(h[i].Use? && h[i].key == key)
  }

  lemma {:induction false} NoUseKeepsTotal(h: History, c: nat, n: nat, key: Key)
    requires c <= n <= |h| && NoUse(h, c, n, key)
    ensures EverUsed(h, n, key) == EverUsed(h, c, key)
  {
    if c < n { NoUseKeepsTotal(h, c, n - 1, key); }
  }

  ghost predicate NeverPruned(h: History, n: nat, key: Key)
    requires n <= |h|
  {
    forall i :: 0 <= i < n && h[i].Prune? ==> h[i].before <= key.day
  }

  lemma {:induction false} UnprunedIsExact(h: History, n: nat, key: Key)
    requires n <= |h| && NeverPruned(h, n, key)
    ensures LocalOf(Replay(h, n).rows, key) == EverUsed(h, n, key)
    ensures key !in Replay(h, n).rows ==> EverUsed(h, n, key) == 0
  {
    if n > 0 { UnprunedIsExact(h, n - 1, key); }
  }

  /** After a reconnect sync whose entries all arrive, every row from `since` on is on the server:
      at least what the agent had when it collected, and exactly that while nothing more is used. */
  lemma ReconnectCatchesUp(h: History, c: nat, n: nat, since: nat, key: Key)
    requires c < n <= |h| && h[c] == Collect(Some(since))
    requires forall e :: e in Replay(h, c + 1).batch ==> Arrived(h, c, n, e)
    requires key in Replay(h, c).rows && since <= key.day
    ensures Min(LocalOf(Replay(h, c).rows, key), MAX_SECONDS_PER_DAY) <= TotalOf(Replay(h, n).totals, key)
    ensures NeverPruned(h, c, key) && NoUse(h, c, n, key) ==>
              TotalOf(Replay(h, n).totals, key) == Min(LocalOf(Replay(h, c).rows, key), MAX_SECONDS_PER_DAY)
  {
    var e := Entry(key, Replay(h, c).rows[key].seconds);
    assert IsDue(Replay(h, c).rows, key, Some(since));
    assert e in Replay(h, c + 1).batch;
    ArrivedCounts(h, c, n, e);
    StoredIsTheLargest(h, n, key);
    if NeverPruned(h, c, key) && NoUse(h, c, n, key) {
      UnprunedIsExact(h, c, key);
      NoUseKeepsTotal(h, c, n, key);
      StoredWasUsed(h, n, key);
    }
  }
}

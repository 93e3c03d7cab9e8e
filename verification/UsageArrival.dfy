/** Which screen time reaches the server, exactly: what losing a message, marking a row synced when it
    is sent, and the midnight reset cost, over every run of UsageSync. */
module UsageArrival {
  import opened UsageSync
  import opened Wrappers

  // ---- Messages that survive --------------------------------------------------------------

  /** Event `e` puts a message on the channel. */
  predicate Sends(h: History, e: nat) {
    e < |h| && ((h[e].Count? && h[e].online) || (h[e].Sync? && Unsynced(Replay(h, e).rows) != map[]))
  }

  function Sent(h: History, e: nat): Message
    requires Sends(h, e)
  {
    if h[e].Count? then Beat(h[e].date, h[e].users) else Snapshot(Unsynced(Replay(h, e).rows))
  }

  function RemoveAt<T>(s: seq<T>, k: nat): seq<T>
    requires k < |s|
  {
    s[..k] + s[k + 1..]
  }

  function Without<T>(s: seq<T>, k: nat): seq<T> { if k < |s| then RemoveAt(s, k) else s }

  /** The events that sent the messages now on the channel, in order. */
  function Origins(h: History, n: nat): seq<nat>
    requires n <= |h|
  {
    if n == 0 then []
    else
      var before := Origins(h, n - 1);
      if Sends(h, n - 1) then before + [n - 1]
      else
        match h[n - 1]
        case Deliver(_) => Without(before, 0)
        case Lose(i) => Without(before, i)
        case _ => before
  }

  /** The server knows the user well enough to take the message's time for `key`. */
  predicate Takes(server: Users, m: Message, key: Key) { key.0 in server.known && (m.Beat? ==> key.0 in server.profiled) }

  /** The events whose messages the server took for `key`, in order. */
  function Arrived(h: History, n: nat, key: Key): seq<nat>
    requires n <= |h|
  {
    if n == 0 then []
    else
      var before, s := Arrived(h, n - 1, key), Replay(h, n - 1);
      if h[n - 1].Deliver? && s.channel != [] && Origins(h, n - 1) != [] && Takes(h[n - 1].server, s.channel[0], key)
      then before + [Origins(h, n - 1)[0]] else before
  }

  /** Taken by the server or still on the channel: neither lost nor refused. */
  function Survivors(h: History, n: nat, key: Key): seq<nat>
    requires n <= |h|
  {
    Arrived(h, n, key) + Origins(h, n)
  }

  predicate Ascending(es: seq<nat>, n: nat) {
    (forall i :: 0 <= i < |es| ==> es[i] < n) && forall i, j :: 0 <= i < j < |es| ==> es[i] < es[j]
  }

  predicate AllSend(h: History, es: seq<nat>) { forall i :: 0 <= i < |es| ==> Sends(h, es[i]) }

  /** Sending events before `n`, in order. */
  predicate InOrder(h: History, n: nat, es: seq<nat>) { Ascending(es, n) && AllSend(h, es) }

  function Messages(h: History, es: seq<nat>): seq<Message>
    requires AllSend(h, es)
  {
    seq(|es|, i requires 0 <= i < |es| => Sent(h, es[i]))
  }

  /** `es` are the events that sent the messages of `channel`. */
  predicate SentBy(h: History, n: nat, es: seq<nat>, channel: seq<Message>) { InOrder(h, n, es) && channel == Messages(h, es) }

  lemma AscendingRemoved(es: seq<nat>, n: nat, k: nat)
    requires Ascending(es, n)
    ensures Ascending(Without(es, k), n + 1)
  {}

  lemma AllSendRemoved(h: History, es: seq<nat>, k: nat)
    requires AllSend(h, es)
    ensures AllSend(h, Without(es, k)) && Messages(h, Without(es, k)) == Without(Messages(h, es), k)
  {
    hide Sends, Sent;
  }

  lemma SentByRemoved(h: History, n: nat, es: seq<nat>, channel: seq<Message>, k: nat)
    requires SentBy(h, n, es, channel)
    ensures SentBy(h, n + 1, Without(es, k), Without(channel, k))
  {
    AscendingRemoved(es, n, k);
    AllSendRemoved(h, es, k);
  }

  lemma SentByAppended(h: History, n: nat, es: seq<nat>, channel: seq<Message>)
    requires SentBy(h, n, es, channel) && Sends(h, n)
    ensures SentBy(h, n + 1, es + [n], channel + [Sent(h, n)])
  {}

  lemma {:induction false} OriginsAreTheChannel(h: History, n: nat)
    requires n <= |h|
    ensures SentBy(h, n, Origins(h, n), Replay(h, n).channel)
  {
    if n > 0 {
      OriginsAreTheChannel(h, n - 1);
      OriginsStep(h, n);
    }
  }

  lemma StepDropsOne(s: Link, e: Event)
    requires e.Deliver? || e.Lose?
    ensures Step(s, e).channel == Without(s.channel, if e.Deliver? then 0 else e.index)
  {}

  /** A delivery drops the first message and its origin, a loss the one at its index. */
  lemma DropsOne(h: History, n: nat)
    requires 0 < n <= |h| && (h[n - 1].Deliver? || h[n - 1].Lose?)
    ensures var k := if h[n - 1].Deliver? then 0 else h[n - 1].index;
            Origins(h, n) == Without(Origins(h, n - 1), k) && Replay(h, n).channel == Without(Replay(h, n - 1).channel, k)
  {
    StepDropsOne(Replay(h, n - 1), h[n - 1]);
  }

  lemma OriginsStep(h: History, n: nat)
    requires 0 < n <= |h| && SentBy(h, n - 1, Origins(h, n - 1), Replay(h, n - 1).channel)
    ensures SentBy(h, n, Origins(h, n), Replay(h, n).channel)
  {
    var channel, before := Replay(h, n - 1).channel, Origins(h, n - 1);
    if Sends(h, n - 1) {
      SentByAppended(h, n - 1, before, channel);
    } else if h[n - 1].Deliver? || h[n - 1].Lose? {
      DropsOne(h, n);
      SentByRemoved(h, n - 1, before, channel, if h[n - 1].Deliver? then 0 else h[n - 1].index);
    }
  }

  lemma InOrderRemoved(h: History, n: nat, es: seq<nat>, k: nat)
    requires InOrder(h, n, es) && k < |es|
    ensures InOrder(h, n + 1, RemoveAt(es, k))
  {
    AscendingRemoved(es, n, k);
    AllSendRemoved(h, es, k);
  }

  lemma {:induction false} SurvivorsInOrder(h: History, n: nat, key: Key)
    requires n <= |h|
    ensures InOrder(h, n, Survivors(h, n, key))
  {
    hide Sends, Sent;
    if n > 0 {
      SurvivorsInOrder(h, n - 1, key);
      SurvivorsStep(h, n, key);
      var before, now := Survivors(h, n - 1, key), Survivors(h, n, key);
      if k: nat :| k < |before| && now == RemoveAt(before, k) { InOrderRemoved(h, n - 1, before, k); }
    }
  }

  lemma RemoveFromSecond(a: seq<nat>, b: seq<nat>, k: nat)
    requires k < |b|
    ensures a + RemoveAt(b, k) == RemoveAt(a + b, |a| + k)
  {}

  lemma DeliverSurvives(h: History, n: nat, key: Key)
    requires 0 < n <= |h| && h[n - 1].Deliver? && Origins(h, n - 1) != []
    ensures var arrived, origins := Arrived(h, n - 1, key), Origins(h, n - 1);
            Survivors(h, n, key) == arrived + origins || Survivors(h, n, key) == arrived + RemoveAt(origins, 0)
  {
    var arrived, origins := Arrived(h, n - 1, key), Origins(h, n - 1);
    assert RemoveAt(origins, 0) == origins[1..] && arrived + [origins[0]] + origins[1..] == arrived + origins;
  }

  /** Event `n - 1` adds its own message, drops a lost or refused one, or keeps the survivors. */
  ghost predicate SurvivorsMove(h: History, n: nat, before: seq<nat>, now: seq<nat>)
    requires n > 0
  {
    || (Sends(h, n - 1) && now == before + [n - 1])
    || now == before
    || exists k: nat :: k < |before| && now == RemoveAt(before, k)
  }

  lemma SurvivorsStep(h: History, n: nat, key: Key)
    requires 0 < n <= |h|
    ensures SurvivorsMove(h, n, Survivors(h, n - 1, key), Survivors(h, n, key))
  {
    var arrived, origins := Arrived(h, n - 1, key), Origins(h, n - 1);
    if Sends(h, n - 1) {
      assert arrived + (origins + [n - 1]) == arrived + origins + [n - 1];
    } else if h[n - 1].Deliver? && origins != [] {
      DeliverSurvives(h, n, key);
      RemoveFromSecond(arrived, origins, 0);
    } else if h[n - 1].Lose? && h[n - 1].index < |origins| {
      RemoveFromSecond(arrived, origins, h[n - 1].index);
    }
  }

  lemma HandlingIsExact(totals: map<Key, nat>, m: Message, server: Users, key: Key)
    ensures TotalOf(Handled(totals, m, server), key) == if Takes(server, m, key) then Taken(TotalOf(totals, key), m, key) else TotalOf(totals, key)
  {
    if m.Beat? { BeatIsExact(totals, m.date, m.users, server.known * server.profiled, key); }
  }

  lemma {:induction false} BeatIsExact(totals: map<Key, nat>, date: string, users: seq<(nat, nat)>, profiled: set<nat>, key: Key)
    ensures TotalOf(WithBeat(totals, date, users, profiled), key)
         == TotalOf(totals, key) + if key.0 in profiled then Reported(date, users, key) else 0
  {
    if users != [] { BeatIsExact(totals, date, users[..|users| - 1], profiled, key); }
  }

  lemma MessagesAppend(h: History, n: nat, a: seq<nat>, b: seq<nat>)
    requires InOrder(h, n, a + b)
    ensures InOrder(h, n, a) && InOrder(h, n, b) && Messages(h, a + b) == Messages(h, a) + Messages(h, b)
  {
    hide Sends, Sent;
    assert forall i :: 0 <= i < |a| ==> (a + b)[i] == a[i];
    assert forall i :: 0 <= i < |b| ==> (a + b)[|a| + i] == b[i];
  }

  /** What the survivors already taken add up to. */
  function ArrivedTotal(h: History, n: nat, key: Key): nat
    requires n <= |h| && InOrder(h, n, Arrived(h, n, key))
  {
    Fold(0, Messages(h, Arrived(h, n, key)), key)
  }

  lemma ArrivedInOrder(h: History, n: nat, key: Key)
    requires n <= |h|
    ensures InOrder(h, n, Arrived(h, n, key))
  {
    SurvivorsInOrder(h, n, key);
    MessagesAppend(h, n, Arrived(h, n, key), Origins(h, n));
  }

  lemma StepTotal(s: Link, e: Event, key: Key)
    ensures TotalOf(Step(s, e).totals, key)
         == if e.Deliver? && s.channel != [] && Takes(e.server, s.channel[0], key) then Taken(TotalOf(s.totals, key), s.channel[0], key)
            else TotalOf(s.totals, key)
  {
    if e.Deliver? && s.channel != [] { HandlingIsExact(s.totals, s.channel[0], e.server, key); }
  }

  /** The total after one more message taken. */
  lemma OneMoreTaken(h: History, n: nat, es: seq<nat>, l: nat, m: Message, key: Key)
    requires InOrder(h, n, es) && l < n && Sends(h, l) && m == Sent(h, l) && forall i :: 0 <= i < |es| ==> es[i] < l
    ensures InOrder(h, n, es + [l]) && Fold(0, Messages(h, es + [l]), key) == Taken(Fold(0, Messages(h, es), key), m, key)
  {
    MessagesAppend(h, n, es, [l]);
    assert Messages(h, [l]) == [m];
    FoldSplits(0, Messages(h, es), [m], key);
    FoldOne(Fold(0, Messages(h, es), key), m, key);
  }

  /** Event `n - 1` delivers a message the server takes for `key`. */
  predicate TakesAt(h: History, n: nat, key: Key)
    requires 0 < n <= |h|
  {
    var channel := Replay(h, n - 1).channel;
    h[n - 1].Deliver? && channel != [] && Takes(h[n - 1].server, channel[0], key)
  }

  lemma NextArrives(h: History, n: nat, key: Key)
    requires 0 < n <= |h|
    ensures var arrived, origins, channel := Arrived(h, n - 1, key), Origins(h, n - 1), Replay(h, n - 1).channel;
            if !TakesAt(h, n, key) then Arrived(h, n, key) == arrived
            else |origins| == |channel| && Arrived(h, n, key) == arrived + [origins[0]]
                 && Sends(h, origins[0]) && channel[0] == Sent(h, origins[0])
  {
    OriginsAreTheChannel(h, n - 1);
  }

  lemma ArrivedStep(h: History, n: nat, key: Key)
    requires 0 < n <= |h| && InOrder(h, n - 1, Arrived(h, n - 1, key)) && InOrder(h, n, Arrived(h, n, key))
    requires TotalOf(Replay(h, n - 1).totals, key) == ArrivedTotal(h, n - 1, key)
    ensures TotalOf(Replay(h, n).totals, key) == ArrivedTotal(h, n, key)
  {
    var s, arrived, now := Replay(h, n - 1), Arrived(h, n - 1, key), Arrived(h, n, key);
    assert Replay(h, n) == Step(s, h[n - 1]);
    NextArrives(h, n, key);
    StepTotal(s, h[n - 1], key);
    hide Sends, Sent, Replay, Arrived, Origins, Step;
    if TakesAt(h, n, key) {
      var l := Origins(h, n - 1)[0];
      assert now[|arrived|] == l && forall i :: 0 <= i < |arrived| ==> now[i] == arrived[i];
      OneMoreTaken(h, n, arrived, l, s.channel[0], key);
    }
  }

  /** The server's total is what the messages it took add up to. */
  lemma {:induction false} TotalIsTheFold(h: History, n: nat, key: Key)
    requires n <= |h|
    ensures InOrder(h, n, Arrived(h, n, key)) && TotalOf(Replay(h, n).totals, key) == ArrivedTotal(h, n, key)
  {
    hide Sends, Sent;
    ArrivedInOrder(h, n, key);
    if n > 0 {
      TotalIsTheFold(h, n - 1, key);
      ArrivedStep(h, n, key);
    }
  }

  /** What has arrived and can still arrive is what the survivors add up to. */
  lemma SurvivorsArrive(h: History, n: nat, key: Key)
    requires n <= |h|
    ensures InOrder(h, n, Survivors(h, n, key)) && Arriving(Replay(h, n), key) == Fold(0, Messages(h, Survivors(h, n, key)), key)
  {
    hide Sends, Sent;
    var arrived, origins := Arrived(h, n, key), Origins(h, n);
    SurvivorsInOrder(h, n, key);
    TotalIsTheFold(h, n, key);
    OriginsAreTheChannel(h, n);
    MessagesAppend(h, n, arrived, origins);
    FoldSplits(0, Messages(h, arrived), Messages(h, origins), key);
    assert Messages(h, origins) == Replay(h, n).channel;
  }

  // ---- What the survivors cover -----------------------------------------------------------

  /** Event `e` counts time for `key`. */
  predicate Counts(h: History, e: nat, key: Key) { e < |h| && h[e].Count? && Reported(h[e].date, h[e].users, key) > 0 }

  /** Event `l` sends a snapshot with all the time counted for `key` so far. */
  predicate IsComplete(h: History, l: nat, key: Key) {
    Carries(h, l, key) && LocalOf(Replay(h, l).rows, key) == EverCounted(h, l, key)
  }

  /** Event `l` sends a snapshot with the agent's own total for `key`. */
  predicate Carries(h: History, l: nat, key: Key) { l < |h| && h[l].Sync? && key in Unsynced(Replay(h, l).rows) }

  /** The time counted at `e` is in a beat that survived, or in a complete snapshot sent later that did. */
  predicate IsCovered(h: History, es: seq<nat>, e: nat, key: Key) {
    e in es || exists l :: l in es && e < l && IsComplete(h, l, key)
  }

  ghost predicate AllCovered(h: History, es: seq<nat>, n: nat, key: Key) {
    forall e: nat :: e < n && Counts(h, e, key) ==> IsCovered(h, es, e, key)
  }

  lemma {:induction false} CountedBetween(h: History, m: nat, n: nat, key: Key)
    requires m <= n <= |h|
    ensures EverCounted(h, m, key) <= EverCounted(h, n, key)
    ensures EverCounted(h, m, key) == EverCounted(h, n, key) <==> forall e: nat :: m <= e < n ==> !Counts(h, e, key)
  {
    if m < n {
      CountedBetween(h, m, n - 1, key);
      assert (forall e: nat :: m <= e < n ==> !Counts(h, e, key))
        <==> (forall e: nat :: m <= e < n - 1 ==> !Counts(h, e, key)) && !Counts(h, n - 1, key);
    }
  }

  /** The last survivor `l` settles everything before it when it is complete, and adds its own time
      otherwise. */
  lemma CoveredByLast(h: History, es: seq<nat>, l: nat, n: nat, key: Key)
    requires l < n <= |h| && InOrder(h, l, es) && Sends(h, l)
    ensures AllCovered(h, es + [l], n, key)
        <==> (forall e: nat :: l < e < n ==> !Counts(h, e, key)) && (IsComplete(h, l, key) || AllCovered(h, es, l, key))
  {
    var longer := es + [l];
    forall e: nat | e < n && Counts(h, e, key)
      ensures IsCovered(h, longer, e, key) <==> e == l || (e < l && (IsComplete(h, l, key) || IsCovered(h, es, e, key)))
    {
      assert l in longer && forall x :: x in es ==> x in longer && x < l;
    }
  }

  /** The last survivor `l`, on top of a total that the others make. */
  lemma LastIsExact(h: History, init: seq<nat>, l: nat, n: nat, total: nat, key: Key)
    requires l < n <= |h| && InOrder(h, l, init) && Sends(h, l)
    requires total <= EverCounted(h, l, key) && (total == EverCounted(h, l, key) <==> AllCovered(h, init, l, key))
    ensures Taken(total, Sent(h, l), key) <= EverCounted(h, n, key)
    ensures Taken(total, Sent(h, l), key) == EverCounted(h, n, key) <==> AllCovered(h, init + [l], n, key)
  {
    NothingIsInvented(h, l, key);
    CountedBetween(h, l + 1, n, key);
    CoveredByLast(h, init, l, n, key);
  }

  /** Any messages add up to at most the time counted, and to all of it exactly when they cover it. */
  lemma {:induction false} FoldIsExact(h: History, es: seq<nat>, n: nat, key: Key)
    requires n <= |h| && InOrder(h, n, es)
    ensures Fold(0, Messages(h, es), key) <= EverCounted(h, n, key)
    ensures Fold(0, Messages(h, es), key) == EverCounted(h, n, key) <==> AllCovered(h, es, n, key)
    decreases |es|
  {
    if es == [] {
      CountedBetween(h, 0, n, key);
    } else {
      var init, l := es[..|es| - 1], es[|es| - 1];
      FoldIsExact(h, init, l, key);
      OneMoreTaken(h, n, init, l, Sent(h, l), key);
      LastIsExact(h, init, l, n, Fold(0, Messages(h, init), key), key);
      assert es == init + [l];
    }
  }

  /** Everything the agent counted reaches the server, or still can, exactly when each second of it
      is in a heartbeat that was neither lost nor refused, or in a later snapshot of the whole total
      that was not. */
  lemma EverythingArrivesExactly(h: History, n: nat, key: Key)
    requires n <= |h|
    ensures Arriving(Replay(h, n), key) == EverCounted(h, n, key) <==> AllCovered(h, Survivors(h, n, key), n, key)
  {
    SurvivorsArrive(h, n, key);
    FoldIsExact(h, Survivors(h, n, key), n, key);
  }

  /** The server's own total is complete exactly when what it took covers everything counted. */
  lemma ServerIsCompleteExactly(h: History, n: nat, key: Key)
    requires n <= |h|
    ensures TotalOf(Replay(h, n).totals, key) == EverCounted(h, n, key) <==> AllCovered(h, Arrived(h, n, key), n, key)
  {
    TotalIsTheFold(h, n, key);
    SurvivorsInOrder(h, n, key);
    assert Arrived(h, n, key) == Survivors(h, n, key)[..|Arrived(h, n, key)|];
    FoldIsExact(h, Arrived(h, n, key), n, key);
  }

  // ---- The reset --------------------------------------------------------------------------

  /** No reset of `key` before `n` came after time was counted for it. */
  ghost predicate NoTimeReset(h: History, n: nat, key: Key)
    requires n <= |h|
  {
    forall r: nat :: r < n && h[r] == Reset(key.0, key.1) ==> EverCounted(h, r, key) == 0
  }

  /** The agent's own total is everything counted exactly while no reset came after time was counted. */
  lemma {:induction false} LocalIsExact(h: History, n: nat, key: Key)
    requires n <= |h|
    ensures LocalOf(Replay(h, n).rows, key) == EverCounted(h, n, key) <==> NoTimeReset(h, n, key)
  {
    if n > 0 {
      LocalIsExact(h, n - 1, key);
      NothingIsInvented(h, n - 1, key);
      LocalStep(h, n, key);
      assert NoTimeReset(h, n, key)
        <==> NoTimeReset(h, n - 1, key) && (h[n - 1] == Reset(key.0, key.1) ==> EverCounted(h, n - 1, key) == 0);
    }
  }

  lemma LocalStep(h: History, n: nat, key: Key)
    requires 0 < n <= |h|
    ensures LocalOf(Replay(h, n).rows, key)
         == if h[n - 1] == Reset(key.0, key.1) then 0
            else LocalOf(Replay(h, n - 1).rows, key) + EverCounted(h, n, key) - EverCounted(h, n - 1, key)
  {
    var s := Replay(h, n - 1);
    match h[n - 1]
    case Count(date, users, online) => CountedAdds(s.rows, date, users, key);
    case Sync => MarkingKeepsSeconds(s.rows, Unsynced(s.rows).Keys, key);
    case _ =>
  }

  /** What a reset costs: once time was counted before it, everything arrives exactly when that time
      is covered by what was sent before the reset, and all time since is in surviving heartbeats. */
  lemma ResetCostsExactly(h: History, r: nat, n: nat, key: Key)
    requires r < n <= |h| && h[r] == Reset(key.0, key.1) && EverCounted(h, r, key) > 0
    ensures Arriving(Replay(h, n), key) == EverCounted(h, n, key)
        <==> && (forall e: nat :: e < r && Counts(h, e, key) ==>
                   e in Survivors(h, n, key) || exists l :: l in Survivors(h, n, key) && e < l < r && IsComplete(h, l, key))
             && forall e: nat :: r < e < n && Counts(h, e, key) ==> e in Survivors(h, n, key)
  {
    EverythingArrivesExactly(h, n, key);
    forall l: nat | r <= l < |h| ensures !IsComplete(h, l, key) { NoneCompleteAfterReset(h, r, l, key); }
    var es := Survivors(h, n, key);
    forall e: nat | e < n && Counts(h, e, key)
      ensures IsCovered(h, es, e, key) <==> e in es || (e < r && exists l :: l in es && e < l < r && IsComplete(h, l, key))
    {}
  }

  lemma NoneCompleteAfterReset(h: History, r: nat, l: nat, key: Key)
    requires r <= l < |h| && h[r] == Reset(key.0, key.1) && EverCounted(h, r, key) > 0
    ensures !IsComplete(h, l, key)
  {
    if l > r { LocalIsExact(h, l, key); }
  }

  // ---- The synced flag --------------------------------------------------------------------

  /** Event `c` gives the row of `key` something to send: time, or the reset of an existing row. */
  predicate Touches(h: History, c: nat, key: Key) {
    Counts(h, c, key) || (c < |h| && h[c] == Reset(key.0, key.1) && EverCounted(h, c, key) > 0)
  }

  ghost predicate NoSync(h: History, m: nat, n: nat)
    requires n <= |h|
  {
    forall i :: m <= i < n ==> !h[i].Sync?
  }

  lemma {:induction false} CountedRows(rows: map<Key, Row>, date: string, users: seq<(nat, nat)>, key: Key)
    ensures key in Counted(rows, date, users) <==> key in rows || Reported(date, users, key) > 0
    ensures Reported(date, users, key) > 0 ==> !Counted(rows, date, users)[key].synced
    ensures key in rows && Reported(date, users, key) == 0 ==> Counted(rows, date, users)[key] == rows[key]
  {
    if users != [] { CountedRows(rows, date, users[..|users| - 1], key); }
  }

  /** A row is due exactly when something touched it after the last sync: one that was sent is not
      sent again, delivered or lost, until more time is counted or it is reset. */
  lemma {:induction false} ResentExactly(h: History, n: nat, key: Key)
    requires n <= |h|
    ensures key in Replay(h, n).rows <==> EverCounted(h, n, key) > 0
    ensures key in Unsynced(Replay(h, n).rows) <==> exists c: nat :: c < n && Touches(h, c, key) && NoSync(h, c + 1, n)
  {
    if n > 0 {
      ResentExactly(h, n - 1, key);
      var s, e := Replay(h, n - 1), h[n - 1];
      DueStep(s, e, key);
      assert Touches(h, n - 1, key) ==> NoSync(h, n, n);
      if c: nat :| c < n - 1 && Touches(h, c, key) && NoSync(h, c + 1, n - 1) { assert !e.Sync? ==> NoSync(h, c + 1, n); }
      if c: nat :| c < n && Touches(h, c, key) && NoSync(h, c + 1, n) { assert c < n - 1 ==> NoSync(h, c + 1, n - 1) && !e.Sync?; }
    }
  }

  lemma DueStep(s: Link, e: Event, key: Key)
    ensures var t := Step(s, e);
            var counted := e.Count? && Reported(e.date, e.users, key) > 0;
            && (key in t.rows <==> key in s.rows || counted)
            && (key in Unsynced(t.rows) <==> counted || (e == Reset(key.0, key.1) && key in s.rows)
                                              || (key in Unsynced(s.rows) && !e.Sync?))
  {
    if e.Count? { CountedRows(s.rows, e.date, e.users, key); }
  }

  // ---- One lost message -------------------------------------------------------------------

  predicate HasSnapshot(rest: seq<Message>, key: Key) { exists m :: m in rest && m.Snapshot? && key in m.usage }

  lemma {:induction false} FoldShifts(low: nat, high: nat, rest: seq<Message>, key: Key)
    requires low <= high && forall j: nat :: j < |rest| ==> SnapshotFits(high, rest, key, j)
    ensures Fold(low, rest, key) == Fold(high, rest, key) <==> low == high || HasSnapshot(rest, key)
  {
    if rest != [] {
      var init, m := rest[..|rest| - 1], rest[|rest| - 1];
      forall j: nat | j < |init| ensures SnapshotFits(high, init, key, j) {
        assert SnapshotFits(high, rest, key, j) && init[..j] == rest[..j];
      }
      FoldShifts(low, high, init, key);
      FoldGrows(low, high, init, key);
      assert SnapshotFits(high, rest, key, |init|) && rest[..|init|] == init;
      assert rest == init + [m];
    }
  }

  /** Losing a message costs nothing exactly when a later snapshot on the channel carries the key, or
      the message would not have changed the total. */
  lemma LossCostsExactly(s: Link, i: nat, key: Key)
    requires Ahead(s, key) && i < |s.channel|
    ensures var x := Fold(TotalOf(s.totals, key), s.channel[..i], key);
            Arriving(Step(s, Lose(i)), key) == Arriving(s, key)
            <==> HasSnapshot(s.channel[i + 1..], key) || Taken(x, s.channel[i], key) == x
  {
    var total, a, m, b := TotalOf(s.totals, key), s.channel[..i], s.channel[i], s.channel[i + 1..];
    var x := Fold(total, a, key);
    FoldSplits(total, a, b, key);
    FoldSplits(total, a + [m], b, key);
    FoldSplits(total, a, [m], key);
    FoldOne(x, m, key);
    Around(s.channel, i);
    forall j: nat | j < |b| ensures SnapshotFits(Taken(x, m, key), b, key, j) {
      assert SnapshotFits(total, s.channel, key, i + 1 + j);
      assert s.channel[..i + 1 + j] == a + [m] + b[..j];
      FoldSplits(total, a + [m], b[..j], key);
    }
    FoldShifts(x, Taken(x, m, key), b, key);
  }

  // ---- Snapshots --------------------------------------------------------------------------

  /** Right after a complete snapshot is delivered the server's total is the one it carried, however
      much later that is: a reset after it was sent does not matter. */
  lemma SnapshotSettlesTheTotal(h: History, n: nat, key: Key, server: Users)
    requires n < |h| && h[n] == Deliver(server) && key.0 in server.known
    requires Origins(h, n) != [] && IsComplete(h, Origins(h, n)[0], key)
    ensures TotalOf(Replay(h, n + 1).totals, key) == EverCounted(h, Origins(h, n)[0], key)
  {
    var l := Origins(h, n)[0];
    OriginsAreTheChannel(h, n);
    TotalIsTheFold(h, n, key);
    SurvivorsInOrder(h, n, key);
    var arrived, all := Arrived(h, n, key), Survivors(h, n, key);
    assert all[|arrived|] == l && forall i :: 0 <= i < |arrived| ==> arrived[i] == all[i];
    FoldIsExact(h, arrived, l, key);
    assert Replay(h, n).channel[0] == Sent(h, l);
    HandlingIsExact(Replay(h, n).totals, Replay(h, n).channel[0], server, key);
  }

  /** Any snapshot, complete or not: the server's total is then the one it carried exactly when the
      total before did not exceed that, which only a reset before it was sent can bring about. */
  lemma SnapshotSettlesExactly(h: History, n: nat, key: Key, server: Users)
    requires n < |h| && h[n] == Deliver(server) && key.0 in server.known
    requires Origins(h, n) != [] && Carries(h, Origins(h, n)[0], key)
    ensures var l := Origins(h, n)[0]; var carried := LocalOf(Replay(h, l).rows, key);
            && (TotalOf(Replay(h, n + 1).totals, key) == carried <==> TotalOf(Replay(h, n).totals, key) <= carried)
            && (NoTimeReset(h, l, key) ==> TotalOf(Replay(h, n + 1).totals, key) == carried)
  {
    var l := Origins(h, n)[0];
    OriginsAreTheChannel(h, n);
    assert Replay(h, n).channel[0] == Sent(h, l);
    HandlingIsExact(Replay(h, n).totals, Replay(h, n).channel[0], server, key);
    LocalIsExact(h, l, key);
    if NoTimeReset(h, l, key) { SnapshotSettlesTheTotal(h, n, key, server); }
  }
}

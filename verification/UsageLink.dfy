/** The two ends of the screen-time route, updated in place: the agent's usage_log with its synced
    flags, and the server's daily_usage. Each step adds its event to the history the properties of
    UsageSync are about. */
module UsageLink {
  import opened UsageSync
  import opened Wrappers

  class AgentLog {
    var rows: map<Key, Row>

    constructor ()
      ensures rows == map[]
    {
      rows := map[];
    }

    method AddUsageSeconds(uid: nat, date: string, seconds: nat)
      modifies this
      ensures rows == WithSeconds(old(rows), (uid, date), seconds)
    {
      var key := (uid, date);
      rows := if key in rows then rows[key := Row(rows[key].seconds + seconds, false)] else rows[key := Row(seconds, false)];
    }

    method MarkUsageSynced(key: Key)
      modifies this
      ensures rows == Marked(old(rows), {key})
    {
      if key in rows { rows := rows[key := rows[key].(synced := true)]; }
    }

    method ResetUsageForDate(uid: nat, date: string)
      modifies this
      ensures rows == WasReset(old(rows), (uid, date))
    {
      if (uid, date) in rows { rows := rows[(uid, date) := Row(0, false)]; }
    }
  }

  class ServerTotals {
    var totals: map<Key, nat>

    constructor ()
      ensures totals == map[]
    {
      totals := map[];
    }

    /** Adds a delta. */
    method AddUsageSeconds(key: Key, seconds: nat)
      modifies this
      ensures totals == old(totals)[key := TotalOf(old(totals), key) + seconds]
    {
      totals := totals[key := (if key in totals then totals[key] else 0) + seconds];
    }

    /** Takes a snapshot: only ever raises the total. */
    method ReconcileUsageSeconds(key: Key, seconds: nat)
      modifies this
      ensures totals == old(totals)[key := Max(TotalOf(old(totals), key), seconds)]
    {
      if key !in totals || seconds > totals[key] { totals := totals[key := seconds]; }
    }

    method TakeBeat(date: string, users: seq<(nat, nat)>, server: Users)
      modifies this
      ensures totals == Handled(old(totals), Beat(date, users), server)
    {
      for i := 0 to |users|
        invariant totals == WithBeat(old(totals), date, users[..i], server.known * server.profiled)
      {
        assert users[..i + 1][..i] == users[..i];
        var (uid, seconds) := users[i];
        if uid in server.known && uid in server.profiled && seconds > 0 { AddUsageSeconds((uid, date), seconds); }
      }
      assert users[..|users|] == users;
    }

    method TakeSnapshot(usage: map<Key, nat>, server: Users)
      modifies this
      ensures totals == Handled(old(totals), Snapshot(usage), server)
    {
      var todo := usage.Keys;
      ghost var start := totals;
      while todo != {}
        invariant todo <= usage.Keys
        invariant totals == WithSnapshot(start, Without(usage, todo), server.known)
        decreases todo
      {
        var key :| key in todo;
        OneMoreKey(start, usage, todo, key, server.known);
        if key.0 in server.known { ReconcileUsageSeconds(key, usage[key]); }
        todo := todo - {key};
      }
      assert Without(usage, {}) == usage;
    }
  }

  lemma OneMoreKey(start: map<Key, nat>, usage: map<Key, nat>, todo: set<Key>, key: Key, known: set<nat>)
    requires todo <= usage.Keys && key in todo
    ensures var before, after := WithSnapshot(start, Without(usage, todo), known), WithSnapshot(start, Without(usage, todo - {key}), known);
            after == if key.0 in known then before[key := Max(TotalOf(before, key), usage[key])] else before
  {}

  ghost function Without(usage: map<Key, nat>, todo: set<Key>): map<Key, nat> {
    map k | k in usage && k !in todo :: usage[k]
  }

  /** The agent and the server with the channel between them. */
  class Connection {
    const agent: AgentLog
    const server: ServerTotals
    var channel: seq<Message>
    ghost var history: History

    ghost function Current(): Link
      reads this, agent, server
    {
      Link(agent.rows, channel, server.totals)
    }

    ghost predicate Valid()
      reads this, agent, server
    {
      Current() == Replay(history, |history|)
    }

    constructor ()
      ensures Valid() && fresh(agent) && fresh(server) && history == []
    {
      agent := new AgentLog();
      server := new ServerTotals();
      channel, history := [], [];
    }

    ghost method Record(e: Event)
      requires Current() == Step(Replay(history, |history|), e)
      modifies this`history
      ensures Valid() && history == old(history) + [e]
    {
      OneMoreEvent(START, Step, (h: History, n: nat) => if n <= |h| then Replay(h, n) else START, history, e);
      history := history + [e];
    }

    /** One beat: counts the active seconds and, online, sends them. */
    method SendHeartbeat(date: string, users: seq<(nat, nat)>, online: bool)
      requires Valid()
      modifies this, agent
      ensures Valid() && history == old(history) + [Count(date, users, online)]
    {
      for i := 0 to |users|
        invariant agent.rows == Counted(old(agent.rows), date, users[..i])
        invariant channel == old(channel) && history == old(history)
      {
        assert users[..i + 1][..i] == users[..i];
        if users[i].1 > 0 { agent.AddUsageSeconds(users[i].0, date, users[i].1); }
      }
      assert users[..|users|] == users;
      if online { channel := channel + [Beat(date, users)]; }
      Record(Count(date, users, online));
    }

    /** Sends every row that is not synced and marks it, without waiting for an answer. */
    method SendUsageSync()
      requires Valid()
      modifies this, agent
      ensures Valid() && history == old(history) + [Sync]
    {
      var usage := Unsynced(agent.rows);
      if usage != map[] {
        channel := channel + [Snapshot(usage)];
        ghost var sent := channel;
        var todo := usage.Keys;
        while todo != {}
          invariant todo <= usage.Keys
          invariant agent.rows == Marked(old(agent.rows), usage.Keys - todo)
          invariant channel == sent && history == old(history)
          decreases todo
        {
          var key :| key in todo;
          agent.MarkUsageSynced(key);
          todo := todo - {key};
        }
        assert usage.Keys - todo == usage.Keys;
      }
      Record(Sync);
    }

    method ResetYesterday(uid: nat, date: string)
      requires Valid()
      modifies this, agent
      ensures Valid() && history == old(history) + [Reset(uid, date)]
    {
      agent.ResetUsageForDate(uid, date);
      Record(Reset(uid, date));
    }

    /** The server takes the first message. */
    method Receive(users: Users)
      requires Valid()
      modifies this, server
      ensures Valid() && history == old(history) + [Deliver(users)]
    {
      if channel != [] {
        match channel[0] {
          case Beat(date, entries) => server.TakeBeat(date, entries, users);
          case Snapshot(usage) => server.TakeSnapshot(usage, users);
        }
        channel := channel[1..];
      }
      Record(Deliver(users));
    }

    method Drop(i: nat)
      requires Valid()
      modifies this
      ensures Valid() && history == old(history) + [Lose(i)]
    {
      if i < |channel| { channel := channel[..i] + channel[i + 1..]; }
      Record(Lose(i));
    }
  }
}

/** The two ends of the app-time route, updated in place (`send_app_usage_sync` and the usage logs of
    the agent, `ingest` of the server). Each step adds its event to the history of AppSync. */
module AppSyncLink {
  import opened Apps
  import opened AppSync
  import opened Wrappers

  const APP_SYNC_CHUNK: nat := 500

  datatype Counts = Counts(stored: nat, rejected: nat)

  class UsageServer {
    var totals: Totals

    constructor ()
      ensures totals == map[]
    {
      totals := map[];
    }

    /** Stores an agent's day totals: keeps the larger value, rejects what it cannot place. */
    method Ingest(m: Message, ctx: Context) returns (out: Counts)
      modifies this
      ensures totals == Ingested(old(totals), m, ctx)
      ensures out.stored == AcceptedIn(m, ctx) && out.stored + out.rejected == |m|
      ensures out.stored == |set i: nat | i < |m| && Accepts(ctx, m[i])|
    {
      AcceptedIsCount(m, ctx);
      out := Counts(0, 0);
      for i := 0 to |m|
        invariant totals == Ingested(old(totals), m[..i], ctx)
        invariant out.stored == AcceptedIn(m[..i], ctx) && out.stored + out.rejected == i
      {
        assert m[..i + 1][..i] == m[..i];
        var e := m[i];
        if !Accepts(ctx, e) {
          out := out.(rejected := out.rejected + 1);
        } else {
          var seconds := Min(e.seconds, MAX_SECONDS_PER_DAY);
          if e.key !in totals || seconds > totals[e.key] { totals := totals[e.key := seconds]; }
          out := out.(stored := out.stored + 1);
        }
      }
      assert m[..|m|] == m;
    }
  }

  class UsageLog {
    var rows: map<Key, Row>

    constructor ()
      ensures rows == map[]
    {
      rows := map[];
    }

    method AddUsage(key: Key, seconds: nat)
      modifies this
      ensures rows == Added(old(rows), key, seconds)
      ensures rows == old(rows)[key := Row((if key in old(rows) then old(rows)[key].seconds else 0) + seconds, false)]
    {
      rows := rows[key := Row((if key in rows then rows[key].seconds else 0) + seconds, false)];
    }

    /** Marks a row only if it still holds the total that was sent. */
    method MarkSynced(e: Entry)
      modifies this
      ensures rows == Marked(old(rows), {e})
      ensures rows == if e.key in old(rows) && old(rows)[e.key].seconds == e.seconds then old(rows)[e.key := Row(e.seconds, true)] else old(rows)
    {
      if e.key in rows && rows[e.key].seconds == e.seconds { rows := rows[e.key := rows[e.key].(synced := true)]; }
    }
  }

  lemma MarkedTwice(rows: map<Key, Row>, a: set<Entry>, b: set<Entry>)
    ensures Marked(Marked(rows, a), b) == Marked(rows, a + b)
  {}

  /** What is not synced is due, so marking what is due leaves every row flagged. */
  lemma AllAreMarked(rows: map<Key, Row>, since: Option<nat>)
    ensures var after := Marked(rows, Due(rows, since));
            after.Keys == rows.Keys && forall k :: k in after ==> after[k] == Row(rows[k].seconds, true)
  {}

  /** At most `limit` entries of a set, in some order. */
  method TakeChunk(es: set<Entry>, limit: nat) returns (chunk: seq<Entry>)
    requires es != {} && limit > 0
    ensures Contents(chunk) <= es && chunk != [] && |chunk| <= limit
  {
    chunk := [];
    var left := es;
    while |chunk| < limit && left != {}
      invariant left <= es && Contents(chunk) == es - left && |chunk| <= limit
      invariant chunk == [] ==> left == es
      decreases left
    {
      var e :| e in left;
      ghost var shorter := chunk;
      chunk := chunk + [e];
      assert Contents(chunk) == Contents(shorter) + {e};
      left := left - {e};
    }
  }

  /** The entries of a set, in some order. */
  method InSomeOrder(es: set<Entry>) returns (m: Message)
    ensures Contents(m) == es
  {
    m := [];
    var left := es;
    while left != {}
      invariant left <= es && Contents(m) == es - left
      decreases left
    {
      var e :| e in left;
      ghost var shorter := m;
      m := m + [e];
      assert Contents(m) == Contents(shorter) + {e};
      left := left - {e};
    }
  }

  /** Every group total is in the first message after `before`, and later ones are about apps only. */
  ghost predicate GroupsGoFirst(before: seq<Message>, sent: seq<Message>, due: set<Entry>) {
    && before <= sent
    && (forall e :: e in due && e.key.item.Group? ==> |before| < |sent| && e in sent[|before|])
    && forall i :: |before| < i < |sent| ==> |sent[i]| <= APP_SYNC_CHUNK && forall e :: e in sent[i] ==> e.key.item.App?
  }

  /** A message of app totals keeps the group totals first, whether it takes them along or not. */
  lemma FirstOrLater(before: seq<Message>, was: seq<Message>, pending: Message, chunk: Message, due: set<Entry>)
    requires |chunk| <= APP_SYNC_CHUNK && forall e :: e in chunk ==> e.key.item.App?
    requires before <= was
    requires if pending == [] then GroupsGoFirst(before, was, due)
             else was == before && forall e :: e in due && e.key.item.Group? ==> e in pending
    ensures GroupsGoFirst(before, was + [pending + chunk], due)
  {}

  class Connection {
    const agent: UsageLog
    const server: UsageServer
    var sent: seq<Message>
    var batch: set<Entry>
    var unmarked: set<Entry>
    ghost var history: History

    ghost function Current(): Link
      reads this, agent, server
    {
      Link(agent.rows, batch, unmarked, sent, server.totals)
    }

    ghost predicate Valid()
      reads this, agent, server
    {
      Current() == Replay(history, |history|)
    }

    constructor ()
      ensures Valid() && fresh(agent) && fresh(server) && history == []
    {
      agent := new UsageLog();
      server := new UsageServer();
      sent, batch, unmarked, history := [], {}, {}, [];
    }

    ghost method Record(e: Event)
      requires Current() == Step(Replay(history, |history|), e)
      modifies this`history
      ensures Valid() && history == old(history) + [e]
    {
      OneMoreEvent(START, Step, (h: History, n: nat) => if n <= |h| then Replay(h, n) else START, history, e);
      history := history + [e];
    }

    method CountUsage(key: Key, seconds: nat)
      requires Valid()
      modifies this, agent
      ensures Valid() && history == old(history) + [Use(key, seconds)]
    {
      agent.AddUsage(key, seconds);
      Record(Use(key, seconds));
    }

    method PruneUsage(before: nat)
      requires Valid()
      modifies this, agent
      ensures Valid() && history == old(history) + [Prune(before)]
      ensures forall k :: k in agent.rows <==> k in old(agent.rows) && before <= k.day
      ensures forall k :: k in agent.rows ==> agent.rows[k] == old(agent.rows)[k]
    {
      agent.rows := map k | k in agent.rows && before <= k.day :: agent.rows[k];
      Record(Prune(before));
    }

    /** Marks the rows of entries that were sent. */
    method MarkRows(es: set<Entry>)
      requires Valid() && es <= unmarked
      modifies this, agent
      ensures Valid() && history == old(history) + [Mark(es)]
      ensures batch == old(batch) && sent == old(sent) && unmarked == old(unmarked) - es
      ensures agent.rows == Marked(old(agent.rows), es)
    {
      var todo := es;
      while todo != {}
        invariant todo <= es && unmarked == old(unmarked) && batch == old(batch) && sent == old(sent)
        invariant agent.rows == Marked(old(agent.rows), es - todo) && history == old(history)
        decreases todo
      {
        var e :| e in todo;
        agent.MarkSynced(e);
        MarkedTwice(old(agent.rows), es - todo, {e});
        assert (es - todo) + {e} == es - (todo - {e});
        todo := todo - {e};
      }
      assert es - todo == es == es * unmarked;
      unmarked := unmarked - es;
      Record(Mark(es));
    }

    method SendOne(m: Message)
      requires Valid() && Contents(m) <= batch
      modifies this
      ensures Valid() && history == old(history) + [SendChunk(m)]
      ensures batch == old(batch) - Contents(m) && sent == old(sent) + [m] && unmarked == old(unmarked) + Contents(m)
      ensures agent.rows == old(agent.rows)
    {
      sent := sent + [m];
      batch, unmarked := batch - Contents(m), unmarked + Contents(m);
      Record(SendChunk(m));
    }

    /** Reads what is due. */
    method CollectDue(since: Option<nat>)
      requires Valid()
      modifies this
      ensures Valid() && history == old(history) + [Collect(since)]
      ensures batch == Due(agent.rows, since) && unmarked == {} && sent == old(sent) && agent.rows == old(agent.rows)
    {
      batch, unmarked := Due(agent.rows, since), {};
      Record(Collect(since));
    }

    /** Amid a sync: `left` are the app totals still to send, `pending` the group totals that go with
        the next message; everything else due was sent and, but for group totals, marked in `rows`. */
    ghost predicate Sending(before: seq<Message>, rows: map<Key, Row>, due: set<Entry>, left: set<Entry>, pending: Message)
      reads this, agent, server
    {
      && Valid() && before <= sent && batch == left + Contents(pending) && batch <= due
      && (forall e :: e in due - batch ==> WasSent(sent, e))
      && (forall e :: e in left ==> e.key.item.App?)
      && (forall e :: e in unmarked ==> e.key.item.Group?)
      && unmarked <= due - batch && agent.rows == Marked(rows, due - batch - unmarked)
      && (if pending == [] then GroupsGoFirst(before, sent, due)
          else sent == before && forall e :: e in due && e.key.item.Group? ==> e in pending)
    }

    /** One message, the first of which takes the group totals along; its app totals are marked. */
    method SendNextChunk(left: set<Entry>, pending: Message, ghost before: seq<Message>, ghost rows: map<Key, Row>,
                         ghost due: set<Entry>)
      returns (rest: set<Entry>)
      requires Sending(before, rows, due, left, pending) && left != {}
      requires forall e :: e in pending ==> e.key.item.Group?
      modifies this, agent
      ensures Sending(before, rows, due, rest, []) && rest < left && old(history) <= history
    {
      var chunk := TakeChunk(left, APP_SYNC_CHUNK);
      ghost var was, all := sent, batch;
      assert chunk[0] in Contents(chunk);
      assert Contents(pending + chunk) == Contents(pending) + Contents(chunk);
      SendOne(pending + chunk);
      StillSent(was, pending + chunk);
      FirstOrLater(before, was, pending, chunk, due);
      rest := left - Contents(chunk);
      ghost var marked := due - all - old(unmarked);
      MarkedTwice(rows, marked, Contents(chunk));
      MarkRows(Contents(chunk));
      assert batch == rest + Contents([]);
      assert due - batch - unmarked == marked + Contents(chunk);
    }

    /** Group totals without any app totals go alone. */
    method SendGroupsAlone(pending: Message, ghost before: seq<Message>, ghost rows: map<Key, Row>, ghost due: set<Entry>)
      requires Sending(before, rows, due, {}, pending) && pending != [] && forall e :: e in pending ==> e.key.item.Group?
      modifies this
      ensures Sending(before, rows, due, {}, []) && history == old(history) + [SendChunk(pending)]
    {
      ghost var was := sent;
      SendOne(pending);
      StillSent(was, pending);
      FirstOrLater(before, was, pending, [], due);
      assert pending + [] == pending && Contents([]) == {};
      assert due - batch - unmarked == due - old(batch) - old(unmarked);
    }

    /** A whole sync: what is due is read, sent in chunks and marked; afterwards all of it was sent,
        the group totals with the first message. */
    method SendAppUsageSync(since: Option<nat>)
      requires Valid()
      modifies this, agent
      ensures Valid() && batch == {} && unmarked == {}
      ensures old(history) + [Collect(since)] <= history
      ensures forall e :: e in Due(old(agent.rows), since) ==> WasSent(sent, e)
      ensures GroupsGoFirst(old(sent), sent, Due(old(agent.rows), since))
      ensures agent.rows.Keys == old(agent.rows).Keys
      ensures forall k :: k in agent.rows ==> agent.rows[k] == Row(old(agent.rows)[k].seconds, true)
    {
      ghost var before, rows, due := sent, agent.rows, Due(agent.rows, since);
      AllAreMarked(rows, since);
      var left, pending := StartSync(since);
      hide Marked, Due;
      if left == {} && pending != [] {
        SendGroupsAlone(pending, before, rows, due);
        pending := [];
      }
      SendChunks(left, pending, before, rows, due);
    }

    /** Reads what is due: app totals, and group totals for the first message. */
    method StartSync(since: Option<nat>) returns (left: set<Entry>, pending: Message)
      requires Valid()
      modifies this
      ensures history == old(history) + [Collect(since)]
      ensures Sending(old(sent), old(agent.rows), Due(old(agent.rows), since), left, pending)
      ensures forall e :: e in pending ==> e.key.item.Group?
    {
      CollectDue(since);
      ghost var due := batch;
      assert due - batch - unmarked == {} && Marked(agent.rows, {}) == agent.rows;
      var groups := set e | e in batch && e.key.item.Group?;
      left := batch - groups;
      pending := InSomeOrder(groups);
      assert forall e :: e in pending ==> e in Contents(pending);
      assert batch == left + Contents(pending);
    }

    method SendChunks(apps: set<Entry>, groups: Message, ghost before: seq<Message>, ghost rows: map<Key, Row>, ghost due: set<Entry>)
      requires Sending(before, rows, due, apps, groups) && (apps == {} ==> groups == []) && forall e :: e in groups ==> e.key.item.Group?
      modifies this, agent
      ensures Valid() && batch == {} && unmarked == {} && old(history) <= history
      ensures GroupsGoFirst(before, sent, due) && forall e :: e in due ==> WasSent(sent, e)
      ensures agent.rows == Marked(rows, due)
    {
      var left, pending := apps, groups;
      while left != {}
        invariant Sending(before, rows, due, left, pending) && old(history) <= history && (left == {} ==> pending == [])
        invariant forall e :: e in pending ==> e.key.item.Group?
        decreases left
      {
        left := SendNextChunk(left, pending, before, rows, due);
        pending := [];
      }
      assert batch == {} && due - {} == due;
      MarkedTwice(rows, due - unmarked, unmarked);
      assert due - unmarked + unmarked == due;
      MarkRows(unmarked);
    }

    /** Message `i` arrives, for the first time or again. */
    method Receive(i: nat, ctx: Context)
      requires Valid()
      modifies this, server
      ensures Valid() && history == old(history) + [Deliver(i, ctx)]
    {
      if i < |sent| { var _ := server.Ingest(sent[i], ctx); }
      Record(Deliver(i, ctx));
    }
  }
}

/** The pairing handshake (crates/server/src/ws.rs, `handle_pairing_request`; api/agents.rs,
    `accept_agent`; db.rs): connections wait in a shared map for an administrator to enter their
    code. Requests, disconnects and accept calls interleave between any two awaits. */
module Pairing {
  import opened PairingCodes
  import opened Wrappers

  const MAX_PAIRING_ATTEMPTS: nat := 5

  datatype AgentStatus = Pending | Paired | Disabled | PendingDelete

  datatype AgentRow = AgentRow(machine: string, status: AgentStatus, token: Option<nat>)

  /** Why a connection is where it is: it has stored its agent row, waits in the map, was sent a
      decision, gave up, or is over. */
  datatype Phase = Connected | Waiting | Decided(token: nat) | Leaving | Gone | Served(token: nat)

  datatype Conn = Conn(machine: string, code: Code, phase: Phase)

  datatype Handle = Handle(code: Code, conn: nat, failed: nat)

  /** An accept call that took a handle: next it stores the token, then it sends it. */
  datatype AcceptPhase = Taken | Stored | Delivered | NobodyThere

  datatype Accept = Accept(agent: nat, conn: nat, token: nat, phase: AcceptPhase)

  datatype State = State(pending: map<string, Handle>, agents: map<nat, AgentRow>, conns: seq<Conn>, accepts: seq<Accept>)

  /** One atomic step. Ids and tokens are random, so they are parameters. */
  datatype Event =
    | Request(machine: string, code: Code, newId: nat)
    | Register(conn: nat)
    | Enter(agent: nat, entered: Code, token: nat)
    | Store(accept: nat)
    | Send(accept: nat)
    | Leave(conn: nat)
    | Cleanup(conn: nat)
    | Receive(conn: nat)

  const START := State(map[], map[], [], [])

  predicate HasMachine(agents: map<nat, AgentRow>, machine: string) { exists id :: id in agents && agents[id].machine == machine }

  /** The agent table after `upsert_agent_pending`. */
  function Upserted(agents: map<nat, AgentRow>, machine: string, newId: nat): map<nat, AgentRow> {
    if HasMachine(agents, machine) then
      map id | id in agents ::
        if agents[id].machine == machine && agents[id].status != Paired && agents[id].status != Disabled
        then agents[id].(status := Pending) else agents[id]
    else agents[newId := AgentRow(machine, Pending, None)]
  }

  function AfterWrongCode(pending: map<string, Handle>, machine: string): map<string, Handle>
    requires machine in pending
  {
    var failed := pending[machine].failed + 1;
    if failed >= MAX_PAIRING_ATTEMPTS then pending - {machine} else pending[machine := pending[machine].(failed := failed)]
  }

  predicate IsWaiting(s: State, c: nat) { c < |s.conns| && (s.conns[c].phase.Waiting? || s.conns[c].phase.Decided?) }

  function WithPhase(s: State, c: nat, phase: Phase): State
    requires c < |s.conns|
  {
    s.(conns := s.conns[c := s.conns[c].(phase := phase)])
  }

  function WithAccept(s: State, k: nat, phase: AcceptPhase): State
    requires k < |s.accepts|
  {
    s.(accepts := s.accepts[k := s.accepts[k].(phase := phase)])
  }

  function Entered(s: State, agent: nat, entered: Code, token: nat): State {
    if agent !in s.agents || s.agents[agent].machine !in s.pending then s
    else
      var machine := s.agents[agent].machine;
      var handle := s.pending[machine];
      if NormalizeCode(entered) == NormalizeCode(handle.code) then
        s.(pending := s.pending - {machine}, accepts := s.accepts + [Accept(agent, handle.conn, token, Taken)])
      else s.(pending := AfterWrongCode(s.pending, machine))
  }

  /** The accept call has stored its token and its connection still waits. */
  predicate CanSend(s: State, k: nat) {
    && k < |s.accepts| && s.accepts[k].phase.Stored?
    && s.accepts[k].conn < |s.conns| && s.conns[s.accepts[k].conn].phase.Waiting?
  }

  function Step(s: State, e: Event): State {
    match e
    case Request(machine, code, newId) =>
      if newId in s.agents && !HasMachine(s.agents, machine) then s // the insert fails on the primary key
      else s.(agents := Upserted(s.agents, machine, newId), conns := s.conns + [Conn(machine, code, Connected)])
    case Register(c) =>
      if c < |s.conns| && s.conns[c].phase.Connected? then
        WithPhase(s, c, Waiting).(pending := s.pending[s.conns[c].machine := Handle(s.conns[c].code, c, 0)])
      else s
    case Enter(agent, entered, token) => Entered(s, agent, entered, token)
    case Store(k) =>
      if k >= |s.accepts| || !s.accepts[k].phase.Taken? then s
      else
        var a := s.accepts[k];
        WithAccept(s, k, Stored).(agents := if a.agent !in s.agents then s.agents
                                            else s.agents[a.agent := s.agents[a.agent].(status := Paired, token := Some(a.token))])
    case Send(k) =>
      if k >= |s.accepts| || !s.accepts[k].phase.Stored? then s
      else
        var a := s.accepts[k];
        if CanSend(s, k) then
          WithPhase(WithAccept(s, k, Delivered), a.conn, Decided(a.token))
        else WithAccept(s, k, NobodyThere)
    // the agent went away, or its handle was dropped
    case Leave(c) => if IsWaiting(s, c) then WithPhase(s, c, Leaving) else s
    case Cleanup(c) =>
      if c < |s.conns| && s.conns[c].phase.Leaving? then
        var machine := s.conns[c].machine;
        WithPhase(s, c, Gone).(pending := if machine in s.pending && s.pending[machine].conn == c then s.pending - {machine}
                                          else s.pending)
      else s
    case Receive(c) =>
      if c < |s.conns| && s.conns[c].phase.Decided? then WithPhase(s, c, Served(s.conns[c].phase.token)) else s
  }

  type History = seq<Event>

  function Replay(h: History, n: nat): State
    requires n <= |h|
  {
    if n == 0 then START else Step(Replay(h, n - 1), h[n - 1])
  }

  // ---- The invariant ----------------------------------------------------------------------

  predicate Registered(s: State, c: nat) { c < |s.conns| && !s.conns[c].phase.Connected? }

  ghost predicate HandlesFit(s: State) {
    forall m :: m in s.pending ==>
      && Registered(s, s.pending[m].conn)
      && s.conns[s.pending[m].conn].machine == m && s.conns[s.pending[m].conn].code == s.pending[m].code
      && s.pending[m].failed < MAX_PAIRING_ATTEMPTS
      && forall k :: 0 <= k < |s.accepts| ==> s.accepts[k].conn != s.pending[m].conn
  }

  ghost predicate AcceptsFit(s: State) {
    && (forall k :: 0 <= k < |s.accepts| ==> Registered(s, s.accepts[k].conn))
    && forall k, l :: 0 <= k < l < |s.accepts| ==> s.accepts[k].conn != s.accepts[l].conn
  }

  /** Connections keep their machine and code, and once registered never register again. */
  ghost predicate ConnsKept(s: State, t: State) {
    |s.conns| <= |t.conns|
    && forall c :: 0 <= c < |s.conns| ==>
         && t.conns[c].machine == s.conns[c].machine && t.conns[c].code == s.conns[c].code
         && (t.conns[c].phase.Connected? ==> s.conns[c].phase.Connected?)
  }

  lemma StepKeepsConns(s: State, e: Event)
    ensures ConnsKept(s, Step(s, e))
  {}

  lemma StepFits(s: State, e: Event)
    requires HandlesFit(s) && AcceptsFit(s)
    ensures HandlesFit(Step(s, e)) && AcceptsFit(Step(s, e))
  {
    match e
    case Enter(agent, entered, token) => EnterFits(s, agent, entered, token);
    case Register(c) => RegisterFits(s, c);
    case _ =>
      StepKeepsConns(s, e);
      QuietStep(s, e);
      HandlesStillFit(s, Step(s, e));
  }

  /** Other steps take no handle and add none. */
  lemma QuietStep(s: State, e: Event)
    requires !e.Enter? && !e.Register?
    ensures forall m :: m in Step(s, e).pending ==> m in s.pending && Step(s, e).pending[m] == s.pending[m]
    ensures |Step(s, e).accepts| == |s.accepts|
    ensures forall k :: 0 <= k < |s.accepts| ==> Step(s, e).accepts[k].conn == s.accepts[k].conn
  {}

  lemma HandlesStillFit(s: State, t: State)
    requires HandlesFit(s) && AcceptsFit(s) && ConnsKept(s, t)
    requires forall m :: m in t.pending ==> m in s.pending && t.pending[m] == s.pending[m]
    requires |t.accepts| == |s.accepts| && forall k :: 0 <= k < |s.accepts| ==> t.accepts[k].conn == s.accepts[k].conn
    ensures HandlesFit(t) && AcceptsFit(t)
  {}

  lemma RegisterFits(s: State, c: nat)
    requires HandlesFit(s) && AcceptsFit(s)
    ensures HandlesFit(Step(s, Register(c))) && AcceptsFit(Step(s, Register(c)))
  {}

  lemma EnterFits(s: State, agent: nat, entered: Code, token: nat)
    requires HandlesFit(s) && AcceptsFit(s)
    ensures HandlesFit(Entered(s, agent, entered, token)) && AcceptsFit(Entered(s, agent, entered, token))
  {}

  lemma {:induction false} Fits(h: History, n: nat)
    requires n <= |h|
    ensures HandlesFit(Replay(h, n)) && AcceptsFit(Replay(h, n))
  {
    if n > 0 {
      Fits(h, n - 1);
      StepFits(Replay(h, n - 1), h[n - 1]);
    }
  }

  // ---- Wrong codes ------------------------------------------------------------------------

  /** The handle connection `c` still has in the map. */
  predicate InMap(s: State, c: nat) {
    c < |s.conns| && s.conns[c].machine in s.pending && s.pending[s.conns[c].machine].conn == c
  }

  /** Event `e` is a wrong code entered for connection `c`. */
  predicate IsWrong(s: State, e: Event, c: nat) {
    e.Enter? && e.agent in s.agents && c < |s.conns| && s.agents[e.agent].machine == s.conns[c].machine && InMap(s, c)
    && NormalizeCode(e.entered) != NormalizeCode(s.conns[c].code)
  }

  function WrongCodes(h: History, n: nat, c: nat): nat
    requires n <= |h|
  {
    if n == 0 then 0 else WrongCodes(h, n - 1, c) + if IsWrong(Replay(h, n - 1), h[n - 1], c) then 1 else 0
  }

  function Failed(s: State, c: nat): nat {
    if InMap(s, c) then s.pending[s.conns[c].machine].failed else 0
  }

  /** The handle counts the wrong codes of its connection, from the registration on. */
  ghost predicate Counted(s: State, c: nat, wrong: nat) {
    && wrong <= MAX_PAIRING_ATTEMPTS
    && (InMap(s, c) ==> wrong == Failed(s, c) < MAX_PAIRING_ATTEMPTS)
    && (!Registered(s, c) ==> wrong == 0 && !InMap(s, c))
  }

  lemma StepCounts(s: State, e: Event, c: nat, wrong: nat)
    requires HandlesFit(s) && AcceptsFit(s) && Counted(s, c, wrong)
    ensures Counted(Step(s, e), c, wrong + if IsWrong(s, e, c) then 1 else 0)
  {
    StepFits(s, e);
    if e.Enter? { EnterCounts(s, e.agent, e.entered, e.token, c); } else { OthersCount(s, e, c); }
  }

  /** Other events add no wrong code: a handle keeps its counter, or is new and starts at zero. */
  lemma OthersCount(s: State, e: Event, c: nat)
    requires HandlesFit(s) && !e.Enter?
    ensures var t := Step(s, e);
            && (InMap(t, c) ==> Registered(t, c) && (if Registered(s, c) then InMap(s, c) && Failed(t, c) == Failed(s, c) else Failed(t, c) == 0))
            && (Registered(s, c) ==> Registered(t, c))
  {
    StepKeepsConns(s, e);
  }

  lemma EnterCounts(s: State, agent: nat, entered: Code, token: nat, c: nat)
    requires HandlesFit(s)
    ensures var t := Entered(s, agent, entered, token);
            && (InMap(t, c) ==> InMap(s, c) && Failed(t, c) == Failed(s, c) + if IsWrong(s, Enter(agent, entered, token), c) then 1 else 0)
            && (Registered(t, c) <==> Registered(s, c))
  {}

  lemma {:induction false} CountedWrongCodes(h: History, n: nat, c: nat)
    requires n <= |h|
    ensures Counted(Replay(h, n), c, WrongCodes(h, n, c))
  {
    if n > 0 {
      Fits(h, n - 1);
      CountedWrongCodes(h, n - 1, c);
      StepCounts(Replay(h, n - 1), h[n - 1], c, WrongCodes(h, n - 1, c));
    }
  }

  /** A pairing request takes at most five wrong codes. */
  lemma FiveWrongCodesAtMost(h: History, n: nat, c: nat)
    requires n <= |h|
    ensures WrongCodes(h, n, c) <= MAX_PAIRING_ATTEMPTS
  {
    CountedWrongCodes(h, n, c);
  }

  // ---- Decisions --------------------------------------------------------------------------

  /** At event `e` a code matching that of connection `c` was entered for agent `agent`, which has
      the machine of the connection. */
  predicate Unlocks(h: History, e: nat, c: nat, agent: nat, token: nat) {
    && e < |h| && h[e].Enter? && h[e].agent == agent && h[e].token == token
    && var s := Replay(h, e);
       agent in s.agents && InMap(s, c) && s.agents[agent].machine == s.conns[c].machine
       && NormalizeCode(h[e].entered) == NormalizeCode(s.conns[c].code)
  }

  ghost predicate AcceptStory(h: History, n: nat, a: Accept) {
    exists e: nat :: e < n && Unlocks(h, e, a.conn, a.agent, a.token)
  }

  lemma {:induction false} AcceptsHaveStories(h: History, n: nat, k: nat)
    requires n <= |h| && k < |Replay(h, n).accepts|
    ensures AcceptStory(h, n, Replay(h, n).accepts[k])
  {
    var s := Replay(h, n - 1);
    Fits(h, n - 1);
    if k < |s.accepts| {
      AcceptsHaveStories(h, n - 1, k);
      var e: nat :| e < n - 1 && Unlocks(h, e, s.accepts[k].conn, s.accepts[k].agent, s.accepts[k].token);
      AcceptKept(s, h[n - 1], k);
    } else {
      NewAccept(h, n - 1, k);
    }
  }

  lemma AcceptKept(s: State, e: Event, k: nat)
    requires k < |s.accepts|
    ensures var t := Step(s, e);
            k < |t.accepts| && t.accepts[k].conn == s.accepts[k].conn && t.accepts[k].agent == s.accepts[k].agent
            && t.accepts[k].token == s.accepts[k].token
            && (s.accepts[k].phase.Delivered? ==> t.accepts[k].phase.Delivered?)
  {}

  lemma NewAccept(h: History, n: nat, k: nat)
    requires n < |h| && HandlesFit(Replay(h, n)) && |Replay(h, n).accepts| <= k < |Replay(h, n + 1).accepts|
    ensures var a := Replay(h, n + 1).accepts[k]; Unlocks(h, n, a.conn, a.agent, a.token)
  {}

  /** The token a connection was sent, if any. */
  function TokenOf(s: State, c: nat): Option<nat> {
    if c >= |s.conns| then None
    else
      match s.conns[c].phase
      case Decided(token) => Some(token)
      case Served(token) => Some(token)
      case _ => None
  }

  ghost predicate SentBy(s: State, c: nat, token: nat, k: nat) {
    k < |s.accepts| && s.accepts[k].conn == c && s.accepts[k].token == token && s.accepts[k].phase.Delivered?
  }

  lemma StepSends(s: State, e: Event, c: nat)
    ensures var token := TokenOf(Step(s, e), c);
            token.Some? ==> TokenOf(s, c) == token || (e.Send? && SentBy(Step(s, e), c, token.value, e.accept))
  {}

  lemma {:induction false} DecisionsWereSent(h: History, n: nat, c: nat) returns (k: nat)
    requires n <= |h| && TokenOf(Replay(h, n), c).Some?
    ensures SentBy(Replay(h, n), c, TokenOf(Replay(h, n), c).value, k)
  {
    var s := Replay(h, n - 1);
    StepSends(s, h[n - 1], c);
    if TokenOf(s, c) == TokenOf(Replay(h, n), c) {
      k := DecisionsWereSent(h, n - 1, c);
      AcceptKept(s, h[n - 1], k);
    } else {
      k := h[n - 1].accept;
    }
  }

  /** A connection is decided at most once, and only after a code matching its own was entered. */
  lemma OneDecisionByCode(h: History, n: nat, c: nat) returns (k: nat)
    requires n <= |h| && TokenOf(Replay(h, n), c).Some?
    ensures var s := Replay(h, n);
            && SentBy(s, c, TokenOf(s, c).value, k)
            && (forall l: nat :: l < |s.accepts| && s.accepts[l].conn == c ==> l == k)
            && AcceptStory(h, n, s.accepts[k])
  {
    k := DecisionsWereSent(h, n, c);
    Fits(h, n);
    AcceptsHaveStories(h, n, k);
  }

  // ---- Handles ----------------------------------------------------------------------------

  /** A closing connection removes its own handle and no other. */
  lemma CleanupRemovesItsOwn(s: State, c: nat)
    requires HandlesFit(s) && c < |s.conns| && s.conns[c].phase.Leaving?
    ensures var t := Step(s, Cleanup(c));
            && (forall m :: m in t.pending <==> m in s.pending && s.pending[m].conn != c)
            && (forall m :: m in t.pending ==> t.pending[m] == s.pending[m])
  {}

  /** At event `e` a newer connection of the same machine took the place of `c`. */
  predicate Superseded(h: History, e: nat, c: nat) {
    && e < |h| && h[e].Register? && h[e].conn != c
    && var s := Replay(h, e);
       InMap(s, c) && h[e].conn < |s.conns| && s.conns[h[e].conn].phase.Connected? && s.conns[h[e].conn].machine == s.conns[c].machine
  }

  ghost predicate TakenBy(s: State, c: nat, k: nat) { k < |s.accepts| && s.accepts[k].conn == c }

  lemma LosesHandle(h: History, n: nat, c: nat)
    requires n < |h| && InMap(Replay(h, n), c) && !InMap(Replay(h, n + 1), c)
    requires HandlesFit(Replay(h, n)) && IsWaiting(Replay(h, n + 1), c)
    ensures Superseded(h, n, c) || (IsWrong(Replay(h, n), h[n], c) && Failed(Replay(h, n), c) + 1 >= MAX_PAIRING_ATTEMPTS)
         || TakenBy(Replay(h, n + 1), c, |Replay(h, n).accepts|)
  {}

  lemma StepWaits(s: State, e: Event, c: nat)
    ensures IsWaiting(Step(s, e), c) ==> IsWaiting(s, c) || InMap(Step(s, e), c)
  {}

  /** A waiting request can be answered, unless it used up its wrong codes, was superseded by a
      newer one, or was taken by an accept call: nothing else drops its handle. */
  lemma {:induction false} WaitingIsReachable(h: History, n: nat, c: nat)
    requires n <= |h| && IsWaiting(Replay(h, n), c)
    ensures || InMap(Replay(h, n), c)
            || WrongCodes(h, n, c) == MAX_PAIRING_ATTEMPTS
            || (exists e: nat :: e < n && Superseded(h, e, c))
            || exists k: nat :: TakenBy(Replay(h, n), c, k)
  {
    var s := Replay(h, n - 1);
    StepWaits(s, h[n - 1], c);
    if !InMap(Replay(h, n), c) {
      Fits(h, n - 1);
      WaitingIsReachable(h, n - 1, c);
      CountedWrongCodes(h, n - 1, c);
      CountedWrongCodes(h, n, c);
      if InMap(s, c) {
        LosesHandle(h, n - 1, c);
      } else if k: nat :| TakenBy(s, c, k) {
        AcceptKept(s, h[n - 1], k);
        assert TakenBy(Replay(h, n), c, k);
      }
    }
  }

  // ---- The agent table --------------------------------------------------------------------

  /** A pairing request never changes a token, nor the status of an agent that is paired or
      disabled; any other agent of the machine becomes pending. */
  lemma RequestKeepsPairings(s: State, machine: string, code: Code, newId: nat, id: nat)
    requires id in s.agents
    ensures var t := Step(s, Request(machine, code, newId));
            && id in t.agents && t.agents[id].token == s.agents[id].token && t.agents[id].machine == s.agents[id].machine
            && (s.agents[id].status == Paired || s.agents[id].status == Disabled || s.agents[id].machine != machine
                ==> t.agents[id].status == s.agents[id].status)
            && (t.agents[id].status != s.agents[id].status ==> s.agents[id].status == PendingDelete && t.agents[id].status == Pending)
  {}

  ghost predicate OneRowEach(agents: map<nat, AgentRow>) {
    forall a, b :: a in agents && b in agents && agents[a].machine == agents[b].machine ==> a == b
  }

  lemma StepKeepsMachines(s: State, e: Event)
    requires OneRowEach(s.agents)
    ensures OneRowEach(Step(s, e).agents)
  {}

  /** A machine has one row, however often it asks. */
  lemma {:induction false} OneRowPerMachine(h: History, n: nat)
    requires n <= |h|
    ensures OneRowEach(Replay(h, n).agents)
  {
    if n > 0 {
      OneRowPerMachine(h, n - 1);
      StepKeepsMachines(Replay(h, n - 1), h[n - 1]);
    }
  }

  /** Unless the new id is taken, a request leaves its machine a row, and adds none if it had one. */
  lemma RequestedIsKnown(s: State, machine: string, code: Code, newId: nat)
    requires newId !in s.agents
    ensures var agents := Step(s, Request(machine, code, newId)).agents;
            && (exists id :: id in agents && agents[id].machine == machine)
            && ((exists id :: id in s.agents && s.agents[id].machine == machine) ==> agents.Keys == s.agents.Keys)
            && ((forall id :: id in s.agents ==> s.agents[id].machine != machine) ==>
                  agents == s.agents[newId := AgentRow(machine, AgentStatus.Pending, None)])
  {
    var agents := Step(s, Request(machine, code, newId)).agents;
    if id :| id in s.agents && s.agents[id].machine == machine {
      assert id in agents && agents[id].machine == machine;
    } else {
      assert agents[newId].machine == machine;
    }
  }

  ghost predicate PairedBy(s: State, id: nat, k: nat) {
    && id in s.agents && k < |s.accepts| && s.accepts[k].agent == id
    && s.agents[id].token == Some(s.accepts[k].token)
  }

  lemma StepPairs(s: State, e: Event, id: nat)
    requires id in Step(s, e).agents && Step(s, e).agents[id].token.Some?
    ensures (id in s.agents && s.agents[id].token == Step(s, e).agents[id].token) || (e.Store? && PairedBy(Step(s, e), id, e.accept))
  {}

  /** An agent's token is one that was handed to a connection of its machine after its code was
      entered: pairing a computer takes its own code. */
  lemma {:induction false} TokensComeFromCodes(h: History, n: nat, id: nat) returns (k: nat)
    requires n <= |h| && id in Replay(h, n).agents && Replay(h, n).agents[id].token.Some?
    ensures PairedBy(Replay(h, n), id, k) && AcceptStory(h, n, Replay(h, n).accepts[k])
  {
    var s := Replay(h, n - 1);
    StepPairs(s, h[n - 1], id);
    if id in s.agents && s.agents[id].token == Replay(h, n).agents[id].token {
      k := TokensComeFromCodes(h, n - 1, id);
      AcceptKept(s, h[n - 1], k);
    } else {
      k := h[n - 1].accept;
    }
    AcceptsHaveStories(h, n, k);
  }

  lemma {:induction false} PairedHasToken(h: History, n: nat, id: nat)
    requires n <= |h| && id in Replay(h, n).agents
    ensures Replay(h, n).agents[id].status == Paired ==> Replay(h, n).agents[id].token.Some?
  {
    if n > 0 && id in Replay(h, n - 1).agents { PairedHasToken(h, n - 1, id); }
  }

  // ---- How an accept call ends ------------------------------------------------------------

  /** At event `e` accept call `k` stores its token. */
  predicate StoredAt(h: History, e: nat, k: nat) {
    e < |h| && h[e] == Store(k) && k < |Replay(h, e).accepts| && Replay(h, e).accepts[k].phase.Taken?
  }

  /** At event `e` accept call `k` sends its decision. */
  predicate SentAt(h: History, e: nat, k: nat) {
    e < |h| && h[e] == Send(k) && k < |Replay(h, e).accepts| && Replay(h, e).accepts[k].phase.Stored?
  }

  /** At event `l` connection `c` stops waiting without a decision. */
  predicate LeftAt(h: History, l: nat, c: nat) { l < |h| && h[l] == Leave(c) && IsWaiting(Replay(h, l), c) }

  predicate IsPaired(s: State, id: nat) { id in s.agents && s.agents[id].status == Paired }

  lemma StepKeepsPaired(s: State, e: Event, id: nat)
    requires id in s.agents
    ensures id in Step(s, e).agents && (IsPaired(s, id) ==> IsPaired(Step(s, e), id))
  {}

  lemma {:induction false} AcceptedAgentIsKnown(h: History, n: nat, k: nat)
    requires n <= |h| && k < |Replay(h, n).accepts|
    ensures Replay(h, n).accepts[k].agent in Replay(h, n).agents
  {
    var s := Replay(h, n - 1);
    if k < |s.accepts| {
      AcceptedAgentIsKnown(h, n - 1, k);
      AcceptKept(s, h[n - 1], k);
      StepKeepsPaired(s, h[n - 1], s.accepts[k].agent);
    }
  }

  /** At event `e` accept call `k` gave agent `id` the token `token`. */
  ghost predicate GaveToken(h: History, e: nat, k: nat, id: nat, token: nat) {
    StoredAt(h, e, k) && IsPaired(Replay(h, e + 1), id) && Replay(h, e + 1).agents[id].token == Some(token)
  }

  lemma StoreGivesToken(h: History, e: nat, k: nat)
    requires StoredAt(h, e, k)
    ensures GaveToken(h, e, k, Replay(h, e).accepts[k].agent, Replay(h, e).accepts[k].token)
  {
    AcceptedAgentIsKnown(h, e, k);
  }

  /** What a step does to accept call `k`: it keeps who and what it is for, and moves on only by its
      own events. */
  lemma StepAdvances(s: State, e: Event, k: nat)
    requires k < |Step(s, e).accepts| && !Step(s, e).accepts[k].phase.Taken?
    ensures k < |s.accepts|
    ensures s.accepts[k].phase.Taken? <==> e == Store(k) && s.accepts[k].phase.Taken?
    ensures Step(s, e).accepts[k].agent == s.accepts[k].agent && Step(s, e).accepts[k].token == s.accepts[k].token
  {}

  /** Once an accept call has stored its token its agent is paired, whatever becomes of the call:
      the row was given this call's token, and no event of the handshake takes the pairing back. */
  lemma {:induction false} StoredMeansPaired(h: History, n: nat, k: nat)
    requires n <= |h| && k < |Replay(h, n).accepts| && !Replay(h, n).accepts[k].phase.Taken?
    ensures var a := Replay(h, n).accepts[k];
            IsPaired(Replay(h, n), a.agent) && exists e: nat :: e < n && GaveToken(h, e, k, a.agent, a.token)
  {
    StepAdvances(Replay(h, n - 1), h[n - 1], k);
    var a := Replay(h, n - 1).accepts[k];
    if a.phase.Taken? {
      StoreGivesToken(h, n - 1, k);
      assert GaveToken(h, n - 1, k, a.agent, a.token);
    } else {
      StoredMeansPaired(h, n - 1, k);
      var e: nat :| e < n - 1 && GaveToken(h, e, k, a.agent, a.token);
      StepKeepsPaired(Replay(h, n - 1), h[n - 1], a.agent);
    }
  }

  predicate HasLeft(s: State, c: nat) { c < |s.conns| && (s.conns[c].phase.Leaving? || s.conns[c].phase.Gone?) }

  lemma StepLeaves(s: State, e: Event, c: nat)
    ensures HasLeft(Step(s, e), c) <==> HasLeft(s, c) || (e == Leave(c) && IsWaiting(s, c))
  {}

  lemma {:induction false} WhenItLeft(h: History, n: nat, c: nat) returns (l: nat)
    requires n <= |h| && HasLeft(Replay(h, n), c)
    ensures l < n && LeftAt(h, l, c)
    decreases n
  {
    StepLeaves(Replay(h, n - 1), h[n - 1], c);
    if HasLeft(Replay(h, n - 1), c) { l := WhenItLeft(h, n - 1, c); } else { l := n - 1; }
  }

  /** What every event keeps, a run keeps. */
  lemma {:induction false} Persists(h: History, m: nat, n: nat, keeps: State -> bool)
    requires m <= n <= |h| && keeps(Replay(h, m))
    requires forall s, e :: keeps(s) ==> keeps(Step(s, e))
    ensures keeps(Replay(h, n))
    decreases n
  {
    if m < n {
      Persists(h, m, n - 1, keeps);
      assert keeps(Step(Replay(h, n - 1), h[n - 1]));
    }
  }

  lemma StaysGone(h: History, l: nat, n: nat, c: nat)
    requires l < n <= |h| && LeftAt(h, l, c)
    ensures HasLeft(Replay(h, n), c)
  {
    StepLeaves(Replay(h, l), h[l], c);
    forall s, e | HasLeft(s, c) ensures HasLeft(Step(s, e), c) { StepLeaves(s, e, c); }
    Persists(h, l + 1, n, s => HasLeft(s, c));
  }

  lemma HasLeftIsExact(h: History, n: nat, c: nat)
    requires n <= |h|
    ensures HasLeft(Replay(h, n), c) <==> exists l: nat :: l < n && LeftAt(h, l, c)
  {
    if HasLeft(Replay(h, n), c) { var _ := WhenItLeft(h, n, c); }
    if l: nat :| l < n && LeftAt(h, l, c) { StaysGone(h, l, n, c); }
  }

  /** A connection whose accept call has not been delivered waits or has left. */
  lemma UndecidedWaitsOrLeft(h: History, n: nat, k: nat)
    requires n <= |h| && k < |Replay(h, n).accepts| && !Replay(h, n).accepts[k].phase.Delivered?
    ensures var s := Replay(h, n); var c := s.accepts[k].conn;
            c < |s.conns| && (s.conns[c].phase.Waiting? || HasLeft(s, c))
  {
    Fits(h, n);
    var c := Replay(h, n).accepts[k].conn;
    if TokenOf(Replay(h, n), c).Some? { var _ := DecisionsWereSent(h, n, c); }
  }

  /** The decision cannot be sent exactly when the connection left before. */
  lemma SendOutcome(h: History, e: nat, k: nat)
    requires SentAt(h, e, k)
    ensures !CanSend(Replay(h, e), k) <==> exists l: nat :: l < e && LeftAt(h, l, Replay(h, e).accepts[k].conn)
  {
    UndecidedWaitsOrLeft(h, e, k);
    HasLeftIsExact(h, e, Replay(h, e).accepts[k].conn);
  }

  predicate NobodyWasThere(s: State, k: nat) { k < |s.accepts| && s.accepts[k].phase.NobodyThere? }

  lemma StepFails(s: State, e: Event, k: nat)
    ensures NobodyWasThere(Step(s, e), k)
        <==> NobodyWasThere(s, k) || (e == Send(k) && k < |s.accepts| && s.accepts[k].phase.Stored? && !CanSend(s, k))
  {}

  /** The call's decision was sent at `e`, after its connection had left at `l`. */
  predicate SentTooLate(h: History, l: nat, e: nat, k: nat) {
    l < e && SentAt(h, e, k) && LeftAt(h, l, Replay(h, e).accepts[k].conn)
  }

  lemma {:induction false} WhenItFailed(h: History, n: nat, k: nat) returns (e: nat, l: nat)
    requires n <= |h| && NobodyWasThere(Replay(h, n), k)
    ensures e < n && SentTooLate(h, l, e, k)
    decreases n
  {
    StepFails(Replay(h, n - 1), h[n - 1], k);
    if NobodyWasThere(Replay(h, n - 1), k) {
      e, l := WhenItFailed(h, n - 1, k);
    } else {
      e := n - 1;
      SendOutcome(h, e, k);
      l :| l < e && LeftAt(h, l, Replay(h, e).accepts[k].conn);
    }
  }

  lemma SentTooLateFails(h: History, l: nat, e: nat, k: nat)
    requires SentTooLate(h, l, e, k)
    ensures NobodyWasThere(Replay(h, e + 1), k)
  {
    SendOutcome(h, e, k);
    StepFails(Replay(h, e), h[e], k);
  }

  lemma FailureStays(h: History, n: nat, k: nat, failed: State -> bool)
    requires forall s :: failed(s) <==> NobodyWasThere(s, k)
    ensures forall m: nat :: m <= n <= |h| && failed(Replay(h, m)) ==> failed(Replay(h, n))
  {
    forall s, e | failed(s) ensures failed(Step(s, e)) { StepFails(s, e, k); }
    forall m: nat | m <= n <= |h| && failed(Replay(h, m)) ensures failed(Replay(h, n)) { Persists(h, m, n, failed); }
  }

  /** An accept call ends with nobody there, its agent paired all the same, exactly when its
      connection stopped waiting before the decision was sent. */
  lemma AcceptFailsExactly(h: History, n: nat, k: nat)
    requires n <= |h|
    ensures NobodyWasThere(Replay(h, n), k) <==> exists e: nat, l: nat :: e < n && SentTooLate(h, l, e, k)
    ensures NobodyWasThere(Replay(h, n), k) ==> IsPaired(Replay(h, n), Replay(h, n).accepts[k].agent)
  {
    if NobodyWasThere(Replay(h, n), k) {
      var _, _ := WhenItFailed(h, n, k);
      StoredMeansPaired(h, n, k);
    }
    if e: nat, l: nat :| e < n && SentTooLate(h, l, e, k) {
      SentTooLateFails(h, l, e, k);
      FailureStays(h, n, k, s => NobodyWasThere(s, k));
    }
  }

  /** An agent that goes away after its code was entered, and the accept call that goes on. */
  function LeavesTooSoon(machine: string, code: Code, token: nat): History {
    [Request(machine, code, 0), Register(0), Enter(0, code, token), Leave(0), Store(0), Send(0)]
  }

  lemma UpToItsLeave(machine: string, code: Code, token: nat)
    ensures Replay(LeavesTooSoon(machine, code, token), 4)
         == State(map[], map[0 := AgentRow(machine, Pending, None)], [Conn(machine, code, Leaving)], [Accept(0, 0, token, Taken)])
  {
    var h, row := LeavesTooSoon(machine, code, token), AgentRow(machine, Pending, None);
    assert Replay(h, 1) == State(map[], map[0 := row], [Conn(machine, code, Connected)], []);
    assert Replay(h, 2) == State(map[machine := Handle(code, 0, 0)], map[0 := row], [Conn(machine, code, Waiting)], []);
    assert Replay(h, 3) == State(map[], map[0 := row], [Conn(machine, code, Waiting)], [Accept(0, 0, token, Taken)]);
  }

  /** An accept call can fail and still pair: when the agent leaves after its code was entered, the
      caller is told nobody is waiting, but the row already says paired with a token nobody has. */
  lemma FailedAcceptStillPairs(machine: string, code: Code, token: nat)
    ensures var s := Replay(LeavesTooSoon(machine, code, token), 6);
            && s.accepts == [Accept(0, 0, token, NobodyThere)]
            && s.agents == map[0 := AgentRow(machine, Paired, Some(token))]
            && TokenOf(s, 0) == None
  {
    UpToItsLeave(machine, code, token);
  }
}

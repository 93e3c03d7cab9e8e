/** The steps of the handshake on the server's shared state: each runs in place and adds its event
    to the history the properties of Pairing are about. */
module PairingServer {
  import opened Pairing
  import opened PairingCodes
  import opened Wrappers

  datatype Answer = NotFound | NotWaiting | WrongCode(attemptsLeft: nat) | Accepted(accept: nat)

  class Server {
    var pending: map<string, Handle>
    var agents: map<nat, AgentRow>
    var conns: seq<Conn>
    var accepts: seq<Accept>
    ghost var history: History

    function Current(): State
      reads this
    {
      State(pending, agents, conns, accepts)
    }

    ghost predicate Valid()
      reads this
    {
      Current() == Replay(history, |history|)
    }

    constructor ()
      ensures Valid() && history == []
    {
      pending, agents, conns, accepts, history := map[], map[], [], [], [];
    }

    ghost method Record(e: Event)
      requires Current() == Step(Replay(history, |history|), e)
      modifies this`history
      ensures Valid() && history == old(history) + [e]
    {
      OneMoreEvent(START, Step, (h: History, n: nat) => if n <= |h| then Replay(h, n) else START, history, e);
      history := history + [e];
    }

    /** `upsert_agent_pending`. */
    method UpsertAgentPending(machine: string, newId: nat) returns (ok: bool)
      modifies this`agents
      ensures ok == !(newId in old(agents) && !HasMachine(old(agents), machine))
      ensures agents == if ok then Upserted(old(agents), machine, newId) else old(agents)
    {
      if HasMachine(agents, machine) {
        agents := map id | id in agents ::
            if agents[id].machine == machine && agents[id].status != Paired && agents[id].status != Disabled
            then agents[id].(status := Pending) else agents[id];
        return true;
      }
      if newId in agents { return false; }
      agents := agents[newId := AgentRow(machine, Pending, None)];
      return true;
    }

    /** An agent asks to be paired; `None` when its row could not be stored. */
    method PairingRequest(machine: string, code: Code, newId: nat) returns (conn: Option<nat>)
      requires Valid()
      modifies this
      ensures Valid() && history == old(history) + [Request(machine, code, newId)]
      ensures conn.Some? ==> conn.value == |old(conns)| && |conns| == |old(conns)| + 1
    {
      conn := None;
      var ok := UpsertAgentPending(machine, newId);
      if ok {
        conn := Some(|conns|);
        conns := conns + [Conn(machine, code, Connected)];
      }
      Record(Request(machine, code, newId));
    }

    /** The request enters the map, taking the place of an older one of its machine. */
    method RegisterHandle(c: nat)
      requires Valid()
      modifies this
      ensures Valid() && history == old(history) + [Register(c)]
    {
      if c < |conns| && conns[c].phase.Connected? {
        pending := pending[conns[c].machine := Handle(conns[c].code, c, 0)];
        conns := conns[c := conns[c].(phase := Waiting)];
      }
      Record(Register(c));
    }

    /** Takes the machine's handle when the code matches, and counts a wrong code against it. */
    method TryCode(agent: nat, entered: Code, token: nat) returns (answer: Answer)
      requires agent in agents && agents[agent].machine in pending
      modifies this`pending, this`accepts
      ensures Current() == Entered(old(Current()), agent, entered, token)
      ensures answer.WrongCode? ==>
                var failed := old(pending)[agents[agent].machine].failed + 1;
                answer.attemptsLeft == if failed >= MAX_PAIRING_ATTEMPTS then 0 else MAX_PAIRING_ATTEMPTS - failed
      ensures if |accepts| > |old(accepts)| then answer == Accepted(|old(accepts)|) else answer.WrongCode?
    {
      var machine := agents[agent].machine;
      var handle := pending[machine];
      var same := CodesMatch(entered, handle.code);
      if same {
        pending := pending - {machine};
        answer := Accepted(|accepts|);
        accepts := accepts + [Accept(agent, handle.conn, token, Taken)];
      } else {
        var failed := handle.failed + 1;
        var left := if failed >= MAX_PAIRING_ATTEMPTS then 0 else MAX_PAIRING_ATTEMPTS - failed;
        pending := if left == 0 then pending - {machine} else pending[machine := handle.(failed := failed)];
        answer := WrongCode(left);
      }
    }

    /** An administrator enters a code. The row's machine never changes, so reading it and taking
        the lock are one step. */
    method EnterCode(agent: nat, entered: Code, token: nat) returns (answer: Answer)
      requires Valid()
      modifies this
      ensures Valid() && history == old(history) + [Enter(agent, entered, token)]
      ensures answer.NotFound? <==> agent !in old(agents)
      ensures answer.NotWaiting? <==> agent in old(agents) && old(agents)[agent].machine !in old(pending)
      ensures answer.WrongCode? <==> agent in old(agents) && old(agents)[agent].machine in old(pending)
                                     && NormalizeCode(entered) != NormalizeCode(old(pending)[old(agents)[agent].machine].code)
      ensures answer.WrongCode? ==>
                && answer.attemptsLeft == MAX_PAIRING_ATTEMPTS - old(pending)[old(agents)[agent].machine].failed - 1
                && (answer.attemptsLeft == 0 <==> old(agents)[agent].machine !in pending)
      ensures answer.Accepted? <==> |accepts| > |old(accepts)|
      ensures answer.Accepted? ==> answer.accept == |old(accepts)|
    {
      if agent !in agents {
        answer := NotFound;
      } else if agents[agent].machine !in pending {
        answer := NotWaiting;
      } else {
        Fits(history, |history|);
        answer := TryCode(agent, entered, token);
      }
      Record(Enter(agent, entered, token));
    }

    /** `db::accept_agent`. */
    method StoreToken(k: nat)
      requires Valid()
      modifies this
      ensures Valid() && history == old(history) + [Store(k)]
    {
      if k < |accepts| && accepts[k].phase.Taken? {
        var a := accepts[k];
        if a.agent in agents {
          agents := agents[a.agent := agents[a.agent].(status := Paired, token := Some(a.token))];
        }
        accepts := accepts[k := a.(phase := Stored)];
      }
      Record(Store(k));
    }

    /** Sends the decision to the waiting connection; fails when it is gone. */
    method SendDecision(k: nat) returns (ok: bool)
      requires Valid()
      modifies this
      ensures Valid() && history == old(history) + [Send(k)]
      ensures ok <==> CanSend(old(Current()), k)
      ensures ok ==> k < |accepts| && SentBy(Current(), accepts[k].conn, accepts[k].token, k)
    {
      ok := false;
      if k < |accepts| && accepts[k].phase.Stored? {
        var a := accepts[k];
        ok := a.conn < |conns| && conns[a.conn].phase.Waiting?;
        if ok { conns := conns[a.conn := conns[a.conn].(phase := Decided(a.token))]; }
        accepts := accepts[k := a.(phase := if ok then Delivered else NobodyThere)];
      }
      Record(Send(k));
    }

    /** The agent went away, or the handle was dropped: the wait ends without a decision. */
    method StopWaiting(c: nat)
      requires Valid()
      modifies this
      ensures Valid() && history == old(history) + [Leave(c)]
    {
      if IsWaiting(Current(), c) { conns := conns[c := conns[c].(phase := Leaving)]; }
      Record(Leave(c));
    }

    method CleanupHandle(c: nat)
      requires Valid()
      modifies this
      ensures Valid() && history == old(history) + [Cleanup(c)]
    {
      if c < |conns| && conns[c].phase.Leaving? {
        var machine := conns[c].machine;
        if machine in pending && pending[machine].conn == c { pending := pending - {machine}; }
        conns := conns[c := conns[c].(phase := Gone)];
      }
      Record(Cleanup(c));
    }

    /** The waiting connection gets its decision and passes it on. */
    method ReceiveDecision(c: nat) returns (token: Option<nat>)
      requires Valid()
      modifies this
      ensures Valid() && history == old(history) + [Receive(c)]
      ensures token.Some? ==> token == TokenOf(Current(), c)
      ensures token.Some? <==> c < |old(conns)| && old(conns)[c].phase.Decided?
      ensures token.Some? ==> old(conns)[c].phase == Decided(token.value) && conns == old(conns)[c := old(conns)[c].(phase := Served(token.value))]
    {
      token := None;
      if c < |conns| && conns[c].phase.Decided? {
        token := Some(conns[c].phase.token);
        conns := conns[c := conns[c].(phase := Served(token.value))];
      }
      Record(Receive(c));
    }
  }
}

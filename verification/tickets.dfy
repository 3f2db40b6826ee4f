/** Ticket creation: `createTicket` and `assignTicketToAgent` in
    lib/ticketHelper.js, and POST /api/tickets/create
    (app/api/tickets/create/route.js). The database becomes a `Db` value;
    new rows get the ids the caller passes in. */
module Tickets {
  import opened Wrappers
  import opened Text
  import opened Js
  import opened Records

  // ---------------------------------------------------------------------
  // Priorities
  // ---------------------------------------------------------------------

  /** priorityToNumber (identical in both files): HIGH and URGENT are 3,
      MEDIUM is 2, everything else (LOW, NORMAL, unknown) is 1. */
  function PriorityToNumber(p: string): (n: int)
    ensures 1 <= n <= 3
    ensures n == 3 <==> p == "HIGH" || p == Urgent
    ensures n == 2 <==> p == "MEDIUM"
  {
    if p == "HIGH" || p == Urgent then 3
    else if p == "MEDIUM" then 2
    else if p == "LOW" || p == "NORMAL" then 1
    else 1
  }

  /** `service.defaultPriority || "NORMAL"` */
  function ServicePriority(s: Service): (p: string)
    ensures p != ""
  {
    if s.defaultPriority != "" then s.defaultPriority else "NORMAL"
  }

  function Min(a: int, b: int): int {
    if a <= b then a else b
  }

  function Max(a: int, b: int): int {
    if a >= b then a else b
  }

  /** createTicket's final priority: the two numbers added and capped at 3.
      Both numbers are at least 1, so it is 2 or 3. */
  function HelperFinalPriority(service: string, customer: string): (f: int)
    ensures f == 2 || f == 3
    ensures f == 3 <==> PriorityToNumber(service) + PriorityToNumber(customer) >= 3
  {
    Min(3, PriorityToNumber(service) + PriorityToNumber(customer))
  }

  /** The route's final priority, clamped to 1..3 from both sides. */
  function RouteFinalPriority(service: string, customer: string): (f: int)
    ensures 1 <= f <= 3
  {
    Min(3, Max(1, PriorityToNumber(service) + PriorityToNumber(customer)))
  }

  /** The route's extra lower clamp never applies: both files give every
      ticket the same final priority, which is 2 exactly when neither side
      is HIGH, URGENT or MEDIUM, and 3 otherwise. */
  lemma FinalPrioritiesAgree(service: string, customer: string)
    ensures RouteFinalPriority(service, customer) == HelperFinalPriority(service, customer)
    ensures HelperFinalPriority(service, customer) == 2 <==>
      service !in {"HIGH", Urgent, "MEDIUM"} && customer !in {"HIGH", Urgent, "MEDIUM"}
  {
  }

  // ---------------------------------------------------------------------
  // Choosing an agent
  // ---------------------------------------------------------------------

  /** `ticket.count({ where: { agentId, status: { not: "COMPLETED" } } })` */
  function Load(ts: seq<Ticket>, agentId: nat): (n: nat)
    ensures n <= |ts|
    decreases |ts|
  {
    if ts == [] then 0
    else (if ts[0].agentId == Some(agentId) && ts[0].status != Completed then 1 else 0) + Load(ts[1..], agentId)
  }

  /** An agent may be chosen: always without a cap, else when its load is
      under the cap. */
  predicate Eligible(agents: seq<Agent>, ts: seq<Ticket>, cap: Option<nat>, i: nat)
    requires i < |agents|
  {
    cap.None? || Load(ts, agents[i].id) < cap.value
  }

  /** The agents filtered by the cap, sorted by load with a stable sort,
      and the first taken: among the first `n` agents, the earliest one of
      least load that is eligible. */
  function LeastLoaded(agents: seq<Agent>, ts: seq<Ticket>, cap: Option<nat>, n: nat): (r: Option<nat>)
    requires n <= |agents|
    ensures r.None? <==> forall i :: 0 <= i < n ==> !Eligible(agents, ts, cap, i)
    ensures r.Some? ==> r.value < n && Eligible(agents, ts, cap, r.value)
    ensures r.Some? ==> forall i :: 0 <= i < n && Eligible(agents, ts, cap, i) ==>
              Load(ts, agents[r.value].id) <= Load(ts, agents[i].id)
    ensures r.Some? ==> forall i :: 0 <= i < r.value && Eligible(agents, ts, cap, i) ==>
              Load(ts, agents[r.value].id) < Load(ts, agents[i].id)
    decreases n
  {
    if n == 0 then None
    else
      var best := LeastLoaded(agents, ts, cap, n - 1);
      if !Eligible(agents, ts, cap, n - 1) then best
      else if best.None? || Load(ts, agents[n - 1].id) < Load(ts, agents[best.value].id) then Some(n - 1)
      else best
  }

  /** createTicket's agent: fewer than 5 open tickets, least loaded. */
  const HelperCap := 5

  function ChooseAgent(agents: seq<Agent>, ts: seq<Ticket>, cap: Option<nat>): (r: Option<Agent>)
    ensures r.Some? ==> r.value in agents
  {
    match LeastLoaded(agents, ts, cap, |agents|)
    case None => None
    case Some(i) => Some(agents[i])
  }

  /** The helper's agent has room, and no agent with room has fewer open
      tickets; there is none exactly when every agent is full. */
  lemma HelperAgentHasRoom(agents: seq<Agent>, ts: seq<Ticket>)
    ensures var r := ChooseAgent(agents, ts, Some(HelperCap));
      (r.None? <==> forall a :: a in agents ==> Load(ts, a.id) >= HelperCap)
      && (r.Some? ==> Load(ts, r.value.id) < HelperCap)
      && (r.Some? ==> forall a :: a in agents && Load(ts, a.id) < HelperCap ==> Load(ts, r.value.id) <= Load(ts, a.id))
  {
    var r := LeastLoaded(agents, ts, Some(HelperCap), |agents|);
    forall a | a in agents
      ensures r.None? ==> Load(ts, a.id) >= HelperCap
      ensures r.Some? && Load(ts, a.id) < HelperCap ==> Load(ts, agents[r.value].id) <= Load(ts, a.id)
    {
      var i :| 0 <= i < |agents| && agents[i] == a;
      assert Eligible(agents, ts, Some(HelperCap), i) <==> Load(ts, a.id) < HelperCap;
    }
  }

  /** The route's agent: with no cap there is one exactly when there are
      agents, and it is least loaded. */
  lemma RouteAgentLeastLoaded(agents: seq<Agent>, ts: seq<Ticket>)
    ensures var r := ChooseAgent(agents, ts, None);
      (r.None? <==> agents == [])
      && (r.Some? ==> forall a :: a in agents ==> Load(ts, r.value.id) <= Load(ts, a.id))
  {
    var r := LeastLoaded(agents, ts, None, |agents|);
    if agents != [] {
      assert Eligible(agents, ts, None, 0);
    }
    forall a | a in agents && r.Some?
      ensures Load(ts, agents[r.value].id) <= Load(ts, a.id)
    {
      var i :| 0 <= i < |agents| && agents[i] == a;
      assert Eligible(agents, ts, None, i);
    }
  }

  // ---------------------------------------------------------------------
  // createTicket
  // ---------------------------------------------------------------------

  datatype Db = Db(
    services: seq<Service>,
    agents: seq<Agent>,
    tickets: seq<Ticket>,
    payments: seq<Payment>,
    logs: seq<TicketLog>)

  /** The request fields, as received (numbers in their decimal form). */
  datatype NewTicket = NewTicket(userId: string, serviceId: string, customerPriority: string)

  /** The ids and the time the database assigns to the new rows. */
  datatype Fresh = Fresh(ticketId: nat, paymentId: nat, now: int)

  const InvalidInput := "Invalid userId, serviceId or priority"
  const ServiceNotFound := "Service not found"

  /** `!parseInt(userId) || !parseInt(serviceId) || !customerPriority` */
  predicate BadInput(req: NewTicket) {
    TruthyId(req.userId).None? || TruthyId(req.serviceId).None? || req.customerPriority == ""
  }

  function FindService(ss: seq<Service>, id: int): (r: Option<Service>)
    ensures r.Some? ==> r.value in ss && r.value.id == id
    ensures r.None? ==> forall s :: s in ss ==> s.id != id
    decreases |ss|
  {
    if ss == [] then None
    else if ss[0].id == id then Some(ss[0])
    else FindService(ss[1..], id)
  }

  /** `service.fee || service.price || 0` */
  function Amount(s: Service): (a: int)
    ensures s.fee != 0 ==> a == s.fee
    ensures s.fee == 0 ==> a == s.price
  {
    if s.fee != 0 then s.fee else if s.price != 0 then s.price else 0
  }

  function CreatedMessage(priority: string, agent: Option<Agent>): string {
    match agent
    case Some(a) => "Ticket created with priority " + priority + " and assigned to agent " + a.name
    case None => "Ticket created with priority " + priority + " (no agent available — waiting)"
  }

  /** createTicket(args): the new ticket, with one ticket, one log line and
      one PENDING payment added and nothing else changed; or the error it
      throws. */
  function CreateTicket(db: Db, req: NewTicket, ids: Fresh): (r: Result<(Db, Ticket), string>)
    ensures BadInput(req) ==> r == Err(InvalidInput)
    ensures !BadInput(req) && FindService(db.services, TruthyId(req.serviceId).value).None? ==> r == Err(ServiceNotFound)
    ensures r.Ok? <==> !BadInput(req) && FindService(db.services, TruthyId(req.serviceId).value).Some?
    ensures r.Ok? ==> FindService(db.services, r.value.1.serviceId).Some?
    ensures r.Ok? ==>
      var (db2, t) := r.value;
      var service := FindService(db.services, t.serviceId).value;
      && t.id == ids.ticketId
      && Some(t.userId) == TruthyId(req.userId) && Some(t.serviceId) == TruthyId(req.serviceId)
      && t.customerPriority == req.customerPriority
      && t.finalPriority == HelperFinalPriority(ServicePriority(service), req.customerPriority)
      && (t.status == InProgress <==> t.agentId.Some?)
      && (t.status == Open <==> t.agentId.None?)
      && (t.agentId.Some? ==> Load(db.tickets, t.agentId.value) < HelperCap)
      && (t.agentId.Some? ==> exists a :: a in db.agents && a.id == t.agentId.value)
      && (t.agentId.Some? ==> forall a :: a in db.agents && Load(db.tickets, a.id) < HelperCap ==>
            Load(db.tickets, t.agentId.value) <= Load(db.tickets, a.id))
      && (t.agentId.None? <==> forall a :: a in db.agents ==> Load(db.tickets, a.id) >= HelperCap)
      && db2.tickets == db.tickets + [t]
      && db2.payments == db.payments + [Payment(ids.paymentId, t.userId, t.id, Amount(service), Pending, "", None, None)]
      && |db2.logs| == |db.logs| + 1 && db2.logs[..|db.logs|] == db.logs
      && db2.services == db.services && db2.agents == db.agents
  {
    if BadInput(req) then Err(InvalidInput)
    else
      var userId := TruthyId(req.userId).value;
      var serviceId := TruthyId(req.serviceId).value;
      match FindService(db.services, serviceId)
      case None => Err(ServiceNotFound)
      case Some(service) =>
        var agent := ChooseAgent(db.agents, db.tickets, Some(HelperCap));
        HelperAgentHasRoom(db.agents, db.tickets);
        var t := Ticket(ids.ticketId, userId, serviceId, ServicePriority(service), req.customerPriority,
                        HelperFinalPriority(ServicePriority(service), req.customerPriority),
                        if agent.Some? then InProgress else Open,
                        if agent.Some? then Some(agent.value.id) else None,
                        ids.now, None);
        var payment := Payment(ids.paymentId, userId, t.id, Amount(service), Pending, "", None, None);
        var log := TicketLog(t.id, CreatedMessage(req.customerPriority, agent));
        Ok((Db(db.services, db.agents, db.tickets + [t], db.payments + [payment], db.logs + [log]), t))
  }

  // ---------------------------------------------------------------------
  // assignTicketToAgent
  // ---------------------------------------------------------------------

  const RecordNotFound := "Record to update not found."

  /** assignTicketToAgent(ticket, agent): the ticket with that id gets the
      agent and IN_PROGRESS, a log line is added, and no other ticket
      changes; an unknown id makes the update throw. */
  function AssignTicketToAgent(db: Db, ticketId: nat, agent: Agent): (r: Result<Db, string>)
    ensures r.Err? <==> !HasTicket(db.tickets, ticketId)
    ensures r.Ok? ==>
      |r.value.tickets| == |db.tickets|
      && (forall i :: 0 <= i < |db.tickets| && db.tickets[i].id != ticketId ==> r.value.tickets[i] == db.tickets[i])
      && (forall i :: 0 <= i < |db.tickets| && db.tickets[i].id == ticketId ==>
            r.value.tickets[i] == db.tickets[i].(agentId := Some(agent.id), status := InProgress))
      && r.value.logs == db.logs + [TicketLog(ticketId, "Auto-assigned to Agent " + agent.name)]
  {
    if !HasTicket(db.tickets, ticketId) then Err(RecordNotFound)
    else
      var ts := UpdateTicket(db.tickets, ticketId, (t: Ticket) => t.(agentId := Some(agent.id), status := InProgress));
      Ok(db.(tickets := ts, logs := db.logs + [TicketLog(ticketId, "Auto-assigned to Agent " + agent.name)]))
  }

  // ---------------------------------------------------------------------
  // POST /api/tickets/create
  // ---------------------------------------------------------------------

  /** The status a ticket gets when the route does not set one: the
      column's default, which the rest of the code treats as OPEN. */
  const DefaultStatus := Open

  datatype CreateReply =
    | Created(ticket: Ticket)
    | BadRequest(error: string)
    | NotFound(error: string)

  /** POST: a 400 for bad input, a `success: false` reply without an error
      status for an unknown service, otherwise the ticket with the least
      loaded agent (no cap) and the same side effects as createTicket,
      except that the status is left to the default. */
  function CreateRoute(db: Db, req: NewTicket, ids: Fresh): (r: (CreateReply, Db))
    ensures BadInput(req) ==> r == (BadRequest(InvalidInput), db)
    ensures r.0.NotFound? ==> r.1 == db && r.0.error == ServiceNotFound
    ensures !BadInput(req) && FindService(db.services, TruthyId(req.serviceId).value).None? ==> r.0.NotFound?
    ensures r.0.Created? <==> !BadInput(req) && FindService(db.services, TruthyId(req.serviceId).value).Some?
    ensures r.0.Created? ==> FindService(db.services, r.0.ticket.serviceId).Some?
    ensures r.0.Created? ==>
      var t := r.0.ticket;
      var service := FindService(db.services, t.serviceId).value;
      !BadInput(req)
      && t.finalPriority == RouteFinalPriority(ServicePriority(service), req.customerPriority)
      && t.status == DefaultStatus
      && (t.agentId.None? <==> db.agents == [])
      && (t.agentId.Some? ==> exists a :: a in db.agents && a.id == t.agentId.value)
      && (t.agentId.Some? ==> forall a :: a in db.agents ==> Load(db.tickets, t.agentId.value) <= Load(db.tickets, a.id))
      && r.1.tickets == db.tickets + [t]
      && r.1.payments == db.payments + [Payment(ids.paymentId, t.userId, t.id, Amount(service), Pending, "", None, None)]
  {
    if BadInput(req) then (BadRequest(InvalidInput), db)
    else
      var userId := TruthyId(req.userId).value;
      var serviceId := TruthyId(req.serviceId).value;
      match FindService(db.services, serviceId)
      case None => (NotFound(ServiceNotFound), db)
      case Some(service) =>
        var agent := ChooseAgent(db.agents, db.tickets, None);
        RouteAgentLeastLoaded(db.agents, db.tickets);
        var final := RouteFinalPriority(ServicePriority(service), req.customerPriority);
        var t := Ticket(ids.ticketId, userId, serviceId, ServicePriority(service), req.customerPriority, final,
                        DefaultStatus, if agent.Some? then Some(agent.value.id) else None, ids.now, None);
        var payment := Payment(ids.paymentId, userId, t.id, Amount(service), Pending, "", None, None);
        var log := TicketLog(t.id, RouteMessage(req.customerPriority, agent));
        (Created(t), Db(db.services, db.agents, db.tickets + [t], db.payments + [payment], db.logs + [log]))
  }

  function RouteMessage(priority: string, agent: Option<Agent>): (m: string)
    ensures agent.None? ==> m == "Ticket created with priority " + priority
    ensures agent.Some? ==> m == "Ticket created with priority " + priority + " and assigned to agent " + agent.value.name
  {
    "Ticket created with priority " + priority + (if agent.Some? then " and assigned to agent " + agent.value.name else "")
  }

  /** The route's log line names an agent exactly when there are agents. */
  lemma RouteLogNamesAgent(db: Db, req: NewTicket, ids: Fresh)
    requires CreateRoute(db, req, ids).0.Created?
    ensures var logs := CreateRoute(db, req, ids).1.logs;
      |logs| == |db.logs| + 1
      && (db.agents != [] <==>
           exists name :: logs[|db.logs|].message == "Ticket created with priority " + req.customerPriority
                                                    + " and assigned to agent " + name)
  {
    var logs := CreateRoute(db, req, ids).1.logs;
    var m := logs[|db.logs|].message;
    var prefix := "Ticket created with priority " + req.customerPriority;
    if db.agents == [] {
      assert m == prefix;
      forall name ensures m != prefix + " and assigned to agent " + name {
        assert |prefix + " and assigned to agent " + name| > |prefix|;
      }
    }
  }
}

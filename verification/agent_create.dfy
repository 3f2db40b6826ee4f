/** Creating an agent (app/api/admin/agents/create/route.js): the request
    checks, then the batch hand-over of the waiting unassigned tickets to
    the new agent, highest priority and oldest first, up to its capacity. */
module AgentCreate {
  import opened Wrappers
  import opened Records
  import opened Ranking

  /** The request body; an absent or empty text field is "", an absent or
      zero `maxTickets` is 0. */
  datatype Request = Request(name: string, email: string, username: string, password: string, maxTickets: int)

  datatype Reply =
    | BadRequest(error: string)
    | Created(agent: Agent, handedOver: seq<Ticket>)

  datatype Store = Store(agents: seq<Agent>, tickets: seq<Ticket>, logs: seq<TicketLog>)

  const FieldsRequired := "All fields are required"
  const AlreadyInUse := "Email or Username already in use"
  const DefaultMaxTickets := 5

  predicate MissingField(req: Request) {
    req.name == "" || req.email == "" || req.username == "" || req.password == ""
  }

  /** `findFirst({ where: { OR: [{ email }, { username }] } })` finds a row. */
  predicate Taken(agents: seq<Agent>, req: Request) {
    exists k :: 0 <= k < |agents| && (agents[k].email == req.email || agents[k].username == req.username)
  }

  /** A ticket the new agent may take: OPEN and not assigned. */
  predicate Candidate(t: Ticket) {
    t.agentId.None? && t.status == Open
  }

  /** The order `finalPriority desc, createdAt asc`, ties in store order. */
  function CandidateKey(ts: seq<Ticket>, i: nat): Key
    requires i < |ts|
  {
    Key(-ts[i].finalPriority, ts[i].createdAt, 0, i)
  }

  function Candidates(ts: seq<Ticket>): (r: seq<nat>)
    ensures forall p :: 0 <= p < |r| ==> r[p] < |ts| && Candidate(ts[r[p]])
    ensures forall p, q :: 0 <= p < q < |r| ==> r[p] < r[q]
    ensures forall i :: 0 <= i < |ts| && Candidate(ts[i]) ==> i in r
  {
    IndicesWhere(ts, Candidate, 0)
  }

  function CandidateKeys(ts: seq<Ticket>): (ks: seq<Key>)
    ensures |ks| == |Candidates(ts)|
    ensures forall p :: 0 <= p < |ks| ==> ks[p] == CandidateKey(ts, Candidates(ts)[p])
    ensures Distinct(ks)
  {
    var idx := Candidates(ts);
    var ks := seq(|idx|, p requires 0 <= p < |idx| => CandidateKey(ts, idx[p]));
    assert Distinct(ks) by {
      forall p, q | 0 <= p < |ks| && 0 <= q < |ks| && p != q ensures ks[p] != ks[q] {
        if p < q { assert idx[p] < idx[q]; } else { assert idx[q] < idx[p]; }
      }
    }
    ks
  }

  /** `Math.min(openTickets.length, agent.maxTickets || 5)`, as the number
      of loop rounds it allows (none when the capacity is negative). */
  function AssignCount(candidates: nat, maxTickets: int): (n: nat)
    ensures n <= candidates
    ensures maxTickets >= 0 ==> n == (if candidates < maxTickets then candidates else maxTickets)
    ensures maxTickets < 0 ==> n == 0
  {
    var m := if candidates < maxTickets then candidates else maxTickets;
    if m < 0 then 0 else m
  }

  /** The store indices of the tickets the loop updates, in loop order:
      the first `count` candidates in sorted order. */
  function AssignedIndices(ts: seq<Ticket>, count: nat): (r: seq<nat>)
    requires count <= |Candidates(ts)|
    ensures |r| == count
    ensures forall p :: 0 <= p < count ==> r[p] < |ts| && Candidate(ts[r[p]])
  {
    var order := SortedIndices(CandidateKeys(ts));
    seq(count, p requires 0 <= p < count => Candidates(ts)[order[p]])
  }

  function Assign(t: Ticket, agentId: nat): Ticket {
    t.(agentId := Some(agentId), status := InProgress)
  }

  const AutoAssigned := "Auto-assigned to Agent "

  /** POST: `agentId` is the id the database gives the new row and `hash`
      stands for `bcrypt.hash(password, 10)`. */
  function CreateAgent(s: Store, req: Request, agentId: nat, hash: string): (r: (Reply, Store))
    ensures r.0.BadRequest? ==> r.1 == s
    ensures r.0 == BadRequest(FieldsRequired) <==> MissingField(req)
    ensures r.0 == BadRequest(AlreadyInUse) <==> !MissingField(req) && Taken(s.agents, req)
    ensures r.0.Created? <==> !MissingField(req) && !Taken(s.agents, req)
    ensures r.0.Created? ==>
              var max := if req.maxTickets != 0 then req.maxTickets else DefaultMaxTickets;
              && r.0.agent == Agent(agentId, req.name, req.email, req.username, hash, max)
              && r.1.agents == s.agents + [r.0.agent]
              && |r.0.handedOver| == AssignCount(|Candidates(s.tickets)|, max)
              && |r.1.tickets| == |s.tickets|
  {
    if MissingField(req) then (BadRequest(FieldsRequired), s)
    else if Taken(s.agents, req) then (BadRequest(AlreadyInUse), s)
    else
      var max := if req.maxTickets != 0 then req.maxTickets else DefaultMaxTickets;
      var agent := Agent(agentId, req.name, req.email, req.username, hash, max);
      var count := AssignCount(|Candidates(s.tickets)|, max);
      var chosen := AssignedIndices(s.tickets, count);
      var tickets := seq(|s.tickets|, i requires 0 <= i < |s.tickets| =>
        if i in chosen then Assign(s.tickets[i], agentId) else s.tickets[i]);
      var handed := seq(count, p requires 0 <= p < count => tickets[chosen[p]]);
      var logs := seq(count, p requires 0 <= p < count => TicketLog(tickets[chosen[p]].id, AutoAssigned + req.name));
      (Created(agent, handed), Store(s.agents + [agent], tickets, s.logs + logs))
  }

  /** A ticket is handed over exactly when it is a candidate and fewer
      than the loop's round count of candidates sort before it. */
  lemma ChosenByRank(ts: seq<Ticket>, count: nat, i: nat)
    requires count <= |Candidates(ts)| && i < |ts|
    ensures i in AssignedIndices(ts, count) <==>
              Candidate(ts[i]) && CountBelow(CandidateKeys(ts), CandidateKey(ts, i)) < count
  {
    var idx := Candidates(ts);
    var ks := CandidateKeys(ts);
    var order := SortedIndices(ks);
    var chosen := AssignedIndices(ts, count);
    if i in chosen {
      var p :| 0 <= p < count && chosen[p] == i;
      assert ks[order[p]] == CandidateKey(ts, i);
    }
    if Candidate(ts[i]) && CountBelow(ks, CandidateKey(ts, i)) < count {
      var q :| 0 <= q < |idx| && idx[q] == i;
      var rk := Rank(ks, q);
      RankOrder(ks, q, order[rk]);
      assert order[rk] == q;
      assert chosen[rk] == i;
    }
  }

  /** The handed-over tickets come in the sort order and are distinct. */
  lemma AssignedInOrder(ts: seq<Ticket>, count: nat, p: nat, q: nat)
    requires count <= |Candidates(ts)| && p < q < count
    ensures Less(CandidateKey(ts, AssignedIndices(ts, count)[p]), CandidateKey(ts, AssignedIndices(ts, count)[q]))
    ensures AssignedIndices(ts, count)[p] != AssignedIndices(ts, count)[q]
  {
    var ks := CandidateKeys(ts);
    SortedIndicesSorted(ks, p, q);
  }

  /** The effect on the ticket table: every candidate ranked below the
      round count gets the new agent and IN_PROGRESS, every other ticket is
      unchanged, and the reply lists the updated tickets in loop order. */
  lemma CreateAgentAssignsPrefix(s: Store, req: Request, agentId: nat, hash: string, i: nat)
    requires CreateAgent(s, req, agentId, hash).0.Created? && i < |s.tickets|
    ensures var (reply, s2) := CreateAgent(s, req, agentId, hash);
            var count := |reply.handedOver|;
            && s2.tickets[i] == (if Candidate(s.tickets[i]) && CountBelow(CandidateKeys(s.tickets), CandidateKey(s.tickets, i)) < count
                                 then Assign(s.tickets[i], agentId) else s.tickets[i])
            && forall p :: 0 <= p < count ==>
                 reply.handedOver[p] == Assign(s.tickets[AssignedIndices(s.tickets, count)[p]], agentId)
  {
    var (reply, s2) := CreateAgent(s, req, agentId, hash);
    var count := |reply.handedOver|;
    ChosenByRank(s.tickets, count, i);
    var chosen := AssignedIndices(s.tickets, count);
    forall p | 0 <= p < count
      ensures reply.handedOver[p] == Assign(s.tickets[chosen[p]], agentId)
    {
      assert chosen[p] in chosen;
    }
  }

  /** Each handed-over ticket gets one log line naming the new agent. */
  lemma CreateAgentLogs(s: Store, req: Request, agentId: nat, hash: string)
    requires CreateAgent(s, req, agentId, hash).0.Created?
    ensures var (reply, s2) := CreateAgent(s, req, agentId, hash);
            && |s2.logs| == |s.logs| + |reply.handedOver|
            && s2.logs[..|s.logs|] == s.logs
            && forall p :: 0 <= p < |reply.handedOver| ==>
                 s2.logs[|s.logs| + p] == TicketLog(reply.handedOver[p].id, AutoAssigned + req.name)
  {
  }
}

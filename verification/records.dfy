/** The database rows the routes read and write, reduced to the columns
    the modelled logic uses. Dates and times are whole numbers (days or
    milliseconds, as each module says); a nullable column is an `Option`,
    and a string column the code only reads through `||` uses "" for
    null. */
module Records {
  import opened Wrappers

  /** Ticket statuses and priorities as the code spells them. */
  const Open := "OPEN"
  const InProgress := "IN_PROGRESS"
  const Completed := "COMPLETED"
  const Closed := "CLOSED"
  const Pending := "PENDING"
  const Urgent := "URGENT"

  datatype Ticket = Ticket(
    id: nat,
    userId: int,
    serviceId: int,
    servicePriority: string,
    customerPriority: string,
    finalPriority: int,
    status: string,
    agentId: Option<nat>,
    createdAt: int,
    queuePosition: Option<int>)

  datatype Agent = Agent(id: nat, name: string, email: string, username: string, password: string, maxTickets: int)

  /** `fee` and `price` are 0 when null. */
  datatype Service = Service(id: int, name: string, defaultPriority: string, fee: int, price: int)

  datatype Payment = Payment(
    id: nat,
    userId: int,
    ticketId: int,
    amount: int,
    status: string,
    paymentMethod: string,
    transactionId: Option<string>,
    paidAt: Option<int>)

  datatype TicketLog = TicketLog(ticketId: nat, message: string)

  /** Tickets with this id replaced by `f` of themselves, the rest kept:
      the effect of `update({ where: { id } })` on the ticket table. */
  function UpdateTicket(ts: seq<Ticket>, id: nat, f: Ticket -> Ticket): (r: seq<Ticket>)
    ensures |r| == |ts|
    ensures forall i :: 0 <= i < |ts| ==> r[i] == (if ts[i].id == id then f(ts[i]) else ts[i])
  {
    seq(|ts|, i requires 0 <= i < |ts| => if ts[i].id == id then f(ts[i]) else ts[i])
  }

  predicate HasTicket(ts: seq<Ticket>, id: nat) {
    exists i :: 0 <= i < |ts| && ts[i].id == id
  }

  /** `findUnique({ where: { id } })`: the first ticket with that id. */
  function FindTicket(ts: seq<Ticket>, id: int): (r: Option<Ticket>)
    ensures r.Some? ==> r.value in ts && r.value.id == id
    ensures r.None? ==> forall i :: 0 <= i < |ts| ==> ts[i].id != id
    decreases |ts|
  {
    if ts == [] then None
    else if ts[0].id == id then Some(ts[0])
    else FindTicket(ts[1..], id)
  }

  /** The indices of the tickets from `from` on that `keep` selects, in
      store order: the rows a `findMany({ where })` reads. */
  function IndicesWhere(ts: seq<Ticket>, keep: Ticket -> bool, from: nat): (r: seq<nat>)
    requires from <= |ts|
    ensures forall p :: 0 <= p < |r| ==> from <= r[p] < |ts| && keep(ts[r[p]])
    ensures forall p, q :: 0 <= p < q < |r| ==> r[p] < r[q]
    ensures forall i :: from <= i < |ts| && keep(ts[i]) ==> i in r
    decreases |ts| - from
  {
    if from == |ts| then []
    else if keep(ts[from]) then [from] + IndicesWhere(ts, keep, from + 1)
    else IndicesWhere(ts, keep, from + 1)
  }
}

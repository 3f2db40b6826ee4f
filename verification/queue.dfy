/** The ticket queue of lib/queueHelper.js: renumbering the active
    tickets, the queue report for one ticket, and the position stored for
    a new ticket. Times are milliseconds; `now` stands for `new Date()`. */
module Queue {
  import opened Wrappers
  import opened Text
  import opened Records
  import opened Ranking

  predicate Active(t: Ticket) {
    t.status == Open || t.status == InProgress
  }

  predicate Finished(t: Ticket) {
    t.status == Completed || t.status == Closed
  }

  // ---------------------------------------------------------------------
  // recalculateQueuePositions
  // ---------------------------------------------------------------------

  /** The sort key of `orderBy: [customerPriority desc, finalPriority desc,
      createdAt asc]`. `rank` is the database's order of the priority
      values; ties fall back to the store order. */
  function KeyOf(ts: seq<Ticket>, i: nat, rank: string -> int): Key
    requires i < |ts|
  {
    Key(-rank(ts[i].customerPriority), -ts[i].finalPriority, ts[i].createdAt, i)
  }

  /** The indices of the active tickets, in store order. */
  function ActiveIndices(ts: seq<Ticket>): (r: seq<nat>)
    ensures forall p :: 0 <= p < |r| ==> r[p] < |ts| && Active(ts[r[p]])
    ensures forall p, q :: 0 <= p < q < |r| ==> r[p] < r[q]
    ensures forall i :: 0 <= i < |ts| && Active(ts[i]) ==> i in r
  {
    IndicesWhere(ts, Active, 0)
  }

  function ActiveKeys(ts: seq<Ticket>, rank: string -> int): (ks: seq<Key>)
    ensures |ks| == |ActiveIndices(ts)|
    ensures forall p :: 0 <= p < |ks| ==> ks[p] == KeyOf(ts, ActiveIndices(ts)[p], rank)
    ensures Distinct(ks)
  {
    var idx := ActiveIndices(ts);
    var ks := seq(|idx|, p requires 0 <= p < |idx| => KeyOf(ts, idx[p], rank));
    assert Distinct(ks) by {
      forall p, q | 0 <= p < |ks| && 0 <= q < |ks| && p != q ensures ks[p] != ks[q] {
        if p < q { assert idx[p] < idx[q]; } else { assert idx[q] < idx[p]; }
      }
    }
    ks
  }

  /** The position an active ticket gets: one more than the number of
      active tickets sorted before it. */
  function Position(ts: seq<Ticket>, i: nat, rank: string -> int): nat
    requires i < |ts|
  {
    1 + CountBelow(ActiveKeys(ts, rank), KeyOf(ts, i, rank))
  }

  /** recalculateQueuePositions(): active tickets are numbered 1, 2, ... in
      sort order, finished ones lose their position, others keep theirs. */
  function Recalculate(ts: seq<Ticket>, rank: string -> int): (r: seq<Ticket>)
    ensures |r| == |ts|
    ensures forall i :: 0 <= i < |ts| ==> r[i] == ts[i].(queuePosition := r[i].queuePosition)
    ensures forall i :: 0 <= i < |ts| && Active(ts[i]) ==> r[i].queuePosition == Some(Position(ts, i, rank) as int)
    ensures forall i :: 0 <= i < |ts| && Finished(ts[i]) ==> r[i].queuePosition.None?
    ensures forall i :: 0 <= i < |ts| && !Active(ts[i]) && !Finished(ts[i]) ==> r[i] == ts[i]
  {
    seq(|ts|, i requires 0 <= i < |ts| =>
      if Active(ts[i]) then ts[i].(queuePosition := Some(Position(ts, i, rank) as int))
      else if Finished(ts[i]) then ts[i].(queuePosition := None)
      else ts[i])
  }

  /** The active ticket stored at active index `p`. */
  lemma ActiveAt(ts: seq<Ticket>, i: nat, rank: string -> int) returns (p: nat)
    requires i < |ts| && Active(ts[i])
    ensures p < |ActiveKeys(ts, rank)| && ActiveIndices(ts)[p] == i
    ensures Position(ts, i, rank) == 1 + Rank(ActiveKeys(ts, rank), p)
  {
    var idx := ActiveIndices(ts);
    p :| 0 <= p < |idx| && idx[p] == i;
  }

  /** The positions of the active tickets are 1..n, one each, in the order
      of the sort key. */
  lemma PositionsArePermutation(ts: seq<Ticket>, rank: string -> int, i: nat, j: nat)
    requires i < |ts| && j < |ts| && Active(ts[i]) && Active(ts[j])
    ensures 1 <= Position(ts, i, rank) <= |ActiveIndices(ts)|
    ensures i != j ==> Position(ts, i, rank) != Position(ts, j, rank)
    ensures Less(KeyOf(ts, i, rank), KeyOf(ts, j, rank)) <==> Position(ts, i, rank) < Position(ts, j, rank)
  {
    var ks := ActiveKeys(ts, rank);
    var p := ActiveAt(ts, i, rank);
    var q := ActiveAt(ts, j, rank);
    RankOrder(ks, p, q);
  }

  /** Every position 1..n is taken by an active ticket. */
  lemma EveryPositionTaken(ts: seq<Ticket>, rank: string -> int, n: nat)
    requires 1 <= n <= |ActiveIndices(ts)|
    ensures exists i :: 0 <= i < |ts| && Active(ts[i]) && Position(ts, i, rank) == n
  {
    var ks := ActiveKeys(ts, rank);
    var p := KeyAtRank(ks, n - 1);
    var i := ActiveIndices(ts)[p];
    assert Position(ts, i, rank) == 1 + Rank(ks, p);
  }

  // ---------------------------------------------------------------------
  // Tickets ahead and the wait estimate
  // ---------------------------------------------------------------------

  /** The count's filter: an active ticket that is URGENT and older than
      the target (than now, when the target is not URGENT), or has the
      target's priority and is older. */
  predicate Ahead(t: Ticket, target: Ticket, now: int) {
    Active(t)
    && ((t.customerPriority == Urgent
         && t.createdAt < (if target.customerPriority == Urgent then target.createdAt else now))
        || (t.customerPriority == target.customerPriority && t.createdAt < target.createdAt))
  }

  /** A ticket is never ahead of itself. */
  lemma NotAheadOfItself(t: Ticket, now: int)
    ensures !Ahead(t, t, now)
  {
  }

  function CountAhead(ts: seq<Ticket>, target: Ticket, now: int): (n: nat)
    ensures n <= |ts|
    decreases |ts|
  {
    if ts == [] then 0 else (if Ahead(ts[0], target, now) then 1 else 0) + CountAhead(ts[1..], target, now)
  }

  function CountActive(ts: seq<Ticket>): (n: nat)
    ensures n <= |ts|
    decreases |ts|
  {
    if ts == [] then 0 else (if Active(ts[0]) then 1 else 0) + CountActive(ts[1..])
  }

  /** The tickets ahead are some of the active tickets, and never the
      target itself. */
  lemma {:induction false} AheadAreActive(ts: seq<Ticket>, target: Ticket, now: int)
    ensures CountAhead(ts, target, now) <= CountActive(ts)
    ensures target in ts ==> CountAhead(ts, target, now) < |ts|
    decreases |ts|
  {
    if ts != [] {
      AheadAreActive(ts[1..], target, now);
      if target in ts && target !in ts[1..] {
        assert ts[0] == target;
        NotAheadOfItself(target, now);
      }
    }
  }

  /** The estimate: 30 minutes per ticket ahead, as "Hh Mm" once it
      reaches an hour and "M minutes" below. */
  function WaitText(ahead: nat): (s: string)
    ensures s != ""
  {
    var minutes := ahead * 30;
    var hours := minutes / 60;
    var rest := minutes % 60;
    if hours > 0 then NatToString(hours) + "h " + NatToString(rest) + "m"
    else NatToString(rest) + " minutes"
  }

  /** The same text from the count directly: every two tickets are an
      hour and an odd one out is half an hour, so the minutes part is 0
      or 30 and the hour form starts at two tickets. */
  lemma WaitTextByPairs(ahead: nat)
    ensures ahead >= 2 ==> WaitText(ahead) == NatToString(ahead / 2) + "h " + NatToString(30 * (ahead % 2)) + "m"
    ensures ahead < 2 ==> WaitText(ahead) == NatToString(30 * ahead) + " minutes"
  {
    var minutes := ahead * 30;
    assert minutes / 60 == ahead / 2 && minutes % 60 == 30 * (ahead % 2) by {
      assert minutes == 60 * (ahead / 2) + 30 * (ahead % 2);
    }
  }

  // ---------------------------------------------------------------------
  // getQueueInfo
  // ---------------------------------------------------------------------

  datatype QueueInfo =
    | NotFound
    | Done(ticketId: nat, status: string)
    | Processing(ticketId: nat, status: string, stored: Option<int>, agentName: Option<string>)
    | Waiting(ticketId: nat, status: string, position: int, total: nat, priority: string, wait: string, message: string)

  const NextMessage := "You're next!"

  function AgentName(agents: seq<Agent>, id: nat): Option<string>
    decreases |agents|
  {
    if agents == [] then None
    else if agents[0].id == id then Some(agents[0].name)
    else AgentName(agents[1..], id)
  }

  /** getQueueInfo(ticketId) */
  function GetQueueInfo(ts: seq<Ticket>, agents: seq<Agent>, ticketId: int, now: int): (r: QueueInfo)
    ensures r.NotFound? <==> FindTicket(ts, ticketId).None?
    ensures r.Done? <==> FindTicket(ts, ticketId).Some? && Finished(FindTicket(ts, ticketId).value)
    ensures r.Processing? <==> (FindTicket(ts, ticketId).Some?
              && FindTicket(ts, ticketId).value.status == InProgress && FindTicket(ts, ticketId).value.agentId.Some?)
    ensures r.Waiting? ==>
              var t := FindTicket(ts, ticketId).value;
              var ahead := CountAhead(ts, t, now);
              && r.position == (if t.queuePosition.Some? && t.queuePosition.value != 0 then t.queuePosition.value else ahead + 1)
              && r.total == CountActive(ts)
              && (r.message == NextMessage <==> t.queuePosition == Some(1))
              && r.wait == WaitText(ahead)
  {
    match FindTicket(ts, ticketId)
    case None => NotFound
    case Some(t) =>
      if Finished(t) then Done(t.id, t.status)
      else if t.status == InProgress && t.agentId.Some? then
        Processing(t.id, t.status, t.queuePosition, AgentName(agents, t.agentId.value))
      else
        var ahead := CountAhead(ts, t, now);
        var position := if t.queuePosition.Some? && t.queuePosition.value != 0 then t.queuePosition.value else ahead + 1;
        var message := if t.queuePosition == Some(1) then NextMessage else NatToString(ahead) + " ticket(s) ahead of you";
        assert message != NextMessage ==> t.queuePosition != Some(1);
        assert t.queuePosition != Some(1) ==> message != NextMessage by {
          if t.queuePosition != Some(1) {
            assert message[|message| - 1] == 'u';
          }
        }
        Waiting(t.id, t.status, position, CountActive(ts), t.customerPriority, WaitText(ahead), message)
  }

  /** A waiting ticket without a stored position is placed right after
      the tickets ahead of it, which never include itself. */
  lemma WaitingPositionAtLeastOne(ts: seq<Ticket>, agents: seq<Agent>, ticketId: int, now: int)
    requires GetQueueInfo(ts, agents, ticketId, now).Waiting?
    requires FindTicket(ts, ticketId).value.queuePosition.None?
    ensures 1 <= GetQueueInfo(ts, agents, ticketId, now).position <= |ts|
  {
    AheadAreActive(ts, FindTicket(ts, ticketId).value, now);
  }

  // ---------------------------------------------------------------------
  // assignQueuePosition
  // ---------------------------------------------------------------------

  const TicketNotFound := "Ticket not found"

  /** assignQueuePosition(ticketId): the count of tickets ahead plus one
      is stored on that ticket and returned; nothing else changes. */
  function AssignQueuePosition(ts: seq<Ticket>, ticketId: nat, now: int): (r: Result<(seq<Ticket>, nat), string>)
    ensures r.Err? <==> FindTicket(ts, ticketId).None?
    ensures r.Ok? ==>
      var (ts2, position) := r.value;
      1 <= position <= |ts|
      && position == CountAhead(ts, FindTicket(ts, ticketId).value, now) + 1
      && |ts2| == |ts|
      && forall i :: 0 <= i < |ts| ==>
           ts2[i] == (if ts[i].id == ticketId then ts[i].(queuePosition := Some(position as int)) else ts[i])
  {
    match FindTicket(ts, ticketId)
    case None => Err(TicketNotFound)
    case Some(t) =>
      var position := CountAhead(ts, t, now) + 1;
      AheadAreActive(ts, t, now);
      Ok((UpdateTicket(ts, ticketId, (u: Ticket) => u.(queuePosition := Some(position as int))), position))
  }
}

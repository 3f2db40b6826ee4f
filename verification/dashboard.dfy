/** The data helpers of the admin dashboard (app/admin/dashboard/page.js):
    the summary counts, the search and filters, the local updates after a
    successful assign, status change or delete, the per-service chart
    counts and the ticket export. */
module Dashboard {
  import opened Wrappers
  import opened Text
  import Js
  import opened Records
  import Csv

  /** A ticket as the dashboard holds it. The name, CNIC and phone fields
      are the values the code's fallback chains pick (the flat field or the
      nested record's), "" when neither is there; `agentId` is the text
      `String(t.agentId)` gives ("null" when unassigned); `createdAt` is
      the timestamp text the API sends. */
  datatype Row = Row(
    id: int,
    status: string,
    finalPriority: int,
    customerPriority: Option<string>,
    serviceId: Option<int>,
    agentId: string,
    serviceName: string,
    userName: string,
    userCnic: string,
    userPhone: string,
    agentName: string,
    createdAt: string)

  // ---------------------------------------------------------------------
  // Selecting and counting
  // ---------------------------------------------------------------------

  /** `list.filter(keep)` */
  function Select(ts: seq<Row>, keep: Row -> bool): (r: seq<Row>)
    ensures |r| <= |ts|
    ensures forall t :: t in r <==> t in ts && keep(t)
    decreases |ts|
  {
    if ts == [] then []
    else (if keep(ts[0]) then [ts[0]] else []) + Select(ts[1..], keep)
  }

  /** `a` is `b` with some elements left out, the others in their order. */
  predicate Subsequence(a: seq<Row>, b: seq<Row>)
    decreases |b|
  {
    a == [] || (b != [] && ((a[0] == b[0] && Subsequence(a[1..], b[1..])) || Subsequence(a, b[1..])))
  }

  lemma {:induction false} SelectIsSubsequence(ts: seq<Row>, keep: Row -> bool)
    ensures Subsequence(Select(ts, keep), ts)
    decreases |ts|
  {
    if ts != [] {
      SelectIsSubsequence(ts[1..], keep);
      var r := Select(ts, keep);
      if keep(ts[0]) {
        assert r[0] == ts[0] && r[1..] == Select(ts[1..], keep);
      } else {
        assert r == Select(ts[1..], keep);
      }
    }
  }

  lemma {:induction false} SelectConcat(a: seq<Row>, b: seq<Row>, keep: Row -> bool)
    ensures Select(a + b, keep) == Select(a, keep) + Select(b, keep)
    decreases |a|
  {
    if a == [] {
      assert a + b == b;
    } else {
      assert (a + b)[0] == a[0] && (a + b)[1..] == a[1..] + b;
      SelectConcat(a[1..], b, keep);
    }
  }

  lemma {:induction false} SelectAll(ts: seq<Row>, keep: Row -> bool)
    requires forall i :: 0 <= i < |ts| ==> keep(ts[i])
    ensures Select(ts, keep) == ts
    decreases |ts|
  {
    if ts != [] {
      SelectAll(ts[1..], keep);
    }
  }

  /** `list.filter(keep).length` */
  function Count(ts: seq<Row>, keep: Row -> bool): (n: nat)
    ensures n <= |ts|
    decreases |ts|
  {
    if ts == [] then 0 else (if keep(ts[0]) then 1 else 0) + Count(ts[1..], keep)
  }

  lemma {:induction false} CountIsSelectLength(ts: seq<Row>, keep: Row -> bool)
    ensures Count(ts, keep) == |Select(ts, keep)|
    decreases |ts|
  {
    if ts != [] {
      CountIsSelectLength(ts[1..], keep);
    }
  }

  // ---------------------------------------------------------------------
  // Summary counts
  // ---------------------------------------------------------------------

  datatype Stats = Stats(total: nat, completed: nat, pending: nat, inProgress: nat, highPriority: nat)

  function StatusIs(s: string): Row -> bool {
    (t: Row) => t.status == s
  }

  /** The quick counts: each is the length of the list the page filters
      out of the tickets. */
  function ComputeStats(ts: seq<Row>): (r: Stats)
    ensures r.total == |ts|
    ensures r.completed == |Select(ts, StatusIs(Completed))|
    ensures r.pending == |Select(ts, StatusIs(Pending))|
    ensures r.inProgress == |Select(ts, StatusIs(InProgress))|
    ensures r.highPriority == |Select(ts, (t: Row) => t.finalPriority >= 3)|
  {
    CountIsSelectLength(ts, StatusIs(Completed));
    CountIsSelectLength(ts, StatusIs(Pending));
    CountIsSelectLength(ts, StatusIs(InProgress));
    CountIsSelectLength(ts, (t: Row) => t.finalPriority >= 3);
    Stats(|ts|, Count(ts, StatusIs(Completed)), Count(ts, StatusIs(Pending)), Count(ts, StatusIs(InProgress)),
          Count(ts, (t: Row) => t.finalPriority >= 3))
  }

  /** The three status counts never add up to more than the total: a
      ticket has one status. */
  lemma {:induction false} StatusCountsWithinTotal(ts: seq<Row>)
    ensures var st := ComputeStats(ts);
            st.completed + st.pending + st.inProgress <= st.total
            && st.highPriority <= st.total
    decreases |ts|
  {
    if ts != [] {
      StatusCountsWithinTotal(ts[1..]);
    }
  }

  // ---------------------------------------------------------------------
  // Search and filters
  // ---------------------------------------------------------------------

  /** The search box and the four drop-downs; "" is "not set". */
  datatype Filters = Filters(query: string, status: string, priority: string, service: string, agent: string)

  const NoFilters := Filters("", "", "", "", "")

  /** The search: the lower-cased query inside the id, the service name,
      the citizen's name, the CNIC (as it is) or the priority. */
  predicate MatchesQuery(t: Row, q: string) {
    Contains(IntToString(t.id), q)
    || Contains(Lower(t.serviceName), q)
    || Contains(Lower(t.userName), q)
    || Contains(t.userCnic, q)
    || Contains(Lower(if t.customerPriority.Some? then t.customerPriority.value else ""), q)
  }

  /** `(t.customerPriority || t.finalPriority || "").toString()` */
  function PriorityText(t: Row): string {
    if t.customerPriority.Some? && t.customerPriority.value != "" then t.customerPriority.value
    else if t.finalPriority != 0 then IntToString(t.finalPriority)
    else ""
  }

  /** `String(t.serviceId)` */
  function ServiceIdText(t: Row): string {
    if t.serviceId.Some? then IntToString(t.serviceId.value) else "null"
  }

  /** A ticket every set filter lets through. */
  predicate Keep(t: Row, f: Filters) {
    (f.query == "" || MatchesQuery(t, Lower(f.query)))
    && (f.status == "" || t.status == f.status)
    && (f.priority == "" || PriorityText(t) == f.priority)
    && (f.service == "" || ServiceIdText(t) == f.service)
    && (f.agent == "" || t.agentId == f.agent)
  }

  /** One `if (x) list = list.filter(...)` step. */
  function Step(ts: seq<Row>, on: bool, keep: Row -> bool): seq<Row> {
    if on then Select(ts, keep) else ts
  }

  /** `filteredTickets`: the five filters applied in turn. */
  function Filtered(ts: seq<Row>, f: Filters): (r: seq<Row>) {
    var q := Lower(f.query);
    var l1 := Step(ts, f.query != "", (t: Row) => MatchesQuery(t, q));
    var l2 := Step(l1, f.status != "", (t: Row) => t.status == f.status);
    var l3 := Step(l2, f.priority != "", (t: Row) => PriorityText(t) == f.priority);
    var l4 := Step(l3, f.service != "", (t: Row) => ServiceIdText(t) == f.service);
    Step(l4, f.agent != "", (t: Row) => t.agentId == f.agent)
  }

  lemma FilteredConcat(a: seq<Row>, b: seq<Row>, f: Filters)
    ensures Filtered(a + b, f) == Filtered(a, f) + Filtered(b, f)
  {
    var q := Lower(f.query);
    var k1 := (t: Row) => MatchesQuery(t, q);
    var k2 := (t: Row) => t.status == f.status;
    var k3 := (t: Row) => PriorityText(t) == f.priority;
    var k4 := (t: Row) => ServiceIdText(t) == f.service;
    var k5 := (t: Row) => t.agentId == f.agent;
    var a1 := Step(a, f.query != "", k1);
    var b1 := Step(b, f.query != "", k1);
    if f.query != "" { SelectConcat(a, b, k1); }
    var a2 := Step(a1, f.status != "", k2);
    var b2 := Step(b1, f.status != "", k2);
    if f.status != "" { SelectConcat(a1, b1, k2); }
    var a3 := Step(a2, f.priority != "", k3);
    var b3 := Step(b2, f.priority != "", k3);
    if f.priority != "" { SelectConcat(a2, b2, k3); }
    var a4 := Step(a3, f.service != "", k4);
    var b4 := Step(b3, f.service != "", k4);
    if f.service != "" { SelectConcat(a3, b3, k4); }
    if f.agent != "" { SelectConcat(a4, b4, k5); }
  }

  lemma FilteredOne(t: Row, f: Filters)
    ensures Filtered([t], f) == if Keep(t, f) then [t] else []
  {
    var q := Lower(f.query);
    var k1 := (t: Row) => MatchesQuery(t, q);
    var k2 := (t: Row) => t.status == f.status;
    var k3 := (t: Row) => PriorityText(t) == f.priority;
    var k4 := (t: Row) => ServiceIdText(t) == f.service;
    var k5 := (t: Row) => t.agentId == f.agent;
    StepsOne(t, f.query != "", k1, f.status != "", k2, f.priority != "", k3, f.service != "", k4, f.agent != "", k5);
  }

  /** Five steps applied to a single row keep it exactly when every step
      that is on lets it through. */
  lemma StepsOne(t: Row, on1: bool, k1: Row -> bool, on2: bool, k2: Row -> bool, on3: bool, k3: Row -> bool,
                 on4: bool, k4: Row -> bool, on5: bool, k5: Row -> bool)
    ensures Step(Step(Step(Step(Step([t], on1, k1), on2, k2), on3, k3), on4, k4), on5, k5)
         == if (!on1 || k1(t)) && (!on2 || k2(t)) && (!on3 || k3(t)) && (!on4 || k4(t)) && (!on5 || k5(t))
            then [t] else []
  {
    var l1 := Step([t], on1, k1);
    StepOne([t], on1, k1);
    var l2 := Step(l1, on2, k2);
    StepOne(l1, on2, k2);
    var l3 := Step(l2, on3, k3);
    StepOne(l2, on3, k3);
    var l4 := Step(l3, on4, k4);
    StepOne(l3, on4, k4);
    StepOne(l4, on5, k5);
  }

  lemma StepOne(ts: seq<Row>, on: bool, keep: Row -> bool)
    requires |ts| <= 1
    ensures Step(ts, on, keep) == if ts != [] && (!on || keep(ts[0])) then ts else []
  {
    if ts != [] && on {
      assert ts[1..] == [];
    }
  }

  /** The filters in turn keep exactly the tickets that pass all of them,
      in their order. */
  lemma {:induction false} FilteredIsSelect(ts: seq<Row>, f: Filters)
    ensures Filtered(ts, f) == Select(ts, (t: Row) => Keep(t, f))
    decreases |ts|
  {
    if ts != [] {
      assert ts == [ts[0]] + ts[1..];
      FilteredConcat([ts[0]], ts[1..], f);
      FilteredOne(ts[0], f);
      FilteredIsSelect(ts[1..], f);
    }
  }

  /** The filtered list is an order-preserving part of the tickets holding
      exactly those that pass every set filter; with nothing set it is the
      whole list. */
  lemma FilteredSpec(ts: seq<Row>, f: Filters)
    ensures Subsequence(Filtered(ts, f), ts)
    ensures forall t :: t in Filtered(ts, f) <==> t in ts && Keep(t, f)
    ensures f == NoFilters ==> Filtered(ts, f) == ts
  {
    FilteredIsSelect(ts, f);
    SelectIsSubsequence(ts, (t: Row) => Keep(t, f));
  }

  // ---------------------------------------------------------------------
  // Local updates after a successful request
  // ---------------------------------------------------------------------

  /** The name shown after an assignment: the agent list's entry for
      `parseInt(agentId)`, else the name the server sent, else the old one. */
  function AssignedName(agents: seq<Agent>, agentId: string, sent: Option<string>, current: string): (r: string)
    ensures Js.ParseInt(agentId).Some? && (exists a :: a in agents && a.id == Js.ParseInt(agentId).value) ==>
              exists a :: a in agents && a.id == Js.ParseInt(agentId).value && r == a.name
    ensures Js.ParseInt(agentId).None? || (forall a :: a in agents ==> a.id != Js.ParseInt(agentId).value) ==>
              r == sent.GetOr(current)
  {
    var id := Js.ParseInt(agentId);
    var found := if id.Some? then FindAgent(agents, id.value) else None;
    if found.Some? then found.value.name else if sent.Some? then sent.value else current
  }

  function FindAgent(agents: seq<Agent>, id: int): (r: Option<Agent>)
    ensures r.Some? ==> r.value in agents && r.value.id == id
    ensures r.None? ==> forall k :: 0 <= k < |agents| ==> agents[k].id != id
    decreases |agents|
  {
    if agents == [] then None else if agents[0].id == id then Some(agents[0]) else FindAgent(agents[1..], id)
  }

  /** `assignAgent`: on success the ticket with that id takes the agent;
      on failure the list stays. */
  function AssignLocally(ts: seq<Row>, ticketId: int, agentId: string, agents: seq<Agent>, sent: Option<string>, success: bool): (r: seq<Row>)
    ensures |r| == |ts|
    ensures forall i :: 0 <= i < |ts| && (!success || ts[i].id != ticketId) ==> r[i] == ts[i]
    ensures forall i :: 0 <= i < |ts| && success && ts[i].id == ticketId ==>
              r[i] == ts[i].(agentId := agentId, agentName := AssignedName(agents, agentId, sent, ts[i].agentName))
  {
    if !success then ts
    else
      seq(|ts|, i requires 0 <= i < |ts| =>
        if ts[i].id == ticketId then ts[i].(agentId := agentId, agentName := AssignedName(agents, agentId, sent, ts[i].agentName))
        else ts[i])
  }

  /** `changeStatus` */
  function ChangeStatusLocally(ts: seq<Row>, ticketId: int, status: string, success: bool): (r: seq<Row>)
    ensures |r| == |ts|
    ensures forall i :: 0 <= i < |ts| ==>
              r[i] == (if success && ts[i].id == ticketId then ts[i].(status := status) else ts[i])
  {
    if !success then ts
    else seq(|ts|, i requires 0 <= i < |ts| => if ts[i].id == ticketId then ts[i].(status := status) else ts[i])
  }

  /** `deleteTicket` */
  function DeleteLocally(ts: seq<Row>, ticketId: int, success: bool): (r: seq<Row>)
  {
    if !success then ts else Select(ts, (t: Row) => t.id != ticketId)
  }

  /** A successful delete removes every ticket with that id and nothing
      else, keeping the order. */
  lemma DeleteRemovesExactly(ts: seq<Row>, ticketId: int)
    ensures forall t :: t in DeleteLocally(ts, ticketId, true) <==> t in ts && t.id != ticketId
    ensures Subsequence(DeleteLocally(ts, ticketId, true), ts)
    ensures |DeleteLocally(ts, ticketId, true)| == |ts| - Count(ts, (t: Row) => t.id == ticketId)
  {
    SelectIsSubsequence(ts, (t: Row) => t.id != ticketId);
    CountIsSelectLength(ts, (t: Row) => t.id != ticketId);
    CountSplit(ts, ticketId);
  }

  lemma {:induction false} CountSplit(ts: seq<Row>, ticketId: int)
    ensures Count(ts, (t: Row) => t.id != ticketId) + Count(ts, (t: Row) => t.id == ticketId) == |ts|
    decreases |ts|
  {
    if ts != [] {
      CountSplit(ts[1..], ticketId);
    }
  }

  // ---------------------------------------------------------------------
  // Chart and export
  // ---------------------------------------------------------------------

  /** `Number(x)`: a null id reads as 0. */
  function NumberOf(id: Option<int>): int {
    if id.Some? then id.value else 0
  }

  /** `chartData.byService` */
  function ByService(services: seq<Service>, ts: seq<Row>): (r: seq<(string, nat)>)
    ensures |r| == |services|
    ensures forall k :: 0 <= k < |services| ==> r[k].0 == services[k].name
  {
    seq(|services|, k requires 0 <= k < |services| =>
      (services[k].name, Count(ts, (t: Row) => NumberOf(t.serviceId) == services[k].id)))
  }

  /** Each bar counts the tickets whose service id matches. */
  lemma ChartCountsMatching(services: seq<Service>, ts: seq<Row>, k: nat)
    requires k < |services|
    ensures ByService(services, ts)[k].1 == |Select(ts, (t: Row) => NumberOf(t.serviceId) == services[k].id)|
    ensures ByService(services, ts)[k].1 <= |ts|
  {
    CountIsSelectLength(ts, (t: Row) => NumberOf(t.serviceId) == services[k].id);
  }

  const ExportKeys: seq<string> := ["id", "citizen", "cnic", "phone", "service", "priority", "status", "agent", "createdAt"]

  /** The row object `exportTickets` builds for a ticket. */
  function ExportRow(t: Row): (r: Csv.Row)
    ensures Csv.Keys(r) == ExportKeys
  {
    [("id", IntToString(t.id)), ("citizen", t.userName), ("cnic", t.userCnic), ("phone", t.userPhone),
     ("service", t.serviceName),
     ("priority", if t.customerPriority.Some? then t.customerPriority.value else IntToString(t.finalPriority)),
     ("status", t.status), ("agent", t.agentName), ("createdAt", t.createdAt)]
  }

  function ExportRows(shown: seq<Row>): (rows: seq<Csv.Row>)
    ensures |rows| == |shown| && forall i :: 0 <= i < |shown| ==> rows[i] == ExportRow(shown[i])
  {
    seq(|shown|, i requires 0 <= i < |shown| => ExportRow(shown[i]))
  }

  /** `exportTickets`: the filtered tickets as CSV. */
  function ExportTickets(ts: seq<Row>, f: Filters): Option<string> {
    Csv.Export(ExportRows(Filtered(ts, f)))
  }

  lemma ExportKeysPlain()
    ensures forall j :: 0 <= j < |ExportKeys| ==> Csv.PlainSafe(ExportKeys[j])
  {
  }

  /** The export reads back as the fixed header and, per shown ticket, its
      nine cells; with no ticket shown there is nothing to export. */
  lemma ExportTicketsReadsBack(ts: seq<Row>, f: Filters)
    ensures ExportTickets(ts, f).None? <==> Filtered(ts, f) == []
    ensures Filtered(ts, f) != [] ==>
              var rows := ExportRows(Filtered(ts, f));
              Csv.ReadDocument(ExportTickets(ts, f).value)
                == Some([ExportKeys] + seq(|rows|, i requires 0 <= i < |rows| => Csv.Cells(rows[i], ExportKeys)))
  {
    var rows := ExportRows(Filtered(ts, f));
    if rows != [] {
      assert Csv.Keys(rows[0]) == ExportKeys;
      ExportKeysPlain();
      assert forall j :: 0 <= j < |rows[0]| ==> rows[0][j].0 == ExportKeys[j];
      Csv.ExportRoundTrip(rows);
    }
  }
}

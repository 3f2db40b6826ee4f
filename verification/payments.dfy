/** Paying for a ticket (app/api/payments/process/route.js): the request
    checks, the card checks for online payment, and the update of the
    ticket's payment record, which refuses to complete a payment twice. */
module Payments {
  import opened Wrappers
  import opened Text
  import Js
  import opened Records

  const Online := "ONLINE"
  const CashOnDelivery := "CASH_ON_DELIVERY"

  /** The request's `ticketId`: a JSON number, a JSON string, or absent. */
  datatype TicketRef = NoTicket | Number(n: int) | Text(s: string)

  /** The card fields; an absent field is "". */
  datatype Card = Card(cardNumber: string, cvv: string, expiryDate: string)

  datatype Request = Request(ticketId: TicketRef, paymentMethod: string, cardDetails: Option<Card>)

  datatype Reply =
    | Paid(message: string, payment: Payment)
    | Failed(status: int, error: string)

  const IdAndMethodRequired := "Ticket ID and payment method are required"
  const InvalidMethod := "Invalid payment method"
  const CardRequired := "Card details are required for online payment"
  const BadCardNumber := "Card number must be 16 digits"
  const BadCvv := "CVV must be 3 digits"
  const BadExpiry := "Expiry date must be in MMYY format"
  const NotFound := "Payment record not found"
  const AlreadyCompleted := "Payment already completed for this ticket"
  const OnlineDone := "Payment completed successfully"
  const CodChosen := "Cash on Delivery selected. Pay when you receive your documents."

  predicate Truthy(t: TicketRef) {
    match t
    case NoTicket => false
    case Number(n) => n != 0
    case Text(s) => s != ""
  }

  /** `parseInt(ticketId)`; a number is read back from its decimal form. */
  function LookupId(t: TicketRef): Option<int> {
    match t
    case NoTicket => None
    case Number(n) => Js.ParseInt(IntToString(n))
    case Text(s) => Js.ParseInt(s)
  }

  /** `/^\d+$/.test(s)` */
  predicate Numeric(s: string) {
    s != [] && AllDigits(s)
  }

  /** The card number with every `\s` character removed. */
  function StripSpaces(s: string): (r: string)
    ensures forall i :: 0 <= i < |r| ==> !IsJsSpace(r[i])
  {
    Filter(s, c => !IsJsSpace(c))
  }

  /** Every card field is given and non-empty. */
  predicate Filled(card: Option<Card>) {
    card.Some? && card.value.cardNumber != "" && card.value.cvv != "" && card.value.expiryDate != ""
  }

  predicate NumberOk(c: Card) {
    |StripSpaces(c.cardNumber)| == 16 && Numeric(StripSpaces(c.cardNumber))
  }

  predicate CvvOk(c: Card) {
    |c.cvv| == 3 && Numeric(c.cvv)
  }

  predicate ExpiryOk(c: Card) {
    |c.expiryDate| == 4 && Numeric(c.expiryDate)
  }

  /** The card checks, in the order they run: presence, then the number,
      then the CVV, then the expiry; the first that fails is reported. */
  function CheckCard(card: Option<Card>): (r: Option<string>)
    ensures r.None? <==> (card.Some? && |StripSpaces(card.value.cardNumber)| == 16
              && Numeric(StripSpaces(card.value.cardNumber))
              && |card.value.cvv| == 3 && Numeric(card.value.cvv)
              && |card.value.expiryDate| == 4 && Numeric(card.value.expiryDate))
    ensures r == Some(CardRequired) <==>
              card.None? || card.value.cardNumber == "" || card.value.cvv == "" || card.value.expiryDate == ""
    ensures r == Some(BadCardNumber) <==> Filled(card) && !NumberOk(card.value)
    ensures r == Some(BadCvv) <==> Filled(card) && NumberOk(card.value) && !CvvOk(card.value)
    ensures r == Some(BadExpiry) <==> Filled(card) && NumberOk(card.value) && CvvOk(card.value) && !ExpiryOk(card.value)
  {
    match card
    case None => Some(CardRequired)
    case Some(c) =>
      if c.cardNumber == "" || c.cvv == "" || c.expiryDate == "" then Some(CardRequired)
      else
        var number := StripSpaces(c.cardNumber);
        if |number| != 16 || !Numeric(number) then Some(BadCardNumber)
        else if |c.cvv| != 3 || !Numeric(c.cvv) then Some(BadCvv)
        else if |c.expiryDate| != 4 || !Numeric(c.expiryDate) then Some(BadExpiry)
        else None
  }

  /** `findUnique({ where: { ticketId } })`: the index of the first
      payment of that ticket. */
  function FindPayment(ps: seq<Payment>, ticketId: int): (r: Option<nat>)
    ensures r.Some? ==> (r.value < |ps| && ps[r.value].ticketId == ticketId
              && forall k :: 0 <= k < r.value ==> ps[k].ticketId != ticketId)
    ensures r.None? ==> forall k :: 0 <= k < |ps| ==> ps[k].ticketId != ticketId
  {
    FindFrom(ps, ticketId, 0)
  }

  function FindFrom(ps: seq<Payment>, ticketId: int, from: nat): (r: Option<nat>)
    requires from <= |ps|
    ensures r.Some? ==> (from <= r.value < |ps| && ps[r.value].ticketId == ticketId
              && forall k :: from <= k < r.value ==> ps[k].ticketId != ticketId)
    ensures r.None? ==> forall k :: from <= k < |ps| ==> ps[k].ticketId != ticketId
    decreases |ps| - from
  {
    if from == |ps| then None
    else if ps[from].ticketId == ticketId then Some(from)
    else FindFrom(ps, ticketId, from + 1)
  }

  /** The new values of the record: ONLINE completes the payment with a
      transaction id and a payment time, cash on delivery leaves it
      pending and clears both. */
  function Settle(p: Payment, paymentMethod: string, now: int, suffix: string): Payment {
    if paymentMethod == Online then
      p.(status := Completed, paymentMethod := paymentMethod,
         transactionId := Some("TXN" + IntToString(now) + suffix), paidAt := Some(now))
    else
      p.(status := Pending, paymentMethod := paymentMethod, transactionId := None, paidAt := None)
  }

  /** `update({ where: { id } })` on the payment table. */
  function UpdatePayment(ps: seq<Payment>, id: nat, p: Payment): (r: seq<Payment>)
    ensures |r| == |ps|
    ensures forall k :: 0 <= k < |ps| ==> r[k] == (if ps[k].id == id then p else ps[k])
  {
    seq(|ps|, k requires 0 <= k < |ps| => if ps[k].id == id then p else ps[k])
  }

  /** The request passes every check before the database is read: an id
      and a method, a known method, and the card checks for ONLINE. */
  predicate Checked(req: Request) {
    Truthy(req.ticketId) && (req.paymentMethod == Online || req.paymentMethod == CashOnDelivery)
    && (req.paymentMethod == Online ==> CheckCard(req.cardDetails).None?)
  }

  /** POST. `now` stands for `Date.now()`, `suffix` for the random
      upper-case tail of the transaction id, and `dbError` for the message
      the database raises when the ticket id is not a number. */
  function Process(ps: seq<Payment>, req: Request, now: int, suffix: string, dbError: string): (r: (Reply, seq<Payment>))
    ensures r.0.Failed? ==> r.1 == ps
    ensures r.0 == Failed(400, IdAndMethodRequired) <==> !Truthy(req.ticketId) || req.paymentMethod == ""
    ensures r.0 == Failed(400, InvalidMethod) <==>
              Truthy(req.ticketId) && req.paymentMethod != "" && req.paymentMethod != Online && req.paymentMethod != CashOnDelivery
    ensures r.0.Paid? ==> (req.paymentMethod == Online ==> CheckCard(req.cardDetails).None?)
    ensures Truthy(req.ticketId) && req.paymentMethod == Online && CheckCard(req.cardDetails).Some? ==>
              r == (Failed(400, CheckCard(req.cardDetails).value), ps)
    ensures r.0.Paid? ==> LookupId(req.ticketId).Some? && FindPayment(ps, LookupId(req.ticketId).value).Some?
    ensures r.0.Paid? ==>
              var k := FindPayment(ps, LookupId(req.ticketId).value).value;
              && ps[k].status != Completed
              && r.0.payment == Settle(ps[k], req.paymentMethod, now, suffix)
              && r.1 == UpdatePayment(ps, ps[k].id, r.0.payment)
              && (r.0.payment.status == Completed <==> req.paymentMethod == Online)
              && (r.0.payment.transactionId.Some? <==> req.paymentMethod == Online)
              && (r.0.payment.paidAt.Some? <==> req.paymentMethod == Online)
    ensures r.0.Paid? ==> r.0.message == (if req.paymentMethod == Online then OnlineDone else CodChosen)
    ensures Checked(req) && LookupId(req.ticketId).None? ==> r.0 == Failed(500, dbError)
    ensures Checked(req) && LookupId(req.ticketId).Some? && FindPayment(ps, LookupId(req.ticketId).value).None? ==>
              r.0 == Failed(404, NotFound)
    ensures Checked(req) && LookupId(req.ticketId).Some? && FindPayment(ps, LookupId(req.ticketId).value).Some? ==>
              var k := FindPayment(ps, LookupId(req.ticketId).value).value;
              (r.0.Paid? <==> ps[k].status != Completed)
              && (ps[k].status == Completed ==> r.0 == Failed(409, AlreadyCompleted))
    ensures r.0.Paid? ==> Checked(req)
  {
    if !Truthy(req.ticketId) || req.paymentMethod == "" then (Failed(400, IdAndMethodRequired), ps)
    else if req.paymentMethod != Online && req.paymentMethod != CashOnDelivery then (Failed(400, InvalidMethod), ps)
    else if req.paymentMethod == Online && CheckCard(req.cardDetails).Some? then
      (Failed(400, CheckCard(req.cardDetails).value), ps)
    else
      match LookupId(req.ticketId)
      case None => (Failed(500, dbError), ps)
      case Some(id) =>
        match FindPayment(ps, id)
        case None => (Failed(404, NotFound), ps)
        case Some(k) =>
          if ps[k].status == Completed then (Failed(409, AlreadyCompleted), ps)
          else
            var p := Settle(ps[k], req.paymentMethod, now, suffix);
            (Paid(if req.paymentMethod == Online then OnlineDone else CodChosen, p), UpdatePayment(ps, ps[k].id, p))
  }

  /** A numeric ticket id always finds its own ticket's payment. */
  lemma NumberIdLooksUpItself(n: int)
    ensures LookupId(Number(n)) == Some(n)
  {
    Js.ParseIntRoundTrip(n);
  }

  /** Cash on delivery never looks at the card: any card details, or
      none, give the same outcome. */
  lemma CashIgnoresCard(ps: seq<Payment>, t: TicketRef, c1: Option<Card>, c2: Option<Card>, now: int, suffix: string, dbError: string)
    ensures Process(ps, Request(t, CashOnDelivery, c1), now, suffix, dbError)
         == Process(ps, Request(t, CashOnDelivery, c2), now, suffix, dbError)
  {
  }

  /** A payment completes once: repeating a successful online payment
      for the same ticket is a conflict and changes nothing. */
  lemma SecondOnlinePaymentConflicts(ps: seq<Payment>, req: Request, now: int, suffix: string, dbError: string, now2: int, suffix2: string)
    requires req.paymentMethod == Online
    requires Process(ps, req, now, suffix, dbError).0.Paid?
    ensures var ps2 := Process(ps, req, now, suffix, dbError).1;
            Process(ps2, req, now2, suffix2, dbError) == (Failed(409, AlreadyCompleted), ps2)
  {
    var ps2 := Process(ps, req, now, suffix, dbError).1;
    var id := LookupId(req.ticketId).value;
    var k := FindPayment(ps, id).value;
    SettledIsFound(ps, id, k, Settle(ps[k], req.paymentMethod, now, suffix));
  }

  /** Cash on delivery leaves the record pending, so it can be chosen
      again, unlike online payment. */
  lemma CashOnDeliveryRepeatable(ps: seq<Payment>, req: Request, now: int, suffix: string, dbError: string, now2: int, suffix2: string)
    requires req.paymentMethod == CashOnDelivery
    requires Process(ps, req, now, suffix, dbError).0.Paid?
    ensures var ps2 := Process(ps, req, now, suffix, dbError).1;
            Process(ps2, req, now2, suffix2, dbError).0.Paid?
  {
    var ps2 := Process(ps, req, now, suffix, dbError).1;
    var id := LookupId(req.ticketId).value;
    var k := FindPayment(ps, id).value;
    SettledIsFound(ps, id, k, Settle(ps[k], req.paymentMethod, now, suffix));
  }

  /** After the update, looking the ticket up again finds the settled
      record (at the same index, or earlier when an earlier record shares
      its id and was overwritten too). */
  lemma SettledIsFound(ps: seq<Payment>, id: int, k: nat, p: Payment)
    requires FindPayment(ps, id) == Some(k) && p.ticketId == id
    ensures var ps2 := UpdatePayment(ps, ps[k].id, p);
            FindPayment(ps2, id).Some? && ps2[FindPayment(ps2, id).value] == p
  {
    var ps2 := UpdatePayment(ps, ps[k].id, p);
    assert ps2[k].ticketId == id;
    var j := FindPayment(ps2, id).value;
    if j < k {
      assert ps[j].ticketId != id;
    }
  }
}

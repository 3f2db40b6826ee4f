/** The card form of components/PaymentModal.js: what the three inputs
    keep of what is typed, how the card number and expiry are shown, and
    the request body the form sends to the payment route. */
module PaymentModal {
  import opened Wrappers
  import opened Text
  import opened Payments

  /** `value.replace(/\D/g, '').slice(0, n)`: the typed digits, at most n. */
  function KeepDigits(typed: string, n: nat): (v: string)
    ensures |v| <= n && AllDigits(v)
    ensures IsPrefix(v, Filter(typed, IsDigit))
    ensures |v| == (if |Filter(typed, IsDigit)| <= n then |Filter(typed, IsDigit)| else n)
  {
    var d := Filter(typed, IsDigit);
    if |d| <= n then d else d[..n]
  }

  /** The stored values of the three inputs. */
  function CardNumberValue(typed: string): (v: string) { KeepDigits(typed, 16) }
  function ExpiryValue(typed: string): (v: string) { KeepDigits(typed, 4) }
  function CvvValue(typed: string): (v: string) { KeepDigits(typed, 3) }

  /** The shown card number: `value.match(/.{1,4}/g)?.join(' ') || value`,
      groups of four joined by single spaces. */
  function ShownCardNumber(v: string): (r: string)
    ensures |v| > 0 ==> |r| == |v| + (|v| - 1) / 4
    ensures |v| == 0 ==> r == ""
    ensures |v| > 4 ==> r[..5] == v[..4] + " "
    decreases |v|
  {
    if |v| <= 4 then v
    else
      var rest := ShownCardNumber(v[4..]);
      var r := v[..4] + " " + rest;
      r
  }

  /** Digit k of `v` sits at position k + k / 4 of `r`, and every fifth
      position of `r` is the separating space: groups of four. */
  predicate Grouped(v: string, r: string) {
    && (forall k :: 0 <= k < |v| ==> k + k / 4 < |r| && r[k + k / 4] == v[k])
    && (forall j :: 0 <= j < |r| && j % 5 == 4 ==> r[j] == ' ')
  }

  /** The shown number lays the digits out in groups of four. */
  lemma {:induction false} ShownCardNumberLayout(v: string)
    ensures Grouped(v, ShownCardNumber(v))
    decreases |v|
  {
    if |v| <= 4 {
      GroupedShort(v);
    } else {
      ShownCardNumberLayout(v[4..]);
      GroupedStep(v, ShownCardNumber(v[4..]), ShownCardNumber(v));
    }
  }

  lemma GroupedShort(v: string)
    requires |v| <= 4
    ensures Grouped(v, v)
  {
    forall k | 0 <= k < |v| ensures k + k / 4 < |v| && v[k + k / 4] == v[k] {
      SmallQuotient(k);
    }
    forall j | 0 <= j < |v| ensures j % 5 != 4 {
      SmallRemainder(j);
    }
  }

  lemma GroupedStep(v: string, rest: string, r: string)
    requires |v| > 4 && r == v[..4] + " " + rest && Grouped(v[4..], rest)
    ensures Grouped(v, r)
  {
    forall k | 0 <= k < |v|
      ensures k + k / 4 < |r| && r[k + k / 4] == v[k]
    {
      if k < 4 {
        SmallQuotient(k);
      } else {
        var m := k - 4;
        QuotientStep(k);
        assert v[4..][m] == v[k];
        assert r[5 + m + m / 4] == rest[m + m / 4];
      }
    }
    forall j | 0 <= j < |r| && j % 5 == 4
      ensures r[j] == ' '
    {
      if j < 5 {
        SmallRemainder(j);
      } else {
        RemainderStep(j);
        assert r[j] == rest[j - 5];
      }
    }
  }

  lemma SmallQuotient(k: nat)
    requires k < 4
    ensures k / 4 == 0
  {
  }

  lemma SmallRemainder(j: nat)
    requires j < 5
    ensures j % 5 == j
  {
  }

  lemma QuotientStep(k: nat)
    requires k >= 4
    ensures (k - 4) / 4 == k / 4 - 1
  {
  }

  lemma RemainderStep(j: nat)
    requires j >= 5
    ensures (j - 5) % 5 == j % 5
  {
  }

  /** The shown expiry: a "/" after the month once two digits are in. */
  function ShownExpiry(v: string): (r: string)
    ensures |v| >= 2 ==> |r| == |v| + 1 && r[2] == '/'
    ensures |v| < 2 ==> r == v
  {
    if |v| >= 2 then v[..2] + "/" + v[2..] else v
  }

  /** Taking the spaces out of the shown card number gives the stored
      digits back, whichever filter drops the space and keeps digits. */
  lemma {:induction false} ShownCardNumberStrip(v: string, p: char -> bool)
    requires forall i :: 0 <= i < |v| ==> p(v[i])
    requires !p(' ')
    ensures Filter(ShownCardNumber(v), p) == v
    decreases |v|
  {
    if |v| <= 4 {
      FilterKeepsAll(v, p);
    } else {
      var rest := ShownCardNumber(v[4..]);
      ShownCardNumberStrip(v[4..], p);
      FilterConcat(v[..4] + " ", rest, p);
      FilterConcat(v[..4], " ", p);
      FilterKeepsAll(v[..4], p);
      assert v == v[..4] + v[4..];
    }
  }

  /** The form's display round-trips: dropping the spaces, or the payment
      route's `\s` stripping, gives the stored digits back. */
  lemma ShownCardNumberRoundTrip(v: string)
    requires AllDigits(v)
    ensures Filter(ShownCardNumber(v), c => c != ' ') == v
    ensures StripSpaces(ShownCardNumber(v)) == v
  {
    ShownCardNumberStrip(v, c => c != ' ');
    ShownCardNumberStrip(v, c => !IsJsSpace(c));
  }

  /** Taking the "/" out of the shown expiry gives the stored digits. */
  lemma ShownExpiryRoundTrip(v: string)
    requires AllDigits(v)
    ensures Filter(ShownExpiry(v), c => c != '/') == v
  {
    if |v| >= 2 {
      FilterConcat(v[..2] + "/", v[2..], c => c != '/');
      FilterConcat(v[..2], "/", c => c != '/');
      FilterKeepsAll(v[..2], c => c != '/');
      FilterKeepsAll(v[2..], c => c != '/');
      assert v == v[..2] + v[2..];
    } else {
      FilterKeepsAll(v, c => c != '/');
    }
  }

  /** The request body: the card goes along only for online payment. */
  function Payload(ticketId: int, paymentMethod: string, card: Card): (r: Request)
    ensures r.cardDetails.Some? <==> paymentMethod == Online
    ensures r.cardDetails.Some? ==> r.cardDetails.value == card
    ensures r.ticketId == Number(ticketId) && r.paymentMethod == paymentMethod
  {
    Request(Number(ticketId), paymentMethod, if paymentMethod == Online then Some(card) else None)
  }

  /** A form filled to the full length of each input passes every card
      check of the payment route. */
  lemma FullFormPassesCardChecks(number: string, expiry: string, cvv: string)
    ensures var card := Card(CardNumberValue(number), CvvValue(cvv), ExpiryValue(expiry));
            CheckCard(Some(card)).None? <==>
              |card.cardNumber| == 16 && |card.cvv| == 3 && |card.expiryDate| == 4
  {
    var v := CardNumberValue(number);
    FilterKeepsAll(v, c => !IsJsSpace(c));
  }
}

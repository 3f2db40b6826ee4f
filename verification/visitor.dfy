/** The visit record written by POST /api/visitor
    (app/api/visitor/route.js): where the visitor came from, read from the
    proxy headers, and which page was opened. A header the request does
    not carry is `None`. */
module Visitor {
  import opened Wrappers
  import opened Text

  const Unknown := "unknown"
  const HomePage := "home"

  datatype Headers = Headers(forwardedFor: Option<string>, realIp: Option<string>, userAgent: Option<string>)

  datatype Visit = Visit(ipAddress: string, userAgent: string, page: string)

  predicate Truthy(x: Option<string>) {
    x.Some? && x.value != ""
  }

  /** `x || fallback` on an optional string. */
  function Or(x: Option<string>, fallback: string): (r: string)
    ensures Truthy(x) ==> r == x.value
    ensures !Truthy(x) ==> r == fallback
  {
    if Truthy(x) then x.value else fallback
  }

  /** `s.split(",")[0]` is the text before the first comma, or all of
      `s` when it has none. */
  lemma {:induction false} FirstPiece(s: string, c: char)
    ensures var p := SplitOn(s, c)[0];
            IsPrefix(p, s) && c !in p && (|p| == |s| || s[|p|] == c)
    decreases |s|
  {
    if |s| > 0 {
      FirstPiece(s[1..], c);
      var rest := SplitOn(s[1..], c);
      if s[0] != c {
        assert SplitOn(s, c)[0] == [s[0]] + rest[0];
        assert s == [s[0]] + s[1..];
      }
    }
  }

  /** The client address: the first entry of a non-empty
      x-forwarded-for, else a non-empty x-real-ip, else "unknown". */
  function ClientIp(h: Headers): (ip: string)
    ensures Truthy(h.forwardedFor) ==>
              IsPrefix(ip, h.forwardedFor.value) && ',' !in ip
              && (|ip| == |h.forwardedFor.value| || h.forwardedFor.value[|ip|] == ',')
    ensures !Truthy(h.forwardedFor) && Truthy(h.realIp) ==> ip == h.realIp.value
    ensures !Truthy(h.forwardedFor) && !Truthy(h.realIp) ==> ip == Unknown
  {
    if Truthy(h.forwardedFor) then
      FirstPiece(h.forwardedFor.value, ',');
      SplitOn(h.forwardedFor.value, ',')[0]
    else Or(h.realIp, Unknown)
  }

  /** A forwarded header without a comma is taken whole; with one, the
      address is the text before its first comma. */
  lemma ClientIpOfList(h: Headers, first: string, others: string)
    requires ',' !in first && first != ""
    requires h.forwardedFor == Some(first) || h.forwardedFor == Some(first + "," + others)
    ensures ClientIp(h) == first
  {
    var s := h.forwardedFor.value;
    var ip := ClientIp(h);
    assert s[..|first|] == first;
    assert forall k :: 0 <= k < |first| ==> s[k] == first[k] && s[k] != ',';
    assert |s| > |first| ==> s[|first|] == ',';
    assert |ip| == |first|;
  }

  /** The row `POST` inserts. */
  function RecordVisit(h: Headers, page: Option<string>): (v: Visit)
    ensures v.ipAddress == ClientIp(h)
    ensures v.userAgent != "" && (Truthy(h.userAgent) ==> v.userAgent == h.userAgent.value)
    ensures v.page != "" && (Truthy(page) ==> v.page == page.value)
  {
    Visit(ClientIp(h), Or(h.userAgent, Unknown), Or(page, HomePage))
  }

  /** A forwarded header that starts with a comma passes the truthiness
      test but yields an empty address; the fallbacks are not consulted. */
  lemma LeadingCommaGivesEmptyIp()
    ensures ClientIp(Headers(Some(",10.0.0.1"), Some("10.0.0.2"), None)) == ""
  {
    FirstPiece(",10.0.0.1", ',');
  }
}

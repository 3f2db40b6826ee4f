/** JavaScript's `parseInt` on the decimal strings the routes receive. */
module Js {
  import opened Wrappers
  import opened Text

  /** `parseInt(s)` read in base 10: leading white space is skipped, then
      an optional sign, then the longest run of decimal digits; `None`
      stands for NaN (no digit there). Without a radix JavaScript reads a
      `0x` prefix as hexadecimal; that form is not modelled. */
  function ParseInt(s: string): (r: Option<int>)
    ensures r.Some? <==> SignEnd(s) < |s| && IsDigit(s[SignEnd(s)])
    ensures r.Some? && r.value < 0 ==> Negative(s)
  {
    var j := SignEnd(s);
    var k := j + Run(s, j, IsDigit);
    if k == j then None
    else
      RunHolds(s, j, IsDigit);
      var v: int := DecimalValue(s[j..k]);
      Some(if Negative(s) then -v else v)
  }

  /** Where the digits may start: after the white space and one sign. */
  function SignEnd(s: string): (j: nat)
    ensures j <= |s|
  {
    var i := Run(s, 0, IsJsSpace);
    if i < |s| && (s[i] == '-' || s[i] == '+') then i + 1 else i
  }

  predicate Negative(s: string) {
    var i := Run(s, 0, IsJsSpace);
    i < |s| && s[i] == '-'
  }

  /** `Number(s)` on the integer forms: white space, an optional sign and
      decimal digits, white space; a string of white space alone is 0.
      `None` stands for NaN, and is also what the fraction, exponent,
      hexadecimal and `Infinity` forms give here. Where the text holds a
      number, `parseInt` reads the same one. */
  function StringToNumber(s: string): (r: Option<int>)
    ensures AllSpace(s, IsJsSpace) ==> r == Some(0)
    ensures r.Some? && !AllSpace(s, IsJsSpace) ==> r == ParseInt(s)
  {
    BlankRun(s);
    var j := SignEnd(s);
    var k := j + Run(s, j, IsDigit);
    if k + Run(s, k, IsJsSpace) < |s| then None
    else if k > j then ParseInt(s)
    else if j == Run(s, 0, IsJsSpace) then
      RunHolds(s, 0, IsJsSpace);
      Some(0)
    else None
  }

  /** The integer text `Number` and `parseInt` agree on: white space, an
      optional sign, decimal digits, white space. Both read the signed
      value of the digits. */
  lemma IntegerText(ws1: string, sign: string, digits: string, ws2: string)
    requires AllSpace(ws1, IsJsSpace) && AllSpace(ws2, IsJsSpace)
    requires sign == "" || sign == "-" || sign == "+"
    requires digits != [] && AllDigits(digits)
    ensures var s := ws1 + sign + digits + ws2;
      var v: int := if sign == "-" then 0 - DecimalValue(digits) else DecimalValue(digits);
      ParseInt(s) == Some(v) && StringToNumber(s) == Some(v)
  {
    var s := ws1 + sign + digits + ws2;
    var j := |ws1| + |sign|;
    var k := j + |digits|;
    IntegerTextRuns(ws1, sign, digits, ws2);
    assert s[j..k] == digits;
    assert Negative(s) <==> sign == "-" by {
      assert Run(s, 0, IsJsSpace) == |ws1|;
      assert sign != "" ==> s[|ws1|] == sign[0];
      assert sign == "" ==> s[|ws1|] == digits[0];
    }
  }

  /** Where the runs of an integer text start and stop. */
  lemma IntegerTextRuns(ws1: string, sign: string, digits: string, ws2: string)
    requires AllSpace(ws1, IsJsSpace) && AllSpace(ws2, IsJsSpace)
    requires sign == "" || sign == "-" || sign == "+"
    requires digits != [] && AllDigits(digits)
    ensures var s := ws1 + sign + digits + ws2;
      var j := |ws1| + |sign|;
      var k := j + |digits|;
      Run(s, 0, IsJsSpace) == |ws1| && SignEnd(s) == j
      && Run(s, j, IsDigit) == |digits| && Run(s, k, IsJsSpace) == |ws2|
  {
    var rest := sign + digits + ws2;
    assert rest[0] == if sign == "" then digits[0] else sign[0];
    LeadingSpaceRun(ws1, rest);
    Regroup(ws1, sign, digits, ws2);
    assert ws2 != [] ==> !IsDigit(ws2[0]);
    RunOfPart(ws1 + sign, digits, ws2, IsDigit);
    TrailingSpaceRun(ws1 + sign + digits, ws2);
  }

  lemma Regroup<T>(a: seq<T>, b: seq<T>, c: seq<T>, d: seq<T>)
    ensures a + b + c + d == a + (b + c + d)
  {
  }

  lemma LeadingSpaceRun(ws: string, rest: string)
    requires AllSpace(ws, IsJsSpace)
    requires rest == [] || !IsJsSpace(rest[0])
    ensures Run(ws + rest, 0, IsJsSpace) == |ws|
  {
    assert [] + ws + rest == ws + rest;
    RunOfPart([], ws, rest, IsJsSpace);
  }

  lemma TrailingSpaceRun(pre: string, ws: string)
    requires AllSpace(ws, IsJsSpace)
    ensures Run(pre + ws, |pre|, IsJsSpace) == |ws|
  {
    assert pre + ws + [] == pre + ws;
    RunOfPart(pre, ws, [], IsJsSpace);
  }

  /** A stretch of `p` characters that the end or a non-`p` character
      closes is one run. */
  lemma RunOfPart(pre: string, mid: string, post: string, p: char -> bool)
    requires forall i :: 0 <= i < |mid| ==> p(mid[i])
    requires post == [] || !p(post[0])
    ensures Run(pre + mid + post, |pre|, p) == |mid|
  {
    var s := pre + mid + post;
    assert forall j :: |pre| <= j < |pre| + |mid| ==> s[j] == mid[j - |pre|];
    assert |pre| + |mid| < |s| ==> s[|pre| + |mid|] == post[0];
    RunIs(s, |pre|, p, |mid|);
  }

  /** White space runs to the end of a blank string. */
  lemma BlankRun(s: string)
    ensures AllSpace(s, IsJsSpace) ==> Run(s, 0, IsJsSpace) == |s| && SignEnd(s) == |s|
  {
    if AllSpace(s, IsJsSpace) {
      RunIs(s, 0, IsJsSpace, |s|);
    }
  }

  /** A string `parseInt` reads a number from is not blank. */
  lemma ParsedNotBlank(s: string)
    requires ParseInt(s).Some?
    ensures !AllSpace(s, IsJsSpace)
  {
    assert IsDigit(s[SignEnd(s)]);
  }

  /** `parseInt` reads back what `String(n)` writes. */
  lemma ParseIntRoundTrip(n: int)
    ensures ParseInt(IntToString(n)) == Some(n)
  {
    var s := IntToString(n);
    var m := if n < 0 then -n else n;
    var d := NatToString(m);
    assert Run(s, 0, IsJsSpace) == 0;
    var j := if n < 0 then 1 else 0;
    assert s[j..] == d;
    RunAll(s, j, d);
    assert s[j..|s|] == d;
  }

  /** A digit string after position `j` is one run. */
  lemma RunAll(s: string, j: nat, d: string)
    requires j <= |s| && s[j..] == d && AllDigits(d)
    ensures j + Run(s, j, IsDigit) == |s|
    decreases |s| - j
  {
    if j < |s| {
      assert s[j] == d[0];
      assert s[j + 1..] == d[1..];
      RunAll(s, j + 1, d[1..]);
    }
  }

  /** The ids `parseInt` accepts as truthy: a value other than NaN and 0. */
  function TruthyId(s: string): (r: Option<int>)
    ensures r.Some? ==> r.value != 0 && ParseInt(s) == r
    ensures r.None? <==> ParseInt(s).None? || ParseInt(s) == Some(0)
  {
    match ParseInt(s)
    case Some(v) => if v == 0 then None else Some(v)
    case None => None
  }
}

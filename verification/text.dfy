/** String primitives shared by the Python chatbot and the JavaScript routes:
    character classes, trimming, substring search, splitting, joining and
    decimal rendering. Strings are sequences of Unicode code points. */
module Text {
  import opened Wrappers

  // ---------------------------------------------------------------------
  // Character classes
  // ---------------------------------------------------------------------

  /** The characters for which Python's `str.isspace()` holds. */
  predicate IsPySpace(c: char) {
    c == ' ' || ('\t' <= c <= '\r') || ('\U{1C}' <= c <= '\U{1F}')
    || c == '\U{85}' || c == '\U{A0}' || c == '\U{1680}'
    || ('\U{2000}' <= c <= '\U{200A}') || c == '\U{2028}' || c == '\U{2029}'
    || c == '\U{202F}' || c == '\U{205F}' || c == '\U{3000}'
  }

  /** JavaScript's `\s` class, which is also the set `String.prototype.trim`
      removes (WhiteSpace and LineTerminator of ECMA-262). */
  predicate IsJsSpace(c: char) {
    c == ' ' || ('\t' <= c <= '\r') || c == '\U{A0}' || c == '\U{1680}'
    || ('\U{2000}' <= c <= '\U{200A}') || c == '\U{2028}' || c == '\U{2029}'
    || c == '\U{202F}' || c == '\U{205F}' || c == '\U{3000}' || c == '\U{FEFF}'
  }

  /** The characters a JavaScript regular expression `.` does not match. */
  predicate IsLineTerminator(c: char) {
    c == '\n' || c == '\r' || c == '\U{2028}' || c == '\U{2029}'
  }

  predicate IsDigit(c: char) {
    '0' <= c <= '9'
  }

  predicate IsAsciiAlnum(c: char) {
    IsDigit(c) || ('a' <= c <= 'z') || ('A' <= c <= 'Z')
  }

  predicate AllDigits(s: string) {
    forall i :: 0 <= i < |s| ==> IsDigit(s[i])
  }

  // ---------------------------------------------------------------------
  // Case mapping
  // ---------------------------------------------------------------------

  /** Lower-casing of the ASCII letters (`str.lower()` / `toLowerCase()`
      restricted to ASCII). */
  function LowerChar(c: char): (r: char)
    ensures ('A' <= c <= 'Z') ==> r as int == c as int + 32
    ensures !('A' <= c <= 'Z') ==> r == c
  {
    if 'A' <= c <= 'Z' then (c as int + 32) as char else c
  }

  function Lower(s: string): (r: string)
    ensures |r| == |s|
    ensures forall i :: 0 <= i < |s| ==> r[i] == LowerChar(s[i])
  {
    seq(|s|, i requires 0 <= i < |s| => LowerChar(s[i]))
  }

  /** Lower-casing a string without ASCII capitals leaves it unchanged. */
  lemma LowerUnchanged(s: string)
    requires forall i :: 0 <= i < |s| ==> !('A' <= s[i] <= 'Z')
    ensures Lower(s) == s
  {
  }

  // ---------------------------------------------------------------------
  // Trimming
  // ---------------------------------------------------------------------

  function TrimStart(s: string, sp: char -> bool): (r: string)
    ensures |r| <= |s| && r == s[|s| - |r|..]
    ensures r == [] || !sp(r[0])
    decreases |s|
  {
    if |s| > 0 && sp(s[0]) then TrimStart(s[1..], sp) else s
  }

  function TrimEnd(s: string, sp: char -> bool): (r: string)
    ensures |r| <= |s| && r == s[..|r|]
    ensures r == [] || !sp(r[|r| - 1])
    decreases |s|
  {
    if |s| > 0 && sp(s[|s| - 1]) then TrimEnd(s[..|s| - 1], sp) else s
  }

  /** Everything `TrimStart` drops is space. */
  lemma {:induction false} TrimStartDropsSpace(s: string, sp: char -> bool)
    ensures forall i :: 0 <= i < |s| - |TrimStart(s, sp)| ==> sp(s[i])
    decreases |s|
  {
    if |s| > 0 && sp(s[0]) {
      TrimStartDropsSpace(s[1..], sp);
      assert forall i :: 1 <= i < |s| ==> s[i] == s[1..][i - 1];
    }
  }

  /** Everything `TrimEnd` drops is space. */
  lemma {:induction false} TrimEndDropsSpace(s: string, sp: char -> bool)
    ensures forall i :: |TrimEnd(s, sp)| <= i < |s| ==> sp(s[i])
    decreases |s|
  {
    if |s| > 0 && sp(s[|s| - 1]) {
      TrimEndDropsSpace(s[..|s| - 1], sp);
    }
  }

  /** Every character of `s` is space. */
  predicate AllSpace(s: string, sp: char -> bool) {
    forall i :: 0 <= i < |s| ==> sp(s[i])
  }

  /** How many leading characters `Trim` removes. */
  function TrimOffset(s: string, sp: char -> bool): nat {
    |s| - |TrimStart(s, sp)|
  }

  /** Both ends stripped of `sp` characters: what is left neither starts
      nor ends with space, and is empty exactly when `s` is all space
      (`TrimIsInfix` says where in `s` it sits). */
  function Trim(s: string, sp: char -> bool): (r: string)
    ensures TrimOffset(s, sp) + |r| <= |s|
    ensures r == [] <==> AllSpace(s, sp)
    ensures r != [] ==> !sp(r[0]) && !sp(r[|r| - 1])
  {
    var a := TrimStart(s, sp);
    var r := TrimEnd(a, sp);
    TrimEndsNotSpace(a, r, sp);
    TrimEmptyIffAllSpace(s, sp);
    r
  }

  /** The trimmed string is the infix of `s` starting at `TrimOffset`. */
  lemma TrimIsInfix(s: string, sp: char -> bool)
    ensures Trim(s, sp) == s[TrimOffset(s, sp)..TrimOffset(s, sp) + |Trim(s, sp)|]
  {
    var a := TrimStart(s, sp);
    var r := TrimEnd(a, sp);
    InfixOfSuffix(s, a, r);
  }

  lemma InfixOfSuffix(s: string, a: string, r: string)
    requires |a| <= |s| && a == s[|s| - |a|..]
    requires |r| <= |a| && r == a[..|r|]
    ensures r == s[|s| - |a|..|s| - |a| + |r|]
  {
    var off := |s| - |a|;
    forall i | 0 <= i < |r| ensures r[i] == s[off + i] {
      assert r[i] == a[i];
    }
  }

  lemma TrimEndsNotSpace(a: string, r: string, sp: char -> bool)
    requires a == [] || !sp(a[0])
    requires |r| <= |a| && r == a[..|r|]
    requires r == [] || !sp(r[|r| - 1])
    ensures r != [] ==> !sp(r[0]) && !sp(r[|r| - 1])
  {
    if r != [] {
      assert r[0] == a[0];
    }
  }

  lemma TrimEmptyIffAllSpace(s: string, sp: char -> bool)
    ensures TrimEnd(TrimStart(s, sp), sp) == [] <==> AllSpace(s, sp)
  {
    var a := TrimStart(s, sp);
    if TrimEnd(a, sp) == [] {
      TrimEndDropsSpace(a, sp);
      // every character of `a` is space, but its first is not
      assert a == [];
      TrimStartDropsSpace(s, sp);
    }
    if AllSpace(s, sp) {
      AllSpaceTrimsAway(s, sp);
    }
  }

  lemma {:induction false} AllSpaceTrimsAway(s: string, sp: char -> bool)
    requires AllSpace(s, sp)
    ensures TrimStart(s, sp) == []
    decreases |s|
  {
    if |s| > 0 {
      assert sp(s[0]);
      assert forall i :: 0 <= i < |s[1..]| ==> s[1..][i] == s[i + 1];
      AllSpaceTrimsAway(s[1..], sp);
    }
  }

  /** Stripping a string that neither starts nor ends with a space leaves
      it unchanged. */
  lemma TrimUnchanged(s: string, sp: char -> bool)
    requires s == [] || (!sp(s[0]) && !sp(s[|s| - 1]))
    ensures Trim(s, sp) == s
  {
  }

  /** Python's `str.strip()` with no argument. */
  function PyStrip(s: string): string {
    Trim(s, IsPySpace)
  }

  /** JavaScript's `String.prototype.trim()`. */
  function JsTrim(s: string): string {
    Trim(s, IsJsSpace)
  }

  // ---------------------------------------------------------------------
  // Substring search
  // ---------------------------------------------------------------------

  predicate IsPrefix(p: string, s: string) {
    |p| <= |s| && s[..|p|] == p
  }

  predicate OccursAt(s: string, k: string, j: int) {
    0 <= j && j + |k| <= |s| && s[j..j + |k|] == k
  }

  lemma OccursAtTail(s: string, k: string, j: int)
    requires |s| > 0 && j >= 1
    ensures OccursAt(s, k, j) <==> OccursAt(s[1..], k, j - 1)
  {
    if j + |k| <= |s| {
      assert s[1..][j - 1..j - 1 + |k|] == s[j..j + |k|];
    }
  }

  /** The first index at which `k` occurs in `s` (Python's `str.find`,
      JavaScript's `indexOf`). */
  function IndexOf(s: string, k: string): (r: Option<nat>)
    ensures r.Some? ==> OccursAt(s, k, r.value)
    ensures r.Some? ==> forall j :: 0 <= j < r.value ==> !OccursAt(s, k, j)
    ensures r.None? ==> forall j :: !OccursAt(s, k, j)
    decreases |s|
  {
    if IsPrefix(k, s) then Some(0)
    else if |s| == 0 then None
    else
      var t := IndexOf(s[1..], k);
      assert !OccursAt(s, k, 0) by {
        if |k| <= |s| { assert s[0..|k|] == s[..|k|]; }
      }
      forall j | j >= 1 ensures OccursAt(s, k, j) <==> OccursAt(s[1..], k, j - 1) {
        OccursAtTail(s, k, j);
      }
      match t
      case Some(i) => Some(i + 1)
      case None => None
  }

  /** Substring containment (Python's `in`, JavaScript's `includes`). */
  predicate Contains(s: string, k: string) {
    IndexOf(s, k).Some?
  }

  lemma ContainsIff(s: string, k: string)
    ensures Contains(s, k) <==> exists j :: OccursAt(s, k, j)
  {
  }

  /** An occurrence with none before it is the one `IndexOf` reports. */
  lemma FirstOccurrence(s: string, k: string, i: nat)
    requires OccursAt(s, k, i)
    requires forall j :: 0 <= j < i ==> !OccursAt(s, k, j)
    ensures IndexOf(s, k) == Some(i)
  {
  }

  /** Regrouping a concatenation around a marked piece `x`. */
  lemma Regroup(h: string, e1: string, x: string, e2: string, t: string)
    ensures h + (e1 + x + e2) + t == (h + e1) + x + (e2 + t)
  {
  }

  /** A piece of the middle part of `h + e + m + f` occurs in it. */
  lemma ContainsMiddle(h: string, e: string, x: string, e1: string, e2: string, m: string, f: string)
    requires e == e1 + x + e2
    ensures Contains(h + e + m + f, x)
  {
    assert h + e + m + f == (h + e1) + x + (e2 + m + f);
    ContainsInfix(h + e1, x, e2 + m + f);
  }

  lemma ContainsInfix(a: string, x: string, b: string)
    ensures Contains(a + x + b, x)
  {
    assert (a + x + b)[|a|..|a| + |x|] == x;
    assert OccursAt(a + x + b, x, |a|);
  }

  /** A prefix that ends before the first occurrence of `k` does not
      contain `k`. */
  lemma NoOccurrenceInPrefix(s: string, k: string, i: nat)
    requires k != [] && i <= |s|
    requires forall j :: 0 <= j < i ==> !OccursAt(s, k, j)
    ensures !Contains(s[..i], k)
  {
    forall j | OccursAt(s[..i], k, j) ensures false {
      assert s[..i][j..j + |k|] == s[j..j + |k|];
      assert OccursAt(s, k, j);
    }
  }

  /** `any(word in s for word in ks)` */
  predicate ContainsAny(s: string, ks: seq<string>) {
    exists i :: 0 <= i < |ks| && Contains(s, ks[i])
  }

  /** A word whose first character does not appear in `s` does not occur
      in `s`; a list of such words has no match. */
  lemma MissesAll(s: string, ks: seq<string>)
    requires forall i :: 0 <= i < |ks| ==> ks[i] != [] && ks[i][0] !in s
    ensures !ContainsAny(s, ks)
  {
    forall i, j | 0 <= i < |ks| ensures !OccursAt(s, ks[i], j) {
      if 0 <= j && j + |ks[i]| <= |s| {
        assert s[j..j + |ks[i]|][0] == s[j];
      }
    }
  }

  // ---------------------------------------------------------------------
  // Splitting and joining
  // ---------------------------------------------------------------------

  /** The pieces joined back with the separator `sep` between neighbours
      (`Array.prototype.join`, Python's `str.join`). */
  function Join(parts: seq<string>, sep: string): string
    decreases |parts|
  {
    if |parts| == 0 then ""
    else if |parts| == 1 then parts[0]
    else parts[0] + sep + Join(parts[1..], sep)
  }

  /** Splitting at every occurrence of one character (`s.split('\n')` in
      both languages): the pieces contain no separator and joining them
      back gives `s`. */
  function SplitOn(s: string, c: char): (r: seq<string>)
    ensures |r| >= 1
    ensures forall i :: 0 <= i < |r| ==> c !in r[i]
    ensures Join(r, [c]) == s
    decreases |s|
  {
    if |s| == 0 then [""]
    else
      var rest := SplitOn(s[1..], c);
      if s[0] == c then
        [""] + rest
      else
        var r := [[s[0]] + rest[0]] + rest[1..];
        assert r[1..] == rest[1..];
        r
  }

  /** Every character of a piece comes from the text. */
  lemma {:induction false} SplitOnChars(s: string, c: char)
    ensures forall i, x :: 0 <= i < |SplitOn(s, c)| && x in SplitOn(s, c)[i] ==> x in s
    decreases |s|
  {
    if |s| > 0 {
      SplitOnChars(s[1..], c);
      var rest := SplitOn(s[1..], c);
      var r := SplitOn(s, c);
      forall i, x | 0 <= i < |r| && x in r[i] ensures x in s {
        if x != s[0] {
          if s[0] == c {
            assert i > 0 && r[i] == rest[i - 1];
          } else if i == 0 {
            assert r[0] == [s[0]] + rest[0];
          } else {
            assert r[i] == rest[i];
          }
          assert x in s[1..];
        }
      }
    }
  }

  /** The length of the run of `p` characters starting at `i`. */
  function Run(t: string, i: nat, p: char -> bool): (n: nat)
    requires i <= |t|
    ensures i + n <= |t|
    ensures i + n == |t| || !p(t[i + n])
    decreases |t| - i
  {
    if i < |t| && p(t[i]) then 1 + Run(t, i + 1, p) else 0
  }

  /** Every character of a run satisfies `p`. */
  lemma {:induction false} RunHolds(t: string, i: nat, p: char -> bool)
    requires i <= |t|
    ensures forall j :: i <= j < i + Run(t, i, p) ==> p(t[j])
    decreases |t| - i
  {
    if i < |t| && p(t[i]) {
      RunHolds(t, i + 1, p);
    }
  }

  /** A run is as long as the stretch of `p` characters that a non-`p`
      character or the end of the text closes. */
  lemma {:induction false} RunIs(t: string, i: nat, p: char -> bool, m: nat)
    requires i + m <= |t|
    requires forall j :: i <= j < i + m ==> p(t[j])
    requires i + m == |t| || !p(t[i + m])
    ensures Run(t, i, p) == m
    decreases m
  {
    if m > 0 {
      RunIs(t, i + 1, p, m - 1);
    }
  }

  /** A non-empty sequence is its head followed by its tail. */
  lemma HeadTail<T>(s: seq<T>)
    requires |s| > 0
    ensures [s[0]] + s[1..] == s
  {
  }

  /** The elements of `s` that satisfy `p`, in order (`Array.prototype.filter`,
      and on strings the characters kept by a `replace(/[^…]/g, "")`). */
  function Filter<T>(s: seq<T>, p: T -> bool): (r: seq<T>)
    ensures |r| <= |s|
    ensures forall i :: 0 <= i < |r| ==> p(r[i])
    decreases |s|
  {
    if |s| == 0 then []
    else if p(s[0]) then [s[0]] + Filter(s[1..], p)
    else Filter(s[1..], p)
  }

  /** What `Filter` keeps comes from `s`, and it keeps every element of `s`
      that passes. */
  lemma {:induction false} FilterMembers<T>(s: seq<T>, p: T -> bool)
    ensures forall x :: x in Filter(s, p) ==> x in s
    ensures forall x :: x in s && p(x) ==> x in Filter(s, p)
    decreases |s|
  {
    if s != [] {
      FilterMembers(s[1..], p);
      assert forall x :: x in s ==> x == s[0] || x in s[1..];
    }
  }

  lemma {:induction false} FilterConcat<T>(a: seq<T>, b: seq<T>, p: T -> bool)
    ensures Filter(a + b, p) == Filter(a, p) + Filter(b, p)
    decreases |a|
  {
    if a == [] {
      assert a + b == b;
    } else {
      assert (a + b)[0] == a[0] && (a + b)[1..] == a[1..] + b;
      FilterConcat(a[1..], b, p);
    }
  }

  /** Filtering keeps a sequence whose elements all pass. */
  lemma {:induction false} FilterKeepsAll<T>(s: seq<T>, p: T -> bool)
    requires forall i :: 0 <= i < |s| ==> p(s[i])
    ensures Filter(s, p) == s
    decreases |s|
  {
    if s != [] {
      FilterKeepsAll(s[1..], p);
    }
  }


  // ---------------------------------------------------------------------
  // Decimal numbers
  // ---------------------------------------------------------------------

  function DigitChar(d: nat): (c: char)
    requires d < 10
    ensures IsDigit(c)
  {
    ('0' as int + d) as char
  }

  function DigitValue(c: char): nat
    requires IsDigit(c)
  {
    c as int - '0' as int
  }

  /** The value of a string of decimal digits (`parseInt` of a digit
      string; the empty string reads as 0). */
  function DecimalValue(s: string): nat
    requires AllDigits(s)
    decreases |s|
  {
    if |s| == 0 then 0 else DecimalValue(s[..|s| - 1]) * 10 + DigitValue(s[|s| - 1])
  }

  /** Decimal rendering of a natural number (`String(n)`, `str(n)`, and the
      template-literal `${n}`), with its inverse `DecimalValue`. */
  function NatToString(n: nat): (r: string)
    ensures |r| >= 1 && AllDigits(r)
    ensures DecimalValue(r) == n
    ensures r[0] == '0' ==> n == 0
    decreases n
  {
    if n < 10 then [DigitChar(n)]
    else
      var p := NatToString(n / 10);
      var r := p + [DigitChar(n % 10)];
      assert r[..|r| - 1] == p;
      r
  }

  function IntToString(i: int): string {
    if i < 0 then "-" + NatToString(-i) else NatToString(i)
  }
}

/** parseTextWBS (lib/msProjectGenerator.js): one task per matching
    non-blank line of an indented outline, nested by indentation through a
    stack of open tasks. */
module WbsText {
  import opened Wrappers
  import opened Text
  import opened WbsData

  // ---------------------------------------------------------------------
  // The line pattern
  //   /^(?:(\d+(?:\.\d+)*)\s+)?(.+?)(?:\s*\((\d+)\s*days?\))?$/i
  // matched against a trimmed line, with the backtracking order of a
  // JavaScript regular expression.
  // ---------------------------------------------------------------------

  /** Where `(?:\.\d+)*`, matched greedily from `i`, stops. */
  function DottedEnd(t: string, i: nat): (e: nat)
    requires i <= |t| && (i == |t| || !IsDigit(t[i]))
    ensures i <= e <= |t|
    ensures e == |t| || !IsDigit(t[e])
    ensures e == |t| || t[e] != '.' || e + 1 == |t| || !IsDigit(t[e + 1])
    decreases |t| - i
  {
    if i + 1 < |t| && t[i] == '.' && IsDigit(t[i + 1]) then
      DottedEnd(t, i + 1 + Run(t, i + 1, IsDigit))
    else i
  }

  /** Where the outline number `\d+(?:\.\d+)*` at the start of `t` ends, 0
      when `t` does not start with a digit. A shorter match of the number
      ends before a digit or a dot, where `\s+` cannot continue, so the
      longest one is the only one that can take part in a match. */
  function NumberEnd(t: string): (e: nat)
    ensures e <= |t|
    ensures e > 0 <==> t != [] && IsDigit(t[0])
    ensures e > 0 ==> e == |t| || !IsDigit(t[e])
  {
    var d := Run(t, 0, IsDigit);
    if d == 0 then 0 else DottedEnd(t, d)
  }

  /** `t[i..i + 3]` is "day" in any ASCII case (the `i` flag). */
  predicate DayAt(t: string, i: nat) {
    i + 3 <= |t| && LowerChar(t[i]) == 'd' && LowerChar(t[i + 1]) == 'a' && LowerChar(t[i + 2]) == 'y'
  }

  /** `(?:\s*\((\d+)\s*days?\))$` tried at `p`: the captured digits when the
      rest of the line is exactly such a suffix. Each `\s*` and `\d+` is
      followed by a character it cannot match, so no backtracking into
      them can help and the match is deterministic. */
  function SuffixAt(t: string, p: nat): (r: Option<string>)
    requires p <= |t|
    ensures r.Some? ==> r.value != [] && AllDigits(r.value)
    ensures r.Some? ==> p < |t| && t[|t| - 1] == ')'
  {
    var a := p + Run(t, p, IsJsSpace);
    if a < |t| && t[a] == '(' then
      var d := Run(t, a + 1, IsDigit);
      var c := a + 1 + d;
      var e := c + Run(t, c, IsJsSpace);
      if d > 0 && DayAt(t, e)
         && ((e + 4 == |t| && t[e + 3] == ')')
             || (e + 5 == |t| && LowerChar(t[e + 3]) == 's' && t[e + 4] == ')'))
      then RunHolds(t, a + 1, IsDigit); Some(t[a + 1..c])
      else None
    else None
  }

  /** The lazy name group `(.+?)` having taken the characters before `p`:
      the first end at which the optional suffix, or the end of the line,
      follows; `None` when a line terminator (which `.` does not match)
      comes first. */
  function NameEnd(t: string, p: nat): (r: Option<nat>)
    requires 1 <= p <= |t|
    ensures r.Some? ==> p <= r.value <= |t|
    decreases |t| - p
  {
    if IsLineTerminator(t[p - 1]) then None
    else if SuffixAt(t, p).Some? || p == |t| then Some(p)
    else NameEnd(t, p + 1)
  }

  /** The end found is the first one after which the suffix or the end of
      the line follows, and the name up to it crosses no line terminator. */
  lemma {:induction false} NameEndIsFirst(t: string, p: nat)
    requires 1 <= p <= |t|
    ensures var r := NameEnd(t, p);
            r.Some? ==> (r.value == |t| || SuffixAt(t, r.value).Some?)
                        && (forall q :: p <= q < r.value ==> SuffixAt(t, q).None?)
                        && (forall j :: p - 1 <= j < r.value ==> !IsLineTerminator(t[j]))
  {
    NameEndStops(t, p);
    NameEndSkipsNoSuffix(t, p);
    NameEndCrossesNoTerminator(t, p);
  }

  lemma {:induction false} NameEndStops(t: string, p: nat)
    requires 1 <= p <= |t|
    ensures var r := NameEnd(t, p); r.Some? ==> r.value == |t| || SuffixAt(t, r.value).Some?
    decreases |t| - p
  {
    if !IsLineTerminator(t[p - 1]) && !(SuffixAt(t, p).Some? || p == |t|) {
      NameEndStops(t, p + 1);
    }
  }

  lemma {:induction false} NameEndSkipsNoSuffix(t: string, p: nat)
    requires 1 <= p <= |t|
    ensures var r := NameEnd(t, p); r.Some? ==> forall q :: p <= q < r.value ==> SuffixAt(t, q).None?
    decreases |t| - p
  {
    if !IsLineTerminator(t[p - 1]) && !(SuffixAt(t, p).Some? || p == |t|) {
      NameEndSkipsNoSuffix(t, p + 1);
    }
  }

  lemma {:induction false} NameEndCrossesNoTerminator(t: string, p: nat)
    requires 1 <= p <= |t|
    ensures var r := NameEnd(t, p); r.Some? ==> forall j :: p - 1 <= j < r.value ==> !IsLineTerminator(t[j])
    decreases |t| - p
  {
    if !IsLineTerminator(t[p - 1]) && !(SuffixAt(t, p).Some? || p == |t|) {
      NameEndCrossesNoTerminator(t, p + 1);
    }
  }

  /** The name group fails only at a line terminator. */
  lemma {:induction false} NameEndWithoutTerminator(t: string, p: nat)
    requires 1 <= p <= |t|
    requires forall j :: p - 1 <= j < |t| ==> !IsLineTerminator(t[j])
    ensures NameEnd(t, p).Some?
    decreases |t| - p
  {
    if !(SuffixAt(t, p).Some? || p == |t|) {
      NameEndWithoutTerminator(t, p + 1);
    }
  }

  /** The three groups: the outline number ("" when the optional group did
      not take part), the raw name, and the day count's digits. */
  datatype LineMatch = LineMatch(number: string, name: string, days: Option<string>) {
    /** The day count, when captured, is a non-empty run of digits. */
    predicate DaysAreDigits() {
      days.Some? ==> days.value != [] && AllDigits(days.value)
    }
  }

  /** The rest of the pattern with the name starting at `s`. */
  function MatchFrom(t: string, s: nat, number: string): (r: Option<LineMatch>)
    requires s <= |t|
    ensures r.Some? ==> r.value.number == number && r.value.name != [] && r.value.DaysAreDigits()
  {
    if s == |t| then None
    else
      match NameEnd(t, s + 1)
      case None => None
      case Some(p) => Some(LineMatch(number, t[s..p], SuffixAt(t, p)))
  }

  /** The name is the shortest non-empty text from `s`, free of line
      terminators, after which the suffix or the end of the line follows;
      the day digits are that suffix's. */
  lemma MatchFromIsLazy(t: string, s: nat, number: string)
    requires s <= |t|
    ensures var r := MatchFrom(t, s, number);
            r.Some? ==>
              var n := r.value.name;
              && s + |n| <= |t| && t[s..s + |n|] == n
              && (forall j :: 0 <= j < |n| ==> !IsLineTerminator(n[j]))
              && r.value.days == SuffixAt(t, s + |n|)
              && (s + |n| == |t| || r.value.days.Some?)
              && (forall q :: s < q < s + |n| ==> SuffixAt(t, q).None?)
  {
    MatchFromName(t, s, number);
    MatchFromStops(t, s, number);
    MatchFromSkips(t, s, number);
  }

  lemma MatchFromName(t: string, s: nat, number: string)
    requires s <= |t|
    ensures var r := MatchFrom(t, s, number);
            r.Some? ==>
              var n := r.value.name;
              && s + |n| <= |t| && t[s..s + |n|] == n
              && (forall j :: 0 <= j < |n| ==> !IsLineTerminator(n[j]))
  {
    if s < |t| && NameEnd(t, s + 1).Some? {
      var p := NameEnd(t, s + 1).value;
      NameEndCrossesNoTerminator(t, s + 1);
      assert forall j :: 0 <= j < p - s ==> t[s..p][j] == t[s + j];
    }
  }

  lemma MatchFromStops(t: string, s: nat, number: string)
    requires s <= |t|
    ensures var r := MatchFrom(t, s, number);
            r.Some? ==>
              var e := s + |r.value.name|;
              && e <= |t| && r.value.days == SuffixAt(t, e)
              && (e == |t| || r.value.days.Some?)
  {
    if s < |t| && NameEnd(t, s + 1).Some? {
      NameEndStops(t, s + 1);
    }
  }

  lemma MatchFromSkips(t: string, s: nat, number: string)
    requires s <= |t|
    ensures var r := MatchFrom(t, s, number);
            r.Some? ==> forall q :: s < q < s + |r.value.name| ==> SuffixAt(t, q).None?
  {
    if s < |t| && NameEnd(t, s + 1).Some? {
      NameEndSkipsNoSuffix(t, s + 1);
    }
  }

  /** The number group `(\d+(?:\.\d+)*)\s+` taken with the whitespace
      ending at `s`; on failure, one whitespace character fewer. */
  function WithNumber(t: string, e: nat, s: nat): (r: Option<LineMatch>)
    requires 0 < e < s <= |t|
    ensures r.Some? ==> r.value.number == t[..e] && r.value.name != [] && r.value.DaysAreDigits()
    decreases s
  {
    match MatchFrom(t, s, t[..e])
    case Some(m) => Some(m)
    case None => if s - 1 > e then WithNumber(t, e, s - 1) else None
  }

  /** `trimmed.match(pattern)`: first with the number group, then without. */
  function MatchLine(t: string): (r: Option<LineMatch>)
    ensures r.Some? ==> r.value.name != [] && r.value.DaysAreDigits()
    ensures r.Some? && r.value.number != [] ==>
      var e := NumberEnd(t);
      r.value.number == t[..e] && e < |t| && IsJsSpace(t[e])
  {
    var e := NumberEnd(t);
    var w := Run(t, e, IsJsSpace);
    var withNumber := if e > 0 && w > 0 then WithNumber(t, e, e + w) else None;
    if withNumber.Some? then withNumber else MatchFrom(t, 0, "")
  }

  /** The outline number is captured only when whitespace follows it: in
      "1. Planning" or "1.2.Design" it stays part of the name. */
  lemma NumberNeedsSpace(t: string)
    requires var e := NumberEnd(t); e == 0 || e == |t| || !IsJsSpace(t[e])
    ensures MatchLine(t).Some? ==> MatchLine(t).value.number == ""
  {
  }

  /** A non-empty trimmed line without a line terminator always matches. */
  lemma PlainLineMatches(t: string)
    ensures t != [] && (forall j :: 0 <= j < |t| ==> !IsLineTerminator(t[j])) ==> MatchLine(t).Some?
  {
    if t != [] && forall j :: 0 <= j < |t| ==> !IsLineTerminator(t[j]) {
      NameEndWithoutTerminator(t, 1);
    }
  }

  /** Trimming cannot introduce a line terminator. */
  lemma TrimKeepsPlain(line: string)
    ensures (forall j :: 0 <= j < |line| ==> !IsLineTerminator(line[j]))
            ==> forall j :: 0 <= j < |JsTrim(line)| ==> !IsLineTerminator(JsTrim(line)[j])
  {
    var t := JsTrim(line);
    var o := TrimOffset(line, IsJsSpace);
    TrimIsInfix(line, IsJsSpace);
    forall j | 0 <= j < |t| ensures t[j] == line[o + j] { }
  }

  // ---------------------------------------------------------------------
  // Lines
  // ---------------------------------------------------------------------

  /** One matched line: its indentation level and the task fields. */
  datatype Row = Row(level: nat, wbs: string, name: string, duration: nat)

  /** `line.search(/\S/)`: the width of the indentation. */
  function Indent(line: string): nat {
    Run(line, 0, IsJsSpace)
  }

  /** One line: skipped when blank or when the pattern does not match;
      the duration is the captured day count, 1 without one. */
  function ParseLine(line: string): (r: Option<Row>)
    ensures r.Some? ==> JsTrim(line) != ""
    ensures r.Some? ==> r.value.level == Indent(line) / 2
    ensures r.Some? ==> (r.value.wbs != "" ==> IsDigit(r.value.wbs[0]))
    ensures JsTrim(line) != "" && (forall j :: 0 <= j < |line| ==> !IsLineTerminator(line[j])) ==> r.Some?
  {
    var t := JsTrim(line);
    if t == "" then None
    else
      TrimKeepsPlain(line);
      PlainLineMatches(t);
      match MatchLine(t)
      case None => None
      case Some(m) =>
        Some(Row(Indent(line) / 2, m.number, JsTrim(m.name),
                 if m.days.Some? then DecimalValue(m.days.value) else 1))
  }

  /** `line.trim()` is truthy. */
  predicate NonBlank(line: string) {
    JsTrim(line) != ""
  }

  /** `text.split('\n').filter(line => line.trim())` */
  function NonBlankLines(lines: seq<string>): (r: seq<string>)
    ensures |r| <= |lines|
  {
    Filter(lines, NonBlank)
  }

  /** The lines kept are the non-blank ones, and every non-blank line is kept. */
  lemma NonBlankLinesFilter(lines: seq<string>)
    ensures var r := NonBlankLines(lines);
            && (forall i :: 0 <= i < |r| ==> NonBlank(r[i]) && r[i] in lines)
            && (forall l :: l in lines && NonBlank(l) ==> l in r)
  {
    FilterMembers(lines, NonBlank);
  }



  /** The rows of the lines that match, in order. */
  function Rows(lines: seq<string>): (r: seq<Row>)
    ensures |r| <= |lines|
    decreases |lines|
  {
    if lines == [] then []
    else
      match ParseLine(lines[0])
      case None => Rows(lines[1..])
      case Some(row) => [row] + Rows(lines[1..])
  }

  /** When every line matches, every line gives a row. */
  lemma {:induction false} RowsKeepEveryMatch(lines: seq<string>)
    requires forall i :: 0 <= i < |lines| ==> ParseLine(lines[i]).Some?
    ensures |Rows(lines)| == |lines|
    decreases |lines|
  {
    if lines != [] {
      assert ParseLine(lines[0]).Some?;
      assert forall i :: 0 <= i < |lines[1..]| ==> lines[1..][i] == lines[i + 1];
      RowsKeepEveryMatch(lines[1..]);
    }
  }

  /** A text whose only line terminator is the line feed gives one row
      per non-blank line. */
  lemma OneRowPerLine(text: string)
    requires forall x :: x in text ==> x == '\n' || !IsLineTerminator(x)
    ensures |TextRows(text)| == |NonBlankLines(SplitOn(text, '\n'))|
  {
    var ls := SplitOn(text, '\n');
    PiecesArePlain(text);
    var nb := NonBlankLines(ls);
    NonBlankLinesFilter(ls);
    assert forall i :: 0 <= i < |nb| ==> NonBlank(nb[i]) && Plain(nb[i]);
    PlainLinesParse(nb);
    RowsKeepEveryMatch(nb);
  }

  /** A trimmed line without line terminators matches with a name that
      starts with a non-space character: the greedy `\s+` after the
      outline number leaves the name at the next visible character. */
  lemma PlainMatchNamed(t: string)
    requires t != [] && !IsJsSpace(t[0]) && !IsJsSpace(t[|t| - 1]) && Plain(t)
    ensures MatchLine(t).Some? && !IsJsSpace(MatchLine(t).value.name[0])
  {
    var e := NumberEnd(t);
    var w := Run(t, e, IsJsSpace);
    if e > 0 && w > 0 {
      RunHolds(t, e, IsJsSpace);
      MatchFromFirst(t, e + w, t[..e]);
    } else {
      MatchFromFirst(t, 0, "");
    }
  }

  /** With no line terminator ahead, the name group matches and starts
      where it is tried. */
  lemma MatchFromFirst(t: string, s: nat, number: string)
    requires s < |t| && forall j :: s <= j < |t| ==> !IsLineTerminator(t[j])
    ensures MatchFrom(t, s, number).Some? && MatchFrom(t, s, number).value.name[0] == t[s]
  {
    NameEndWithoutTerminator(t, s + 1);
    MatchFromName(t, s, number);
  }

  /** A non-blank line without line terminators gives a row with a
      non-empty name. */
  lemma PlainLineNamed(line: string)
    requires NonBlank(line) && Plain(line)
    ensures ParseLine(line).Some? && ParseLine(line).value.name != ""
  {
    var t := JsTrim(line);
    assert Plain(t) by { TrimKeepsPlain(line); }
    PlainMatchNamed(t);
    VisibleStartTrims(MatchLine(t).value.name);
    ParseLineName(line);
  }

  /** The row's name is the trimmed name group. */
  lemma ParseLineName(line: string)
    ensures ParseLine(line).Some? ==>
      MatchLine(JsTrim(line)).Some? && ParseLine(line).value.name == JsTrim(MatchLine(JsTrim(line)).value.name)
  {
  }

  lemma VisibleStartTrims(s: string)
    requires s != [] && !IsJsSpace(s[0])
    ensures JsTrim(s) != ""
  {
    assert !AllSpace(s, IsJsSpace);
  }

  lemma {:induction false} RowsNamed(lines: seq<string>)
    requires forall i :: 0 <= i < |lines| ==> NonBlank(lines[i]) && Plain(lines[i])
    ensures forall i :: 0 <= i < |Rows(lines)| ==> Rows(lines)[i].name != ""
    decreases |lines|
  {
    if lines != [] {
      PlainLineNamed(lines[0]);
      PlainTail(lines);
      RowsNamed(lines[1..]);
      RowsCons(lines);
      NamedCons(ParseLine(lines[0]), Rows(lines[1..]), Rows(lines));
    }
  }

  lemma PlainTail(lines: seq<string>)
    requires lines != []
    requires forall i :: 0 <= i < |lines| ==> NonBlank(lines[i]) && Plain(lines[i])
    ensures forall i :: 0 <= i < |lines[1..]| ==> NonBlank(lines[1..][i]) && Plain(lines[1..][i])
  {
    assert forall i :: 0 <= i < |lines[1..]| ==> lines[1..][i] == lines[i + 1];
  }

  lemma RowsCons(lines: seq<string>)
    requires lines != []
    ensures Rows(lines) == (if ParseLine(lines[0]).Some? then [ParseLine(lines[0]).value] else []) + Rows(lines[1..])
  {
  }

  lemma NamedCons(head: Option<Row>, rest: seq<Row>, r: seq<Row>)
    requires head.Some? ==> head.value.name != ""
    requires forall i :: 0 <= i < |rest| ==> rest[i].name != ""
    requires r == (if head.Some? then [head.value] else []) + rest
    ensures forall i :: 0 <= i < |r| ==> r[i].name != ""
  {
  }

  /** With LF as the only line terminator, every row has a name. */
  lemma TextRowsNamed(text: string)
    requires forall x :: x in text ==> x == '\n' || !IsLineTerminator(x)
    ensures forall i :: 0 <= i < |TextRows(text)| ==> TextRows(text)[i].name != ""
  {
    var ls := SplitOn(text, '\n');
    PiecesArePlain(text);
    var nb := NonBlankLines(ls);
    NonBlankLinesFilter(ls);
    assert forall i :: 0 <= i < |nb| ==> NonBlank(nb[i]) && Plain(nb[i]);
    RowsNamed(nb);
  }

  /** A line without line terminators. */
  predicate Plain(line: string) {
    forall j :: 0 <= j < |line| ==> !IsLineTerminator(line[j])
  }

  lemma PiecesArePlain(text: string)
    requires forall x :: x in text ==> x == '\n' || !IsLineTerminator(x)
    ensures forall l :: l in SplitOn(text, '\n') ==> Plain(l)
  {
    SplitOnChars(text, '\n');
    PlainPieces(text, SplitOn(text, '\n'));
  }

  lemma PlainPieces(text: string, ls: seq<string>)
    requires forall x :: x in text ==> x == '\n' || !IsLineTerminator(x)
    requires forall i, x :: 0 <= i < |ls| && x in ls[i] ==> x in text
    requires forall i :: 0 <= i < |ls| ==> '\n' !in ls[i]
    ensures forall l :: l in ls ==> Plain(l)
  {
    forall l | l in ls ensures Plain(l) {
      var k :| 0 <= k < |ls| && ls[k] == l;
      forall j | 0 <= j < |l| ensures !IsLineTerminator(l[j]) {
        assert l[j] in ls[k];
      }
    }
  }

  lemma PlainLinesParse(lines: seq<string>)
    requires forall i :: 0 <= i < |lines| ==> NonBlank(lines[i]) && Plain(lines[i])
    ensures forall i :: 0 <= i < |lines| ==> ParseLine(lines[i]).Some?
  {
  }

  // ---------------------------------------------------------------------
  // Nesting
  // ---------------------------------------------------------------------

  /** The last row at or before `j` whose level is below `level`; -1 when
      there is none. */
  function Shallower(rows: seq<Row>, j: int, level: nat): (r: int)
    requires -1 <= j < |rows|
    ensures -1 <= r <= j
    ensures r >= 0 ==> rows[r].level < level
    ensures forall i :: r < i <= j ==> rows[i].level >= level
    decreases j + 1
  {
    if j < 0 then -1 else if rows[j].level < level then j else Shallower(rows, j - 1, level)
  }

  /** A stack frame above the sentinel: a task's level and row number. */
  datatype Frame = Frame(level: nat, index: nat)

  /** The stack height once every frame at `level` or deeper is popped;
      the sentinel (level -1) is never popped. */
  function PopTo(stack: seq<Frame>, level: nat): (h: nat)
    ensures h <= |stack|
    ensures forall i :: h <= i < |stack| ==> stack[i].level >= level
    ensures h == 0 || stack[h - 1].level < level
    decreases |stack|
  {
    if stack != [] && stack[|stack| - 1].level >= level then PopTo(stack[..|stack| - 1], level)
    else |stack|
  }

  /** How deep the last-added path of the forest goes. */
  function RightDepth(f: seq<Entry>): nat
    decreases f
  {
    if f == [] then 0 else EntryDepth(f[|f| - 1])
  }

  function EntryDepth(e: Entry): nat
    decreases e
  {
    if e.Item? then 1 + RightDepth(e.task.children) else 0
  }

  /** Appends a leaf to the children of the node at depth `h` on the
      last-added path (to the top-level list when `h` is 0): the
      `parent.children.push(task)` of the stack's top frame. */
  function AppendAt(f: seq<Entry>, h: nat, leaf: Task): (r: seq<Entry>)
    requires h <= RightDepth(f) && leaf.children == []
    ensures RightDepth(r) == h + 1
    ensures Size(r) == Size(f) + 1
    ensures !HasNull(f) ==> !HasNull(r)
    decreases f
  {
    if h == 0 then
      SizeConcat(f, [Item(leaf)]);
      HasNullConcat(f, [Item(leaf)]);
      assert !HasNull([Item(leaf)]) by {
        assert [Item(leaf)][1..] == [];
        assert !EntryHasNull(Item(leaf)) by {
          assert !HasNull(leaf.children);
        }
      }
      var r := f + [Item(leaf)];
      assert r[|r| - 1] == Item(leaf) && EntryDepth(Item(leaf)) == 1;
      r
    else
      var init := f[..|f| - 1];
      var last := f[|f| - 1];
      var last2 := AppendUnder(last, h, leaf);
      assert f == init + [last];
      SizeConcat(init, [last]);
      SizeConcat(init, [last2]);
      HasNullConcat(init, [last]);
      HasNullConcat(init, [last2]);
      init + [last2]
  }

  /** The same inside the task `e`, `h` levels down (the task itself is
      level 1). */
  function AppendUnder(e: Entry, h: nat, leaf: Task): (r: Entry)
    requires 1 <= h <= EntryDepth(e) && leaf.children == []
    ensures EntryDepth(r) == h + 1
    ensures EntrySize(r) == EntrySize(e) + 1
    ensures !EntryHasNull(e) ==> !EntryHasNull(r)
    decreases e
  {
    var t := e.task;
    Item(t.(children := AppendAt(t.children, h - 1, leaf)))
  }

  /** In pre-order, the appended leaf comes after every earlier task. */
  lemma {:induction false} AppendFlatten(f: seq<Entry>, h: nat, leaf: Task)
    requires h <= RightDepth(f) && leaf.children == []
    ensures Flatten(AppendAt(f, h, leaf)) == Flatten(f) + [leaf]
    decreases f
  {
    AppendAtStep(f, h, leaf);
    if h == 0 {
      FlattenConcat(f, [Item(leaf)]);
      assert Flatten([Item(leaf)]) == [leaf] by {
        assert [Item(leaf)][1..] == [];
        assert leaf.(children := []) == leaf;
      }
    } else {
      var init := f[..|f| - 1];
      var last := f[|f| - 1];
      SnocLast(f);
      FlattenConcat(init, [last]);
      FlattenConcat(init, [AppendUnder(last, h, leaf)]);
      assert Flatten([last]) == FlattenEntry(last) by {
        assert [last][1..] == [];
      }
      assert Flatten([AppendUnder(last, h, leaf)]) == FlattenEntry(AppendUnder(last, h, leaf)) by {
        assert [AppendUnder(last, h, leaf)][1..] == [];
      }
      EntryAppendFlatten(last, h, leaf);
      Snoc3(Flatten(init), FlattenEntry(last), leaf);
    }
  }

  lemma {:induction false} EntryAppendFlatten(e: Entry, h: nat, leaf: Task)
    requires 1 <= h <= EntryDepth(e) && leaf.children == []
    ensures FlattenEntry(AppendUnder(e, h, leaf)) == FlattenEntry(e) + [leaf]
    decreases e
  {
    var t := e.task;
    var t2 := t.(children := AppendAt(t.children, h - 1, leaf));
    assert t2.(children := []) == t.(children := []);
    AppendFlatten(t.children, h - 1, leaf);
  }

  /** The parser's state: the tasks so far, the stack of open frames and,
      for the record, the row each task was attached under (-1 for the
      top-level list). */
  datatype Build = Build(forest: seq<Entry>, stack: seq<Frame>, parents: seq<int>)

  /** The task a row becomes. */
  function RowTask(row: Row): Task {
    Leaf(row.name, row.duration, row.wbs, [])
  }

  function Labels(rows: seq<Row>): (r: seq<Task>)
    ensures |r| == |rows|
  {
    seq(|rows|, i requires 0 <= i < |rows| => RowTask(rows[i]))
  }

  /** Row `k`: pop the frames at its level or deeper, attach it under the
      top frame, push it. */
  function Insert(b: Build, k: nat, row: Row): (r: Build)
    requires RightDepth(b.forest) == |b.stack|
    ensures RightDepth(r.forest) == |r.stack|
    ensures Size(r.forest) == Size(b.forest) + 1
    ensures !HasNull(b.forest) ==> !HasNull(r.forest)
    ensures r.parents == b.parents + [Top(b.stack[..PopTo(b.stack, row.level)])]
    ensures r.stack == b.stack[..PopTo(b.stack, row.level)] + [Frame(row.level, k)]
  {
    var h := PopTo(b.stack, row.level);
    Build(AppendAt(b.forest, h, RowTask(row)),
          b.stack[..h] + [Frame(row.level, k)],
          b.parents + [Top(b.stack[..h])])
  }

  /** The row number of the top frame; -1 for the sentinel. */
  function Top(stack: seq<Frame>): int {
    if stack == [] then -1 else stack[|stack| - 1].index
  }

  /** Every frame's row sits right above the nearest shallower row before
      it: the frame below is that row (the sentinel when there is none). */
  ghost predicate Chain(rows: seq<Row>, stack: seq<Frame>) {
    (forall p :: 0 <= p < |stack| ==>
       stack[p].index < |rows| && stack[p].level == rows[stack[p].index].level)
    && (|stack| > 0 ==> Shallower(rows, stack[0].index - 1, stack[0].level) == -1)
    && (forall p, q {:trigger stack[p], stack[q]} :: 0 <= p && q == p + 1 && q < |stack| ==>
          stack[p].index == Shallower(rows, stack[q].index - 1, stack[q].level))
  }

  function BuildRows(rows: seq<Row>): (b: Build)
    ensures RightDepth(b.forest) == |b.stack|
    ensures |b.parents| == |rows|
    ensures Size(b.forest) == |rows|
    ensures !HasNull(b.forest)
    decreases |rows|
  {
    if rows == [] then Build([], [], [])
    else Insert(BuildRows(rows[..|rows| - 1]), |rows| - 1, rows[|rows| - 1])
  }

  lemma InsertForest(b: Build, k: nat, row: Row)
    requires RightDepth(b.forest) == |b.stack|
    ensures Insert(b, k, row).forest == AppendAt(b.forest, PopTo(b.stack, row.level), RowTask(row))
  {
  }

  lemma LabelsSnoc(rows: seq<Row>)
    requires rows != []
    ensures Labels(rows) == Labels(rows[..|rows| - 1]) + [RowTask(rows[|rows| - 1])]
  {
  }

  /** The forest holds the rows' tasks in row order. */
  lemma {:induction false} BuildFlatten(rows: seq<Row>)
    ensures Flatten(BuildRows(rows).forest) == Labels(rows)
    decreases |rows|
  {
    if rows != [] {
      var prev := rows[..|rows| - 1];
      var b := BuildRows(prev);
      var row := rows[|rows| - 1];
      BuildFlatten(prev);
      InsertForest(b, |rows| - 1, row);
      AppendFlatten(b.forest, PopTo(b.stack, row.level), RowTask(row));
      LabelsSnoc(rows);
    }
  }

  /** parseTextWBS(text): the top-level tasks, with the rest nested under
      them. */
  function ParseTextWbs(text: string): (r: seq<Entry>)
    ensures Size(r) == |TextRows(text)|
    ensures Flatten(r) == Labels(TextRows(text))
    ensures !HasNull(r)
  {
    BuildFlatten(TextRows(text));
    BuildRows(TextRows(text)).forest
  }

  function TextRows(text: string): seq<Row> {
    Rows(NonBlankLines(SplitOn(text, '\n')))
  }

  // ---------------------------------------------------------------------
  // The stack finds each row's parent
  // ---------------------------------------------------------------------

  lemma {:induction false} ShallowerPrefix(rows: seq<Row>, m: nat, j: int, level: nat)
    requires -1 <= j < m <= |rows|
    ensures Shallower(rows[..m], j, level) == Shallower(rows, j, level)
    decreases j + 1
  {
    if j >= 0 {
      assert rows[..m][j] == rows[j];
      ShallowerPrefix(rows, m, j - 1, level);
    }
  }

  /** A row's nearest shallower row is the same within a prefix holding it. */
  lemma ShallowerOfPrefix(rows: seq<Row>, n: nat, k: nat)
    requires k < n <= |rows|
    ensures Shallower(rows[..n], k - 1, rows[..n][k].level) == Shallower(rows, k - 1, rows[k].level)
  {
    assert rows[..n][k] == rows[k];
    ShallowerPrefix(rows, n, k - 1, rows[k].level);
  }

  /** Skipping first to a row shallower than `deep` loses no row shallower
      than `level <= deep`. */
  lemma {:induction false} ShallowerJump(rows: seq<Row>, j: int, level: nat, deep: nat)
    requires -1 <= j < |rows| && level <= deep
    ensures var a := Shallower(rows, j, deep);
      Shallower(rows, j, level) == (if a < 0 then -1 else Shallower(rows, a, level))
    decreases j + 1
  {
    if j >= 0 && rows[j].level >= deep {
      ShallowerJump(rows, j - 1, level, deep);
    }
  }

  /** Popping to `level` leaves on top the nearest row shallower than
      `level` at or before the old top. */
  lemma {:induction false} PopFindsShallower(rows: seq<Row>, stack: seq<Frame>, level: nat)
    requires Chain(rows, stack)
    ensures -1 <= Top(stack) < |rows|
    ensures Top(stack[..PopTo(stack, level)]) == Shallower(rows, Top(stack), level)
    decreases |stack|
  {
    if stack != [] {
      var n := |stack| - 1;
      if stack[n].level >= level {
        ChainTake(rows, stack, n);
        PopFindsShallower(rows, stack[..n], level);
        PopStep(rows, stack, level);
      } else {
        assert stack[..|stack|] == stack;
      }
    }
  }

  /** Popping the top frame, then the rest. */
  lemma PopStep(rows: seq<Row>, stack: seq<Frame>, level: nat)
    requires stack != [] && Chain(rows, stack) && stack[|stack| - 1].level >= level
    requires var below := stack[..|stack| - 1];
             Top(below[..PopTo(below, level)]) == Shallower(rows, Top(below), level)
    ensures Top(stack[..PopTo(stack, level)]) == Shallower(rows, Top(stack), level)
  {
    var n := |stack| - 1;
    var top := stack[n];
    var below := stack[..n];
    var h := PopTo(below, level);
    assert PopTo(stack, level) == h;
    TopTake(stack, n, h);
    ShallowerJump(rows, top.index - 1, level, top.level);
    if n > 0 {
      assert Top(below) == stack[n - 1].index;
    }
  }

  /** The top of a prefix of a prefix. */
  lemma TopTake(stack: seq<Frame>, n: nat, h: nat)
    requires h <= n <= |stack|
    ensures Top(stack[..n][..h]) == Top(stack[..h])
  {
    if h > 0 {
      assert stack[..n][..h][h - 1] == stack[h - 1];
    }
  }

  lemma ChainWiden(rows: seq<Row>, m: nat, stack: seq<Frame>)
    requires m <= |rows| && Chain(rows[..m], stack)
    ensures Chain(rows, stack)
  {
    forall p | 0 <= p < |stack|
      ensures stack[p].index < |rows| && stack[p].level == rows[stack[p].index].level
      ensures Shallower(rows, stack[p].index - 1, stack[p].level)
              == Shallower(rows[..m], stack[p].index - 1, stack[p].level)
    {
      assert rows[..m][stack[p].index] == rows[stack[p].index];
      ShallowerPrefix(rows, m, stack[p].index - 1, stack[p].level);
    }
  }

  lemma ChainTake(rows: seq<Row>, stack: seq<Frame>, h: nat)
    requires h <= |stack| && Chain(rows, stack)
    ensures Chain(rows, stack[..h])
  {
    forall p | 0 <= p < h ensures stack[..h][p] == stack[p] { }
  }

  lemma ChainPush(rows: seq<Row>, stack: seq<Frame>, k: nat)
    requires k < |rows| && Chain(rows, stack)
    requires Top(stack) == Shallower(rows, k - 1, rows[k].level)
    ensures Chain(rows, stack + [Frame(rows[k].level, k)])
  {
    var s := stack + [Frame(rows[k].level, k)];
    forall p | 0 <= p < |stack| ensures s[p] == stack[p] { }
    assert s[|stack|] == Frame(rows[k].level, k);
  }

  lemma InsertKeepsChain(rows: seq<Row>, b: Build)
    requires rows != [] && RightDepth(b.forest) == |b.stack|
    requires Chain(rows[..|rows| - 1], b.stack) && Top(b.stack) == |rows| - 2
    ensures Chain(rows, Insert(b, |rows| - 1, rows[|rows| - 1]).stack)
    ensures Top(Insert(b, |rows| - 1, rows[|rows| - 1]).stack) == |rows| - 1
    ensures Insert(b, |rows| - 1, rows[|rows| - 1]).parents[|b.parents|]
            == Shallower(rows, |rows| - 2, rows[|rows| - 1].level)
  {
    var k := |rows| - 1;
    var below := b.stack[..PopTo(b.stack, rows[k].level)];
    PopFindsParent(rows, b.stack);
    PushAfterPop(rows, b.stack);
    var r := Insert(b, k, rows[k]);
    assert r.stack == below + [Frame(rows[k].level, k)];
    assert r.parents[|b.parents|] == Top(below);
  }

  /** After popping to the new row's level, the top is the row's parent. */
  lemma PopFindsParent(rows: seq<Row>, stack: seq<Frame>)
    requires rows != [] && Chain(rows[..|rows| - 1], stack) && Top(stack) == |rows| - 2
    ensures var k := |rows| - 1;
            Top(stack[..PopTo(stack, rows[k].level)]) == Shallower(rows, k - 1, rows[k].level)
  {
    var k := |rows| - 1;
    PopFindsShallower(rows[..k], stack, rows[k].level);
    ShallowerPrefix(rows, k, k - 1, rows[k].level);
  }

  /** Pushing the new row on the popped stack keeps the chain. */
  lemma PushAfterPop(rows: seq<Row>, stack: seq<Frame>)
    requires rows != [] && Chain(rows[..|rows| - 1], stack) && Top(stack) == |rows| - 2
    ensures var k := |rows| - 1;
            Chain(rows, stack[..PopTo(stack, rows[k].level)] + [Frame(rows[k].level, k)])
  {
    var k := |rows| - 1;
    var h := PopTo(stack, rows[k].level);
    PopFindsParent(rows, stack);
    ChainWiden(rows, k, stack);
    ChainTake(rows, stack, h);
    ChainPush(rows, stack[..h], k);
  }

  /** The stack state after every prefix of the rows. */
  lemma {:induction false} BuildChain(rows: seq<Row>)
    ensures Chain(rows, BuildRows(rows).stack) && Top(BuildRows(rows).stack) == |rows| - 1
    decreases |rows|
  {
    if rows != [] {
      var prev := rows[..|rows| - 1];
      BuildChain(prev);
      InsertKeepsChain(rows, BuildRows(prev));
    }
  }

  lemma BuildRowsStep(rows: seq<Row>)
    requires rows != []
    ensures BuildRows(rows) == Insert(BuildRows(rows[..|rows| - 1]), |rows| - 1, rows[|rows| - 1])
  {
  }

  /** Adding a row leaves the parents of the earlier rows as they were. */
  lemma ParentsPrefix(rows: seq<Row>, k: nat)
    requires k < |rows| - 1
    ensures BuildRows(rows).parents[k] == BuildRows(rows[..|rows| - 1]).parents[k]
  {
    BuildRowsStep(rows);
    var prev := rows[..|rows| - 1];
    InsertKeepsParents(BuildRows(prev), |rows| - 1, rows[|rows| - 1], k);
  }

  lemma InsertKeepsParents(b: Build, k: nat, row: Row, i: nat)
    requires RightDepth(b.forest) == |b.stack|
    requires i < |b.parents|
    ensures Insert(b, k, row).parents[i] == b.parents[i]
  {
  }

  /** The parent of the last row is the nearest shallower row before it. */
  lemma LastParent(rows: seq<Row>)
    requires rows != []
    ensures BuildRows(rows).parents[|rows| - 1]
            == Shallower(rows, |rows| - 2, rows[|rows| - 1].level)
  {
    var prev := rows[..|rows| - 1];
    var b := BuildRows(prev);
    BuildRowsStep(rows);
    BuildChain(prev);
    InsertKeepsChain(rows, b);
  }

  /** The parents recorded for every row, by the nearest shallower row. */
  lemma {:induction false} ParentsAreShallower(rows: seq<Row>, k: nat)
    requires k < |rows|
    ensures BuildRows(rows).parents[k] == Shallower(rows, k - 1, rows[k].level)
    decreases |rows|
  {
    var n := |rows| - 1;
    if k < n {
      ParentsPrefix(rows, k);
      ParentsAreShallower(rows[..n], k);
      ShallowerOfPrefix(rows, n, k);
    } else {
      LastParent(rows);
    }
  }

  /** Each row is attached under the nearest earlier row with a smaller
      indentation level, or at the top level when there is none. */
  lemma ParentIsNearestShallower(rows: seq<Row>, k: nat)
    requires k < |rows|
    ensures var p := BuildRows(rows).parents[k];
      -1 <= p < k
      && (p >= 0 ==> rows[p].level < rows[k].level)
      && forall i :: p < i < k ==> rows[i].level >= rows[k].level
  {
    ParentsAreShallower(rows, k);
  }

  // ---------------------------------------------------------------------
  // The recorded parents are the forest's nesting
  // ---------------------------------------------------------------------

  /** The pre-order number of the node at depth `h` on the last-added path
      of a forest whose first node is numbered `off + 1`; depth 0 is the
      list itself, whose number is `parentId`. */
  function PathAt(f: seq<Entry>, h: nat, off: nat, parentId: Option<nat>): Option<nat>
    requires h <= RightDepth(f)
    decreases f
  {
    if h == 0 then parentId else EntryPathAt(f[|f| - 1], h, off + Size(f[..|f| - 1]))
  }

  function EntryPathAt(e: Entry, h: nat, off: nat): Option<nat>
    requires 1 <= h <= EntryDepth(e)
    decreases e
  {
    PathAt(e.task.children, h - 1, off + 1, Some(off + 1))
  }

  /** AppendAt, one level: at the top-level list, or under the last entry. */
  lemma AppendAtStep(f: seq<Entry>, h: nat, leaf: Task)
    requires h <= RightDepth(f) && leaf.children == []
    ensures h == 0 ==> AppendAt(f, h, leaf) == f + [Item(leaf)]
    ensures h > 0 ==> f != [] && AppendAt(f, h, leaf) == f[..|f| - 1] + [AppendUnder(f[|f| - 1], h, leaf)]
  {
  }

  lemma SnocLast<T>(f: seq<T>)
    requires f != []
    ensures f == f[..|f| - 1] + [f[|f| - 1]]
  {
  }

  lemma ParentsOfSnoc(init: seq<Entry>, e: Entry, off: nat, parentId: Option<nat>)
    ensures ParentsOf(init + [e], off, parentId) == ParentsOf(init, off, parentId) + EntryParents(e, off + Size(init), parentId)
  {
    ParentsOfConcat(init, [e], off, parentId);
    assert [e][1..] == [];
  }

  lemma SizeSnoc(init: seq<Entry>, e: Entry)
    ensures Size(init + [e]) == Size(init) + EntrySize(e)
  {
    SizeConcat(init, [e]);
    assert [e][1..] == [];
  }

  /** The path of a list ending in `e` runs through `e`. */
  lemma PathAtSnoc(init: seq<Entry>, e: Entry, off: nat, parentId: Option<nat>)
    ensures RightDepth(init + [e]) == EntryDepth(e)
    ensures forall q :: 1 <= q <= EntryDepth(e) ==> PathAt(init + [e], q, off, parentId) == EntryPathAt(e, q, off + Size(init))
  {
    var f := init + [e];
    assert f[..|f| - 1] == init && f[|f| - 1] == e;
  }

  lemma Snoc3<T>(a: seq<T>, b: seq<T>, x: T)
    ensures a + (b + [x]) == (a + b) + [x]
  {
  }

  /** The parent numbers of a forest after AppendAt: the old ones, then
      the number of the node the leaf went under. */
  lemma {:induction false} AppendParents(f: seq<Entry>, h: nat, leaf: Task, off: nat, parentId: Option<nat>)
    requires h <= RightDepth(f) && leaf.children == []
    ensures ParentsOf(AppendAt(f, h, leaf), off, parentId) == ParentsOf(f, off, parentId) + [PathAt(f, h, off, parentId)]
    decreases f
  {
    AppendAtStep(f, h, leaf);
    if h == 0 {
      ParentsOfSnoc(f, Item(leaf), off, parentId);
    } else {
      EntryAppendParents(f[|f| - 1], h, leaf, off + Size(f[..|f| - 1]), parentId);
      ParentsUnderLast(f, h, leaf, off, parentId);
    }
  }

  /** The step of AppendParents that goes under the last entry. */
  lemma ParentsUnderLast(f: seq<Entry>, h: nat, leaf: Task, off: nat, parentId: Option<nat>)
    requires 1 <= h <= RightDepth(f) && leaf.children == [] && f != []
    requires AppendAt(f, h, leaf) == f[..|f| - 1] + [AppendUnder(f[|f| - 1], h, leaf)]
    requires var last := f[|f| - 1]; var o := off + Size(f[..|f| - 1]);
      EntryParents(AppendUnder(last, h, leaf), o, parentId) == EntryParents(last, o, parentId) + [EntryPathAt(last, h, o)]
    ensures ParentsOf(AppendAt(f, h, leaf), off, parentId) == ParentsOf(f, off, parentId) + [PathAt(f, h, off, parentId)]
  {
    var init := f[..|f| - 1];
    var last := f[|f| - 1];
    var o := off + Size(init);
    assert ParentsOf(f, off, parentId) == ParentsOf(init, off, parentId) + EntryParents(last, o, parentId) by {
      SnocLast(f);
      ParentsOfSnoc(init, last, off, parentId);
    }
    assert ParentsOf(AppendAt(f, h, leaf), off, parentId)
           == ParentsOf(init, off, parentId) + EntryParents(AppendUnder(last, h, leaf), o, parentId) by {
      ParentsOfSnoc(init, AppendUnder(last, h, leaf), off, parentId);
    }
    assert PathAt(f, h, off, parentId) == EntryPathAt(last, h, o) by {
      SnocLast(f);
      PathAtSnoc(init, last, off, parentId);
    }
    Snoc3(ParentsOf(init, off, parentId), EntryParents(last, o, parentId), EntryPathAt(last, h, o));
  }

  lemma {:induction false} EntryAppendParents(e: Entry, h: nat, leaf: Task, off: nat, parentId: Option<nat>)
    requires 1 <= h <= EntryDepth(e) && leaf.children == []
    ensures EntryParents(AppendUnder(e, h, leaf), off, parentId) == EntryParents(e, off, parentId) + [EntryPathAt(e, h, off)]
    decreases e
  {
    AppendParents(e.task.children, h - 1, leaf, off + 1, Some(off + 1));
  }

  /** AppendAt keeps the path down to depth `h` and puts the new leaf,
      numbered after every earlier node, at depth `h + 1`. */
  lemma {:induction false} AppendPath(f: seq<Entry>, h: nat, leaf: Task, off: nat, parentId: Option<nat>)
    requires h <= RightDepth(f) && leaf.children == []
    ensures forall q :: 0 <= q <= h ==> PathAt(AppendAt(f, h, leaf), q, off, parentId) == PathAt(f, q, off, parentId)
    ensures PathAt(AppendAt(f, h, leaf), h + 1, off, parentId) == Some(off + Size(f) + 1)
    decreases f
  {
    AppendAtStep(f, h, leaf);
    if h == 0 {
      PathAtTop(f, leaf, off, parentId);
    } else {
      EntryAppendPath(f[|f| - 1], h, leaf, off + Size(f[..|f| - 1]));
      PathUnderLast(f, h, leaf, off, parentId);
    }
  }

  /** The step of AppendPath that adds a top-level entry. */
  lemma PathAtTop(f: seq<Entry>, leaf: Task, off: nat, parentId: Option<nat>)
    requires leaf.children == []
    ensures PathAt(f + [Item(leaf)], 0, off, parentId) == PathAt(f, 0, off, parentId)
    ensures PathAt(f + [Item(leaf)], 1, off, parentId) == Some(off + Size(f) + 1)
  {
    PathAtSnoc(f, Item(leaf), off, parentId);
    assert EntryPathAt(Item(leaf), 1, off + Size(f)) == Some(off + Size(f) + 1);
  }

  /** The step of AppendPath that goes under the last entry. */
  lemma PathUnderLast(f: seq<Entry>, h: nat, leaf: Task, off: nat, parentId: Option<nat>)
    requires 1 <= h <= RightDepth(f) && leaf.children == [] && f != []
    requires AppendAt(f, h, leaf) == f[..|f| - 1] + [AppendUnder(f[|f| - 1], h, leaf)]
    requires var last := f[|f| - 1]; var o := off + Size(f[..|f| - 1]);
      && (forall q :: 1 <= q <= h ==> EntryPathAt(AppendUnder(last, h, leaf), q, o) == EntryPathAt(last, q, o))
      && EntryPathAt(AppendUnder(last, h, leaf), h + 1, o) == Some(o + EntrySize(last) + 1)
    ensures forall q :: 0 <= q <= h ==> PathAt(AppendAt(f, h, leaf), q, off, parentId) == PathAt(f, q, off, parentId)
    ensures PathAt(AppendAt(f, h, leaf), h + 1, off, parentId) == Some(off + Size(f) + 1)
  {
    var init := f[..|f| - 1];
    var last := f[|f| - 1];
    SnocLast(f);
    PathAtSnoc(init, last, off, parentId);
    PathAtSnoc(init, AppendUnder(last, h, leaf), off, parentId);
    SizeSnoc(init, last);
  }

  lemma {:induction false} EntryAppendPath(e: Entry, h: nat, leaf: Task, off: nat)
    requires 1 <= h <= EntryDepth(e) && leaf.children == []
    ensures forall q :: 1 <= q <= h ==> EntryPathAt(AppendUnder(e, h, leaf), q, off) == EntryPathAt(e, q, off)
    ensures EntryPathAt(AppendUnder(e, h, leaf), h + 1, off) == Some(off + EntrySize(e) + 1)
    decreases e
  {
    AppendPath(e.task.children, h - 1, leaf, off + 1, Some(off + 1));
  }

  /** Task numbers for recorded parent rows: row `i` is task `i + 1`, and
      -1 (the top-level list) is no parent. */
  function Uids(parents: seq<int>): (r: seq<Option<nat>>)
    ensures |r| == |parents|
    ensures forall i :: 0 <= i < |parents| ==> r[i] == UidOf(parents[i])
  {
    seq(|parents|, i requires 0 <= i < |parents| => UidOf(parents[i]))
  }

  /** The stack's frames are the last-added path of the forest: the frame
      at height `p` is the task at depth `p`. */
  predicate StackIsPath(b: Build)
    requires RightDepth(b.forest) == |b.stack|
  {
    forall p :: 1 <= p <= |b.stack| ==> PathAt(b.forest, p, 0, None) == Some(b.stack[p - 1].index + 1)
  }

  /** The top of the stack popped to height `h` is the task at depth `h`
      of the path. */
  lemma TopIsPath(b: Build, h: nat)
    requires RightDepth(b.forest) == |b.stack| && StackIsPath(b) && h <= |b.stack|
    ensures UidOf(Top(b.stack[..h])) == PathAt(b.forest, h, 0, None)
  {
    if h > 0 {
      assert b.stack[..h][h - 1] == b.stack[h - 1];
    }
  }

  lemma UidsSnoc(parents: seq<int>, x: int)
    ensures Uids(parents + [x]) == Uids(parents) + [UidOf(x)]
  {
  }

  /** Inserting a row records as its parent the task it is attached under. */
  lemma InsertParents(b: Build, k: nat, row: Row)
    requires RightDepth(b.forest) == |b.stack| && StackIsPath(b)
    requires ParentsOf(b.forest, 0, None) == Uids(b.parents)
    ensures ParentsOf(Insert(b, k, row).forest, 0, None) == Uids(Insert(b, k, row).parents)
  {
    var h := PopTo(b.stack, row.level);
    InsertForest(b, k, row);
    AppendParents(b.forest, h, RowTask(row), 0, None);
    TopIsPath(b, h);
    UidsSnoc(b.parents, Top(b.stack[..h]));
  }

  /** Inserting row `k` into a forest of `k` tasks keeps the stack on the
      last-added path. */
  lemma InsertStackPath(b: Build, k: nat, row: Row)
    requires RightDepth(b.forest) == |b.stack| && Size(b.forest) == k && StackIsPath(b)
    ensures StackIsPath(Insert(b, k, row))
  {
    var h := PopTo(b.stack, row.level);
    var r := Insert(b, k, row);
    InsertForest(b, k, row);
    AppendPath(b.forest, h, RowTask(row), 0, None);
    forall p | 1 <= p <= |r.stack| ensures PathAt(r.forest, p, 0, None) == Some(r.stack[p - 1].index + 1) {
      if p <= h {
        assert r.stack[p - 1] == b.stack[p - 1];
      }
    }
  }

  lemma {:induction false} BuildNesting(rows: seq<Row>)
    ensures StackIsPath(BuildRows(rows))
    ensures ParentsOf(BuildRows(rows).forest, 0, None) == Uids(BuildRows(rows).parents)
    decreases |rows|
  {
    if rows != [] {
      var prev := rows[..|rows| - 1];
      BuildNesting(prev);
      InsertParents(BuildRows(prev), |rows| - 1, rows[|rows| - 1]);
      InsertStackPath(BuildRows(prev), |rows| - 1, rows[|rows| - 1]);
    }
  }

  /** In the forest parseTextWBS builds, the task the `k`-th row lands
      under is the nearest earlier row with a smaller indentation level
      (numbered from 1 in pre-order), and a row with none is a top-level
      task. */
  lemma ForestParents(rows: seq<Row>, k: nat)
    requires k < |rows|
    ensures ParentsOf(BuildRows(rows).forest, 0, None)[k] == UidOf(Shallower(rows, k - 1, rows[k].level))
  {
    BuildNesting(rows);
    ParentsAreShallower(rows, k);
  }
}

/** The MS Project XML generator (lib/msProjectGenerator.js): escaping,
    flattening the task tree, validation, and the task and project
    elements of the XML document. */
module MsProject {
  import opened Wrappers
  import opened Text
  import opened WbsData

  // ---------------------------------------------------------------------
  // escapeXml
  // ---------------------------------------------------------------------

  predicate IsXmlSpecial(c: char) {
    c == '&' || c == '<' || c == '>' || c == '"' || c == '\''
  }

  /** The entity for one special character, the character itself otherwise. */
  function EscapeChar(c: char): (r: string)
    ensures r == [c] <==> !IsXmlSpecial(c)
    ensures forall i :: 0 <= i < |r| ==> r[i] == '&' || !IsXmlSpecial(r[i])
  {
    match c
    case '&' => "&amp;"
    case '<' => "&lt;"
    case '>' => "&gt;"
    case '"' => "&quot;"
    case '\'' => "&apos;"
    case _ => [c]
  }

  /** Single-pass escaping: every character replaced by its entity. */
  function Escape(s: string): (r: string)
    ensures (forall i :: 0 <= i < |s| ==> !IsXmlSpecial(s[i])) ==> r == s
    ensures forall i :: 0 <= i < |r| ==> r[i] == '&' || !IsXmlSpecial(r[i])
    ensures |r| >= |s|
    decreases |s|
  {
    if s == [] then [] else EscapeChar(s[0]) + Escape(s[1..])
  }

  /** `s.replace(/c/g, rep)` for a one-character pattern. */
  function ReplaceAll(s: string, c: char, rep: string): (r: string)
    ensures c !in rep ==> c !in r
    ensures c !in s ==> r == s
    decreases |s|
  {
    if s == [] then []
    else (if s[0] == c then rep else [s[0]]) + ReplaceAll(s[1..], c, rep)
  }

  lemma {:induction false} ReplaceAllConcat(a: string, b: string, c: char, rep: string)
    ensures ReplaceAll(a + b, c, rep) == ReplaceAll(a, c, rep) + ReplaceAll(b, c, rep)
    decreases |a|
  {
    if a != [] {
      var h := if a[0] == c then rep else [a[0]];
      assert (a + b)[0] == a[0];
      assert (a + b)[1..] == a[1..] + b;
      assert ReplaceAll(a + b, c, rep) == h + ReplaceAll(a[1..] + b, c, rep);
      assert ReplaceAll(a, c, rep) == h + ReplaceAll(a[1..], c, rep);
      ReplaceAllConcat(a[1..], b, c, rep);
    } else {
      assert a + b == b;
    }
  }

  /** escapeXml as written: five global replacements, ampersand first. */
  function EscapeChain(s: string): string {
    ReplaceAll(ReplaceAll(ReplaceAll(ReplaceAll(ReplaceAll(s, '&', "&amp;"),
      '<', "&lt;"), '>', "&gt;"), '"', "&quot;"), '\'', "&apos;")
  }

  lemma ChainConcat(a: string, b: string)
    ensures EscapeChain(a + b) == EscapeChain(a) + EscapeChain(b)
  {
    var a1, b1 := ReplaceAll(a, '&', "&amp;"), ReplaceAll(b, '&', "&amp;");
    ReplaceAllConcat(a, b, '&', "&amp;");
    var a2, b2 := ReplaceAll(a1, '<', "&lt;"), ReplaceAll(b1, '<', "&lt;");
    ReplaceAllConcat(a1, b1, '<', "&lt;");
    var a3, b3 := ReplaceAll(a2, '>', "&gt;"), ReplaceAll(b2, '>', "&gt;");
    ReplaceAllConcat(a2, b2, '>', "&gt;");
    var a4, b4 := ReplaceAll(a3, '"', "&quot;"), ReplaceAll(b3, '"', "&quot;");
    ReplaceAllConcat(a3, b3, '"', "&quot;");
    ReplaceAllConcat(a4, b4, '\'', "&apos;");
  }

  lemma ChainChar(c: char)
    ensures EscapeChain([c]) == EscapeChar(c)
  {
  }

  /** Replacing `&` first means no entity is escaped twice: the chain of
      replacements is single-pass escaping. */
  lemma {:induction false} ChainIsEscape(s: string)
    ensures EscapeChain(s) == Escape(s)
    decreases |s|
  {
    if s != [] {
      assert s == [s[0]] + s[1..];
      ChainConcat([s[0]], s[1..]);
      ChainChar(s[0]);
      ChainIsEscape(s[1..]);
    }
  }

  /** escapeXml(str): the empty string stays empty, anything else is
      escaped character by character. The result holds no `<`, `>`, `"`
      or `'`. */
  function EscapeXml(s: string): (r: string)
    ensures forall i :: 0 <= i < |r| ==> r[i] != '<' && r[i] != '>' && r[i] != '"' && r[i] != '\''
    ensures |r| >= |s|
  {
    if s == "" then "" else Escape(s)
  }

  /** The single-pass definition agrees with the five replacements as
      they are chained in the source. */
  lemma EscapeXmlIsChain(s: string)
    ensures EscapeXml(s) == (if s == "" then "" else EscapeChain(s))
  {
    ChainIsEscape(s);
  }

  /** Decoding the five entities back, left to right. */
  function Unescape(s: string): string
    decreases |s|
  {
    if s == [] then []
    else if IsPrefix("&amp;", s) then "&" + Unescape(s[5..])
    else if IsPrefix("&lt;", s) then "<" + Unescape(s[4..])
    else if IsPrefix("&gt;", s) then ">" + Unescape(s[4..])
    else if IsPrefix("&quot;", s) then "\"" + Unescape(s[6..])
    else if IsPrefix("&apos;", s) then "'" + Unescape(s[6..])
    else [s[0]] + Unescape(s[1..])
  }

  lemma NotPrefixAt(p: string, s: string, i: nat)
    requires i < |p| && i < |s| && s[i] != p[i]
    ensures !IsPrefix(p, s)
  {
  }

  lemma PrefixOfConcat(p: string, t: string)
    ensures IsPrefix(p, p + t) && (p + t)[|p|..] == t
  {
    assert (p + t)[..|p|] == p;
  }

  lemma UnescapePlain(c: char, t: string)
    requires !IsXmlSpecial(c)
    ensures Unescape([c] + t) == [c] + Unescape(t)
  {
    var s := [c] + t;
    assert s[0] == c && s[1..] == t;
    NotPrefixAt("&amp;", s, 0);
    NotPrefixAt("&lt;", s, 0);
    NotPrefixAt("&gt;", s, 0);
    NotPrefixAt("&quot;", s, 0);
    NotPrefixAt("&apos;", s, 0);
  }

  lemma UnescapeEntity(c: char, t: string)
    requires IsXmlSpecial(c)
    ensures Unescape(EscapeChar(c) + t) == [c] + Unescape(t)
  {
    var e := EscapeChar(c);
    var s := e + t;
    PrefixOfConcat(e, t);
    assert s[1] == e[1] && s[2] == e[2];
    if c != '&' {
      NotPrefixAt("&amp;", s, if c == '\'' then 2 else 1);
      if c != '<' {
        NotPrefixAt("&lt;", s, 1);
        if c != '>' {
          NotPrefixAt("&gt;", s, 1);
          if c != '"' {
            NotPrefixAt("&quot;", s, 1);
          }
        }
      }
    }
  }

  lemma UnescapeStep(c: char, t: string)
    ensures Unescape(EscapeChar(c) + t) == [c] + Unescape(t)
  {
    if IsXmlSpecial(c) { UnescapeEntity(c, t); } else { UnescapePlain(c, t); }
  }

  /** Escaping loses nothing: decoding the entities gives the input back. */
  lemma {:induction false} EscapeRoundTrip(s: string)
    ensures Unescape(EscapeXml(s)) == s
    decreases |s|
  {
    if s != [] {
      EscapeRoundTrip(s[1..]);
      UnescapeStep(s[0], Escape(s[1..]));
      assert s == [s[0]] + s[1..];
    }
  }

  // ---------------------------------------------------------------------
  // processTasks
  // ---------------------------------------------------------------------

  /** A task after processTasks: its place in the flattened order and the
      defaults filled in. */
  datatype Processed = Processed(
    uid: nat,
    id: nat,
    name: string,
    duration: Value,
    outlineLevel: nat,
    parentId: Option<nat>,
    start: Option<int>,
    predecessors: seq<int>,
    notes: string,
    priority: int,
    percentComplete: int,
    isSummary: bool,
    wbs: string)

  /** The error a task that is `null` raises when its `name` is read. */
  const NullNameError := "Cannot read properties of null (reading 'name')"

  /** The default name of the task with the given number. */
  function DefaultName(uid: nat): string {
    "Task " + NatToString(uid)
  }

  /** One task object with its `||` defaults: a falsy name, duration,
      start or priority is replaced, so none of them is left falsy; a
      truthy duration or start is kept as it is, usable or not. The start
      is `None` when it is an invalid date. */
  function ProcessTask(t: Task, uid: nat, parentId: Option<nat>, level: nat, projectStart: Option<int>): (p: Processed)
    ensures p.uid == uid && p.id == uid && p.outlineLevel == level && p.parentId == parentId
    ensures p.name != "" && IsTruthy(p.duration) && p.priority != 0
    ensures t.name.Some? && t.name.value != "" ==> p.name == t.name.value
    ensures IsTruthy(t.duration) ==> p.duration == t.duration
    ensures !IsTruthy(t.duration) ==> p.duration == Num(1)
    ensures t.start.Falsy? ==> p.start == projectStart
    ensures t.start.Day? ==> p.start == Some(t.start.day)
    ensures t.start.InvalidDate? ==> p.start.None?
    ensures p.isSummary <==> t.children != []
  {
    Processed(
      uid, uid,
      if t.name.Some? && t.name.value != "" then t.name.value else DefaultName(uid),
      if IsTruthy(t.duration) then t.duration else Num(1),
      level, parentId,
      DateOr(t.start, projectStart),
      t.predecessors, t.notes,
      if t.priority != 0 then t.priority else 500,
      t.percentComplete,
      t.children != [],
      t.wbs)
  }

  /** The task record at position `k` names as parent an earlier record
      one outline level up, and nothing in between is shallower than the
      record itself: the parent is the nearest earlier shallower task. */
  predicate ParentBefore(r: seq<Processed>, before: nat, k: nat)
    requires k < |r|
  {
    r[k].parentId.Some? && before < r[k].parentId.value <= before + k
    && var i := r[k].parentId.value - before - 1;
       r[i].outlineLevel + 1 == r[k].outlineLevel
       && forall m :: i < m < k ==> r[m].outlineLevel >= r[k].outlineLevel
  }

  /** Records numbered `before + 1`, `before + 2`, ... in order. */
  predicate Numbered(r: seq<Processed>, before: nat) {
    forall k :: 0 <= k < |r| ==> r[k].uid == before + k + 1 && r[k].id == r[k].uid
  }

  /** Nothing above `level`, and the first record at `level`. */
  predicate LevelsFrom(r: seq<Processed>, level: nat) {
    (forall k :: 0 <= k < |r| ==> r[k].outlineLevel >= level)
    && (|r| > 0 ==> r[0].outlineLevel == level)
  }

  /** The records at `level` are the roots, under `parentId`. */
  predicate RootsUnder(r: seq<Processed>, level: nat, parentId: Option<nat>) {
    forall k :: 0 <= k < |r| && r[k].outlineLevel == level ==> r[k].parentId == parentId
  }

  /** Every deeper record's parent is the nearest earlier shallower one. */
  predicate InnerParents(r: seq<Processed>, before: nat, level: nat) {
    forall k {:trigger ParentBefore(r, before, k)} ::
      0 <= k < |r| && r[k].outlineLevel > level ==> ParentBefore(r, before, k)
  }

  /** The record after position `k` is one level deeper. */
  predicate NextDeeper(r: seq<Processed>, k: nat)
    requires k < |r|
  {
    k + 1 < |r| && r[k + 1].outlineLevel > r[k].outlineLevel
  }

  /** A record is a summary exactly when the next one is deeper. */
  predicate SummaryMarks(r: seq<Processed>) {
    forall k :: 0 <= k < |r| ==> (r[k].isSummary <==> NextDeeper(r, k))
  }

  /** `r` is the pre-order of a forest whose roots sit at outline level
      `level` under `parentId`, numbered from `before + 1`. */
  predicate WellNested(r: seq<Processed>, before: nat, level: nat, parentId: Option<nat>) {
    Numbered(r, before) && LevelsFrom(r, level) && RootsUnder(r, level, parentId)
    && InnerParents(r, before, level) && SummaryMarks(r)
  }

  /** A parent link inside `s` stays valid once `s` sits at offset `off`
      of a longer sequence numbered `off` earlier. */
  lemma EmbedParent(r: seq<Processed>, s: seq<Processed>, off: nat, before: nat, k: nat)
    requires off + |s| <= |r| && off <= k < off + |s|
    requires r[off..off + |s|] == s
    requires ParentBefore(s, before + off, k - off)
    ensures ParentBefore(r, before, k)
  {
    var i := s[k - off].parentId.value - (before + off) - 1;
    assert r[k] == s[k - off];
    assert r[off + i] == s[i];
    forall m | off + i < m < k ensures r[m].outlineLevel >= r[k].outlineLevel {
      assert r[m] == s[m - off];
    }
  }

  lemma RootKidParent(p: Processed, kids: seq<Processed>, before: nat, level: nat, k: nat)
    requires p.outlineLevel == level && 1 <= k <= |kids|
    requires LevelsFrom(kids, level + 1)
    requires kids[k - 1].outlineLevel == level + 1 && kids[k - 1].parentId == Some(before + 1)
    ensures ParentBefore([p] + kids, before, k)
  {
    var r := [p] + kids;
    assert r[k] == kids[k - 1];
    forall m | 0 < m < k ensures r[m].outlineLevel >= r[k].outlineLevel {
      assert r[m] == kids[m - 1];
    }
  }

  lemma NodeParentAt(p: Processed, kids: seq<Processed>, before: nat, level: nat, k: nat)
    requires p.outlineLevel == level && 1 <= k <= |kids|
    requires LevelsFrom(kids, level + 1) && RootsUnder(kids, level + 1, Some(before + 1))
    requires InnerParents(kids, before + 1, level + 1)
    ensures ParentBefore([p] + kids, before, k)
  {
    if kids[k - 1].outlineLevel > level + 1 {
      assert ParentBefore(kids, before + 1, k - 1);
      assert ([p] + kids)[1..1 + |kids|] == kids;
      EmbedParent([p] + kids, kids, 1, before, k);
    } else {
      RootKidParent(p, kids, before, level, k);
    }
  }

  lemma NodeInnerParents(p: Processed, kids: seq<Processed>, before: nat, level: nat)
    requires p.outlineLevel == level
    requires LevelsFrom(kids, level + 1) && RootsUnder(kids, level + 1, Some(before + 1))
    requires InnerParents(kids, before + 1, level + 1)
    ensures InnerParents([p] + kids, before, level)
  {
    var r := [p] + kids;
    forall k | 0 <= k < |r| && r[k].outlineLevel > level
      ensures ParentBefore(r, before, k)
    {
      NodeParentAt(p, kids, before, level, k);
    }
  }

  lemma NodeSummaryMarks(p: Processed, kids: seq<Processed>, level: nat)
    requires p.outlineLevel == level
    requires p.isSummary <==> kids != []
    requires LevelsFrom(kids, level + 1) && SummaryMarks(kids)
    ensures SummaryMarks([p] + kids)
  {
    var r := [p] + kids;
    forall k | 1 <= k < |r|
      ensures r[k].isSummary <==> NextDeeper(r, k)
    {
      assert r[k] == kids[k - 1];
      if k + 1 < |r| { assert r[k + 1] == kids[k]; }
    }
  }

  lemma NestedNode(p: Processed, kids: seq<Processed>, before: nat, level: nat, parentId: Option<nat>)
    requires p.uid == before + 1 && p.id == p.uid && p.outlineLevel == level && p.parentId == parentId
    requires p.isSummary <==> kids != []
    requires WellNested(kids, before + 1, level + 1, Some(before + 1))
    ensures WellNested([p] + kids, before, level, parentId)
  {
    var r := [p] + kids;
    forall k | 1 <= k < |r| ensures r[k] == kids[k - 1] { }
    NodeInnerParents(p, kids, before, level);
    NodeSummaryMarks(p, kids, level);
  }

  lemma ConcatParentAt(a: seq<Processed>, b: seq<Processed>, before: nat, level: nat, k: nat)
    requires InnerParents(a, before, level) && InnerParents(b, before + |a|, level)
    requires k < |a| + |b| && (a + b)[k].outlineLevel > level
    ensures ParentBefore(a + b, before, k)
  {
    var r := a + b;
    if k < |a| {
      assert r[k] == a[k];
      assert ParentBefore(a, before + 0, k - 0);
      assert r[0..0 + |a|] == a;
      EmbedParent(r, a, 0, before, k);
    } else {
      assert r[k] == b[k - |a|];
      assert ParentBefore(b, before + |a|, k - |a|);
      assert r[|a|..|a| + |b|] == b;
      EmbedParent(r, b, |a|, before, k);
    }
  }

  lemma ConcatInnerParents(a: seq<Processed>, b: seq<Processed>, before: nat, level: nat)
    requires InnerParents(a, before, level) && InnerParents(b, before + |a|, level)
    ensures InnerParents(a + b, before, level)
  {
    forall k | 0 <= k < |a + b| && (a + b)[k].outlineLevel > level
      ensures ParentBefore(a + b, before, k)
    {
      ConcatParentAt(a, b, before, level, k);
    }
  }

  lemma LastNotSummary(a: seq<Processed>)
    requires SummaryMarks(a) && a != []
    ensures !a[|a| - 1].isSummary
  {
    assert !NextDeeper(a, |a| - 1);
  }

  lemma ConcatSummaryMarks(a: seq<Processed>, b: seq<Processed>, level: nat)
    requires LevelsFrom(a, level) && LevelsFrom(b, level)
    requires SummaryMarks(a) && SummaryMarks(b)
    ensures SummaryMarks(a + b)
  {
    var r := a + b;
    forall k | 0 <= k < |r|
      ensures r[k].isSummary <==> NextDeeper(r, k)
    {
      if k + 1 < |a| {
        assert r[k] == a[k] && r[k + 1] == a[k + 1];
        assert a[k].isSummary <==> NextDeeper(a, k);
      } else if k + 1 == |a| {
        assert r[k] == a[k];
        LastNotSummary(a);
        assert a[k].outlineLevel >= level;
        if b != [] { assert r[k + 1] == b[0] && b[0].outlineLevel == level; }
      } else {
        assert r[k] == b[k - |a|];
        if k + 1 < |r| { assert r[k + 1] == b[k + 1 - |a|]; }
      }
    }
  }

  lemma NestedConcat(a: seq<Processed>, b: seq<Processed>, before: nat, level: nat, parentId: Option<nat>)
    requires WellNested(a, before, level, parentId)
    requires WellNested(b, before + |a|, level, parentId)
    ensures WellNested(a + b, before, level, parentId)
  {
    var r := a + b;
    forall k | 0 <= k < |r| ensures r[k] == if k < |a| then a[k] else b[k - |a|] { }
    ConcatInnerParents(a, b, before, level);
    ConcatSummaryMarks(a, b, level);
  }

  /** The parent id of every record, position by position. */
  predicate ParentIdsAre(r: seq<Processed>, ids: seq<Option<nat>>) {
    |r| == |ids| && forall k :: 0 <= k < |r| ==> r[k].parentId == ids[k]
  }

  lemma ParentIdsConcat(a: seq<Processed>, b: seq<Processed>, ia: seq<Option<nat>>, ib: seq<Option<nat>>)
    requires ParentIdsAre(a, ia) && ParentIdsAre(b, ib)
    ensures ParentIdsAre(a + b, ia + ib)
  {
    forall k | 0 <= k < |a + b| ensures (a + b)[k].parentId == (ia + ib)[k] {
      if k < |a| {
        assert (a + b)[k] == a[k] && (ia + ib)[k] == ia[k];
      } else {
        assert (a + b)[k] == b[k - |a|] && (ia + ib)[k] == ib[k - |a|];
      }
    }
  }

  lemma SizeOfNonEmpty(es: seq<Entry>)
    requires !HasNull(es) && es != []
    ensures Size(es) >= 1
  {
    assert !EntryHasNull(es[0]);
    match es[0]
    case Item(t) =>
    case Scalar =>
  }

  /** processTask for every element of `es`, the first numbered
      `before + 1`. A `null` element throws; otherwise there is one
      record per task object, in pre-order (EntriesNested). */
  function ProcessEntries(es: seq<Entry>, parentId: Option<nat>, level: nat, before: nat, projectStart: Option<int>): (r: Result<seq<Processed>, string>)
    ensures r.Ok? <==> !HasNull(es)
    ensures r.Err? ==> r.error == NullNameError
    ensures r.Ok? ==> |r.value| == Size(es)
    decreases es
  {
    if es == [] then Ok([])
    else
      match ProcessEntry(es[0], parentId, level, before, projectStart)
      case Err(e) => Err(e)
      case Ok(head) =>
        match ProcessEntries(es[1..], parentId, level, before + |head|, projectStart)
        case Err(e) => Err(e)
        case Ok(tail) => Ok(head + tail)
  }

  function ProcessEntry(e: Entry, parentId: Option<nat>, level: nat, before: nat, projectStart: Option<int>): (r: Result<seq<Processed>, string>)
    ensures r.Ok? <==> !EntryHasNull(e)
    ensures r.Err? ==> r.error == NullNameError
    ensures r.Ok? ==> |r.value| == EntrySize(e)
    decreases e
  {
    match e
    case Null => Err(NullNameError)
    case Scalar => Ok([ProcessTask(EmptyTask, before + 1, parentId, level, projectStart)])
    case Item(t) =>
      var p := ProcessTask(t, before + 1, parentId, level, projectStart);
      match ProcessEntries(t.children, Some(before + 1), level + 1, before + 1, projectStart)
      case Err(e) => Err(e)
      case Ok(kids) => Ok([p] + kids)
  }

  lemma ProcessEntriesCons(es: seq<Entry>, parentId: Option<nat>, level: nat, before: nat, projectStart: Option<int>)
    requires !HasNull(es) && es != []
    ensures ProcessEntries(es, parentId, level, before, projectStart).value
      == ProcessEntry(es[0], parentId, level, before, projectStart).value
         + ProcessEntries(es[1..], parentId, level, before + EntrySize(es[0]), projectStart).value
  {
    NullSplit(es);
    var h := ProcessEntry(es[0], parentId, level, before, projectStart);
    var t := ProcessEntries(es[1..], parentId, level, before + |h.value|, projectStart);
    assert ProcessEntries(es, parentId, level, before, projectStart) == Ok(h.value + t.value);
  }

  lemma ProcessEntryItem(t: Task, parentId: Option<nat>, level: nat, before: nat, projectStart: Option<int>)
    requires !HasNull(t.children)
    ensures ProcessEntry(Item(t), parentId, level, before, projectStart).value
      == [ProcessTask(t, before + 1, parentId, level, projectStart)]
         + ProcessEntries(t.children, Some(before + 1), level + 1, before + 1, projectStart).value
  {
  }

  /** The records of a forest without `null` are its pre-order: numbered
      from `before + 1`, the roots at `level` under `parentId`, every
      deeper record under the nearest earlier shallower one, and a summary
      exactly when followed by a child. */
  lemma {:induction false} EntriesNested(es: seq<Entry>, parentId: Option<nat>, level: nat, before: nat, projectStart: Option<int>)
    requires !HasNull(es)
    ensures WellNested(ProcessEntries(es, parentId, level, before, projectStart).value, before, level, parentId)
    decreases es
  {
    if es != [] {
      NullSplit(es);
      var n := EntrySize(es[0]);
      EntryNested(es[0], parentId, level, before, projectStart);
      EntriesNested(es[1..], parentId, level, before + n, projectStart);
      ProcessEntriesCons(es, parentId, level, before, projectStart);
      NestedStep(ProcessEntry(es[0], parentId, level, before, projectStart).value,
        ProcessEntries(es[1..], parentId, level, before + n, projectStart).value,
        ProcessEntries(es, parentId, level, before, projectStart).value, before, n, level, parentId);
    }
  }

  lemma NullSplit(es: seq<Entry>)
    requires !HasNull(es) && es != []
    ensures !EntryHasNull(es[0]) && !HasNull(es[1..])
  {
  }

  lemma NestedStep(head: seq<Processed>, tail: seq<Processed>, whole: seq<Processed>,
                   before: nat, n: nat, level: nat, parentId: Option<nat>)
    requires whole == head + tail && |head| == n
    requires WellNested(head, before, level, parentId) && WellNested(tail, before + n, level, parentId)
    ensures WellNested(whole, before, level, parentId)
  {
    NestedConcat(head, tail, before, level, parentId);
  }

  lemma {:induction false} EntryNested(e: Entry, parentId: Option<nat>, level: nat, before: nat, projectStart: Option<int>)
    requires !EntryHasNull(e)
    ensures WellNested(ProcessEntry(e, parentId, level, before, projectStart).value, before, level, parentId)
    decreases e
  {
    match e
    case Scalar =>
    case Item(t) =>
      ProcessEntryItem(t, parentId, level, before, projectStart);
      var p := ProcessTask(t, before + 1, parentId, level, projectStart);
      var kids := ProcessEntries(t.children, Some(before + 1), level + 1, before + 1, projectStart).value;
      EntriesNested(t.children, Some(before + 1), level + 1, before + 1, projectStart);
      assert kids == [] ==> t.children == [] by {
        if t.children != [] { SizeOfNonEmpty(t.children); }
      }
      NestedNode(p, kids, before, level, parentId);
  }

  /** Each record's parent id is the number of the task whose children
      list held it, or `parentId` for the roots. */
  lemma {:induction false} EntriesParents(es: seq<Entry>, parentId: Option<nat>, level: nat, before: nat, projectStart: Option<int>)
    requires !HasNull(es)
    ensures ParentIdsAre(ProcessEntries(es, parentId, level, before, projectStart).value, ParentsOf(es, before, parentId))
    decreases es
  {
    if es != [] {
      ProcessEntriesCons(es, parentId, level, before, projectStart);
      NullSplit(es);
      var n := EntrySize(es[0]);
      EntryParentsAre(es[0], parentId, level, before, projectStart);
      EntriesParents(es[1..], parentId, level, before + n, projectStart);
      ParentIdsConcat(ProcessEntry(es[0], parentId, level, before, projectStart).value,
        ProcessEntries(es[1..], parentId, level, before + n, projectStart).value,
        EntryParents(es[0], before, parentId), ParentsOf(es[1..], before + n, parentId));
    }
  }

  lemma {:induction false} EntryParentsAre(e: Entry, parentId: Option<nat>, level: nat, before: nat, projectStart: Option<int>)
    requires !EntryHasNull(e)
    ensures ParentIdsAre(ProcessEntry(e, parentId, level, before, projectStart).value, EntryParents(e, before, parentId))
    decreases e
  {
    match e
    case Scalar =>
    case Item(t) =>
      ProcessEntryItem(t, parentId, level, before, projectStart);
      var p := ProcessTask(t, before + 1, parentId, level, projectStart);
      EntriesParents(t.children, Some(before + 1), level + 1, before + 1, projectStart);
      ParentIdsConcat([p], ProcessEntries(t.children, Some(before + 1), level + 1, before + 1, projectStart).value,
        [parentId], ParentsOf(t.children, before + 1, Some(before + 1)));
  }

  /** The argument of processTasks and validateWBSData: an array, or any
      other value. */
  datatype TaskData = TaskArray(entries: seq<Entry>) | NotArray

  /** processTasks(tasks, projectStart): a non-array gives no tasks. */
  function ProcessTasks(d: TaskData, projectStart: Option<int>): (r: Result<seq<Processed>, string>)
    ensures d.NotArray? ==> r == Ok([])
    ensures r.Ok? <==> d.NotArray? || !HasNull(d.entries)
    ensures r.Err? ==> r.error == NullNameError
    ensures r.Ok? && d.TaskArray? ==> |r.value| == Size(d.entries)
    ensures r.Ok? ==> forall k :: 0 <= k < |r.value| ==> r.value[k].uid == k + 1
  {
    match d
    case NotArray => Ok([])
    case TaskArray(es) =>
      var r := ProcessEntries(es, None, 1, 0, projectStart);
      assert r.Ok? ==> Numbered(r.value, 0) by {
        if r.Ok? { EntriesNested(es, None, 1, 0, projectStart); }
      }
      r
  }

  /** The records of a task array are its pre-order (WellNested), and
      each record's parent id is the number of the task whose children
      list held it. */
  lemma ProcessTasksNested(d: TaskData, projectStart: Option<int>)
    ensures var r := ProcessTasks(d, projectStart);
      r.Ok? && d.TaskArray? ==> WellNested(r.value, 0, 1, None) && ParentIdsAre(r.value, ParentsOf(d.entries, 0, None))
  {
    if d.TaskArray? && !HasNull(d.entries) {
      EntriesNested(d.entries, None, 1, 0, projectStart);
      EntriesParents(d.entries, None, 1, 0, projectStart);
    }
  }

  /** Pre-order numbering: the records are numbered 1, 2, ... in order;
      top-level tasks sit at outline level 1 without a parent; every other
      task's parent is the nearest earlier task one level up; a task is a
      summary exactly when the next record is one of its children. */
  lemma ProcessedInPreOrder(es: seq<Entry>, projectStart: Option<int>, k: nat)
    requires !HasNull(es)
    requires k < Size(es)
    ensures var r := ProcessTasks(TaskArray(es), projectStart).value;
      && r[k].uid == k + 1 && r[k].id == k + 1
      && r[k].outlineLevel >= 1
      && (r[k].outlineLevel == 1 <==> r[k].parentId.None?)
      && (r[k].parentId.Some? ==>
            var i := r[k].parentId.value - 1;
            0 <= i < k && r[i].outlineLevel + 1 == r[k].outlineLevel
            && forall m :: i < m < k ==> r[m].outlineLevel >= r[k].outlineLevel)
      && (r[k].isSummary <==> k + 1 < |r| && r[k + 1].outlineLevel > r[k].outlineLevel)
  {
    var r := ProcessTasks(TaskArray(es), projectStart).value;
    ProcessTasksNested(TaskArray(es), projectStart);
    if r[k].outlineLevel > 1 {
      assert ParentBefore(r, 0, k);
    }
  }

  // ---------------------------------------------------------------------
  // validateWBSData
  // ---------------------------------------------------------------------

  datatype Validation = Validation(isValid: bool, errors: seq<string>)

  const NotArrayError := "WBS data must be an array of tasks"
  const EmptyError := "WBS data must contain at least one task"
  const NameError := ": Task must have a valid name"
  const DurationError := ": Duration must be a positive number"

  /** `${path}Task[${index}]` */
  function TaskPath(path: string, index: nat): string {
    path + "Task[" + NatToString(index) + "]"
  }

  predicate ValidName(name: Option<string>) {
    name.Some? && name.value != ""
  }

  /** An absent duration, or one `parseInt` reads as a number that is not
      negative. */
  predicate ValidDuration(duration: Value) {
    duration.Undefined? || (ParseIntOf(duration).Some? && ParseIntOf(duration).value >= 0)
  }

  /** A duration that is present but unreadable (`null`, `""`, `"abc"`,
      `false`) fails validation: `parseInt` gives `NaN`, which the
      duration test rejects along with negative numbers. */
  lemma UnusableDurationRejected(es: seq<Entry>, i: nat)
    requires !HasNull(es) && i < |es| && es[i].Item?
    requires !es[i].task.duration.Undefined? && ParseIntOf(es[i].task.duration).None?
    ensures var r := ValidateWbsData(TaskArray(es));
      r.Ok? && !r.value.isValid && r.value.errors != []
  {
    assert !EntryValid(es[i]);
  }

  /** `null`, the empty string and a word are not usable durations. */
  lemma UnusableDurations()
    ensures !ValidDuration(JsonNull) && !ValidDuration(Str("")) && !ValidDuration(Str("abc"))
  {
    var a := "abc";
    assert Run(a, 0, IsJsSpace) == 0;
    assert Js.SignEnd(a) == 0;
    assert Run(a, 0, IsDigit) == 0;
  }

  /** The reference for a clean validation: every element is a task object
      with a non-empty string name and no negative duration, all the way
      down the children. */
  predicate AllValid(es: seq<Entry>)
    decreases es
  {
    forall i :: 0 <= i < |es| ==> EntryValid(es[i])
  }

  predicate EntryValid(e: Entry)
    decreases e
  {
    e.Item? && ValidName(e.task.name) && ValidDuration(e.task.duration) && AllValid(e.task.children)
  }

  /** validateTask for the elements of `es`, the first at index `from`:
      the errors in visiting order, or the error thrown by a `null`. */
  function ValidateEntries(es: seq<Entry>, from: nat, path: string): (r: Result<seq<string>, string>)
    ensures r.Err? <==> HasNull(es)
    ensures r.Err? ==> r.error == NullNameError
    ensures r.Ok? ==> (r.value == [] <==> AllValid(es))
    decreases es
  {
    if es == [] then Ok([])
    else
      match ValidateEntry(es[0], from, path)
      case Err(e) => Err(e)
      case Ok(head) =>
        match ValidateEntries(es[1..], from + 1, path)
        case Err(e) => Err(e)
        case Ok(tail) =>
          assert AllValid(es) <==> EntryValid(es[0]) && AllValid(es[1..]) by {
            assert forall i :: 1 <= i < |es| ==> es[i] == es[1..][i - 1];
          }
          Ok(head + tail)
  }

  function ValidateEntry(e: Entry, index: nat, path: string): (r: Result<seq<string>, string>)
    ensures r.Err? <==> EntryHasNull(e)
    ensures r.Err? ==> r.error == NullNameError
    ensures r.Ok? ==> (r.value == [] <==> EntryValid(e))
    ensures r.Ok? && e.Item? && !ValidName(e.task.name) ==> |r.value| > 0 && r.value[0] == TaskPath(path, index) + NameError
    decreases e
  {
    var taskPath := TaskPath(path, index);
    match e
    case Null => Err(NullNameError)
    case Scalar => Ok([taskPath + NameError])
    case Item(t) =>
      var nameErrors := if ValidName(t.name) then [] else [taskPath + NameError];
      var durationErrors := if ValidDuration(t.duration) then [] else [taskPath + DurationError];
      match ValidateEntries(t.children, 0, taskPath + ".children.")
      case Err(e) => Err(e)
      case Ok(kids) => Ok(nameErrors + durationErrors + kids)
  }

  /** validateWBSData(tasks) returns, or throws on a `null` task. It is
      valid exactly when it lists no errors, and exactly when the data is
      a non-empty array of valid tasks. */
  function ValidateWbsData(d: TaskData): (r: Result<Validation, string>)
    ensures r.Err? <==> d.TaskArray? && HasNull(d.entries)
    ensures r.Err? ==> r.error == NullNameError
    ensures r.Ok? ==> (r.value.isValid <==> r.value.errors == [])
    ensures r.Ok? ==> (r.value.isValid <==> d.TaskArray? && d.entries != [] && AllValid(d.entries))
    ensures d.NotArray? ==> r == Ok(Validation(false, [NotArrayError]))
    ensures d == TaskArray([]) ==> r == Ok(Validation(false, [EmptyError]))
  {
    match d
    case NotArray => Ok(Validation(false, [NotArrayError]))
    case TaskArray(es) =>
      if es == [] then Ok(Validation(false, [EmptyError]))
      else
        match ValidateEntries(es, 0, "")
        case Err(e) => Err(e)
        case Ok(errors) => Ok(Validation(errors == [], errors))
  }

  /** A top-level task without a usable name is reported under its index. */
  lemma {:induction false} BadNameReported(es: seq<Entry>, from: nat, i: nat)
    requires !HasNull(es) && i < |es|
    requires es[i].Item? && !ValidName(es[i].task.name)
    ensures TaskPath("", from + i) + NameError in ValidateEntries(es, from, "").value
    decreases i
  {
    if i > 0 {
      BadNameReported(es[1..], from + 1, i - 1);
    }
  }

  /** Validation passing guarantees processTasks does not throw. */
  lemma ValidProcesses(d: TaskData, projectStart: Option<int>)
    requires ValidateWbsData(d).Ok?
    ensures ProcessTasks(d, projectStart).Ok?
  {
  }

  // ---------------------------------------------------------------------
  // The XML document
  // ---------------------------------------------------------------------

  function Max(a: int, b: int): int {
    if a >= b then a else b
  }

  /** The finish day, `new Date(start)` moved on by
      `max(0, parseInt(duration) - 1)` days: at least the start day, and
      `None` (an invalid date) when the start is invalid or `parseInt` of
      the duration is NaN. */
  function Finish(p: Processed): (f: Option<int>)
    ensures f.Some? <==> p.start.Some? && ParseIntOf(p.duration).Some?
    ensures f.Some? ==> f.value >= p.start.value
    ensures f.Some? && ParseIntOf(p.duration).value >= 1 ==> f.value == p.start.value + ParseIntOf(p.duration).value - 1
  {
    match (p.start, ParseIntOf(p.duration))
    case (Some(start), Some(days)) => Some(start + Max(0, days - 1))
    case _ => None
  }

  /** Both dates of the task element are valid, so `toISOString` does not
      throw on them. */
  predicate Dated(p: Processed) {
    Finish(p).Some?
  }

  predicate AllDated(ps: seq<Processed>) {
    forall i :: 0 <= i < |ps| ==> Dated(ps[i])
  }

  /** `task.duration * 8`: the hours of a duration; `None` is NaN, which
      the element shows as `PTNaNH0M0S`. */
  function Hours(duration: Value): (h: Option<int>)
    ensures duration.Num? ==> h == Some(8 * duration.n)
  {
    match NumberOf(duration)
    case Some(n) => Some(8 * n)
    case None => None
  }

  /** The values of one `<Task>` element of the output. Durations are
      written in hours (`PT<h>H0M0S`), dates in whole days. */
  datatype TaskXml = TaskXml(
    uid: nat,
    id: nat,
    name: string,
    createDate: int,
    wbs: string,
    outlineLevel: nat,
    priority: int,
    start: int,
    finish: int,
    durationHours: Option<int>,
    manualDurationHours: Option<int>,
    workHours: Option<int>,
    percentComplete: int,
    summary: bool,
    notes: Option<string>,
    predecessorLinks: seq<int>)

  /** generateTaskXML(task, id, projectStart), for a task whose dates are
      valid. */
  function TaskElement(p: Processed, id: nat, projectStart: int): (x: TaskXml)
    requires Dated(p)
    ensures x.uid == p.uid && x.id == id && x.outlineLevel == p.outlineLevel
    ensures x.start == p.start.value && x.finish == Finish(p).value
    ensures x.durationHours == Hours(p.duration)
    ensures x.manualDurationHours == x.durationHours && x.workHours == x.durationHours
    ensures x.summary <==> p.isSummary
    ensures x.notes.Some? <==> p.notes != ""
    ensures x.predecessorLinks == p.predecessors
  {
    TaskXml(
      p.uid, id, EscapeXml(p.name), projectStart,
      EscapeXml(if p.wbs != "" then p.wbs else NatToString(p.uid)),
      p.outlineLevel, p.priority,
      p.start.value, Finish(p).value,
      Hours(p.duration), Hours(p.duration), Hours(p.duration),
      p.percentComplete,
      p.isSummary,
      if p.notes != "" then Some(EscapeXml(p.notes)) else None,
      p.predecessors)
  }

  /** Whenever the hours are a number, they are eight per day of the span
      from the start to the finish: the day count and the hours come from
      the same duration. */
  lemma HoursMatchFinish(p: Processed)
    requires Dated(p) && Hours(p.duration).Some?
    ensures var days := ParseIntOf(p.duration).value;
      && Hours(p.duration) == Some(8 * days)
      && (days >= 1 ==> Finish(p).value - p.start.value + 1 == days)
  {
    NumberMatchesParseInt(p.duration);
  }

  /** A duration with its unit written out, such as "5 days", passes
      validation (`parseInt` reads 5) and gives a five-day span, but its
      hours are NaN: `"5 days" * 8` is not a number. */
  lemma DaysSuffixHasNoHours(p: Processed)
    requires p.duration == Str("5 days") && p.start.Some?
    ensures ValidDuration(p.duration)
    ensures Finish(p) == Some(p.start.value + 4)
    ensures Hours(p.duration).None?
  {
    FiveDaysReadsFive();
    FiveDaysIsNaN();
  }

  lemma FiveDaysReadsFive()
    ensures ParseIntOf(Str("5 days")) == Some(5)
  {
    var s := "5 days";
    assert Run(s, 0, IsJsSpace) == 0;
    assert Js.SignEnd(s) == 0 && !Js.Negative(s);
    assert Run(s, 0, IsDigit) == 1;
    assert s[0..1] == "5";
    assert DecimalValue("5") == 5;
  }

  lemma FiveDaysIsNaN()
    ensures Hours(Str("5 days")).None?
  {
    var s := "5 days";
    assert Run(s, 0, IsJsSpace) == 0;
    assert Js.SignEnd(s) == 0;
    assert Run(s, 0, IsDigit) == 1;
    assert Run(s, 1, IsJsSpace) == 1;
  }

  /** The text fields of a task element decode back to the task's name,
      WBS code and notes; a task without a WBS code shows its UID. */
  lemma TaskElementText(p: Processed, id: nat, projectStart: int)
    requires Dated(p)
    ensures var x := TaskElement(p, id, projectStart);
      && Unescape(x.name) == p.name
      && (p.wbs != "" ==> Unescape(x.wbs) == p.wbs)
      && (p.wbs == "" ==> x.wbs == NatToString(p.uid))
      && (x.notes.Some? ==> Unescape(x.notes.value) == p.notes)
  {
    EscapeRoundTrip(p.name);
    EscapeRoundTrip(p.wbs);
    EscapeRoundTrip(p.notes);
    var u := NatToString(p.uid);
    assert forall i :: 0 <= i < |u| ==> !IsXmlSpecial(u[i]) by {
      assert AllDigits(u);
    }
  }

  // ---------------------------------------------------------------------
  // Which task data generates
  // ---------------------------------------------------------------------

  /** A task object whose processed dates are valid: its start is not an
      invalid date, and `parseInt` reads a number from a truthy duration
      (a falsy one becomes 1). */
  predicate TaskDated(t: Task) {
    !t.start.InvalidDate? && (!IsTruthy(t.duration) || ParseIntOf(t.duration).Some?)
  }

  /** A valid duration is one generation can use. */
  lemma ValidDurationDated(t: Task)
    requires ValidDuration(t.duration) && !t.start.InvalidDate?
    ensures TaskDated(t)
  {
  }

  lemma DatedConcat(a: seq<Processed>, b: seq<Processed>)
    ensures AllDated(a + b) <==> AllDated(a) && AllDated(b)
  {
    if AllDated(a) && AllDated(b) {
      forall i | 0 <= i < |a + b| ensures Dated((a + b)[i]) {
        if i >= |a| { assert (a + b)[i] == b[i - |a|]; }
      }
    }
    if AllDated(a + b) {
      forall i | 0 <= i < |a| ensures Dated(a[i]) {
        assert (a + b)[i] == a[i];
      }
      forall i | 0 <= i < |b| ensures Dated(b[i]) {
        assert (a + b)[|a| + i] == b[i];
      }
    }
  }

  /** With a valid project start, every processed record has valid dates
      exactly when every task object of the data is TaskDated. */
  lemma {:induction false} EntriesDated(es: seq<Entry>, parentId: Option<nat>, level: nat, before: nat, projectStart: Option<int>)
    requires !HasNull(es) && projectStart.Some?
    ensures AllDated(ProcessEntries(es, parentId, level, before, projectStart).value) <==> EveryTask(es, TaskDated)
    decreases es
  {
    if es != [] {
      NullSplit(es);
      var head := ProcessEntry(es[0], parentId, level, before, projectStart).value;
      var tail := ProcessEntries(es[1..], parentId, level, before + |head|, projectStart).value;
      ProcessEntriesCons(es, parentId, level, before, projectStart);
      EntryDated(es[0], parentId, level, before, projectStart);
      EntriesDated(es[1..], parentId, level, before + |head|, projectStart);
      DatedStep(head, tail, ProcessEntries(es, parentId, level, before, projectStart).value,
        EntryEvery(es[0], TaskDated), EveryTask(es[1..], TaskDated));
    }
  }

  lemma DatedStep(head: seq<Processed>, tail: seq<Processed>, whole: seq<Processed>, a: bool, b: bool)
    requires whole == head + tail
    requires AllDated(head) <==> a
    requires AllDated(tail) <==> b
    ensures AllDated(whole) <==> a && b
  {
    DatedConcat(head, tail);
  }

  lemma {:induction false} EntryDated(e: Entry, parentId: Option<nat>, level: nat, before: nat, projectStart: Option<int>)
    requires !EntryHasNull(e) && projectStart.Some?
    ensures AllDated(ProcessEntry(e, parentId, level, before, projectStart).value) <==> EntryEvery(e, TaskDated)
    decreases e
  {
    match e
    case Scalar =>
      var p := ProcessTask(EmptyTask, before + 1, parentId, level, projectStart);
      assert Dated(p);
    case Item(t) =>
      var p := ProcessTask(t, before + 1, parentId, level, projectStart);
      var kids := ProcessEntries(t.children, Some(before + 1), level + 1, before + 1, projectStart).value;
      ProcessEntryItem(t, parentId, level, before, projectStart);
      assert ProcessEntry(e, parentId, level, before, projectStart).value == [p] + kids;
      assert Dated(p) <==> TaskDated(t.(children := []));
      EntriesDated(t.children, Some(before + 1), level + 1, before + 1, projectStart);
      DatedConcat([p], kids);
      assert AllDated([p]) <==> Dated(p) by { assert [p][0] == p; }
  }

  /** Validation passes for a forest without scalars whose pre-order
      tasks all have a valid name and duration. */
  lemma {:induction false} ValidFromFlatten(es: seq<Entry>)
    requires !HasNull(es) && Size(es) == |Flatten(es)|
    requires forall i :: 0 <= i < |Flatten(es)| ==>
               ValidName(Flatten(es)[i].name) && ValidDuration(Flatten(es)[i].duration)
    ensures AllValid(es)
    decreases es
  {
    if es != [] {
      var h, t := FlattenEntry(es[0]), Flatten(es[1..]);
      SizeCoversFlatten(es[1..]);
      EntrySizeCoversFlatten(es[0]);
      assert Flatten(es) == h + t;
      forall i | 0 <= i < |h| ensures ValidName(h[i].name) && ValidDuration(h[i].duration) {
        assert Flatten(es)[i] == h[i];
      }
      forall i | 0 <= i < |t| ensures ValidName(t[i].name) && ValidDuration(t[i].duration) {
        assert Flatten(es)[|h| + i] == t[i];
      }
      EntryValidFromFlatten(es[0]);
      ValidFromFlatten(es[1..]);
      forall i | 0 <= i < |es| ensures EntryValid(es[i]) {
        if i > 0 { assert es[i] == es[1..][i - 1]; }
      }
    }
  }

  lemma {:induction false} EntryValidFromFlatten(e: Entry)
    requires !EntryHasNull(e) && EntrySize(e) == |FlattenEntry(e)|
    requires forall i :: 0 <= i < |FlattenEntry(e)| ==>
               ValidName(FlattenEntry(e)[i].name) && ValidDuration(FlattenEntry(e)[i].duration)
    ensures EntryValid(e)
    decreases e
  {
    match e
    case Item(t) =>
      var f := Flatten(t.children);
      assert FlattenEntry(e) == [t.(children := [])] + f;
      assert FlattenEntry(e)[0] == t.(children := []);
      forall i | 0 <= i < |f| ensures ValidName(f[i].name) && ValidDuration(f[i].duration) {
        assert FlattenEntry(e)[1 + i] == f[i];
      }
      ValidFromFlatten(t.children);
  }

  /** `Size` counts the scalars that `Flatten` leaves out. */
  lemma {:induction false} SizeCoversFlatten(es: seq<Entry>)
    ensures Size(es) >= |Flatten(es)|
    decreases es
  {
    if es != [] {
      EntrySizeCoversFlatten(es[0]);
      SizeCoversFlatten(es[1..]);
    }
  }

  lemma {:induction false} EntrySizeCoversFlatten(e: Entry)
    ensures EntrySize(e) >= |FlattenEntry(e)|
    decreases e
  {
    if e.Item? {
      SizeCoversFlatten(e.task.children);
    }
  }

  // ---------------------------------------------------------------------
  // The document
  // ---------------------------------------------------------------------

  /** The project fields generateMSProjectXML reads. Dates are days;
      an empty string is an absent field. */
  /** The fields of `projectData` the generator reads; the name, company
      and manager are JSON values. */
  datatype ProjectData = ProjectData(name: Value, startDate: DateValue, company: Value, manager: Value)

  /** The root summary task: UID 0, ID 0, outline level 0. */
  datatype RootXml = RootXml(name: string, start: int, finish: int)

  datatype ProjectXml = ProjectXml(
    name: string,
    title: string,
    company: string,
    manager: string,
    startDate: int,
    root: RootXml,
    tasks: seq<TaskXml>)

  /** The RangeError `toISOString` throws on an invalid date. */
  const InvalidTime := "Invalid time value"

  /** The running maximum of the task finishes, starting from `end`. */
  function ProjectEnd(ps: seq<Processed>, end: int): (e: int)
    requires AllDated(ps)
    ensures e >= end
    ensures forall i :: 0 <= i < |ps| ==> Finish(ps[i]).value <= e
    ensures e == end || exists i :: 0 <= i < |ps| && e == Finish(ps[i]).value
    decreases |ps|
  {
    if ps == [] then end
    else
      var f := Finish(ps[0]).value;
      assert forall i :: 1 <= i < |ps| ==> ps[i] == ps[1..][i - 1];
      var e := ProjectEnd(ps[1..], if f > end then f else end);
      e
  }

  function TaskElements(ps: seq<Processed>, projectStart: int): (xs: seq<TaskXml>)
    requires AllDated(ps)
    ensures |xs| == |ps|
    ensures forall i :: 0 <= i < |ps| ==> xs[i] == TaskElement(ps[i], i + 1, projectStart)
  {
    seq(|ps|, i requires 0 <= i < |ps| && Dated(ps[i]) => TaskElement(ps[i], i + 1, projectStart))
  }

  /** escapeXml(v || fallback) on a JSON value: a falsy value gives the
      escaped fallback, any other value the escaped text `String` gives it. */
  function EscapeValue(v: Value, fallback: string): string {
    EscapeXml(if IsTruthy(v) then Shown(v) else fallback)
  }

  /** Decoding the escaped value gives the value's text back. */
  lemma EscapeValueDecodes(v: Value, fallback: string)
    ensures Unescape(EscapeValue(v, fallback)) == if IsTruthy(v) then Shown(v) else fallback
  {
    EscapeRoundTrip(if IsTruthy(v) then Shown(v) else fallback);
  }

  /** Every task element finishes by the project end, and the end is the
      start or the finish of one of them. */
  lemma ElementsWithinEnd(ps: seq<Processed>, start: int)
    requires AllDated(ps)
    ensures var end := ProjectEnd(ps, start);
      var xs := TaskElements(ps, start);
      && (forall i :: 0 <= i < |xs| ==> xs[i].id == i + 1 && xs[i].uid == ps[i].uid && xs[i].finish <= end)
      && (end == start || exists i :: 0 <= i < |xs| && xs[i].finish == end)
  {
  }

  /** The document for dated processed tasks starting at `start`: the
      root task runs from the start to the project end, and the task
      elements follow in processed order. */
  function Document(d: ProjectData, ps: seq<Processed>, start: int): (x: ProjectXml)
    requires AllDated(ps)
    ensures x.startDate == start && x.root.start == start && |x.tasks| == |ps|
    ensures x.root.finish == ProjectEnd(ps, start) && x.tasks == TaskElements(ps, start)
  {
    ProjectXml(
      EscapeValue(d.name, "Project"), EscapeValue(d.name, "Project"),
      EscapeValue(d.company, ""), EscapeValue(d.manager, ""),
      start,
      RootXml(EscapeValue(d.name, "Project Summary"), start, ProjectEnd(ps, start)),
      TaskElements(ps, start))
  }

  /** The root task does not end before it starts; every task element
      finishes by the root's finish, which is the start itself or the
      finish of one of the tasks; the elements carry IDs 1..n and the
      processed UIDs. */
  predicate Spans(x: ProjectXml, ps: seq<Processed>, start: int) {
    && |x.tasks| == |ps|
    && start <= x.root.finish
    && (forall i :: 0 <= i < |x.tasks| ==>
          x.tasks[i].id == i + 1 && x.tasks[i].uid == ps[i].uid && x.tasks[i].finish <= x.root.finish)
    && (x.root.finish == start || exists i :: 0 <= i < |x.tasks| && x.tasks[i].finish == x.root.finish)
  }

  lemma DocumentSpan(d: ProjectData, ps: seq<Processed>, start: int)
    requires AllDated(ps)
    ensures Spans(Document(d, ps, start), ps, start)
  {
    var x := Document(d, ps, start);
    SpanOf(x, ps, start);
  }

  lemma SpanOf(x: ProjectXml, ps: seq<Processed>, start: int)
    requires AllDated(ps) && x.root.finish == ProjectEnd(ps, start) && x.tasks == TaskElements(ps, start)
    ensures Spans(x, ps, start)
  {
    ElementsWithinEnd(ps, start);
  }

  /** With a valid project start, every processed task has valid dates
      exactly when every task object has a valid start and a duration
      `parseInt` can read. */
  lemma ProcessedDated(tasks: TaskData, projectStart: Option<int>)
    ensures var r := ProcessTasks(tasks, projectStart);
      r.Ok? && projectStart.Some? ==> (AllDated(r.value) <==> tasks.NotArray? || EveryTask(tasks.entries, TaskDated))
  {
    if tasks.TaskArray? && !HasNull(tasks.entries) && projectStart.Some? {
      EntriesDated(tasks.entries, None, 1, 0, projectStart);
    }
  }

  /** The formatting half of the generator, once the tasks are
      processed: an invalid project start or task date throws the
      RangeError; otherwise the document. */
  function Render(d: ProjectData, ps: seq<Processed>, projectStart: Option<int>): (r: Result<ProjectXml, string>)
    ensures r.Ok? <==> projectStart.Some? && AllDated(ps)
    ensures r.Err? ==> r.error == InvalidTime
    ensures r.Ok? ==> r.value.startDate == projectStart.value && |r.value.tasks| == |ps|
    ensures r.Ok? ==> r.value.root.start == r.value.startDate <= r.value.root.finish
    ensures r.Ok? ==> r.value.root.finish == r.value.startDate
                      || exists i :: 0 <= i < |r.value.tasks| && r.value.tasks[i].finish == r.value.root.finish
    ensures r.Ok? ==> forall i :: 0 <= i < |r.value.tasks| ==>
              r.value.tasks[i].id == i + 1 && r.value.tasks[i].uid == ps[i].uid
              && r.value.tasks[i].finish <= r.value.root.finish
    ensures r.Ok? ==> r.value.name == r.value.title == EscapeValue(d.name, "Project")
    ensures r.Ok? ==> r.value.root.name == EscapeValue(d.name, "Project Summary")
  {
    if projectStart.None? || !AllDated(ps) then Err(InvalidTime)
    else
      DocumentSpan(d, ps, projectStart.value);
      Ok(Document(d, ps, projectStart.value))
  }

  /** generateMSProjectXML(projectData, tasks); `now` stands for
      `Date.now()`. A `null` task throws first; then an invalid project
      start or task date throws when it is formatted. Otherwise the project
      start is the given date or now; the root task spans from it to the
      project end, which is the start or the latest task finish; the
      tasks follow with IDs 1..n in processed order. */
  function GenerateXml(d: ProjectData, tasks: TaskData, now: int): (r: Result<ProjectXml, string>)
    ensures tasks.TaskArray? && HasNull(tasks.entries) ==> r == Err(NullNameError)
    ensures tasks.NotArray? || !HasNull(tasks.entries) ==>
              (r.Ok? <==> !d.startDate.InvalidDate? && (tasks.NotArray? || EveryTask(tasks.entries, TaskDated)))
    ensures r.Err? ==> r.error == NullNameError || r.error == InvalidTime
    ensures r.Ok? ==> r.value.startDate == (if d.startDate.Day? then d.startDate.day else now)
    ensures r.Ok? ==> r.value.root.start == r.value.startDate <= r.value.root.finish
    ensures r.Ok? ==> r.value.root.finish == r.value.startDate
                      || exists i :: 0 <= i < |r.value.tasks| && r.value.tasks[i].finish == r.value.root.finish
    ensures r.Ok? ==> forall i :: 0 <= i < |r.value.tasks| ==>
              r.value.tasks[i].id == i + 1 && r.value.tasks[i].uid == i + 1
              && r.value.tasks[i].finish <= r.value.root.finish
    ensures r.Ok? ==> r.value.name == r.value.title == EscapeValue(d.name, "Project")
    ensures r.Ok? ==> r.value.root.name == EscapeValue(d.name, "Project Summary")
    ensures r.Ok? && tasks.TaskArray? ==> |r.value.tasks| == Size(tasks.entries)
  {
    var projectStart := DateOr(d.startDate, Some(now));
    match ProcessTasks(tasks, projectStart)
    case Err(e) => Err(e)
    case Ok(ps) =>
      ProcessedDated(tasks, projectStart);
      Render(d, ps, projectStart)
  }

  /** The project name, its title and the root task's name decode to the
      given name, or to the defaults when it is falsy. */
  lemma GeneratedNames(d: ProjectData, tasks: TaskData, now: int)
    requires GenerateXml(d, tasks, now).Ok?
    ensures var x := GenerateXml(d, tasks, now).value;
      && Unescape(x.name) == (if IsTruthy(d.name) then Shown(d.name) else "Project")
      && Unescape(x.root.name) == (if IsTruthy(d.name) then Shown(d.name) else "Project Summary")
  {
    EscapeValueDecodes(d.name, "Project");
    EscapeValueDecodes(d.name, "Project Summary");
  }
}

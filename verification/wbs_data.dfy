/** The JSON-shaped task objects the WBS pipeline passes around
    (lib/msProjectGenerator.js and app/api/msproject/generate/route.js). */
module WbsData {
  import opened Wrappers
  import opened Text
  import Js

  /** A JSON value in a task field the code converts with `parseInt` and
      `Number` (the `duration`): `undefined` when absent, `null`, a
      boolean, an integer, a string, or an array or object, which both
      convert through the text `String` gives them (`[5]` is "5", an
      object "[object Object]"). */
  datatype Value = Undefined | JsonNull | Bool(b: bool) | Num(n: int) | Str(s: string) | Compound(shown: string)

  /** JavaScript truthiness: what `v || fallback` keeps. */
  predicate IsTruthy(v: Value) {
    match v
    case Bool(b) => b
    case Num(n) => n != 0
    case Str(s) => s != ""
    case Compound(_) => true
    case _ => false
  }

  /** `String(v)`. */
  function Shown(v: Value): string {
    match v
    case Undefined => "undefined"
    case JsonNull => "null"
    case Bool(b) => if b then "true" else "false"
    case Num(n) => IntToString(n)
    case Str(s) => s
    case Compound(shown) => shown
  }

  /** `parseInt(v)`, which reads `String(v)`; `None` is NaN. An integer
      reads as itself; `undefined`, `null` and the booleans are NaN. */
  function ParseIntOf(v: Value): (r: Option<int>)
    ensures v.Num? ==> r == Some(v.n)
    ensures v.Undefined? || v.JsonNull? || v.Bool? ==> r.None?
  {
    if v.Num? then
      Js.ParseIntRoundTrip(v.n);
      Js.ParseInt(Shown(v))
    else Js.ParseInt(Shown(v))
  }

  /** `Number(v)`, as multiplication converts it; `None` is NaN. */
  function NumberOf(v: Value): (r: Option<int>)
    ensures v.Num? ==> r == Some(v.n)
  {
    match v
    case Undefined => None
    case JsonNull => Some(0)
    case Bool(b) => Some(if b then 1 else 0)
    case Num(n) => Some(n)
    case Str(s) => Js.StringToNumber(s)
    case Compound(shown) => Js.StringToNumber(shown)
  }

  /** Whenever `parseInt` reads a number from a value and `Number` does
      too, the two agree. */
  lemma NumberMatchesParseInt(v: Value)
    requires ParseIntOf(v).Some? && NumberOf(v).Some?
    ensures NumberOf(v) == ParseIntOf(v)
  {
    if v.Str? || v.Compound? {
      Js.ParsedNotBlank(Shown(v));
    }
  }

  /** A date field (a task's `start`, the project's `startDate`): falsy
      (absent, `null`, "", 0), a date (a whole day), or a truthy value
      that `new Date` turns into an invalid date. */
  datatype DateValue = Falsy | Day(day: int) | InvalidDate

  /** `new Date(d || fallback)`; `None` is an invalid date. */
  function DateOr(d: DateValue, fallback: Option<int>): (r: Option<int>)
    ensures d.Falsy? ==> r == fallback
    ensures d.Day? ==> r == Some(d.day)
    ensures d.InvalidDate? ==> r.None?
  {
    match d
    case Falsy => fallback
    case Day(day) => Some(day)
    case InvalidDate => None
  }

  /** One task object. `name` is `None` when absent or not a string;
      `duration` and `start` keep what the JSON holds; the fields the code
      only reads through `||` hold their raw value, with the falsy values
      (`""`, `0`, absent) all written as `""` or `0`. Dates are whole
      days. */
  datatype Task = Task(
    name: Option<string>,
    duration: Value,
    start: DateValue,
    predecessors: seq<int>,
    notes: string,
    priority: int,
    percentComplete: int,
    wbs: string,
    children: seq<Entry>)

  /** An element of a task array: a task object, `null`, or another scalar
      (a number, string or boolean), which has none of the task fields. */
  datatype Entry = Item(task: Task) | Null | Scalar

  /** The task object a scalar behaves as: every field reads `undefined`. */
  const EmptyTask: Task := Task(None, Undefined, Falsy, [], "", 0, 0, "", [])

  /** A task with a name and a duration and nothing else, as the text
      parser produces them (children added by the parser). */
  function Leaf(name: string, duration: int, wbs: string, children: seq<Entry>): Task {
    Task(Some(name), Num(duration), Falsy, [], "", 0, 0, wbs, children)
  }

  /** The number of task objects (and scalars) in a forest, counting
      nested children. */
  function Size(es: seq<Entry>): nat
    decreases es
  {
    if es == [] then 0 else EntrySize(es[0]) + Size(es[1..])
  }

  function EntrySize(e: Entry): nat
    decreases e
  {
    match e
    case Item(t) => 1 + Size(t.children)
    case Null => 0
    case Scalar => 1
  }

  /** Some `null` is reachable through task objects' children. */
  predicate HasNull(es: seq<Entry>)
    decreases es
  {
    es != [] && (EntryHasNull(es[0]) || HasNull(es[1..]))
  }

  predicate EntryHasNull(e: Entry)
    decreases e
  {
    match e
    case Item(t) => HasNull(t.children)
    case Null => true
    case Scalar => false
  }

  lemma {:induction false} HasNullConcat(a: seq<Entry>, b: seq<Entry>)
    ensures HasNull(a + b) <==> HasNull(a) || HasNull(b)
    decreases |a|
  {
    if a != [] {
      assert (a + b)[0] == a[0] && (a + b)[1..] == a[1..] + b;
      HasNullConcat(a[1..], b);
    } else {
      assert a + b == b;
    }
  }

  lemma {:induction false} SizeConcat(a: seq<Entry>, b: seq<Entry>)
    ensures Size(a + b) == Size(a) + Size(b)
    decreases |a|
  {
    if a != [] {
      assert (a + b)[0] == a[0] && (a + b)[1..] == a[1..] + b;
      SizeConcat(a[1..], b);
    } else {
      assert a + b == b;
    }
  }

  /** The task objects of a forest in pre-order (parents before their
      children), each with its children list emptied. */
  function Flatten(es: seq<Entry>): seq<Task>
    decreases es
  {
    if es == [] then [] else FlattenEntry(es[0]) + Flatten(es[1..])
  }

  function FlattenEntry(e: Entry): seq<Task>
    decreases e
  {
    match e
    case Item(t) => [t.(children := [])] + Flatten(t.children)
    case _ => []
  }

  lemma {:induction false} FlattenConcat(a: seq<Entry>, b: seq<Entry>)
    ensures Flatten(a + b) == Flatten(a) + Flatten(b)
    decreases |a|
  {
    if a != [] {
      assert (a + b)[0] == a[0] && (a + b)[1..] == a[1..] + b;
      FlattenConcat(a[1..], b);
    } else {
      assert a + b == b;
    }
  }

  /** Every task object of the forest, children taken apart, satisfies `p`. */
  predicate EveryTask(es: seq<Entry>, p: Task -> bool)
    decreases es
  {
    es != [] ==> EntryEvery(es[0], p) && EveryTask(es[1..], p)
  }

  predicate EntryEvery(e: Entry, p: Task -> bool)
    decreases e
  {
    e.Item? ==> p(e.task.(children := [])) && EveryTask(e.task.children, p)
  }

  /** `p` holds of every task of a listing. */
  predicate All(ts: seq<Task>, p: Task -> bool) {
    forall i :: 0 <= i < |ts| ==> p(ts[i])
  }

  lemma AllConcat(a: seq<Task>, b: seq<Task>, p: Task -> bool)
    ensures All(a + b, p) <==> All(a, p) && All(b, p)
  {
    if All(a + b, p) {
      assert forall i :: 0 <= i < |a| ==> (a + b)[i] == a[i];
      assert forall i :: 0 <= i < |b| ==> (a + b)[|a| + i] == b[i];
    }
  }

  /** EveryTask is `p` on every element of the pre-order listing. */
  lemma {:induction false} EveryTaskFlatten(es: seq<Entry>, p: Task -> bool)
    ensures EveryTask(es, p) <==> All(Flatten(es), p)
    decreases es
  {
    if es != [] {
      EntryEveryFlatten(es[0], p);
      EveryTaskFlatten(es[1..], p);
      AllConcat(FlattenEntry(es[0]), Flatten(es[1..]), p);
    }
  }

  lemma {:induction false} EntryEveryFlatten(e: Entry, p: Task -> bool)
    ensures EntryEvery(e, p) <==> All(FlattenEntry(e), p)
    decreases e
  {
    if e.Item? {
      var t0 := e.task.(children := []);
      EveryTaskFlatten(e.task.children, p);
      assert FlattenEntry(e) == [t0] + Flatten(e.task.children);
      assert All([t0], p) <==> p(t0) by { assert [t0][0] == t0; }
      AllConcat([t0], Flatten(e.task.children), p);
    }
  }

  /** The parent of every element of a forest, in pre-order, as the
      number of the task whose children list holds it (tasks numbered
      from 1 in pre-order, the first element of `es` being `off + 1`);
      the elements of `es` itself get `parentId`. */
  function ParentsOf(es: seq<Entry>, off: nat, parentId: Option<nat>): (r: seq<Option<nat>>)
    ensures |r| == Size(es)
    decreases es
  {
    if es == [] then [] else EntryParents(es[0], off, parentId) + ParentsOf(es[1..], off + EntrySize(es[0]), parentId)
  }

  function EntryParents(e: Entry, off: nat, parentId: Option<nat>): (r: seq<Option<nat>>)
    ensures |r| == EntrySize(e)
    decreases e
  {
    match e
    case Item(t) => [parentId] + ParentsOf(t.children, off + 1, Some(off + 1))
    case Null => []
    case Scalar => [parentId]
  }

  /** A pre-order position counted from 0 as a task number: -1, the top
      level, is no parent. */
  function UidOf(i: int): (id: Option<nat>)
    ensures id.Some? <==> i >= 0
    ensures id.Some? ==> id.value == i + 1
  {
    if i < 0 then None else Some(i + 1)
  }

  lemma {:induction false} ParentsOfConcat(a: seq<Entry>, b: seq<Entry>, off: nat, parentId: Option<nat>)
    ensures ParentsOf(a + b, off, parentId) == ParentsOf(a, off, parentId) + ParentsOf(b, off + Size(a), parentId)
    decreases |a|
  {
    if a != [] {
      assert (a + b)[0] == a[0] && (a + b)[1..] == a[1..] + b;
      ParentsOfConcat(a[1..], b, off + EntrySize(a[0]), parentId);
    } else {
      assert a + b == b;
    }
  }
}

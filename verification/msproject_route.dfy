/** POST /api/msproject/generate (app/api/msproject/generate/route.js):
    request checks, the choice between the text and the task array, the
    validation gate before generation, and the download file name. */
module MsProjectRoute {
  import opened Wrappers
  import opened Text
  import opened WbsData
  import opened WbsText
  import opened MsProject

  // ---------------------------------------------------------------------
  // The request body
  // ---------------------------------------------------------------------

  /** A value given for `tasks` or `wbsText`: a falsy value, a string, an
      array, or a single truthy non-array value (a task object, or a
      number or `true`, which behave as a scalar element). */
  datatype Payload = Absent | TextValue(text: string) | ArrayValue(entries: seq<Entry>) | Single(element: Entry)

  /** What `JSON.parse` gives for a string that is valid JSON. */
  datatype Json = JArray(entries: seq<Entry>) | JValue(element: Entry)

  /** The decoded body; `projectData` is `None` when it is falsy, and a
      value without the fields (a number, a string) reads them all as
      `undefined`. */
  datatype Body = Body(projectData: Option<ProjectData>, tasks: Payload, wbsText: Payload)

  predicate Truthy(p: Payload) {
    match p
    case Absent => false
    case TextValue(s) => s != ""
    case ArrayValue(_) => true
    case Single(e) => e != Null
  }

  /** `projectData && projectData.name` is truthy. */
  predicate HasName(d: Option<ProjectData>) {
    d.Some? && IsTruthy(d.value.name)
  }

  // ---------------------------------------------------------------------
  // parseWBSData
  // ---------------------------------------------------------------------

  /** A string argument: `JSON.parse` (`json`, `None` when it throws),
      an array result as it is and any other value wrapped in an array;
      when it throws, the text parser. */
  function ParseString(s: string, json: string -> Option<Json>): (r: seq<Entry>)
    ensures json(s).None? ==> !HasNull(r) && Size(r) == |TextRows(s)|
  {
    if json(s).None? then ParseTextWbs(s)
    else if json(s).value.JArray? then json(s).value.entries
    else [json(s).value.element]
  }

  /** parseWBSData(data): a falsy value gives no tasks, an array is kept
      as it is, any other object is wrapped in an array, and a string goes
      through ParseString. */
  function ParseWbsData(p: Payload, json: string -> Option<Json>): (r: seq<Entry>)
    ensures !Truthy(p) ==> r == []
    ensures p.ArrayValue? ==> r == p.entries
    ensures p.Single? && Truthy(p) ==> r == [p.element]
  {
    if !Truthy(p) then []
    else
      match p
      case ArrayValue(es) => es
      case Single(e) => [e]
      case TextValue(s) => ParseString(s, json)
  }

  // ---------------------------------------------------------------------
  // The file name
  // ---------------------------------------------------------------------

  /** `name.replace(/[^a-z0-9]/gi, '_')`: letters and digits are kept,
      every other character becomes an underscore. */
  function Sanitise(name: string): (r: string)
    ensures |r| == |name|
    ensures forall i :: 0 <= i < |name| ==>
              (IsAsciiAlnum(name[i]) ==> r[i] == name[i]) && (!IsAsciiAlnum(name[i]) ==> r[i] == '_')
  {
    seq(|name|, i requires 0 <= i < |name| => if IsAsciiAlnum(name[i]) then name[i] else '_')
  }

  function Filename(name: string): (r: string)
    ensures |r| == |name| + 4 && r[|name|..] == ".xml"
    ensures forall i :: 0 <= i < |name| ==> IsAsciiAlnum(r[i]) || r[i] == '_'
  {
    Sanitise(name) + ".xml"
  }

  /** Sanitising is idempotent, and leaves a name of letters and digits
      as it is. */
  lemma SanitiseIdempotent(name: string)
    ensures Sanitise(Sanitise(name)) == Sanitise(name)
    ensures (forall i :: 0 <= i < |name| ==> IsAsciiAlnum(name[i])) ==> Sanitise(name) == name
  {
  }

  // ---------------------------------------------------------------------
  // POST
  // ---------------------------------------------------------------------

  datatype Response =
    | XmlFile(xml: ProjectXml, filename: string)
    | BadRequest(error: string, validationErrors: seq<string>)
    | ServerError(error: string, details: string)

  const ProjectDataRequired := "Project data with name is required"
  const TasksRequired := "Either tasks or wbsText must be provided"
  const InvalidWbs := "Invalid WBS data"
  const GenerateFailed := "Failed to generate MS Project file"
  /** The TypeError of `projectData.name.replace` on a name that is not
      a string. */
  const NameNotString := "projectData.name.replace is not a function"

  /** The payload the route parses: `wbsText` when truthy, else `tasks`. */
  function Chosen(b: Body): Payload {
    if Truthy(b.wbsText) then b.wbsText else b.tasks
  }

  /** Generation, then the file name. The generator throws first, for a
      `null` task or an invalid date; only then does `replace` on a name
      that is not a string throw. */
  function GenerateFor(d: ProjectData, tasks: seq<Entry>, now: int): (r: Response)
    requires IsTruthy(d.name)
    ensures r.XmlFile? <==>
              !HasNull(tasks) && !d.startDate.InvalidDate? && EveryTask(tasks, TaskDated) && d.name.Str?
    ensures HasNull(tasks) ==> r == ServerError(GenerateFailed, NullNameError)
    ensures !HasNull(tasks) && (d.startDate.InvalidDate? || !EveryTask(tasks, TaskDated)) ==>
              r == ServerError(GenerateFailed, InvalidTime)
    ensures !HasNull(tasks) && !d.startDate.InvalidDate? && EveryTask(tasks, TaskDated) && !d.name.Str? ==>
              r == ServerError(GenerateFailed, NameNotString)
    ensures r.XmlFile? ==> r.xml == GenerateXml(d, TaskArray(tasks), now).value
                           && |r.xml.tasks| == Size(tasks) && r.filename == Filename(d.name.s)
    ensures r.ServerError? ==> r.error == GenerateFailed
  {
    match GenerateXml(d, TaskArray(tasks), now)
    case Err(e) => ServerError(GenerateFailed, e)
    case Ok(xml) =>
      if d.name.Str? then XmlFile(xml, Filename(d.name.s))
      else ServerError(GenerateFailed, NameNotString)
  }

  /** POST(request). `request` is the decoded body, or the message of the
      error thrown while reading it; `json` stands for `JSON.parse` and
      `now` for `Date.now()`. */
  function Post(request: Result<Body, string>, json: string -> Option<Json>, now: int): (r: Response)
    ensures request.Err? ==> r == ServerError(GenerateFailed, request.error)
    ensures request.Ok? && !HasName(request.value.projectData) ==> r == BadRequest(ProjectDataRequired, [])
    ensures request.Ok? && HasName(request.value.projectData) ==>
              (r == BadRequest(TasksRequired, []) <==>
               !Truthy(request.value.wbsText) && !Truthy(request.value.tasks))
    ensures request.Ok? && r.BadRequest? && r.error == InvalidWbs ==>
              var v := ValidateWbsData(TaskArray(ParseWbsData(Chosen(request.value), json)));
              v.Ok? && v.value.errors != [] && r.validationErrors == v.value.errors
    ensures r.XmlFile? ==>
              var tasks := ParseWbsData(Chosen(request.value), json);
              ValidateWbsData(TaskArray(tasks)) == Ok(Validation(true, []))
              && |r.xml.tasks| == Size(tasks)
    ensures r.ServerError? ==> r.error == GenerateFailed
  {
    match request
    case Err(message) => ServerError(GenerateFailed, message)
    case Ok(b) =>
      if !HasName(b.projectData) then BadRequest(ProjectDataRequired, [])
      else if !Truthy(b.wbsText) && !Truthy(b.tasks) then BadRequest(TasksRequired, [])
      else
        var tasks := ParseWbsData(Chosen(b), json);
        match ValidateWbsData(TaskArray(tasks))
        case Err(e) => ServerError(GenerateFailed, e)
        case Ok(v) =>
          if !v.isValid then BadRequest(InvalidWbs, v.errors)
          else GenerateFor(b.projectData.value, tasks, now)
  }

  /** A truthy `wbsText` wins: the `tasks` field is then never looked at. */
  lemma TextTakesPrecedence(d: Option<ProjectData>, text: Payload, t1: Payload, t2: Payload,
                            json: string -> Option<Json>, now: int)
    requires Truthy(text)
    ensures Post(Ok(Body(d, t1, text)), json, now) == Post(Ok(Body(d, t2, text)), json, now)
  {
  }

  /** Every task the text parser builds can be dated: its start is unset
      and its duration is a whole number of days. */
  lemma TextTasksDated(text: string)
    ensures EveryTask(ParseTextWbs(text), TaskDated)
  {
    var es := ParseTextWbs(text);
    LabelsDated(TextRows(text));
    EveryTaskFlatten(es, TaskDated);
  }

  lemma LabelsDated(rows: seq<Row>)
    ensures All(Labels(rows), TaskDated)
  {
    forall i | 0 <= i < |rows| ensures TaskDated(Labels(rows)[i]) {
      assert Labels(rows)[i] == RowTask(rows[i]);
    }
  }

  /** A text that `JSON.parse` rejects goes to the text parser. */
  lemma ParsedText(b: Body, text: string, json: string -> Option<Json>)
    requires b.wbsText == TextValue(text) && text != "" && json(text).None?
    ensures Truthy(b.wbsText) && ParseWbsData(Chosen(b), json) == ParseTextWbs(text)
  {
  }

  /** Past the request checks, tasks that are free of `null` and can be
      dated give the file when they validate and the validator's 400
      otherwise, for a string name and a start date that is not invalid. */
  lemma PostOnCleanTasks(b: Body, json: string -> Option<Json>, now: int)
    requires HasName(b.projectData) && (Truthy(b.wbsText) || Truthy(b.tasks))
    requires b.projectData.value.name.Str? && !b.projectData.value.startDate.InvalidDate?
    requires var es := ParseWbsData(Chosen(b), json); !HasNull(es) && EveryTask(es, TaskDated)
    ensures var r := Post(Ok(b), json, now);
      r.XmlFile? || (r.BadRequest? && r.error == InvalidWbs)
  {
  }

  /** ... and with a non-empty array of valid tasks, the file. */
  lemma PostOnValidTasks(b: Body, json: string -> Option<Json>, now: int)
    requires HasName(b.projectData) && (Truthy(b.wbsText) || Truthy(b.tasks))
    requires b.projectData.value.name.Str? && !b.projectData.value.startDate.InvalidDate?
    requires ParseWbsData(Chosen(b), json) != [] && AllValid(ParseWbsData(Chosen(b), json))
    requires !HasNull(ParseWbsData(Chosen(b), json)) && EveryTask(ParseWbsData(Chosen(b), json), TaskDated)
    ensures Post(Ok(b), json, now).XmlFile?
    ensures |Post(Ok(b), json, now).xml.tasks| == Size(ParseWbsData(Chosen(b), json))
  {
  }

  /** The text a request carries in `wbsText`, when `JSON.parse` rejects
      it, goes to the text parser, whose tasks never hold `null` and can
      all be dated. */
  lemma TextChosen(b: Body, text: string, json: string -> Option<Json>)
    requires b.wbsText == TextValue(text) && text != "" && json(text).None?
    ensures var es := ParseWbsData(Chosen(b), json);
      Truthy(b.wbsText) && !HasNull(es) && EveryTask(es, TaskDated)
  {
    ParsedText(b, text, json);
    TextTasksDated(text);
  }

  /** The only server error past the request checks that comes from the
      task data is the one `null` tasks raise; a text that is not JSON
      never has one, so with a string name and a start date that is not
      invalid it gives the file or the validator's 400. */
  lemma PlainTextNeverFails(b: Body, text: string, json: string -> Option<Json>, now: int)
    requires b.wbsText == TextValue(text) && text != "" && json(text).None?
    requires b.projectData.Some? && b.projectData.value.name.Str? && b.projectData.value.name.s != ""
    requires !b.projectData.value.startDate.InvalidDate?
    ensures var r := Post(Ok(b), json, now);
      r.XmlFile? || (r.BadRequest? && r.error == InvalidWbs)
  {
    TextChosen(b, text, json);
    PostOnCleanTasks(b, json, now);
  }

  lemma LabelsValid(rows: seq<Row>)
    requires forall i :: 0 <= i < |rows| ==> rows[i].name != ""
    ensures forall i :: 0 <= i < |Labels(rows)| ==>
              ValidName(Labels(rows)[i].name) && ValidDuration(Labels(rows)[i].duration)
  {
    forall i | 0 <= i < |rows|
      ensures ValidName(Labels(rows)[i].name) && ValidDuration(Labels(rows)[i].duration)
    {
      assert Labels(rows)[i] == RowTask(rows[i]);
    }
  }

  /** With LF as the only line terminator, every task the text parser
      builds passes validation. */
  lemma TextTasksValid(text: string)
    requires forall x :: x in text ==> x == '\n' || !IsLineTerminator(x)
    ensures AllValid(ParseTextWbs(text))
  {
    TextRowsNamed(text);
    LabelsValid(TextRows(text));
    ValidFromFlatten(ParseTextWbs(text));
  }

  /** With LF as the only line terminator and at least one non-blank
      line, the text parser gives a non-empty forest of valid tasks that
      can be dated, one per non-blank line. */
  lemma PlainTextTasks(text: string)
    requires forall x :: x in text ==> x == '\n' || !IsLineTerminator(x)
    requires NonBlankLines(SplitOn(text, '\n')) != []
    ensures var es := ParseTextWbs(text);
      && text != "" && es != [] && AllValid(es) && EveryTask(es, TaskDated)
      && Size(es) == |NonBlankLines(SplitOn(text, '\n'))|
  {
    var es := ParseTextWbs(text);
    assert Size(es) == |NonBlankLines(SplitOn(text, '\n'))| by { OneRowPerLine(text); }
    assert EveryTask(es, TaskDated) by { TextTasksDated(text); }
    assert AllValid(es) by { TextTasksValid(text); }
    assert text != "" by { EmptyTextHasNoLines(); }
  }

  lemma EmptyTextHasNoLines()
    ensures NonBlankLines(SplitOn("", '\n')) == []
  {
    assert SplitOn("", '\n') == [""];
  }

  /** A text whose only line terminator is the line feed, with at least
      one non-blank line. */
  predicate LfOutline(text: string) {
    && (forall x :: x in text ==> x == '\n' || !IsLineTerminator(x))
    && NonBlankLines(SplitOn(text, '\n')) != []
  }

  /** The chosen tasks of a request whose `wbsText` is such a text. */
  lemma PlainTextChosen(b: Body, text: string, json: string -> Option<Json>)
    requires b.wbsText == TextValue(text) && json(text).None?
    requires forall x :: x in text ==> x == '\n' || !IsLineTerminator(x)
    requires NonBlankLines(SplitOn(text, '\n')) != []
    ensures Truthy(b.wbsText) && ParseWbsData(Chosen(b), json) != [] && AllValid(ParseWbsData(Chosen(b), json))
    ensures !HasNull(ParseWbsData(Chosen(b), json)) && EveryTask(ParseWbsData(Chosen(b), json), TaskDated)
    ensures Size(ParseWbsData(Chosen(b), json)) == |NonBlankLines(SplitOn(text, '\n'))|
  {
    PlainTextTasks(text);
    ParsedText(b, text, json);
  }

  /** With LF as the only line terminator and at least one non-blank
      line, a text that is not JSON always gives the XML file, with one
      task per non-blank line. */
  lemma PlainTextGivesFile(b: Body, text: string, json: string -> Option<Json>, now: int)
    requires b.wbsText == TextValue(text) && json(text).None?
    requires LfOutline(text)
    requires b.projectData.Some? && b.projectData.value.name.Str? && b.projectData.value.name.s != ""
    requires !b.projectData.value.startDate.InvalidDate?
    ensures Post(Ok(b), json, now).XmlFile?
    ensures |Post(Ok(b), json, now).xml.tasks| == |NonBlankLines(SplitOn(text, '\n'))|
  {
    PlainTextChosen(b, text, json);
    PostOnValidTasks(b, json, now);
  }

  /** The parent uid every generated task carries, for a text outline:
      the nearest earlier row with a smaller indentation level, numbered
      from 1; none for a row without one. */
  lemma ParsedParentIsNearestShallower(text: string, projectStart: Option<int>, k: nat)
    requires k < |TextRows(text)|
    ensures var rows := TextRows(text);
      ProcessTasks(TaskArray(ParseTextWbs(text)), projectStart).value[k].parentId
        == UidOf(Shallower(rows, k - 1, rows[k].level))
  {
    ForestParents(TextRows(text), k);
    ProcessTasksNested(TaskArray(ParseTextWbs(text)), projectStart);
  }

  /** A `null` anywhere in the chosen tasks turns into a server error
      carrying the TypeError's message. */
  lemma NullTaskIsServerError(b: Body, json: string -> Option<Json>, now: int)
    requires HasName(b.projectData) && (Truthy(b.wbsText) || Truthy(b.tasks))
    requires HasNull(ParseWbsData(Chosen(b), json))
    ensures Post(Ok(b), json, now) == ServerError(GenerateFailed, NullNameError)
  {
  }
}

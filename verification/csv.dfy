/** The CSV export of the admin dashboard (`downloadCSV` in
    app/admin/dashboard/page.js) and a reader for the format of section 2
    of RFC 4180, with line feed as the record separator, against which the
    export is shown to read back. */
module Csv {
  import opened Wrappers
  import opened Text

  /** A row object: its keys in insertion order, each with its value as
      `String(r[k] ?? "")` renders it. */
  type Row = seq<(string, string)>

  function Keys(r: Row): (ks: seq<string>)
    ensures |ks| == |r| && forall i :: 0 <= i < |r| ==> ks[i] == r[i].0
  {
    seq(|r|, i requires 0 <= i < |r| => r[i].0)
  }

  /** `r[k] ?? ""` */
  function Lookup(r: Row, k: string): string
    decreases |r|
  {
    if r == [] then "" else if r[0].0 == k then r[0].1 else Lookup(r[1..], k)
  }

  /** `s.replace(/"/g, '""')` */
  function Double(s: string): (r: string)
    ensures |r| >= |s|
    decreases |s|
  {
    if s == [] then "" else (if s[0] == '"' then "\"\"" else [s[0]]) + Double(s[1..])
  }

  /** A cell as the export writes it: in double quotes, inner quotes doubled. */
  function Quote(s: string): string {
    "\"" + Double(s) + "\""
  }

  /** A record's fields as written: quoted, or as they are. */
  function Encode(cells: seq<string>, quoted: bool): (r: seq<string>)
    ensures |r| == |cells|
    ensures forall i :: 0 <= i < |cells| ==> r[i] == (if quoted then Quote(cells[i]) else cells[i])
  {
    seq(|cells|, i requires 0 <= i < |cells| => if quoted then Quote(cells[i]) else cells[i])
  }

  function Line(cells: seq<string>, quoted: bool): string {
    Join(Encode(cells, quoted), ",")
  }

  function Cells(r: Row, keys: seq<string>): (cs: seq<string>)
    ensures |cs| == |keys| && forall j :: 0 <= j < |keys| ==> cs[j] == Lookup(r, keys[j])
  {
    seq(|keys|, j requires 0 <= j < |keys| => Lookup(r, keys[j]))
  }

  /** `downloadCSV(rows)`: nothing for no rows; otherwise the first row's
      keys as the header, then one quoted line per row, joined by "\n". */
  function Export(rows: seq<Row>): (r: Option<string>)
    ensures r.None? <==> rows == []
  {
    if rows == [] then None
    else
      var keys := Keys(rows[0]);
      var lines := seq(|rows|, i requires 0 <= i < |rows| => Line(Cells(rows[i], keys), true));
      Some(Join([Line(keys, false)] + lines, "\n"))
  }

  // ---------------------------------------------------------------------
  // Reading back
  // ---------------------------------------------------------------------

  /** The rest of an escaped field after its opening quote: up to the
      closing quote, with `""` standing for one quote. */
  function ReadEscaped(s: string): (r: Option<(string, string)>)
    ensures r.Some? ==> |r.value.1| < |s|
    decreases |s|
  {
    if s == [] then None
    else if s[0] == '"' then
      if |s| > 1 && s[1] == '"' then
        match ReadEscaped(s[2..])
        case None => None
        case Some((c, rest)) => Some(("\"" + c, rest))
      else Some(("", s[1..]))
    else
      match ReadEscaped(s[1..])
      case None => None
      case Some((c, rest)) => Some(([s[0]] + c, rest))
  }

  predicate PlainChar(c: char) {
    c != ',' && c != '\n'
  }

  /** One field: escaped when it opens with a quote, else everything up
      to the next comma or line feed. */
  function ReadField(s: string): (r: Option<(string, string)>)
    ensures r.Some? ==> |r.value.1| <= |s|
  {
    if s != [] && s[0] == '"' then ReadEscaped(s[1..])
    else
      var k := Run(s, 0, PlainChar);
      Some((s[..k], s[k..]))
  }

  /** One record: fields separated by commas, up to a line feed (consumed;
      the flag says it was there) or the end of the text. */
  function ReadRecord(s: string): (r: Option<(seq<string>, string, bool)>)
    ensures r.Some? ==> |r.value.1| <= |s| && (r.value.2 ==> |r.value.1| < |s|)
    decreases |s|
  {
    match ReadField(s)
    case None => None
    case Some((f, rest)) =>
      if rest == [] then Some(([f], [], false))
      else if rest[0] == '\n' then Some(([f], rest[1..], true))
      else if rest[0] == ',' then
        match ReadRecord(rest[1..])
        case None => None
        case Some((fs, more, nl)) => Some(([f] + fs, more, nl))
      else None
  }

  function ReadDocument(s: string): Option<seq<seq<string>>>
    decreases |s|
  {
    match ReadRecord(s)
    case None => None
    case Some((fs, rest, nl)) =>
      if !nl then Some([fs])
      else
        match ReadDocument(rest)
        case None => None
        case Some(recs) => Some([fs] + recs)
  }

  /** What may follow a field. */
  predicate FieldEnd(t: string) {
    t == [] || t[0] == ',' || t[0] == '\n'
  }

  /** A header key the reader takes back unquoted. */
  predicate PlainSafe(k: string) {
    forall i :: 0 <= i < |k| ==> k[i] != ',' && k[i] != '\n' && k[i] != '"'
  }

  lemma {:induction false} EscapedRoundTrip(c: string, t: string)
    requires FieldEnd(t)
    ensures ReadEscaped(Double(c) + "\"" + t) == Some((c, t))
    decreases |c|
  {
    if c == [] {
      ReadEscapedClose(t);
    } else {
      EscapedRoundTrip(c[1..], t);
      if c[0] == '"' {
        EscapedQuoteStep(c, t);
      } else {
        EscapedPlainStep(c, t);
      }
    }
  }

  lemma EscapedQuoteStep(c: string, t: string)
    requires c != [] && c[0] == '"'
    requires ReadEscaped(Double(c[1..]) + "\"" + t) == Some((c[1..], t))
    ensures ReadEscaped(Double(c) + "\"" + t) == Some((c, t))
  {
    var u := Double(c[1..]) + "\"" + t;
    assert Double(c) + "\"" + t == "\"\"" + u;
    ReadEscapedQuote(u);
    assert "\"" + c[1..] == c;
  }

  lemma EscapedPlainStep(c: string, t: string)
    requires c != [] && c[0] != '"'
    requires ReadEscaped(Double(c[1..]) + "\"" + t) == Some((c[1..], t))
    ensures ReadEscaped(Double(c) + "\"" + t) == Some((c, t))
  {
    var u := Double(c[1..]) + "\"" + t;
    assert Double(c) + "\"" + t == [c[0]] + u;
    ReadEscapedPlain(c[0], u);
    HeadTail(c);
  }

  /** The closing quote ends the field when a separator or the end follows. */
  lemma ReadEscapedClose(t: string)
    requires FieldEnd(t)
    ensures ReadEscaped("\"" + t) == Some(("", t))
  {
    assert ("\"" + t)[1..] == t;
  }

  /** A doubled quote reads as one quote. */
  lemma ReadEscapedQuote(u: string)
    ensures ReadEscaped("\"\"" + u) == match ReadEscaped(u)
                                      case None => None
                                      case Some((c, rest)) => Some(("\"" + c, rest))
  {
    assert ("\"\"" + u)[2..] == u;
  }

  /** Any other character reads as itself. */
  lemma ReadEscapedPlain(x: char, u: string)
    requires x != '"'
    ensures ReadEscaped([x] + u) == match ReadEscaped(u)
                                    case None => None
                                    case Some((c, rest)) => Some(([x] + c, rest))
  {
    assert ([x] + u)[1..] == u;
  }

  lemma FieldRoundTrip(c: string, quoted: bool, t: string)
    requires FieldEnd(t)
    requires !quoted ==> PlainSafe(c)
    ensures ReadField((if quoted then Quote(c) else c) + t) == Some((c, t))
  {
    if quoted {
      QuotedFieldRoundTrip(c, t);
    } else {
      PlainFieldRoundTrip(c, t);
    }
  }

  lemma QuotedFieldRoundTrip(c: string, t: string)
    requires FieldEnd(t)
    ensures ReadField(Quote(c) + t) == Some((c, t))
  {
    var s := Quote(c) + t;
    assert s[0] == '"';
    assert s[1..] == Double(c) + "\"" + t;
    EscapedRoundTrip(c, t);
  }

  lemma PlainFieldRoundTrip(c: string, t: string)
    requires FieldEnd(t) && PlainSafe(c)
    ensures ReadField(c + t) == Some((c, t))
  {
    var s := c + t;
    PlainRun(s, c, t);
    assert s[..|c|] == c && s[|c|..] == t;
  }

  lemma {:induction false} PlainRun(s: string, c: string, t: string)
    requires s == c + t && PlainSafe(c) && FieldEnd(t)
    ensures Run(s, 0, PlainChar) == |c|
  {
    assert forall j :: 0 <= j < |c| ==> s[j] == c[j];
    RunIs(s, 0, PlainChar, |c|);
  }

  lemma {:induction false} RecordRoundTrip(cells: seq<string>, quoted: bool, t: string)
    requires |cells| >= 1
    requires !quoted ==> forall i :: 0 <= i < |cells| ==> PlainSafe(cells[i])
    requires t == [] || t[0] == '\n'
    ensures ReadRecord(Line(cells, quoted) + t) == Some((cells, if t == [] then [] else t[1..], t != []))
    decreases |cells|
  {
    if |cells| == 1 {
      LastCellRoundTrip(cells, quoted, t);
    } else {
      RecordRoundTrip(cells[1..], quoted, t);
      CellStep(cells, quoted, t);
    }
  }

  lemma LastCellRoundTrip(cells: seq<string>, quoted: bool, t: string)
    requires |cells| == 1
    requires !quoted ==> PlainSafe(cells[0])
    requires t == [] || t[0] == '\n'
    ensures ReadRecord(Line(cells, quoted) + t) == Some((cells, if t == [] then [] else t[1..], t != []))
  {
    var e := Encode(cells, quoted);
    assert Line(cells, quoted) == e[0];
    FieldRoundTrip(cells[0], quoted, t);
    ReadRecordLast(e[0] + t, cells[0], t);
    assert cells == [cells[0]];
  }

  /** Reading the first field and its comma, then the rest of the line. */
  lemma CellStep(cells: seq<string>, quoted: bool, t: string)
    requires |cells| >= 2
    requires !quoted ==> PlainSafe(cells[0])
    requires ReadRecord(Line(cells[1..], quoted) + t) == Some((cells[1..], if t == [] then [] else t[1..], t != []))
    ensures ReadRecord(Line(cells, quoted) + t) == Some((cells, if t == [] then [] else t[1..], t != []))
  {
    var f := if quoted then Quote(cells[0]) else cells[0];
    var tail := Line(cells[1..], quoted);
    LineCons(cells, quoted);
    CommaRegroup(f, tail, t);
    FieldRoundTrip(cells[0], quoted, "," + (tail + t));
    ReadRecordComma(f + ("," + (tail + t)), cells[0], tail + t, cells[1..], if t == [] then [] else t[1..], t != []);
    HeadTail(cells);
  }

  /** A line is its first field, a comma, and the line of the others. */
  lemma LineCons(cells: seq<string>, quoted: bool)
    requires |cells| >= 2
    ensures Line(cells, quoted) == (if quoted then Quote(cells[0]) else cells[0]) + "," + Line(cells[1..], quoted)
  {
    var e := Encode(cells, quoted);
    assert Encode(cells[1..], quoted) == e[1..];
  }

  lemma CommaRegroup(f: string, tail: string, t: string)
    ensures f + "," + tail + t == f + ("," + (tail + t))
  {
  }

  lemma ReadRecordLast(s: string, f: string, t: string)
    requires t == [] || t[0] == '\n'
    requires ReadField(s) == Some((f, t))
    ensures ReadRecord(s) == Some(([f], if t == [] then [] else t[1..], t != []))
  {
  }

  lemma ReadRecordComma(s: string, f: string, more: string, fs: seq<string>, m: string, nl: bool)
    requires ReadField(s) == Some((f, "," + more))
    requires ReadRecord(more) == Some((fs, m, nl))
    ensures ReadRecord(s) == Some(([f] + fs, m, nl))
  {
    assert ("," + more)[1..] == more;
  }

  /** Records written line by line, each quoted or not, read back. */
  lemma {:induction false} DocumentRoundTrip(recs: seq<seq<string>>, quoted: seq<bool>, lines: seq<string>)
    requires |recs| >= 1 && |quoted| == |recs| && |lines| == |recs|
    requires forall i :: 0 <= i < |recs| ==> |recs[i]| >= 1 && lines[i] == Line(recs[i], quoted[i])
    requires forall i, j :: 0 <= i < |recs| && !quoted[i] && 0 <= j < |recs[i]| ==> PlainSafe(recs[i][j])
    ensures ReadDocument(Join(lines, "\n")) == Some(recs)
    decreases |recs|
  {
    if |recs| == 1 {
      RecordRoundTrip(recs[0], quoted[0], []);
      assert Join(lines, "\n") == Line(recs[0], quoted[0]) + [];
      assert recs == [recs[0]];
    } else {
      DocumentRoundTrip(recs[1..], quoted[1..], lines[1..]);
      var t := "\n" + Join(lines[1..], "\n");
      RecordRoundTrip(recs[0], quoted[0], t);
      DocumentStep(recs, lines, t);
    }
  }

  /** The first record and its line feed, then the records after it. */
  lemma DocumentStep(recs: seq<seq<string>>, lines: seq<string>, t: string)
    requires |recs| >= 2 && |lines| == |recs|
    requires t == "\n" + Join(lines[1..], "\n")
    requires ReadRecord(lines[0] + t) == Some((recs[0], t[1..], true))
    requires ReadDocument(Join(lines[1..], "\n")) == Some(recs[1..])
    ensures ReadDocument(Join(lines, "\n")) == Some(recs)
  {
    assert Join(lines, "\n") == lines[0] + t;
    assert t[1..] == Join(lines[1..], "\n");
    ReadDocumentCons(lines[0] + t, recs[0], t[1..], recs[1..]);
    HeadTail(recs);
  }

  lemma ReadDocumentCons(s: string, fs: seq<string>, rest: string, more: seq<seq<string>>)
    requires ReadRecord(s) == Some((fs, rest, true))
    requires ReadDocument(rest) == Some(more)
    ensures ReadDocument(s) == Some([fs] + more)
  {
  }

  /** The export reads back: the header gives the first row's keys and
      each following record gives that row's cell for every key, whatever
      the cells contain (quotes, commas, line feeds). */
  lemma ExportRoundTrip(rows: seq<Row>)
    requires rows != [] && |rows[0]| >= 1
    requires forall j :: 0 <= j < |rows[0]| ==> PlainSafe(rows[0][j].0)
    ensures var keys := Keys(rows[0]);
            ReadDocument(Export(rows).value)
              == Some([keys] + seq(|rows|, i requires 0 <= i < |rows| => Cells(rows[i], keys)))
  {
    var keys := Keys(rows[0]);
    var cells := seq(|rows|, i requires 0 <= i < |rows| => Cells(rows[i], keys));
    var recs := [keys] + cells;
    var quoted := [false] + seq(|rows|, i => true);
    var written := [Line(keys, false)] + seq(|rows|, i requires 0 <= i < |rows| => Line(Cells(rows[i], keys), true));
    forall i | 0 <= i < |recs| ensures |recs[i]| >= 1 && written[i] == Line(recs[i], quoted[i]) {
      if i > 0 {
        assert recs[i] == Cells(rows[i - 1], keys) && quoted[i];
      }
    }
    DocumentRoundTrip(recs, quoted, written);
  }
}

/**
  `CreateSpreadsheetJob`: the metadata of existing works written back as a
  CSV sheet for an update. Every requested field becomes one double-quoted
  cell holding the field's values joined by the multi-value separator,
  with embedded double quotes doubled as section 2, rule 7 of RFC 4180
  requires; the header is the field names joined by commas and each work
  that serialises adds a CRLF-separated line.
 */
module Spreadsheet {
  import opened Text
  import opened BulkOps

  /** A value of a work's attribute: a string, a date-time (skipped), or
      an object such as a controlled term, known by its id. */
  datatype Value = Str(s: string) | DateTimeValue | Ref(id: string)

  /** A work as `Work.find` gives it: its attributes by name. */
  datatype WorkRecord = WorkRecord(attributes: map<string, seq<Value>>)

  /** What `work_to_csv` gives back: `false`, the line, or the NoMethodError
      `work.send` raises for a field the work does not have. */
  datatype CsvLine = NoLine | Line(text: string) | Raises

  const QUOTE: char := '"'
  const CRLF: string := "\r\n"

  function EscapeChar(c: char): string {
    if c == QUOTE then [QUOTE, QUOTE] else [c]
  }

  /** `gsub("\"", "\"\"")`. */
  function Escape(s: string): string {
    if s == [] then [] else EscapeChar(s[0]) + Escape(s[1..])
  }

  /** A field as RFC 4180 quotes it. */
  function Quote(s: string): string {
    [QUOTE] + Escape(s) + [QUOTE]
  }

  /** Whether `downcase.include? "label"` holds of the field name. */
  predicate IsLabelField(field: string) {
    Contains(Lower(field), "label")
  }

  /** `field_name[0..-7]`: the name without its last six characters, or
      the empty string for a shorter name. */
  function AttributeName(field: string): string {
    if IsLabelField(field) then (if |field| >= 6 then field[..|field| - 6] else "") else field
  }

  /** The text a value is written as before escaping: a date-time maps to
      nil, which `join` writes as nothing; an object gives its id, or for a
      label field the label fetched for that id. */
  function ValueText(v: Value, isLabel: bool, fetchLabel: string -> string): string {
    match v
    case Str(s) => s
    case DateTimeValue => ""
    case Ref(id) => if isLabel then fetchLabel(id) else id
  }

  function Texts(vs: seq<Value>, isLabel: bool, fetchLabel: string -> string): (r: seq<string>)
    ensures |r| == |vs|
  {
    if vs == [] then [] else [ValueText(vs[0], isLabel, fetchLabel)] + Texts(vs[1..], isLabel, fetchLabel)
  }

  /** The values of `work_to_csv`'s inner `map`: each value's text with its
      quotes doubled (a date-time stays nil). */
  function EscapedTexts(vs: seq<Value>, isLabel: bool, fetchLabel: string -> string): (r: seq<string>)
    ensures |r| == |vs|
  {
    if vs == [] then []
    else [match vs[0] case DateTimeValue => "" case _ => Escape(ValueText(vs[0], isLabel, fetchLabel))] +
         EscapedTexts(vs[1..], isLabel, fetchLabel)
  }

  /** One cell of the line: the escaped values joined by `;` between double
      quotes; `None` when the work lacks the attribute. */
  function Cell(w: WorkRecord, field: string, fetchLabel: string -> string): Option<string> {
    var name := AttributeName(field);
    if name !in w.attributes then None
    else Some([QUOTE] + Join(EscapedTexts(w.attributes[name], IsLabelField(field), fetchLabel), [SEPARATOR]) + [QUOTE])
  }

  function Cells(w: WorkRecord, fields: seq<string>, fetchLabel: string -> string): Option<seq<string>> {
    if fields == [] then Some([])
    else match Cell(w, fields[0], fetchLabel)
      case None => None
      case Some(c) =>
        match Cells(w, fields[1..], fetchLabel)
        case None => None
        case Some(cs) => Some([c] + cs)
  }

  /** `work_to_csv`: `false` for an empty id or a work `find` misses, else
      the cells joined by commas. */
  function WorkToCsv(workId: string, fields: seq<string>, find: string -> Option<WorkRecord>,
                     fetchLabel: string -> string): CsvLine {
    if workId == [] then NoLine
    else match find(workId)
      case None => NoLine
      case Some(w) =>
        match Cells(w, fields, fetchLabel)
        case None => Raises
        case Some(cs) => Line(Join(cs, ","))
  }

  // ---------------------------------------------------------------------
  // Reading a line back as RFC 4180 does
  // ---------------------------------------------------------------------

  /** Reads a quoted field's contents after its opening quote: a doubled
      quote stands for one quote, a single one closes the field. Gives the
      contents and what follows the closing quote. */
  function ReadQuoted(t: string): Option<(string, string)>
    decreases |t|
  {
    if t == [] then None
    else if t[0] == QUOTE then
      if |t| > 1 && t[1] == QUOTE then
        match ReadQuoted(t[2..])
        case None => None
        case Some(p) => Some(([QUOTE] + p.0, p.1))
      else Some(([], t[1..]))
    else
      match ReadQuoted(t[1..])
      case None => None
      case Some(p) => Some(([t[0]] + p.0, p.1))
  }

  lemma ReadQuotedShorter(t: string)
    ensures ReadQuoted(t).Some? ==> |ReadQuoted(t).value.1| < |t|
    decreases |t|
  {
    if t != [] && t[0] == QUOTE && |t| > 1 && t[1] == QUOTE {
      ReadQuotedShorter(t[2..]);
    } else if t != [] && t[0] != QUOTE {
      ReadQuotedShorter(t[1..]);
    }
  }

  /** A record of quoted fields separated by commas. */
  function ParseFields(t: string): Option<seq<string>>
    decreases |t|
  {
    if t == [] || t[0] != QUOTE then None
    else
      ReadQuotedShorter(t[1..]);
      match ReadQuoted(t[1..])
      case None => None
      case Some(p) =>
        if p.1 == [] then Some([p.0])
        else if p.1[0] != ',' then None
        else
          match ParseFields(p.1[1..])
          case None => None
          case Some(fs) => Some([p.0] + fs)
  }

  /** An empty line is a record of no fields. */
  function ParseRecord(t: string): Option<seq<string>> {
    if t == [] then Some([]) else ParseFields(t)
  }

  /** The closing quote ends an escaped field when what follows cannot be
      taken for a second quote. */
  lemma {:induction false} ReadEscaped(s: string, rest: string)
    requires rest == [] || rest[0] != QUOTE
    ensures ReadQuoted(Escape(s) + [QUOTE] + rest) == Some((s, rest))
    decreases |s|
  {
    if s != [] {
      ReadEscaped(s[1..], rest);
      var t := Escape(s) + [QUOTE] + rest;
      var tail := Escape(s[1..]) + [QUOTE] + rest;
      if s[0] == QUOTE {
        assert t == [QUOTE, QUOTE] + tail;
        assert t[2..] == tail;
      } else {
        assert t == [s[0]] + tail;
        assert t[1..] == tail;
      }
      assert [s[0]] + s[1..] == s;
    } else {
      assert Escape(s) + [QUOTE] + rest == [QUOTE] + rest;
    }
  }

  function QuoteAll(xs: seq<string>): (r: seq<string>)
    ensures |r| == |xs|
  {
    if xs == [] then [] else [Quote(xs[0])] + QuoteAll(xs[1..])
  }

  lemma ParseOne(x: string)
    ensures ParseFields(Quote(x)) == Some([x])
  {
    var q := Quote(x);
    ReadEscaped(x, []);
    assert q[1..] == Escape(x) + [QUOTE] + [];
  }

  lemma ParseCons(x: string, rest: string)
    requires ParseFields(rest).Some?
    ensures ParseFields(Quote(x) + "," + rest) == Some([x] + ParseFields(rest).value)
  {
    var t := Quote(x) + "," + rest;
    ReadEscaped(x, "," + rest);
    assert t[1..] == Escape(x) + [QUOTE] + ("," + rest);
    assert ("," + rest)[1..] == rest;
  }

  /** Quoted fields joined by commas read back as exactly those fields: the
      escaping is lossless, whatever the fields contain. */
  lemma {:induction false} ParseQuoted(xs: seq<string>)
    ensures ParseRecord(Join(QuoteAll(xs), ",")) == Some(xs)
    decreases |xs|
  {
    if |xs| == 1 {
      ParseOne(xs[0]);
      assert xs == [xs[0]];
    } else if |xs| > 1 {
      ParseQuoted(xs[1..]);
      var rest := Join(QuoteAll(xs[1..]), ",");
      assert rest != [] by {
        JoinHead(QuoteAll(xs[1..]), ",");
      }
      ParseCons(xs[0], rest);
      assert Join(QuoteAll(xs), ",") == Quote(xs[0]) + "," + rest;
      assert [xs[0]] + xs[1..] == xs;
    }
  }

  /** A non-empty join starts with its first piece, and a quoted piece is
      never empty. */
  lemma JoinHead(xs: seq<string>, sep: string)
    requires xs != [] && xs[0] != []
    ensures Join(xs, sep) != []
  {
  }

  // ---------------------------------------------------------------------
  // What a line says
  // ---------------------------------------------------------------------

  /** One unescaped cell: the field's value texts joined by `;`. */
  function CellText(w: WorkRecord, field: string, fetchLabel: string -> string): string
    requires AttributeName(field) in w.attributes
  {
    Join(Texts(w.attributes[AttributeName(field)], IsLabelField(field), fetchLabel), [SEPARATOR])
  }

  lemma {:induction false} EscapeConcat(a: string, b: string)
    ensures Escape(a + b) == Escape(a) + Escape(b)
    decreases |a|
  {
    if a != [] {
      assert (a + b)[0] == a[0];
      assert (a + b)[1..] == a[1..] + b;
      EscapeConcat(a[1..], b);
      assert Escape(a + b) == EscapeChar(a[0]) + (Escape(a[1..]) + Escape(b));
    } else {
      assert a + b == b;
    }
  }

  function EscapeAll(xs: seq<string>): (r: seq<string>)
    ensures |r| == |xs|
  {
    if xs == [] then [] else [Escape(xs[0])] + EscapeAll(xs[1..])
  }

  /** A date-time's nil and an escaped empty string are both written as
      nothing. */
  lemma {:induction false} EscapedTextsAll(vs: seq<Value>, isLabel: bool, fetchLabel: string -> string)
    ensures EscapedTexts(vs, isLabel, fetchLabel) == EscapeAll(Texts(vs, isLabel, fetchLabel))
    decreases |vs|
  {
    if vs != [] {
      EscapedTextsAll(vs[1..], isLabel, fetchLabel);
    }
  }

  /** Escaping each piece and then joining equals joining and then escaping
      when the separator holds no quote. */
  lemma {:induction false} EscapeJoin(xs: seq<string>, sep: string)
    requires Escape(sep) == sep
    ensures Join(EscapeAll(xs), sep) == Escape(Join(xs, sep))
    decreases |xs|
  {
    if |xs| > 1 {
      EscapeJoin(xs[1..], sep);
      var rest := Join(xs[1..], sep);
      EscapeConcat(xs[0] + sep, rest);
      EscapeConcat(xs[0], sep);
      assert Join(xs, sep) == xs[0] + sep + rest;
      assert EscapeAll(xs)[1..] == EscapeAll(xs[1..]);
    }
  }

  function CellTexts(w: WorkRecord, fields: seq<string>, fetchLabel: string -> string): (r: seq<string>)
    requires forall f :: f in fields ==> AttributeName(f) in w.attributes
    ensures |r| == |fields|
  {
    if fields == [] then [] else [CellText(w, fields[0], fetchLabel)] + CellTexts(w, fields[1..], fetchLabel)
  }

  lemma {:induction false} CellsSpec(w: WorkRecord, fields: seq<string>, fetchLabel: string -> string)
    ensures Cells(w, fields, fetchLabel).Some? <==> forall f :: f in fields ==> AttributeName(f) in w.attributes
    ensures Cells(w, fields, fetchLabel).Some? ==> Cells(w, fields, fetchLabel).value == QuoteAll(CellTexts(w, fields, fetchLabel))
    decreases |fields|
  {
    if fields != [] {
      CellsSpec(w, fields[1..], fetchLabel);
      assert forall f :: f in fields <==> f == fields[0] || f in fields[1..];
      var name := AttributeName(fields[0]);
      if name in w.attributes {
        EscapedTextsAll(w.attributes[name], IsLabelField(fields[0]), fetchLabel);
        EscapeJoin(Texts(w.attributes[name], IsLabelField(fields[0]), fetchLabel), [SEPARATOR]);
      }
    }
  }

  /** `work_to_csv` gives `false` exactly for an empty id or a work `find`
      misses, raises exactly when the work lacks one of the fields'
      attributes, and otherwise gives a line that reads back, by RFC 4180,
      as one cell per field in order holding that field's values joined by
      `;`. */
  lemma WorkToCsvSpec(workId: string, fields: seq<string>, find: string -> Option<WorkRecord>,
                      fetchLabel: string -> string)
    ensures var l := WorkToCsv(workId, fields, find, fetchLabel);
      (l.NoLine? <==> workId == [] || find(workId).None?) &&
      (l.Raises? <==> workId != [] && find(workId).Some? &&
                      exists f :: f in fields && AttributeName(f) !in find(workId).value.attributes) &&
      (l.Line? ==> var w := find(workId).value;
                   (forall f :: f in fields ==> AttributeName(f) in w.attributes) &&
                   ParseRecord(l.text) == Some(CellTexts(w, fields, fetchLabel)))
  {
    if workId != [] && find(workId).Some? {
      var w := find(workId).value;
      CellsSpec(w, fields, fetchLabel);
      if Cells(w, fields, fetchLabel).Some? {
        ParseQuoted(CellTexts(w, fields, fetchLabel));
      }
    }
  }

  /** A column named after an attribute with `_label` appended reads that
      attribute and writes its objects through the label function; a
      column whose name holds no `label` in any case reads the attribute of
      its own name. */
  lemma LabelColumn(name: string, field: string)
    requires !Contains(Lower(field), "label")
    ensures IsLabelField(name + "_label") && AttributeName(name + "_label") == name
    ensures !IsLabelField(field) && AttributeName(field) == field
  {
    var f := name + "_label";
    var lo := Lower(f);
    forall k | 0 <= k < 5
      ensures lo[|name| + 1 + k] == "label"[k]
    {
      assert f[|name| + 1 + k] == "_label"[k + 1];
    }
    assert lo[|name| + 1..|name| + 6] == "label";
    assert OccursAt(lo, "label", |name| + 1);
    assert f[..|f| - 6] == name;
  }

  // ---------------------------------------------------------------------
  // The sheet
  // ---------------------------------------------------------------------

  /** `work_to_csv` with the job's fields and lookups fixed. */
  function Serialiser(fields: seq<string>, find: string -> Option<WorkRecord>,
                      fetchLabel: string -> string): string -> CsvLine {
    workId => WorkToCsv(workId, fields, find, fetchLabel)
  }

  /** The line a work adds to the sheet, if any. */
  function LineOf(l: CsvLine): seq<string> {
    match l
    case Line(t) => [t]
    case _ => []
  }

  /** The lines of the works that serialise, in order. */
  function Lines(workIds: seq<string>, toCsv: string -> CsvLine): seq<string> {
    if workIds == [] then []
    else Lines(workIds[..|workIds| - 1], toCsv) + LineOf(toCsv(workIds[|workIds| - 1]))
  }

  lemma LinesSnoc(workIds: seq<string>, i: nat, toCsv: string -> CsvLine)
    requires i < |workIds|
    ensures Lines(workIds[..i + 1], toCsv) == Lines(workIds[..i], toCsv) + LineOf(toCsv(workIds[i]))
  {
    assert workIds[..i + 1][..i] == workIds[..i];
  }

  /** One more work's line extends the sheet by CRLF and the line; a work
      without a line leaves it as it is. */
  lemma WriteStep(workIds: seq<string>, header: string, toCsv: string -> CsvLine, i: nat, content: string)
    requires i < |workIds| && content == Join([header] + Lines(workIds[..i], toCsv), CRLF)
    ensures toCsv(workIds[i]).Line? ==>
      content + CRLF + toCsv(workIds[i]).text == Join([header] + Lines(workIds[..i + 1], toCsv), CRLF)
    ensures !toCsv(workIds[i]).Line? ==> content == Join([header] + Lines(workIds[..i + 1], toCsv), CRLF)
  {
    LinesSnoc(workIds, i, toCsv);
    var done := Lines(workIds[..i], toCsv);
    var line := toCsv(workIds[i]);
    if line.Line? {
      JoinAppend([header] + done, line.text, CRLF);
      assert [header] + done + [line.text] == [header] + (done + [line.text]);
    } else {
      assert LineOf(line) == [];
      assert done + [] == done;
    }
  }

  predicate AnyRaises(workIds: seq<string>, toCsv: string -> CsvLine) {
    exists i :: 0 <= i < |workIds| && toCsv(workIds[i]).Raises?
  }

  /** The loop of `perform`: the header, then CRLF and the line of each work
      that serialises; a raising work ends the job. */
  method WriteSheet(workIds: seq<string>, header: string, toCsv: string -> CsvLine)
    returns (content: string, raised: bool)
    ensures raised <==> AnyRaises(workIds, toCsv)
    ensures !raised ==> content == Join([header] + Lines(workIds, toCsv), CRLF)
  {
    content := header;
    var i := 0;
    while i < |workIds|
      invariant 0 <= i <= |workIds|
      invariant content == Join([header] + Lines(workIds[..i], toCsv), CRLF)
      invariant forall j :: 0 <= j < i ==> !toCsv(workIds[j]).Raises?
    {
      var line := toCsv(workIds[i]);
      if line.Raises? {
        return content, true;
      }
      WriteStep(workIds, header, toCsv, i, content);
      if line.Line? {
        content := content + CRLF + line.text;
      }
      i := i + 1;
    }
    assert workIds[..i] == workIds;
    raised := false;
  }

  /** `perform`'s writes to the sheet file: the field names joined by
      commas, then CRLF and the line of each work that serialises; a field a
      work lacks raises and ends the job before the sheet is stored. */
  method Perform(workIds: seq<string>, fields: seq<string>, find: string -> Option<WorkRecord>,
                 fetchLabel: string -> string) returns (content: string, raised: bool)
    ensures raised <==> AnyRaises(workIds, Serialiser(fields, find, fetchLabel))
    ensures !raised ==> content == Join([Join(fields, ",")] + Lines(workIds, Serialiser(fields, find, fetchLabel)), CRLF)
  {
    content, raised := WriteSheet(workIds, Join(fields, ","), Serialiser(fields, find, fetchLabel));
  }

  /** Every work that serialises has its line in the sheet, and the sheet
      holds no other lines. */
  lemma {:induction false} LinesSpec(workIds: seq<string>, toCsv: string -> CsvLine)
    ensures forall t :: t in Lines(workIds, toCsv) <==>
      exists i :: 0 <= i < |workIds| && toCsv(workIds[i]) == Line(t)
  {
    if workIds != [] {
      var init := workIds[..|workIds| - 1];
      LinesSpec(init, toCsv);
      forall t ensures (exists i :: 0 <= i < |workIds| && toCsv(workIds[i]) == Line(t)) <==>
                       (exists i :: 0 <= i < |init| && toCsv(init[i]) == Line(t)) ||
                       toCsv(workIds[|workIds| - 1]) == Line(t)
      {
        if exists i :: 0 <= i < |workIds| && toCsv(workIds[i]) == Line(t) {
          var i :| 0 <= i < |workIds| && toCsv(workIds[i]) == Line(t);
          if i < |init| {
            assert init[i] == workIds[i];
          }
        }
        if exists i :: 0 <= i < |init| && toCsv(init[i]) == Line(t) {
          var i :| 0 <= i < |init| && toCsv(init[i]) == Line(t);
          assert workIds[i] == init[i];
        }
      }
    }
  }
}

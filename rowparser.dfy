/**
  `BulkOps::Parser`: the current interpretation of one spreadsheet row.
  It holds the proxy of the row, the sheet and the row, and builds the
  metadata hash pass by pass: duplicate columns are merged, then the
  admin set, the relationship columns, the inherited-metadata option, the
  option columns, the controlled columns and the scalar columns are read
  in that order, and finally any parsing error is recorded on the proxy.
 */
module RowParser {
  import opened Text
  import opened BulkOps
  import opened Cells
  import opened Errors
  import opened Verification
  import opened Interpretation
  import opened Relationships
  import opened Proxies

  // ---------------------------------------------------------------------
  // disambiguate_columns

  /** The position of the first occurrence of `h`. */
  function FirstIndex(xs: seq<string>, h: string): (r: Option<nat>)
    ensures r.None? <==> h !in xs
    ensures r.Some? ==> r.value < |xs| && xs[r.value] == h && forall j :: 0 <= j < r.value ==> xs[j] != h
  {
    if |xs| == 0 then None
    else if xs[0] == h then Some(0)
    else
      match FirstIndex(xs[1..], h)
      case None => None
      case Some(k) => Some(k + 1)
  }

  /** `row[h]` reads the first cell under `h`. */
  lemma {:induction false} CellByIndex(row: Row, h: string)
    ensures Cell(row, h) == match FirstIndex(Headers(row), h) case Some(k) => row[k].1 case None => ""
    decreases |row|
  {
    if |row| > 0 && row[0].0 != h {
      CellByIndex(row[1..], h);
      assert Headers(row)[1..] == Headers(row[1..]);
    }
  }

  /** `row[header] = (Array(row[header]) << value).join(SEPARATOR)`: a new
      header starts its entry with the cell, a known one gets the cell
      appended after a separator. */
  function MergeCell(acc: Row, h: string, v: string): Row {
    match FirstIndex(Headers(acc), h)
    case None => acc + [(h, v)]
    case Some(k) => acc[k := (h, acc[k].1 + [SEPARATOR] + v)]
  }

  /** The hash `disambiguate_columns` builds, column by column. */
  function MergedColumns(row: Row): Row
    decreases |row|
  {
    if |row| == 0 then []
    else MergeCell(MergedColumns(row[..|row| - 1]), row[|row| - 1].0, row[|row| - 1].1)
  }

  /** `disambiguate_columns`: the row is rebuilt only when two of its
      headers are the same. */
  function Disambiguated(row: Row): Row {
    if |Uniq(Headers(row))| < |row| then MergedColumns(row) else row
  }

  /** The cells under `h`, in column order. */
  function ValuesUnder(row: Row, h: string): (r: seq<string>)
    ensures h in Headers(row) ==> |r| > 0
    decreases |row|
  {
    if |row| == 0 then []
    else
      assert Headers(row) == Headers(row[..|row| - 1]) + [row[|row| - 1].0];
      ValuesUnder(row[..|row| - 1], h) + (if row[|row| - 1].0 == h then [row[|row| - 1].1] else [])
  }

  predicate DistinctHeaders(row: Row) {
    forall i, j :: 0 <= i < j < |row| ==> row[i].0 != row[j].0
  }

  /** The merged row has each header once, in the order of its first column. */
  lemma {:induction false} MergedColumnsHeaders(row: Row)
    ensures Headers(MergedColumns(row)) == Uniq(Headers(row))
    decreases |row|
  {
    if |row| > 0 {
      var init := row[..|row| - 1];
      var (h, v) := row[|row| - 1];
      MergedColumnsHeaders(init);
      var acc := MergedColumns(init);
      assert Headers(row)[..|row| - 1] == Headers(init);
      match FirstIndex(Headers(acc), h)
      case None =>
        assert Headers(acc + [(h, v)]) == Headers(acc) + [h];
      case Some(k) =>
        assert Headers(acc[k := (h, acc[k].1 + [SEPARATOR] + v)]) == Headers(acc);
    }
  }

  /** Appending a header leaves the first occurrence of every earlier one. */
  lemma {:induction false} FirstIndexAppend(xs: seq<string>, y: string, h: string)
    ensures FirstIndex(xs + [y], h) == if h in xs then FirstIndex(xs, h) else if h == y then Some(|xs|) else None
    decreases |xs|
  {
    var ys := xs + [y];
    if |xs| > 0 {
      assert ys[0] == xs[0] && ys[1..] == xs[1..] + [y];
      if xs[0] != h {
        FirstIndexAppend(xs[1..], y, h);
        assert h in xs <==> h in xs[1..];
      }
    }
  }

  /** Reading a header after one merge. */
  lemma MergeCellRead(acc: Row, h1: string, v: string, h: string)
    ensures Cell(MergeCell(acc, h1, v), h) ==
      if h != h1 then Cell(acc, h) else if h in Headers(acc) then Cell(acc, h) + [SEPARATOR] + v else v
  {
    var r := MergeCell(acc, h1, v);
    CellByIndex(r, h);
    CellByIndex(acc, h);
    match FirstIndex(Headers(acc), h1)
    case None =>
      assert r == acc + [(h1, v)];
      assert Headers(r) == Headers(acc) + [h1];
      FirstIndexAppend(Headers(acc), h1, h);
      if h in Headers(acc) {
        var k := FirstIndex(Headers(acc), h).value;
        assert r[k] == acc[k];
      }
    case Some(k1) =>
      assert r == acc[k1 := (h1, acc[k1].1 + [SEPARATOR] + v)];
      assert Headers(r) == Headers(acc);
      if h in Headers(acc) {
        var k := FirstIndex(Headers(acc), h).value;
        assert h == h1 ==> k == k1;
        assert h != h1 ==> r[k] == acc[k];
      }
  }

  /** Each header of the merged row carries all the cells under it in the
      original row, joined by the separator in column order. */
  lemma {:induction false} MergedColumnsValues(row: Row, h: string)
    requires h in Headers(row)
    ensures Cell(MergedColumns(row), h) == Join(ValuesUnder(row, h), [SEPARATOR])
    decreases |row|
  {
    var init := row[..|row| - 1];
    var (h1, v) := row[|row| - 1];
    MergedColumnsHeaders(init);
    assert Headers(row) == Headers(init) + [h1];
    var acc := MergedColumns(init);
    assert MergedColumns(row) == MergeCell(acc, h1, v);
    assert ValuesUnder(row, h) == ValuesUnder(init, h) + (if h1 == h then [v] else []);
    MergeCellRead(acc, h1, v, h);
    if h in Headers(init) {
      assert h in Headers(acc);
      MergedColumnsValues(init, h);
      if h1 == h {
        JoinAppend(ValuesUnder(init, h), v, [SEPARATOR]);
      } else {
        assert ValuesUnder(init, h) + [] == ValuesUnder(init, h);
      }
    } else {
      assert ValuesUnder(init, h) == [] by {
        if ValuesUnder(init, h) != [] { ValuesUnderHeader(init, h); }
      }
    }
  }

  lemma {:induction false} ValuesUnderHeader(row: Row, h: string)
    requires ValuesUnder(row, h) != []
    ensures h in Headers(row)
    decreases |row|
  {
    var init := row[..|row| - 1];
    assert Headers(row) == Headers(init) + [row[|row| - 1].0];
    if row[|row| - 1].0 != h {
      ValuesUnderHeader(init, h);
    }
  }

  /** With distinct headers the merge gives the row back. */
  lemma {:induction false} MergedColumnsOfDistinct(row: Row)
    requires DistinctHeaders(row)
    ensures MergedColumns(row) == row
    decreases |row|
  {
    if |row| > 0 {
      var init, last := row[..|row| - 1], row[|row| - 1];
      assert DistinctHeaders(init) by {
        forall i, j | 0 <= i < j < |init| ensures init[i].0 != init[j].0 {
          assert init[i] == row[i] && init[j] == row[j];
        }
      }
      MergedColumnsOfDistinct(init);
      assert last.0 !in Headers(init) by {
        forall i | 0 <= i < |init| ensures Headers(init)[i] != last.0 {
          assert init[i] == row[i];
        }
      }
      assert MergedColumns(row) == MergeCell(init, last.0, last.1);
      assert init + [last] == row;
    }
  }

  lemma {:induction false} UniqFullIsDistinct(xs: seq<string>)
    requires |Uniq(xs)| == |xs|
    ensures forall i, j :: 0 <= i < j < |xs| ==> xs[i] != xs[j]
    decreases |xs|
  {
    if |xs| > 0 {
      var init := xs[..|xs| - 1];
      assert xs[|xs| - 1] !in Uniq(init);
      UniqFullIsDistinct(init);
    }
  }

  /** `disambiguate_columns` is the merge in every case: a row whose headers
      are distinct is left as it is, which is also what the merge gives. */
  lemma DisambiguatedIsMerge(row: Row)
    ensures Disambiguated(row) == MergedColumns(row)
    ensures DistinctHeaders(row) ==> Disambiguated(row) == row
  {
    if !(|Uniq(Headers(row))| < |row|) {
      UniqFullIsDistinct(Headers(row));
      MergedColumnsOfDistinct(row);
    } else if DistinctHeaders(row) {
      MergedColumnsOfDistinct(row);
    }
  }

  // ---------------------------------------------------------------------
  // The relationship columns

  /** `field.split(/[:_\-\s]/)` cuts at these characters. */
  predicate IsHeaderSep(c: char) {
    c == ':' || c == '_' || c == '-' || IsSpace(c)
  }

  /** A header of two parts names the relationship first and the
      identifier type second; any other header is the relationship itself,
      with the type `default`. */
  function SplitHeader(header: string, default: Option<string>): (r: (Option<string>, string)) {
    var parts := Split(header, IsHeaderSep);
    if |parts| == 2 then (Some(parts[1]), parts[0]) else (default, header)
  }

  /** The header reading as parser.rb:266 writes it: the proxy's reference
      identifier goes to a misspelled variable, so a header without a type
      leaves the identifier type nil. */
  function RelationshipHeaderAsWritten(header: string): (r: (Option<string>, string)) {
    SplitHeader(header, None)
  }

  /** The header reading with the proxy's reference identifier as the
      default type. */
  function RelationshipHeader(header: string, referenceIdentifier: Option<string>): (r: (Option<string>, string)) {
    SplitHeader(header, referenceIdentifier)
  }

  /** A bare `parent` header: as written the identifier type is nil, where
      the proxy's reference identifier was meant. */
  lemma BareHeaderType(referenceIdentifier: Option<string>)
    ensures RelationshipHeaderAsWritten("parent") == (None, "parent")
    ensures RelationshipHeader("parent", referenceIdentifier) == (referenceIdentifier, "parent")
  {
    PiecesNoSepBy("parent", IsHeaderSep);
  }

  /** A `parent:id` header names the type itself, so both readings agree. */
  lemma TypedHeader(referenceIdentifier: Option<string>)
    ensures RelationshipHeaderAsWritten("parent:id") == (Some("id"), "parent")
    ensures RelationshipHeader("parent:id", referenceIdentifier) == (Some("id"), "parent")
  {
    PiecesOneSepBy("parent", "id", ':', IsHeaderSep);
    assert "parent" + [':'] + "id" == "parent:id";
  }

  /** A record whose identifier type is nil never finds its object: with
      the type lost, a bare parent or child column whose value carries no
      `type:` prefix of its own stays pending for good. */
  lemma UntypedRecordPending(repo: Repository, operationId: int, x: RowContext, cell: (string, string))
    requires RelationshipHeaderAsWritten(cell.0).0.None?
    requires |Split(UnescapeCsv(cell.1), CharIs(':'))| != 2
    requires ParserRelStep(x.(referenceIdentifier := None), cell).Link?
    ensures FindObjectSpec(repo, operationId, ParserRelStep(x.(referenceIdentifier := None), cell).params) == NoObject
  {
    var y := x.(referenceIdentifier := None);
    ParserRelStepLink(y, cell);
    var p := ParserRelStep(y, cell).params;
    assert RelationshipHeader(cell.0, None) == RelationshipHeaderAsWritten(cell.0);
    assert p.identifierType == CellValue(y, cell).idType;
  }

  /** The object identifier as the record stores it: a computed row number
      as its decimal text, nil as `None`. */
  function TargetText(t: Target): (r: Option<string>)
    ensures t.Ident? ==> r == Some(t.text)
    ensures t.NoRow? <==> r.None?
  {
    match t
    case Ident(s) => Some(s)
    case RowIndex(n) => Some(IntToString(n))
    case NoRow => None
  }

  /** What the parser's relationship pass reads a row in: the sheet, the
      row's number, the proxy's id and reference identifier, and the id of
      the operation's proxy at a row, if there is one. */
  datatype RowContext = RowContext(data: seq<Row>, rowNumber: int, proxyId: int,
                                   referenceIdentifier: Option<string>, services: Services,
                                   proxyIdAtRow: int -> Option<int>)

  /** What one relationship column does. */
  datatype LinkStep =
    | NoLink
    | SetOrder(order: real)
    | AddCollection(id: Option<string>)
    | Link(params: Params)
    /** `nil[field]` or `nil.id` in the sibling lookup */
    | LookupRaises

  /** The identifier type and target of a relationship cell. */
  function CellValue(x: RowContext, cell: (string, string)): RelValue {
    InterpretRelationshipValue(x.data, x.rowNumber, RelationshipHeader(cell.0, x.referenceIdentifier).0,
                               UnescapeCsv(cell.1), "parent")
  }

  /** The previous row's cell under the same header is filled and designates
      the same target. */
  predicate SameAsPrevious(x: RowContext, prevRow: Row, header: string, rv: RelValue) {
    var pv := Cell(prevRow, header);
    !IsBlank(pv) && InterpretRelationshipValue(x.data, x.rowNumber, rv.idType, pv, header).target == rv.target
  }

  /** One column of `interpret_relationship_fields`. */
  function ParserRelStep(x: RowContext, cell: (string, string)): LinkStep
  {
    var (h, v) := cell;
    if IsBlank(v) || IsBlank(h) then NoLink
    else
      var value := UnescapeCsv(v);
      if value == h then NoLink
      else
        match NormalizeRelationshipFieldName(RelationshipHeader(h, x.referenceIdentifier).1)
        case None => NoLink
        case Some(kind) =>
          if kind == "order" then SetOrder(x.services.toF(value))
          else if kind == "collection" then AddCollection(FindOrCreateCollection(x.services, value))
          else LinkFor(x, cell, kind)
  }

  /** A parent or child column: the record it creates, after the previous
      row has been looked up. */
  function LinkFor(x: RowContext, cell: (string, string), kind: string): LinkStep {
    var rv := CellValue(x, cell);
    match RubyIndex(x.data, x.rowNumber - 1)
    case None => LookupRaises
    case Some(prevRow) =>
      if kind == "parent" && SameAsPrevious(x, prevRow, cell.0, rv) then
        match x.proxyIdAtRow(x.rowNumber - 1)
        case None => LookupRaises
        case Some(sibling) => Link(Params(x.proxyId, rv.idType, kind, TargetText(rv.target), Some(sibling), "new"))
      else Link(Params(x.proxyId, rv.idType, kind, TargetText(rv.target), None, "new"))
  }

  /** A cell the relationship pass passes over before reading its header. */
  predicate Passed(cell: (string, string)) {
    IsBlank(cell.1) || IsBlank(cell.0) || UnescapeCsv(cell.1) == cell.0
  }

  /** The relationship a header names, after the identifier type is cut off. */
  function KindOf(x: RowContext, cell: (string, string)): Option<string> {
    NormalizeRelationshipFieldName(RelationshipHeader(cell.0, x.referenceIdentifier).1)
  }

  /** Order and collection columns give their value; unknown headers and
      passed-over cells give nothing. */
  lemma ParserRelStepKinds(x: RowContext, cell: (string, string))
    ensures var r := ParserRelStep(x, cell);
      (Passed(cell) || KindOf(x, cell).None? ==> r == NoLink) &&
      (r.SetOrder? <==> !Passed(cell) && KindOf(x, cell) == Some("order")) &&
      (r.SetOrder? ==> r.order == x.services.toF(UnescapeCsv(cell.1))) &&
      (r.AddCollection? <==> !Passed(cell) && KindOf(x, cell) == Some("collection")) &&
      (r.AddCollection? ==> r.id == FindOrCreateCollection(x.services, UnescapeCsv(cell.1))) &&
      (r.Link? || r.LookupRaises? ==> !Passed(cell) && KindOf(x, cell) in [Some("parent"), Some("child")])
  {
  }

  /** A link is a new record for this proxy, of the header's relationship,
      pointing at the cell's target; it names the previous row's proxy as
      its sibling exactly when it is a parent link and the previous row's
      cell under the same header names the same target. */
  lemma ParserRelStepLink(x: RowContext, cell: (string, string))
    requires ParserRelStep(x, cell).Link?
    ensures var p := ParserRelStep(x, cell).params;
      var rv := CellValue(x, cell);
      p.status == "new" && p.workProxyId == x.proxyId && p.relationshipType in ["parent", "child"] &&
      KindOf(x, cell) == Some(p.relationshipType) &&
      p.identifierType == rv.idType && p.objectIdentifier == TargetText(rv.target) &&
      RubyIndex(x.data, x.rowNumber - 1).Some? &&
      (p.previousSibling.Some? <==>
         p.relationshipType == "parent" && SameAsPrevious(x, RubyIndex(x.data, x.rowNumber - 1).value, cell.0, rv)) &&
      (p.previousSibling.Some? ==> p.previousSibling == x.proxyIdAtRow(x.rowNumber - 1))
  {
    ParserRelStepKinds(x, cell);
    assert ParserRelStep(x, cell) == LinkFor(x, cell, KindOf(x, cell).value);
  }

  /** The sibling lookup raises exactly when there is no previous row, or
      when a parent link should name the previous row's proxy and that row
      has none. */
  lemma ParserRelStepRaises(x: RowContext, cell: (string, string))
    ensures ParserRelStep(x, cell).LookupRaises? <==>
      !Passed(cell) && KindOf(x, cell) in [Some("parent"), Some("child")] &&
      (RubyIndex(x.data, x.rowNumber - 1).None? ||
       (KindOf(x, cell) == Some("parent") &&
        SameAsPrevious(x, RubyIndex(x.data, x.rowNumber - 1).value, cell.0, CellValue(x, cell)) &&
        x.proxyIdAtRow(x.rowNumber - 1).None?))
  {
    ParserRelStepKinds(x, cell);
    var kind := KindOf(x, cell);
    if !Passed(cell) && kind.Some? && kind.value in ["parent", "child"] {
      assert ParserRelStep(x, cell) == LinkFor(x, cell, kind.value);
    }
  }

  /** The relationship pass of a proxy: where records are created and which
      row it reads. */
  datatype LinkContext = LinkContext(repo: Repository, operationId: int, workId: Option<string>, row: RowContext)

  function ApplyLinkStep(lx: LinkContext, prev: RelOutcome, st: LinkStep): RelOutcome {
    match st
    case NoLink => prev
    case SetOrder(o) => prev.(order := Some(o))
    case AddCollection(c) => prev.(collectionIds := prev.collectionIds + (if c.Some? then [c.value] else []))
    case Link(p) =>
      if CreateRaises(lx.repo, lx.operationId, lx.workId, p) then prev.(raised := true)
      else prev.(created := prev.created + [p])
    case LookupRaises => prev.(raised := true)
  }

  /** The parser's relationship pass over a row, stopping at an exception. */
  function ParserRelations(lx: LinkContext, order0: Option<real>, row: Row): RelOutcome
    decreases |row|
  {
    if row == [] then RelOutcome([], order0, [], false)
    else
      var prev := ParserRelations(lx, order0, row[..|row| - 1]);
      if prev.raised then prev else ApplyLinkStep(lx, prev, ParserRelStep(lx.row, row[|row| - 1]))
  }

  lemma ParserRelationsStep(lx: LinkContext, order0: Option<real>, row: Row, i: nat)
    requires i < |row| && !ParserRelations(lx, order0, row[..i]).raised
    ensures ParserRelations(lx, order0, row[..i + 1]) ==
            ApplyLinkStep(lx, ParserRelations(lx, order0, row[..i]), ParserRelStep(lx.row, row[i]))
  {
    assert row[..i + 1][..i] == row[..i];
  }

  lemma {:induction false} ParserRelationsHalted(lx: LinkContext, order0: Option<real>, row: Row, i: nat)
    requires i <= |row| && ParserRelations(lx, order0, row[..i]).raised
    ensures ParserRelations(lx, order0, row) == ParserRelations(lx, order0, row[..i])
    decreases |row| - i
  {
    if i < |row| {
      assert row[..i + 1][..i] == row[..i];
      ParserRelationsHalted(lx, order0, row, i + 1);
    } else {
      assert row[..i] == row;
    }
  }

  /** Every record the pass creates is the link of one of the row's
      columns, new, for this proxy, and a sibling link only on a parent
      whose previous row names the same object. */
  lemma {:induction false} ParserRelationsCreated(lx: LinkContext, order0: Option<real>, row: Row, p: Params)
    requires p in ParserRelations(lx, order0, row).created
    ensures p.status == "new" && p.workProxyId == lx.row.proxyId && p.relationshipType in ["parent", "child"]
    ensures p.previousSibling.Some? ==> p.relationshipType == "parent"
    ensures exists i :: 0 <= i < |row| && ParserRelStep(lx.row, row[i]) == Link(p)
    decreases |row|
  {
    var init := row[..|row| - 1];
    var prev := ParserRelations(lx, order0, init);
    if p in prev.created {
      ParserRelationsCreated(lx, order0, init, p);
      var i :| 0 <= i < |init| && ParserRelStep(lx.row, init[i]) == Link(p);
      assert row[i] == init[i];
    } else {
      assert ParserRelStep(lx.row, row[|row| - 1]) == Link(p);
    }
    var i :| 0 <= i < |row| && ParserRelStep(lx.row, row[i]) == Link(p);
    ParserRelStepLink(lx.row, row[i]);
  }

  /** The collection ids come from collection columns, in column order. */
  lemma {:induction false} ParserRelationsCollections(lx: LinkContext, order0: Option<real>, row: Row, c: string)
    requires c in ParserRelations(lx, order0, row).collectionIds
    ensures exists i :: 0 <= i < |row| && ParserRelStep(lx.row, row[i]) == AddCollection(Some(c))
    decreases |row|
  {
    var init := row[..|row| - 1];
    var prev := ParserRelations(lx, order0, init);
    if c in prev.collectionIds {
      ParserRelationsCollections(lx, order0, init, c);
      var i :| 0 <= i < |init| && ParserRelStep(lx.row, init[i]) == AddCollection(Some(c));
      assert row[i] == init[i];
    } else {
      assert ParserRelStep(lx.row, row[|row| - 1]) == AddCollection(Some(c));
    }
  }

  // ---------------------------------------------------------------------
  // The option columns

  /** The work type the parser falls back on: the proxy's own, else the
      operation's. */
  function FallbackWorkType(s: OptionState, operationWorkType: string): string {
    if s.workType.Some? then s.workType.value else operationWorkType
  }

  /** One column of the parser's `interpret_option_fields`. A work type
      whose class-style name is no constant name raises `NameError`; the
      parser has no `format_reference_id` of its own, so a
      reference-identifier column raises `NoMethodError`; either after the
      earlier updates of the column. */
  function ParserOptionStep(schema: Schema, operationWorkType: string, s: OptionState, cell: (string, string))
    : (r: (OptionState, bool))
    ensures (IsBlank(cell.1) || IsBlank(cell.0) || cell.1 == cell.0) ==> r == (s, false)
    ensures r.0.referenceIdentifier == s.referenceIdentifier
    ensures !(IsBlank(cell.1) || IsBlank(cell.0) || cell.1 == cell.0) ==>
      var nf := NormField(cell.0);
      (r.1 <==> (nf in ["worktype", "model", "type"] && !IsConstantName(ClassStyle(schema, cell.1))) ||
                nf in REFERENCE_ID_SPELLINGS) &&
      (r.0.visibility == if nf in ["visibility", "public"] then FormatVisibility(cell.1) else s.visibility)
    ensures !r.1 && !(IsBlank(cell.1) || IsBlank(cell.0) || cell.1 == cell.0) ==>
      var nf := NormField(cell.0);
      r.0.workType == if nf in ["worktype", "model", "type"]
                      then FormatWorktype(schema, cell.1, FallbackWorkType(s, operationWorkType))
                      else s.workType
  {
    var (h, v) := cell;
    if IsBlank(v) || IsBlank(h) || v == h then (s, false)
    else
      var nf := NormField(h);
      var s1 := if nf in ["visibility", "public"] then s.(visibility := FormatVisibility(v)) else s;
      var t := FormatWorktype(schema, v, FallbackWorkType(s1, operationWorkType));
      if nf in ["worktype", "model", "type"] && t.None? then (s1, true)
      else
        var s2 := if nf in ["worktype", "model", "type"] then s1.(workType := t) else s1;
        (s2, nf in REFERENCE_ID_SPELLINGS)
  }

  function ParserOptions(schema: Schema, operationWorkType: string, s0: OptionState, row: Row): (OptionState, bool)
    decreases |row|
  {
    if row == [] then (s0, false)
    else
      var prev := ParserOptions(schema, operationWorkType, s0, row[..|row| - 1]);
      if prev.1 then prev else ParserOptionStep(schema, operationWorkType, prev.0, row[|row| - 1])
  }

  lemma ParserOptionsStep(schema: Schema, operationWorkType: string, s0: OptionState, row: Row, i: nat)
    requires i < |row| && !ParserOptions(schema, operationWorkType, s0, row[..i]).1
    ensures ParserOptions(schema, operationWorkType, s0, row[..i + 1]) ==
            ParserOptionStep(schema, operationWorkType, ParserOptions(schema, operationWorkType, s0, row[..i]).0, row[i])
  {
    assert row[..i + 1][..i] == row[..i];
  }

  lemma {:induction false} ParserOptionsHalted(schema: Schema, operationWorkType: string, s0: OptionState, row: Row, i: nat)
    requires i <= |row| && ParserOptions(schema, operationWorkType, s0, row[..i]).1
    ensures ParserOptions(schema, operationWorkType, s0, row) == ParserOptions(schema, operationWorkType, s0, row[..i])
    decreases |row| - i
  {
    if i < |row| {
      assert row[..i + 1][..i] == row[..i];
      ParserOptionsHalted(schema, operationWorkType, s0, row, i + 1);
    } else {
      assert row[..i] == row;
    }
  }

  /** A filled column the option pass raises on: a work type that is no
      constant name, or a reference identifier. */
  predicate RaisesOption(schema: Schema, cell: (string, string)) {
    !(IsBlank(cell.1) || IsBlank(cell.0) || cell.1 == cell.0) &&
    ((NormField(cell.0) in ["worktype", "model", "type"] && !IsConstantName(ClassStyle(schema, cell.1))) ||
     NormField(cell.0) in REFERENCE_ID_SPELLINGS)
  }

  /** A row has such a column exactly when all but its last cell has one
      or its last cell is one. */
  lemma RaisesOptionSnoc(schema: Schema, init: Row, last: (string, string))
    ensures (exists i :: 0 <= i < |init + [last]| && RaisesOption(schema, (init + [last])[i])) <==>
      (exists i :: 0 <= i < |init| && RaisesOption(schema, init[i])) || RaisesOption(schema, last)
  {
    var row := init + [last];
    assert row[|init|] == last;
    assert forall i :: 0 <= i < |init| ==> row[i] == init[i];
  }

  /** The pass raises exactly when the row has a filled reference-identifier
      column or a filled work-type column that is no constant name, and it
      never sets the reference identifier. */
  lemma {:induction false} ParserOptionsRaise(schema: Schema, operationWorkType: string, s0: OptionState, row: Row)
    ensures ParserOptions(schema, operationWorkType, s0, row).1 <==> exists i :: 0 <= i < |row| && RaisesOption(schema, row[i])
    ensures ParserOptions(schema, operationWorkType, s0, row).0.referenceIdentifier == s0.referenceIdentifier
    decreases |row|
  {
    if row != [] {
      var init := row[..|row| - 1];
      ParserOptionsRaise(schema, operationWorkType, s0, init);
      assert row == init + [row[|row| - 1]];
      RaisesOptionSnoc(schema, init, row[|row| - 1]);
      var prev := ParserOptions(schema, operationWorkType, s0, init);
      if !prev.1 {
        var step := ParserOptionStep(schema, operationWorkType, prev.0, row[|row| - 1]);
        assert ParserOptions(schema, operationWorkType, s0, row) == step;
        assert step.1 == RaisesOption(schema, row[|row| - 1]);
      }
    }
  }

  // ---------------------------------------------------------------------
  // The controlled columns

  /** The entry for one stripped value: a url in a non-label column is the
      id; anything else is unescaped and looked up (or minted) in the local
      authority. Only "remove" columns remove. */
  function ParserEntry(services: Services, schema: Schema, c: ControlledColumn, v: string): (e: Entry)
    ensures e.caption.None? && e.remove == RemovesInProxy(c)
    ensures services.isUrl(v) && !c.isLabel ==> e.id == v
    ensures !(services.isUrl(v) && !c.isLabel) ==> e.id == LocalAuthUrl(services, schema, c.property, UnescapeCsv(v))
  {
    if services.isUrl(v) && !c.isLabel then Entry(v, None, RemovesInProxy(c))
    else Entry(LocalAuthUrl(services, schema, c.property, UnescapeCsv(v)), None, RemovesInProxy(c))
  }

  function ParserEntries(services: Services, schema: Schema, c: ControlledColumn, ps: seq<string>): (r: seq<Entry>)
    ensures |r| == |ps| && forall i :: 0 <= i < |ps| ==> r[i] == ParserEntry(services, schema, c, Strip(ps[i]))
  {
    seq(|ps|, i requires 0 <= i < |ps| => ParserEntry(services, schema, c, Strip(ps[i])))
  }

  lemma ParserEntriesSnoc(services: Services, schema: Schema, c: ControlledColumn, ps: seq<string>, i: nat)
    requires i < |ps|
    ensures ParserEntries(services, schema, c, ps[..i + 1]) ==
      ParserEntries(services, schema, c, ps[..i]) + [ParserEntry(services, schema, c, Strip(ps[i]))]
  {
    var a := ParserEntries(services, schema, c, ps[..i + 1]);
    var b := ParserEntries(services, schema, c, ps[..i]) + [ParserEntry(services, schema, c, Strip(ps[i]))];
    assert |a| == |b|;
    forall j | 0 <= j < |a| ensures a[j] == b[j] {
      if j < i {
        assert ps[..i + 1][j] == ps[..i][j];
      } else {
        assert ps[..i + 1][j] == ps[i];
      }
    }
  }

  /** What one column of `interpret_controlled_fields` contributes. */
  function ParserControlledColumn(services: Services, schema: Schema, options: Options, cell: (string, string))
    : Column<Entry>
  {
    match ControlledTarget(schema, options, cell.0, cell.1)
    case None => Skip
    case Some(c) => Add(c.property, ParserEntries(services, schema, c, SplitValues(cell.1)))
  }

  function ParserControlledColumns(services: Services, schema: Schema, options: Options, row: Row)
    : (r: seq<Column<Entry>>)
    ensures |r| == |row| && forall i :: 0 <= i < |row| ==> r[i] == ParserControlledColumn(services, schema, options, row[i])
  {
    seq(|row|, i requires 0 <= i < |row| => ParserControlledColumn(services, schema, options, row[i]))
  }

  /** `controlled_data`: the entries of the row's controlled columns by
      property. */
  function ParserControlled(services: Services, schema: Schema, options: Options, row: Row): map<string, seq<Entry>> {
    Fold(map[], ParserControlledColumns(services, schema, options, row)).0
  }

  /** The final loop of `interpret_controlled_fields`: each property's
      entries, without repetition, are appended to its attribute list. */
  function AppendAttributes(m: map<string, seq<Attr>>, data: map<string, seq<Entry>>): (r: map<string, seq<Attr>>)
    ensures forall p {:trigger Get(r, p)} ::
      Get(r, p) == Get(m, p) + (if p in data then AttrsOf(data[p], "_delete") else [])
  {
    map p | p in m.Keys + data.Keys :: Get(m, p) + (if p in data then AttrsOf(data[p], "_delete") else [])
  }

  lemma ParserControlledStep(services: Services, schema: Schema, options: Options, row: Row, i: nat,
                             data: map<string, seq<Entry>>)
    requires i < |row| && Fold(map[], ParserControlledColumns(services, schema, options, row)[..i]) == (data, false)
    ensures Fold(map[], ParserControlledColumns(services, schema, options, row)[..i + 1]) ==
      match ControlledTarget(schema, options, row[i].0, row[i].1)
      case None => (data, false)
      case Some(c) => (Extend(data, c.property, ParserEntries(services, schema, c, SplitValues(row[i].1))), false)
  {
    FoldStep(map[], ParserControlledColumns(services, schema, options, row), i);
  }

  /** The cell is a controlled column of property `p` that removes exactly
      when `removes` says so. */
  predicate FromColumn(schema: Schema, options: Options, cell: (string, string), p: string, removes: bool) {
    var t := ControlledTarget(schema, options, cell.0, cell.1);
    t.Some? && t.value.property == p && (removes <==> RemovesInProxy(t.value))
  }

  /** Every entry the parser collects for a property comes from a value of
      one of the property's controlled columns: it has no caption, and it
      removes exactly when that column's name starts with "remove". */
  lemma ParserEntryOrigin(services: Services, schema: Schema, options: Options, row: Row, p: string, e: Entry)
    requires e in Get(ParserControlled(services, schema, options, row), p)
    ensures e.caption.None?
    ensures exists i :: 0 <= i < |row| && FromColumn(schema, options, row[i], p, e.remove)
  {
    var cs := ParserControlledColumns(services, schema, options, row);
    FoldItemsFrom(map[], cs, p, e);
    var i :| 0 <= i < |cs| && cs[i].Add? && cs[i].key == p && e in cs[i].items;
    var c := ControlledTarget(schema, options, row[i].0, row[i].1).value;
    var k :| 0 <= k < |cs[i].items| && cs[i].items[k] == e;
    assert e == ParserEntry(services, schema, c, Strip(SplitValues(row[i].1)[k]));
  }

  /** Each appended attribute stands for such an entry, flagged `_delete`
      exactly when the entry removes. */
  lemma ParserAttributeOrigin(services: Services, schema: Schema, options: Options, row: Row, p: string, a: Attr)
    requires p in ParserControlled(services, schema, options, row)
    requires a in AttrsOf(ParserControlled(services, schema, options, row)[p], "_delete")
    ensures a.flag in [None, Some("_delete")]
    ensures exists i :: 0 <= i < |row| && FromColumn(schema, options, row[i], p, a.flag == Some("_delete"))
  {
    var data := ParserControlled(services, schema, options, row);
    var e := AttrOfEntry(data[p], "_delete", a);
    ParserEntryOrigin(services, schema, options, row, p, e);
  }

  /** The attributes appended for a property are pairwise distinct. */
  lemma ParserAttributesDistinct(services: Services, schema: Schema, options: Options, row: Row, p: string)
    requires p in ParserControlled(services, schema, options, row)
    ensures var xs := AttrsOf(ParserControlled(services, schema, options, row)[p], "_delete");
      forall i, j :: 0 <= i < j < |xs| ==> xs[i] != xs[j]
  {
    var data := ParserControlled(services, schema, options, row);
    var u := Uniq(data[p]);
    var xs := AttrsOf(data[p], "_delete");
    forall i, j | 0 <= i < j < |xs| ensures xs[i] != xs[j] {
      assert u[i] in data[p] && u[j] in data[p];
      ParserEntryOrigin(services, schema, options, row, p, u[i]);
      ParserEntryOrigin(services, schema, options, row, p, u[j]);
      assert u[i] != u[j];
    }
  }

  // ---------------------------------------------------------------------
  // The parser's state

  datatype ParserState = ParserState(rawData: seq<Row>, rawRow: Row, metadata: Metadata, parsingErrors: seq<Error>)

  /** `setAdminSet`: an admin set already in the metadata is kept;
      otherwise the bulk-ingest set (or the default set, whose absence
      raises) is recorded. */
  function WithAdminSet(m: Metadata, adminSet: Option<string>): (r: (Metadata, bool))
    ensures r.1 <==> m.adminSetId.None? && adminSet.None?
    ensures !r.1 ==> r.0 == m.(adminSetId := r.0.adminSetId) && r.0.adminSetId.Some?
    ensures !r.1 && m.adminSetId.None? ==> r.0.adminSetId == adminSet
    ensures m.adminSetId.Some? ==> r.0 == m
  {
    if m.adminSetId.Some? then (m, false)
    else if adminSet.None? then (m, true)
    else (m.(adminSetId := adminSet), false)
  }

  /** `setMetadataInheritance`: a present value is kept; otherwise a
      non-blank option is copied in. */
  function WithInheritance(m: Metadata, option: string): (r: Metadata)
    ensures r == m.(metadataInheritance := r.metadataInheritance)
    ensures m.metadataInheritance.Some? && !IsBlank(m.metadataInheritance.value) ==> r == m
    ensures (m.metadataInheritance.None? || IsBlank(m.metadataInheritance.value)) ==>
      r.metadataInheritance == (if IsBlank(option) then m.metadataInheritance else Some(option))
  {
    if m.metadataInheritance.Some? && !IsBlank(m.metadataInheritance.value) then m
    else if IsBlank(option) then m
    else m.(metadataInheritance := Some(option))
  }

  const PARSING_ERROR_MESSAGE: string := "error parsing spreadsheet line"

  /** The end of `interpret_data`: a row with parsing errors turns the proxy
      to "ERROR", and the errors are appended to the proxy's. */
  function Finished(s: ProxyState, errors: seq<Error>): (r: ProxyState)
    ensures r.proxyErrors == s.proxyErrors + errors
    ensures errors != [] ==> r.status == "ERROR" && r.message == Some(PARSING_ERROR_MESSAGE)
    ensures errors == [] ==> r == s
    ensures r == s.(status := r.status, message := r.message, proxyErrors := r.proxyErrors)
  {
    if errors != [] then s.(status := "ERROR", message := Some(PARSING_ERROR_MESSAGE), proxyErrors := s.proxyErrors + errors)
    else
      assert s.proxyErrors + [] == s.proxyErrors;
      s
  }

  /** How the call at parser.rb:189 in `interpret_file_fields` is read. As
      written it sends `is_file_field?` to the `BulkOps::Verification`
      module, which has no such module method (it is an instance method of
      the concern), so it raises NoMethodError. `FileCallOnOperation`
      reads it as the operation's own `is_file_field?`. */
  datatype FilePass = FileCallAsWritten | FileCallOnOperation

  /** What the whole interpretation needs besides the parser and its
      proxy. */
  datatype ParseContext = ParseContext(repo: Repository, services: Services, schema: Schema, options: Options,
                                       operationWorkType: string, proxyIdAtRow: int -> Option<int>,
                                       filePass: FilePass)

  /** A cell the file pass reaches its `is_file_field?` call with: neither
      the value nor the header is blank, and the value is not the header
      repeated. */
  predicate ReachesFileCall(cell: (string, string)) {
    !IsBlank(cell.1) && !IsBlank(cell.0) && cell.0 != cell.1
  }

  /** Whether the file pass raises on a row: only as written, and then as
      soon as one cell reaches the call. */
  predicate FilePassRaises(fp: FilePass, row: Row) {
    fp == FileCallAsWritten && exists i :: 0 <= i < |row| && ReachesFileCall(row[i])
  }

  /** The row the passes read: the given one, else the parser's own, with
      repeated headers disambiguated. */
  function InterpretedRow(ps: ParserState, row: Row): Row {
    Disambiguated(if row != [] then row else ps.rawRow)
  }

  /** The link context of a proxy in a given state. */
  function LinksOf(c: ParseContext, proxyId: int, operationId: int, data: seq<Row>, s: ProxyState): LinkContext {
    LinkContext(c.repo, operationId, s.workId,
                RowContext(data, s.rowNumber, proxyId, s.referenceIdentifier, c.services, c.proxyIdAtRow))
  }

  /** The outcome of `interpret_data`: the parser, the proxy, and whether a
      pass raised. */
  datatype Interpreted = Interpreted(parser: ParserState, proxy: ProxyState, raised: bool)

  /** `interpret_data(raw_row: row)` pass by pass, from a parser and proxy
      state; an exception ends it with the state the earlier passes left. */
  function Interpret(c: ParseContext, proxyId: int, operationId: int, ps: ParserState, s: ProxyState, row: Row)
    : Interpreted
  {
    var ps1 := ps.(rawRow := InterpretedRow(ps, row));
    var adm := WithAdminSet(ps1.metadata, c.services.adminSet);
    if adm.1 then Interpreted(ps1, s, true)
    else Relate(c, proxyId, operationId, ps1.(metadata := adm.0), s)
  }

  /** The relationship pass and what follows it. */
  function Relate(c: ParseContext, proxyId: int, operationId: int, ps: ParserState, s: ProxyState): Interpreted {
    var rel := ParserRelations(LinksOf(c, proxyId, operationId, ps.rawData, s), s.order, ps.rawRow);
    var ps1 := ps.(metadata := ps.metadata.(collectionIds := ps.metadata.collectionIds + rel.collectionIds));
    var s1 := s.(order := rel.order);
    if rel.raised then Interpreted(ps1, s1, true)
    else Configure(c, ps1.(metadata := WithInheritance(ps1.metadata, c.options.metadataInheritance)), s1)
  }

  /** The option pass, the file pass and what follows them. */
  function Configure(c: ParseContext, ps: ParserState, s: ProxyState): Interpreted {
    var opt := ParserOptions(c.schema, c.operationWorkType, OptionState(s.visibility, s.workType, s.referenceIdentifier),
                             ps.rawRow);
    var s1 := s.(visibility := opt.0.visibility, workType := opt.0.workType);
    if opt.1 || FilePassRaises(c.filePass, ps.rawRow) then Interpreted(ps, s1, true) else Describe(c, ps, s1)
  }

  /** The controlled and scalar passes and the end. */
  function Describe(c: ParseContext, ps: ParserState, s: ProxyState): Interpreted {
    var ps1 := ps.(metadata := ps.metadata.(attributes := DescribedAttributes(c, ps)));
    var sc := ScalarFields(c.schema, ps1.metadata.values, ps1.rawRow, true);
    var ps2 := ps1.(metadata := ps1.metadata.(values := sc.0));
    if sc.1 then Interpreted(ps2, s, true)
    else Interpreted(ps2, Finished(s, ps2.parsingErrors), false)
  }

  function DescribedAttributes(c: ParseContext, ps: ParserState): map<string, seq<Attr>> {
    AppendAttributes(ps.metadata.attributes, ParserControlled(c.services, c.schema, c.options, ps.rawRow))
  }

  /** The proxy columns the interpretation never writes. */
  predicate SameIdentity(a: ProxyState, b: ProxyState) {
    a.rowNumber == b.rowNumber && a.workId == b.workId && a.referenceIdentifier == b.referenceIdentifier &&
    a.parentId == b.parentId && a.previousSiblingId == b.previousSiblingId
  }

  /** What the whole interpretation keeps of the parser and the proxy, and
      how it closes: without an exception the parsing errors are appended
      to the proxy's, and the status is "ERROR" exactly when there are
      some; after an exception the status and errors are untouched. */
  predicate Keeps(ps: ParserState, s: ProxyState, r: Interpreted) {
    r.parser.rawData == ps.rawData && r.parser.parsingErrors == ps.parsingErrors &&
    SameIdentity(r.proxy, s) &&
    (r.raised ==> r.proxy.status == s.status && r.proxy.proxyErrors == s.proxyErrors) &&
    (!r.raised ==> r.proxy.proxyErrors == s.proxyErrors + ps.parsingErrors) &&
    (!r.raised && ps.parsingErrors != [] ==> r.proxy.status == "ERROR") &&
    (!r.raised && ps.parsingErrors == [] ==> r.proxy.status == s.status)
  }

  lemma DescribeKeeps(c: ParseContext, ps: ParserState, s: ProxyState)
    ensures Keeps(ps, s, Describe(c, ps, s))
  {
  }

  lemma ConfigureKeeps(c: ParseContext, ps: ParserState, s: ProxyState)
    ensures Keeps(ps, s, Configure(c, ps, s))
  {
    var st := OptionState(s.visibility, s.workType, s.referenceIdentifier);
    ParserOptionsRaise(c.schema, c.operationWorkType, st, ps.rawRow);
    var opt := ParserOptions(c.schema, c.operationWorkType, st, ps.rawRow);
    if !opt.1 {
      DescribeKeeps(c, ps, s.(visibility := opt.0.visibility, workType := opt.0.workType));
    }
  }

  /** The sheet, the parsing errors and the proxy's identity columns are
      never changed by the interpretation; the status changes only at the
      end, and only when there are parsing errors. */
  lemma InterpretKeeps(c: ParseContext, proxyId: int, operationId: int, ps: ParserState, s: ProxyState, row: Row)
    ensures Keeps(ps, s, Interpret(c, proxyId, operationId, ps, s, row))
  {
    var ps1 := ps.(rawRow := InterpretedRow(ps, row));
    var adm := WithAdminSet(ps1.metadata, c.services.adminSet);
    if !adm.1 {
      var ps2 := ps1.(metadata := adm.0);
      var rel := ParserRelations(LinksOf(c, proxyId, operationId, ps2.rawData, s), s.order, ps2.rawRow);
      var ps3 := ps2.(metadata := ps2.metadata.(collectionIds := ps2.metadata.collectionIds + rel.collectionIds));
      if !rel.raised {
        ConfigureKeeps(c, ps3.(metadata := WithInheritance(ps3.metadata, c.options.metadataInheritance)),
                       s.(order := rel.order));
      }
    }
  }

  /** The controlled and scalar passes only extend the metadata: values go
      to uncontrolled schema fields, attributes to controlled ones. */
  predicate Extends(schema: Schema, m: Metadata, r: Metadata, k: string) {
    (k in m.values ==> k in r.values && m.values[k] <= r.values[k]) &&
    (k in r.values && k !in m.values ==> IsSchemaField(schema, k) && !IsControlled(schema, k)) &&
    Get(m.attributes, k) <= Get(r.attributes, k) &&
    (Get(r.attributes, k) != Get(m.attributes, k) ==> IsControlled(schema, k))
  }

  lemma DescribedAttributesControlled(c: ParseContext, ps: ParserState, k: string)
    ensures Get(ps.metadata.attributes, k) <= Get(DescribedAttributes(c, ps), k)
    ensures Get(DescribedAttributes(c, ps), k) != Get(ps.metadata.attributes, k) ==> IsControlled(c.schema, k)
  {
    var data := ParserControlled(c.services, c.schema, c.options, ps.rawRow);
    assert Get(DescribedAttributes(c, ps), k) == Get(ps.metadata.attributes, k) +
                                              (if k in data then AttrsOf(data[k], "_delete") else []);
    if k in data {
      var cs := ParserControlledColumns(c.services, c.schema, c.options, ps.rawRow);
      FoldKeysFrom(map[], cs, k);
      var i :| 0 <= i < |cs| && cs[i].Add? && cs[i].key == k && cs[i].items != [];
    }
  }

  lemma DescribeExtends(c: ParseContext, ps: ParserState, s: ProxyState, k: string)
    ensures Extends(c.schema, ps.metadata, Describe(c, ps, s).parser.metadata, k)
    ensures Describe(c, ps, s).parser.metadata ==
      ps.metadata.(values := Describe(c, ps, s).parser.metadata.values,
                   attributes := Describe(c, ps, s).parser.metadata.attributes)
  {
    DescribedAttributesControlled(c, ps, k);
    ScalarFieldsShape(c.schema, ps.metadata.values, ps.rawRow, true, k);
  }

  lemma ConfigureExtends(c: ParseContext, ps: ParserState, s: ProxyState, k: string)
    ensures Extends(c.schema, ps.metadata, Configure(c, ps, s).parser.metadata, k)
    ensures Configure(c, ps, s).parser.metadata ==
      ps.metadata.(values := Configure(c, ps, s).parser.metadata.values,
                   attributes := Configure(c, ps, s).parser.metadata.attributes)
  {
    var opt := ParserOptions(c.schema, c.operationWorkType, OptionState(s.visibility, s.workType, s.referenceIdentifier),
                             ps.rawRow);
    if !opt.1 {
      DescribeExtends(c, ps, s.(visibility := opt.0.visibility, workType := opt.0.workType), k);
    }
  }

  /** The metadata a completed interpretation returns: an admin set, the
      collections of the relationship columns after the ones already
      there, and every scalar and controlled key it adds is a schema field
      (an uncontrolled one for values, a controlled one for attributes). */
  lemma InterpretMetadata(c: ParseContext, proxyId: int, operationId: int, ps: ParserState, s: ProxyState, row: Row,
                          k: string)
    requires !Interpret(c, proxyId, operationId, ps, s, row).raised
    ensures var m := Interpret(c, proxyId, operationId, ps, s, row).parser.metadata;
      m.adminSetId.Some? && ps.metadata.collectionIds <= m.collectionIds && Extends(c.schema, ps.metadata, m, k)
  {
    var ps1 := ps.(rawRow := Disambiguated(if row != [] then row else ps.rawRow));
    var adm := WithAdminSet(ps1.metadata, c.services.adminSet);
    var ps2 := ps1.(metadata := adm.0);
    var rel := ParserRelations(LinksOf(c, proxyId, operationId, ps2.rawData, s), s.order, ps2.rawRow);
    var ps3 := ps2.(metadata := ps2.metadata.(collectionIds := ps2.metadata.collectionIds + rel.collectionIds));
    var ps4 := ps3.(metadata := WithInheritance(ps3.metadata, c.options.metadataInheritance));
    ConfigureExtends(c, ps4, s.(order := rel.order), k);
  }

  /** As written, every row with a cell the file pass calls on raises,
      whatever the earlier passes did. */
  lemma FilePassRaisesAsWritten(c: ParseContext, proxyId: int, operationId: int, ps: ParserState, s: ProxyState,
                                row: Row, i: int)
    requires c.filePass == FileCallAsWritten
    requires 0 <= i < |InterpretedRow(ps, row)| && ReachesFileCall(InterpretedRow(ps, row)[i])
    ensures Interpret(c, proxyId, operationId, ps, s, row).raised
  {
    var ps1 := ps.(rawRow := InterpretedRow(ps, row));
    var adm := WithAdminSet(ps1.metadata, c.services.adminSet);
    if !adm.1 {
      var ps2 := ps1.(metadata := adm.0);
      var rel := ParserRelations(LinksOf(c, proxyId, operationId, ps2.rawData, s), s.order, ps2.rawRow);
      var ps3 := ps2.(metadata := ps2.metadata.(collectionIds := ps2.metadata.collectionIds + rel.collectionIds));
      var ps4 := ps3.(metadata := WithInheritance(ps3.metadata, c.options.metadataInheritance));
      assert ps4.rawRow[i] == InterpretedRow(ps, row)[i];
      assert FilePassRaises(c.filePass, ps4.rawRow);
    }
  }

  /** On a row with no cell the file pass calls on, the two readings of
      the call interpret alike. */
  lemma FilePassReadingsAgree(c: ParseContext, proxyId: int, operationId: int, ps: ParserState, s: ProxyState,
                              row: Row)
    requires forall i :: 0 <= i < |InterpretedRow(ps, row)| ==> !ReachesFileCall(InterpretedRow(ps, row)[i])
    ensures Interpret(c.(filePass := FileCallAsWritten), proxyId, operationId, ps, s, row) ==
            Interpret(c.(filePass := FileCallOnOperation), proxyId, operationId, ps, s, row)
  {
    var a, b := c.(filePass := FileCallAsWritten), c.(filePass := FileCallOnOperation);
    var ps1 := ps.(rawRow := InterpretedRow(ps, row));
    var adm := WithAdminSet(ps1.metadata, c.services.adminSet);
    if !adm.1 {
      var ps2 := ps1.(metadata := adm.0);
      assert LinksOf(a, proxyId, operationId, ps2.rawData, s) == LinksOf(b, proxyId, operationId, ps2.rawData, s);
      var rel := ParserRelations(LinksOf(c, proxyId, operationId, ps2.rawData, s), s.order, ps2.rawRow);
      var ps3 := ps2.(metadata := ps2.metadata.(collectionIds := ps2.metadata.collectionIds + rel.collectionIds));
      var ps4 := ps3.(metadata := WithInheritance(ps3.metadata, c.options.metadataInheritance));
      if !rel.raised {
        assert !FilePassRaises(a.filePass, ps4.rawRow);
        assert DescribedAttributes(a, ps4) == DescribedAttributes(b, ps4);
      }
    }
  }

  // ---------------------------------------------------------------------
  // The parser

  class Parser {
    const proxy: WorkProxy
    var rawData: seq<Row>
    var rawRow: Row
    var metadata: Metadata
    var parsingErrors: seq<Error>

    /** `Parser.new(proxy, sheet)`: the row is the sheet's row at the
        proxy's row number (nil, here empty, when there is none). */
    constructor (proxy: WorkProxy, sheet: seq<Row>)
      ensures this.proxy == proxy
      ensures Snapshot() ==
        ParserState(sheet, match RubyIndex(sheet, proxy.rowNumber) case Some(r) => r case None => [], EMPTY, [])
    {
      this.proxy := proxy;
      rawData := sheet;
      rawRow := match RubyIndex(sheet, proxy.rowNumber) case Some(r) => r case None => [];
      metadata := EMPTY;
      parsingErrors := [];
    }

    function Snapshot(): ParserState
      reads this
    {
      ParserState(rawData, rawRow, metadata, parsingErrors)
    }

    /** `disambiguate_columns` */
    method DisambiguateColumns()
      modifies this
      ensures Snapshot() == old(Snapshot()).(rawRow := Disambiguated(old(rawRow)))
    {
      if |Uniq(Headers(rawRow))| < |rawRow| {
        var row: Row := [];
        var i := 0;
        while i < |rawRow|
          invariant 0 <= i <= |rawRow|
          invariant row == MergedColumns(rawRow[..i])
        {
          assert rawRow[..i + 1][..i] == rawRow[..i];
          row := MergeCell(row, rawRow[i].0, rawRow[i].1);
          i := i + 1;
        }
        assert rawRow[..i] == rawRow;
        rawRow := row;
      }
    }

    /** `setAdminSet`; a missing default admin set raises. */
    method SetAdminSet(services: Services) returns (raised: bool)
      modifies this
      ensures var a := WithAdminSet(old(metadata), services.adminSet);
        raised == a.1 && Snapshot() == old(Snapshot()).(metadata := a.0)
    {
      if metadata.adminSetId.Some? {
        return false;
      }
      if services.adminSet.None? {
        return true;
      }
      metadata := metadata.(adminSetId := services.adminSet);
      raised := false;
    }

    /** `setMetadataInheritance` */
    method SetMetadataInheritance(options: Options)
      modifies this
      ensures Snapshot() == old(Snapshot()).(metadata := WithInheritance(old(metadata), options.metadataInheritance))
    {
      if metadata.metadataInheritance.Some? && !IsBlank(metadata.metadataInheritance.value) {
        return;
      }
      if !IsBlank(options.metadataInheritance) {
        metadata := metadata.(metadataInheritance := Some(options.metadataInheritance));
      }
    }

    /** `report_error(type, message, **args)`: the proxy turns to "error"
        with the message, and an error built from the keywords is kept. */
    method ReportError(kind: string, msg: string, url: Option<string>, row: Option<int>)
      modifies this, proxy
      ensures proxy.State() == old(proxy.State()).(status := "error", message := Some(msg))
      ensures Snapshot() == old(Snapshot()).(parsingErrors := old(parsingErrors) + [LabelFailureError(kind, row, url)])
    {
      proxy.status := "error";
      proxy.message := Some(msg);
      parsingErrors := parsingErrors + [LabelFailureError(kind, row, url)];
    }

    /** `interpret_relationship_fields`: order columns update the proxy,
        collection columns add to the collection ids, and parent and child
        columns create (and at once resolve) a record. The order and the
        collection ids are gathered in locals and stored once, which leaves
        the same state as writing each at once. */
    method InterpretRelationshipFields(c: ParseContext) returns (raised: bool)
      requires Valid(c.repo)
      modifies this, proxy, c.repo.works
      ensures var o := ParserRelations(LinksOf(c, proxy.id, proxy.operationId, old(rawData), old(proxy.State())),
                                       old(proxy.order), old(rawRow));
        raised == o.raised &&
        Snapshot() == old(Snapshot()).(metadata := old(metadata).(collectionIds := old(metadata.collectionIds) + o.collectionIds)) &&
        proxy.State() == old(proxy.State()).(order := o.order)
    {
      var lx := LinksOf(c, proxy.id, proxy.operationId, rawData, proxy.State());
      ghost var s0 := proxy.State();
      ghost var p0 := Snapshot();
      ghost var created: seq<Params> := [];
      var ids: seq<string> := [];
      var order := proxy.order;
      raised := false;
      var i := 0;
      while i < |rawRow| && !raised
        invariant 0 <= i <= |rawRow|
        invariant ParserRelations(lx, s0.order, rawRow[..i]) == RelOutcome(ids, order, created, raised)
        invariant proxy.State() == s0 && Snapshot() == p0
      {
        ParserRelationsStep(lx, s0.order, rawRow, i);
        var st := ParserRelStep(lx.row, rawRow[i]);
        match st {
          case NoLink =>
          case SetOrder(o) =>
            order := Some(o);
          case AddCollection(col) =>
            if col.Some? {
              ids := ids + [col.value];
            }
          case Link(p) =>
            raised := CreateRecord(c.repo, proxy.operationId, proxy.workId, p);
            if !raised {
              created := created + [p];
            }
          case LookupRaises =>
            raised := true;
        }
        i := i + 1;
      }
      if raised {
        ParserRelationsHalted(lx, s0.order, rawRow, i);
      } else {
        assert rawRow[..i] == rawRow;
      }
      proxy.order := order;
      metadata := metadata.(collectionIds := metadata.collectionIds + ids);
    }

    /** `interpret_option_fields`: the visibility and work-type columns
        update the proxy; a reference-identifier column, or a work type that
        is no constant name, raises. */
    method InterpretOptionFields(schema: Schema, operationWorkType: string) returns (raised: bool)
      modifies proxy
      ensures var o := ParserOptions(schema, operationWorkType,
                                     OptionState(old(proxy.visibility), old(proxy.workType), old(proxy.referenceIdentifier)),
                                     rawRow);
        raised == o.1 && proxy.State() == old(proxy.State()).(visibility := o.0.visibility, workType := o.0.workType)
    {
      var s0 := OptionState(proxy.visibility, proxy.workType, proxy.referenceIdentifier);
      ghost var p0 := proxy.State();
      var row := rawRow;
      raised := false;
      var i := 0;
      while i < |row| && !raised
        invariant 0 <= i <= |row|
        invariant ParserOptions(schema, operationWorkType, s0, row[..i]) ==
                  (OptionState(proxy.visibility, proxy.workType, s0.referenceIdentifier), raised)
        invariant proxy.State() == p0.(visibility := proxy.visibility, workType := proxy.workType)
      {
        ParserOptionsStep(schema, operationWorkType, s0, row, i);
        var (h, v) := row[i];
        if !(IsBlank(v) || IsBlank(h) || v == h) {
          var nf := NormField(h);
          if nf in ["visibility", "public"] {
            proxy.visibility := FormatVisibility(v);
          }
          if nf in ["worktype", "model", "type"] {
            var t := FormatWorktype(schema, v, proxy.WorkType(operationWorkType));
            if t.None? {
              raised := true;
            } else {
              proxy.workType := t;
            }
          }
          if nf in REFERENCE_ID_SPELLINGS {
            raised := true;
          }
        }
        i := i + 1;
      }
      if raised {
        ParserOptionsHalted(schema, operationWorkType, s0, row, i);
      } else {
        assert row[..i] == row;
      }
    }

    /** The inner loop of `interpret_controlled_fields` over one cell's
        values. */
    static method CollectEntries(services: Services, schema: Schema, c: ControlledColumn, ps: seq<string>)
      returns (es: seq<Entry>)
      ensures es == ParserEntries(services, schema, c, ps)
    {
      es := [];
      var i := 0;
      while i < |ps|
        invariant 0 <= i <= |ps|
        invariant es == ParserEntries(services, schema, c, ps[..i])
      {
        ParserEntriesSnoc(services, schema, c, ps, i);
        var v := Strip(ps[i]);
        var e;
        if services.isUrl(v) && !c.isLabel {
          e := Entry(v, None, RemovesInProxy(c));
        } else {
          e := Entry(LocalAuthUrl(services, schema, c.property, UnescapeCsv(v)), None, RemovesInProxy(c));
        }
        assert e == ParserEntry(services, schema, c, v);
        es := es + [e];
        i := i + 1;
      }
      assert ps[..i] == ps;
    }

    /** `interpret_controlled_fields`: the entries of every controlled
        column are grouped by property, and each group, without
        repetitions, is appended to the property's attribute list. */
    method InterpretControlledFields(services: Services, schema: Schema, options: Options)
      modifies this
      ensures Snapshot() == old(Snapshot()).(metadata := old(metadata).(attributes :=
                AppendAttributes(old(metadata.attributes), ParserControlled(services, schema, options, old(rawRow)))))
    {
      var row := rawRow;
      var cs := ParserControlledColumns(services, schema, options, row);
      var data: map<string, seq<Entry>> := map[];
      var i := 0;
      while i < |row|
        invariant 0 <= i <= |row|
        invariant Fold(map[], cs[..i]) == (data, false)
        invariant Snapshot() == old(Snapshot())
      {
        ParserControlledStep(services, schema, options, row, i, data);
        var (h, v) := row[i];
        var t := ControlledTarget(schema, options, h, v);
        if t.Some? {
          var es := CollectEntries(services, schema, t.value, SplitValues(v));
          data := Extend(data, t.value.property, es);
        }
        i := i + 1;
      }
      assert cs[..i] == cs;
      metadata := metadata.(attributes := AppendAttributes(metadata.attributes, data));
    }

    /** `interpret_scalar_fields`: the escape-aware pass into the metadata;
        a name that matches a `Work` attribute outside the schema raises,
        after the earlier columns' values were appended. */
    method InterpretScalarFields(schema: Schema) returns (raised: bool)
      modifies this
      ensures var sc := ScalarFields(schema, old(metadata.values), old(rawRow), true);
        raised == sc.1 && Snapshot() == old(Snapshot()).(metadata := old(metadata).(values := sc.0))
    {
      var m0 := metadata.values;
      var row := rawRow;
      var cs := ScalarColumns(schema, row, true);
      var acc := m0;
      raised := false;
      var i := 0;
      while i < |row| && !raised
        invariant 0 <= i <= |row|
        invariant Fold(m0, cs[..i]) == (acc, raised)
        invariant Snapshot() == old(Snapshot())
      {
        ScalarStep(schema, m0, row, true, i, acc);
        var (field, values) := row[i];
        if !IsBlank(values) && field != values {
          var name := FindFieldName(schema, field);
          if name.Some? {
            if !IsSchemaField(schema, name.value) {
              raised := true;
            } else if !IsControlled(schema, name.value) {
              acc := AppendPieces(acc, name.value, SplitValues(values), true);
            }
          }
        }
        i := i + 1;
      }
      if raised {
        FoldHalted(m0, cs, i);
      } else {
        assert cs[..i] == cs;
      }
      metadata := metadata.(values := acc);
    }

    /** `interpret_file_fields`, as far as it decides whether the pass
        raises: it skips blank cells and header echoes and, as written,
        raises at the first other cell; the uploads and removals it then
        makes are not modelled. */
    method InterpretFileFields(fp: FilePass) returns (raised: bool)
      ensures raised == FilePassRaises(fp, rawRow)
    {
      if fp == FileCallOnOperation {
        return false;
      }
      var i := 0;
      while i < |rawRow|
        invariant 0 <= i <= |rawRow|
        invariant forall j :: 0 <= j < i ==> !ReachesFileCall(rawRow[j])
      {
        if ReachesFileCall(rawRow[i]) {
          return true;
        }
        i := i + 1;
      }
      return false;
    }

    /** The end of `interpret_data`. */
    method Finish()
      modifies proxy
      ensures proxy.State() == Finished(old(proxy.State()), parsingErrors)
    {
      if parsingErrors != [] {
        proxy.status := "ERROR";
        proxy.message := Some(PARSING_ERROR_MESSAGE);
      }
      proxy.proxyErrors := proxy.proxyErrors + parsingErrors;
    }

    /** `interpret_data(raw_row: row)`: a given row replaces the parser's,
        the passes run in order, and the metadata is returned unless a pass
        raised. */
    method InterpretData(c: ParseContext, row: Row) returns (result: Metadata, raised: bool)
      requires Valid(c.repo)
      modifies this, proxy, c.repo.works
      ensures var r := Interpret(c, proxy.id, proxy.operationId, old(Snapshot()), old(proxy.State()), row);
        Snapshot() == r.parser && proxy.State() == r.proxy && raised == r.raised &&
        (!raised ==> result == r.parser.metadata)
    {
      result := EMPTY;
      if row != [] {
        rawRow := row;
      }
      DisambiguateColumns();
      raised := SetAdminSet(c.services);
      if raised {
        return;
      }
      raised := InterpretRelationshipFields(c);
      if raised {
        return;
      }
      SetMetadataInheritance(c.options);
      raised := InterpretOptionFields(c.schema, c.operationWorkType);
      if raised {
        return;
      }
      raised := InterpretFileFields(c.filePass);
      if raised {
        return;
      }
      InterpretControlledFields(c.services, c.schema, c.options);
      raised := InterpretScalarFields(c.schema);
      if raised {
        return;
      }
      Finish();
      result := metadata;
    }
  }

  // ---------------------------------------------------------------------
  // is_file_set?

  /** A column that does not make a row a work: a file column, a parent or
      order column, or a title or label column. */
  predicate NeutralColumn(schema: Schema, field: string) {
    IsFileField(schema, field) != NotFile ||
    NormalizeRelationshipFieldName(field) in [Some("parent"), Some("order")] ||
    Strip(Lower(field)) in ["title", "label"]
  }

  /** `Parser.is_file_set?(sheet, row_number)`: a present row is a file set
      when its work type says "fileset", is not one when the type is given
      otherwise, and else is one exactly when all its columns are neutral.
      `typeCell` is what the sheet gives for the first of its keys that
      contains "worktype", if it has one. */
  predicate FileSetRow(schema: Schema, sheet: seq<Row>, rowNumber: int, typeCell: Option<string>) {
    RubyIndex(sheet, rowNumber).Some? && RubyIndex(sheet, rowNumber).value != [] &&
    (if typeCell.Some? && Lower(typeCell.value) == "fileset" then true
     else if typeCell.Some? && !IsBlank(typeCell.value) then false
     else forall i :: 0 <= i < |RubyIndex(sheet, rowNumber).value| ==>
            NeutralColumn(schema, RubyIndex(sheet, rowNumber).value[i].0))
  }

  /** `Parser.is_file_set?` as written, on the `CSV::Table` that `apply!`
      passes it: a present row goes on to `metadata.keys` at line 11, which
      a table does not have, so it raises NoMethodError (None); an absent
      or empty row is not a file set. */
  function FileSetAsWritten(sheet: seq<Row>, rowNumber: int): (r: Option<bool>)
    ensures r.Some? ==> r.value == false
  {
    if RubyIndex(sheet, rowNumber).Some? && RubyIndex(sheet, rowNumber).value != [] then None else Some(false)
  }

  /** As written, `is_file_set?` raises on every row the corrected test
      would call a file set, and where it answers it agrees with it. */
  lemma FileSetAsWrittenRaises(schema: Schema, sheet: seq<Row>, rowNumber: int, typeCell: Option<string>)
    ensures FileSetRow(schema, sheet, rowNumber, typeCell) ==> FileSetAsWritten(sheet, rowNumber).None?
    ensures FileSetAsWritten(sheet, rowNumber).Some? ==>
      FileSetAsWritten(sheet, rowNumber) == Some(FileSetRow(schema, sheet, rowNumber, typeCell))
  {
  }

  /** `is_file_set?` on a row and its work-type cell. */
  method IsFileSet(schema: Schema, sheet: seq<Row>, rowNumber: int, typeCell: Option<string>) returns (r: bool)
    ensures r <==> FileSetRow(schema, sheet, rowNumber, typeCell)
  {
    var found := RubyIndex(sheet, rowNumber);
    if found.None? || found.value == [] {
      return false;
    }
    if typeCell.Some? {
      if Lower(typeCell.value) == "fileset" {
        return true;
      }
      if !IsBlank(typeCell.value) {
        return false;
      }
    }
    r := AllNeutral(field => NeutralColumn(schema, field), found.value);
    assert found.value == RubyIndex(sheet, rowNumber).value;
  }

  /** The column loop of `is_file_set?`, which stops at the first column
      whose header is not `neutral`. */
  method AllNeutral(neutral: string -> bool, row: Row) returns (r: bool)
    ensures r <==> forall i :: 0 <= i < |row| ==> neutral(row[i].0)
  {
    var i := 0;
    while i < |row|
      invariant 0 <= i <= |row|
      invariant forall j :: 0 <= j < i ==> neutral(row[j].0)
    {
      if !neutral(row[i].0) {
        return false;
      }
      i := i + 1;
    }
    return true;
  }
}

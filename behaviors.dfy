/**
  The `lib/concerns` mixins: the same column passes as `BulkOps::Parser`
  written as `ActiveSupport::Concern` modules for a host class that holds
  `@raw_row`, `@raw_data`, `@proxy` and `@metadata`. No class of the
  repository includes them; here the host is a `RowParser.Parser` (whose
  proxy holds the row number, the operation and the reference identifier
  the concerns read), and what the host would have to supply beyond that
  is a parameter.
 */
module Behaviors {
  import opened Text
  import opened BulkOps
  import opened Cells
  import opened Interpretation
  import opened Proxies
  import opened RowParser
  import opened Verification

  // ---------------------------------------------------------------------
  // A pass over the row whose body may raise

  /** `@raw_row.each { ... }` with a body that turns a state into the next
      one or raises: each column sees the state the earlier ones left, and
      once one raises the later columns are never reached. */
  function Run<S>(step: (S, (string, string)) -> (S, bool), s0: S, row: Row): (S, bool)
    decreases |row|
  {
    if |row| == 0 then (s0, false)
    else
      var prev := Run(step, s0, row[..|row| - 1]);
      if prev.1 then prev else step(prev.0, row[|row| - 1])
  }

  lemma RunStep<S>(step: (S, (string, string)) -> (S, bool), s0: S, row: Row, i: nat)
    requires i < |row|
    ensures Run(step, s0, row[..i + 1]) ==
      (var prev := Run(step, s0, row[..i]); if prev.1 then prev else step(prev.0, row[i]))
  {
    assert row[..i + 1][..i] == row[..i];
  }

  /** After a column has raised, the rest change nothing. */
  lemma {:induction false} RunHalted<S>(step: (S, (string, string)) -> (S, bool), s0: S, row: Row, i: nat)
    requires i <= |row| && Run(step, s0, row[..i]).1
    ensures Run(step, s0, row) == Run(step, s0, row[..i])
    decreases |row| - i
  {
    if i < |row| {
      RunStep(step, s0, row, i);
      RunHalted(step, s0, row, i + 1);
    } else {
      assert row[..i] == row;
    }
  }

  /** When whether a column raises depends on the column alone, the pass
      raises exactly when one of its columns does. */
  lemma {:induction false} RunRaises<S>(step: (S, (string, string)) -> (S, bool), raises: ((string, string)) -> bool,
                                        s0: S, row: Row)
    requires forall s, c :: step(s, c).1 == raises(c)
    ensures Run(step, s0, row).1 <==> exists i :: 0 <= i < |row| && raises(row[i])
    decreases |row|
  {
    if |row| > 0 {
      var init := row[..|row| - 1];
      RunRaises(step, raises, s0, init);
      if Run(step, s0, init).1 {
        var i :| 0 <= i < |init| && raises(init[i]);
        assert row[i] == init[i];
      } else {
        forall i | 0 <= i < |init| ensures !raises(row[i]) {
          assert row[i] == init[i];
        }
        var (st, _) := Run(step, s0, init);
        assert step(st, row[|row| - 1]).1 == raises(row[|row| - 1]);
        if raises(row[|row| - 1]) {
          assert 0 <= |row| - 1 < |row| && raises(row[|row| - 1]);
        }
      }
    }
  }

  // ---------------------------------------------------------------------
  // interpret_option_fields

  const VISIBILITY_NAMES: seq<string> := ["visibility", "public"]

  /** The column is not blank, does not echo its header and its name
      normalises to one of `names`. */
  predicate OptionColumn(cell: (string, string), names: seq<string>) {
    !(IsBlank(cell.1) || IsBlank(cell.0) || cell.1 == cell.0) && NormField(cell.0) in names
  }

  /** One column of the concern's option pass. `formatReferenceId` is the
      host's `format_reference_id`, which may raise. The work type is not
      read here. */
  function ConcernOptionStep(formatReferenceId: string -> Formatted, s: OptionState, cell: (string, string))
    : (OptionState, bool)
  {
    var s1 := if OptionColumn(cell, VISIBILITY_NAMES) then s.(visibility := FormatVisibility(cell.1)) else s;
    if !OptionColumn(cell, REFERENCE_ID_SPELLINGS) then (s1, false)
    else match formatReferenceId(cell.1)
      case FormatRaises => (s1, true)
      case Formatted(r) => (s1.(referenceIdentifier := r), false)
  }

  function OptionStepOf(formatReferenceId: string -> Formatted): (OptionState, (string, string)) -> (OptionState, bool) {
    (s, c) => ConcernOptionStep(formatReferenceId, s, c)
  }

  /** `interpret_option_fields` on the proxy's visibility and reference
      identifier. */
  function ConcernOptions(formatReferenceId: string -> Formatted, s0: OptionState, row: Row): (OptionState, bool) {
    Run(OptionStepOf(formatReferenceId), s0, row)
  }

  /** The last column of the row that is one of `names`. */
  function LastColumn(row: Row, names: seq<string>): (r: Option<nat>)
    ensures r.Some? ==>
      r.value < |row| && OptionColumn(row[r.value], names) &&
      forall j :: r.value < j < |row| ==> !OptionColumn(row[j], names)
    ensures r.None? ==> forall j :: 0 <= j < |row| ==> !OptionColumn(row[j], names)
    decreases |row|
  {
    if |row| == 0 then None
    else if OptionColumn(row[|row| - 1], names) then Some(|row| - 1)
    else
      var init := row[..|row| - 1];
      var r := LastColumn(init, names);
      assert forall j :: 0 <= j < |init| ==> init[j] == row[j];
      r
  }

  /** Without an exception the last visibility column decides the
      visibility and the last reference-identifier column the reference
      identifier; without such a column the proxy keeps its own, and the
      work type is never touched. */
  lemma {:induction false} ConcernOptionsLastWins(formatReferenceId: string -> Formatted, s0: OptionState, row: Row)
    requires !ConcernOptions(formatReferenceId, s0, row).1
    ensures var r := ConcernOptions(formatReferenceId, s0, row).0;
      r.workType == s0.workType &&
      (match LastColumn(row, VISIBILITY_NAMES)
       case None => r.visibility == s0.visibility
       case Some(i) => r.visibility == FormatVisibility(row[i].1)) &&
      (match LastColumn(row, REFERENCE_ID_SPELLINGS)
       case None => r.referenceIdentifier == s0.referenceIdentifier
       case Some(i) => formatReferenceId(row[i].1) == Formatted(r.referenceIdentifier))
    decreases |row|
  {
    if |row| > 0 {
      var init := row[..|row| - 1];
      var c := row[|row| - 1];
      assert !ConcernOptions(formatReferenceId, s0, init).1;
      ConcernOptionsLastWins(formatReferenceId, s0, init);
      var lv := LastColumn(init, VISIBILITY_NAMES);
      if !OptionColumn(c, VISIBILITY_NAMES) && lv.Some? {
        assert row[lv.value] == init[lv.value];
      }
      var lr := LastColumn(init, REFERENCE_ID_SPELLINGS);
      if !OptionColumn(c, REFERENCE_ID_SPELLINGS) && lr.Some? {
        assert row[lr.value] == init[lr.value];
      }
    }
  }

  /** The pass raises exactly when a reference-identifier column holds a
      value the host's `format_reference_id` raises on. */
  lemma ConcernOptionsRaise(formatReferenceId: string -> Formatted, s0: OptionState, row: Row)
    ensures ConcernOptions(formatReferenceId, s0, row).1 <==>
      exists i :: 0 <= i < |row| && OptionColumn(row[i], REFERENCE_ID_SPELLINGS) &&
                  formatReferenceId(row[i].1).FormatRaises?
  {
    RunRaises(OptionStepOf(formatReferenceId),
              c => OptionColumn(c, REFERENCE_ID_SPELLINGS) && formatReferenceId(c.1).FormatRaises?, s0, row);
  }

  /** The `format_reference_id` of a host that has none: every call raises
      `NoMethodError`. `BulkOps::Parser`, the host the concerns are written
      for, is such a host. */
  function NoFormatReferenceId(value: string): Formatted {
    FormatRaises
  }

  /** As written, with `BulkOps::Parser` as host, the pass raises exactly
      when the row has a filled reference-identifier column, and when it
      does not raise it keeps the proxy's reference identifier. */
  lemma ConcernOptionsAsWritten(s0: OptionState, row: Row)
    ensures ConcernOptions(NoFormatReferenceId, s0, row).1 <==>
      exists i :: 0 <= i < |row| && OptionColumn(row[i], REFERENCE_ID_SPELLINGS)
    ensures !ConcernOptions(NoFormatReferenceId, s0, row).1 ==>
      ConcernOptions(NoFormatReferenceId, s0, row).0.referenceIdentifier == s0.referenceIdentifier
  {
    ConcernOptionsRaise(NoFormatReferenceId, s0, row);
    if !ConcernOptions(NoFormatReferenceId, s0, row).1 {
      ConcernOptionsLastWins(NoFormatReferenceId, s0, row);
    }
  }

  /** `interpret_option_fields`, each `@proxy.update` written at once; an
      exception of `format_reference_id` ends the pass with the earlier
      updates kept. */
  method InterpretOptionFields(p: Parser, formatReferenceId: string -> Formatted) returns (raised: bool)
    modifies p.proxy
    ensures var o := ConcernOptions(formatReferenceId,
                                    OptionState(old(p.proxy.visibility), old(p.proxy.workType),
                                                old(p.proxy.referenceIdentifier)),
                                    p.rawRow);
      raised == o.1 &&
      p.proxy.State() == old(p.proxy.State()).(visibility := o.0.visibility,
                                                referenceIdentifier := o.0.referenceIdentifier)
  {
    var proxy := p.proxy;
    var s0 := OptionState(proxy.visibility, proxy.workType, proxy.referenceIdentifier);
    ghost var p0 := proxy.State();
    var row := p.rawRow;
    raised := false;
    var i := 0;
    while i < |row| && !raised
      invariant 0 <= i <= |row|
      invariant ConcernOptions(formatReferenceId, s0, row[..i]) ==
                (OptionState(proxy.visibility, s0.workType, proxy.referenceIdentifier), raised)
      invariant proxy.State() == p0.(visibility := proxy.visibility, referenceIdentifier := proxy.referenceIdentifier)
    {
      RunStep(OptionStepOf(formatReferenceId), s0, row, i);
      var (field, value) := row[i];
      if !(IsBlank(value) || IsBlank(field) || value == field) {
        var nf := NormField(field);
        if nf in VISIBILITY_NAMES {
          proxy.visibility := FormatVisibility(value);
        }
        if nf in REFERENCE_ID_SPELLINGS {
          match formatReferenceId(value)
          case FormatRaises => raised := true;
          case Formatted(r) => proxy.referenceIdentifier := r;
        }
      }
      i := i + 1;
    }
    if raised {
      RunHalted(OptionStepOf(formatReferenceId), s0, row, i);
    } else {
      assert row[..i] == row;
    }
  }

  // ---------------------------------------------------------------------
  // interpret_scalar_fields as written

  /** Any column that passes the field checks of the concern's scalar pass
      calls `BulkOps::Parser.split_values`, a method of the class, which
      `Parser` only defines on its instances: it raises where the
      parser's pass appends. */
  function ScalarColumnAsWritten(schema: Schema, cell: (string, string)): Column<string> {
    if ScalarColumn(schema, cell.0, cell.1, true).Skip? then Skip else Halt
  }

  function ScalarColumnsAsWritten(schema: Schema, row: Row): (r: seq<Column<string>>)
    ensures |r| == |row| && forall i :: 0 <= i < |row| ==> r[i] == ScalarColumnAsWritten(schema, row[i])
  {
    seq(|row|, i requires 0 <= i < |row| => ScalarColumnAsWritten(schema, row[i]))
  }

  /** A fold of columns that never add keeps its map, and raises exactly
      when one of the columns raises. */
  lemma {:induction false} FoldWithoutAdd<T>(m0: map<string, seq<T>>, cs: seq<Column<T>>)
    requires forall i :: 0 <= i < |cs| ==> !cs[i].Add?
    ensures Fold(m0, cs) == (m0, exists i :: 0 <= i < |cs| && cs[i].Halt?)
    decreases |cs|
  {
    if |cs| > 0 {
      var init := cs[..|cs| - 1];
      FoldWithoutAdd(m0, init);
      if Fold(m0, init).1 {
        var i :| 0 <= i < |init| && init[i].Halt?;
        assert cs[i] == init[i];
      } else {
        forall i | 0 <= i < |init| ensures !cs[i].Halt? {
          assert cs[i] == init[i];
        }
      }
    }
  }

  /** As written, the concern's scalar pass never changes the metadata,
      and it raises exactly when some column would be added to it (or names
      an attribute outside the schema). */
  lemma ScalarFieldsAsWritten(schema: Schema, m0: map<string, seq<string>>, row: Row)
    ensures Fold(m0, ScalarColumnsAsWritten(schema, row)).0 == m0
    ensures Fold(m0, ScalarColumnsAsWritten(schema, row)).1 <==>
      exists i :: 0 <= i < |row| && !ScalarColumn(schema, row[i].0, row[i].1, true).Skip?
  {
    var cs := ScalarColumnsAsWritten(schema, row);
    FoldWithoutAdd(m0, cs);
    if exists i :: 0 <= i < |row| && !ScalarColumn(schema, row[i].0, row[i].1, true).Skip? {
      var i :| 0 <= i < |row| && !ScalarColumn(schema, row[i].0, row[i].1, true).Skip?;
      assert cs[i].Halt?;
    }
  }

  // ---------------------------------------------------------------------
  // interpret_controlled_fields as written

  /** As written, a controlled column calls `BulkOps::Parser.split_values`
      on the class, which raises: a label column at the label bookkeeping
      (unless `ignore_labels` skips it), any other at the value split. */
  predicate ControlledRaisesAsWritten(schema: Schema, options: Options, cell: (string, string)) {
    var (h, v) := cell;
    var name := ColumnName(h);
    !(IsBlank(v) || IsBlank(h) || h == v) &&
    FindFieldName(schema, name).Some? && IsControlled(schema, FindFieldName(schema, name).value) &&
    !(EndsWith(Lower(name), "label") && options.ignoreLabels)
  }

  function ControlledColumnAsWritten(schema: Schema, options: Options, cell: (string, string)): Column<Entry> {
    if ControlledRaisesAsWritten(schema, options, cell) then Halt else Skip
  }

  function ControlledColumnsAsWritten(schema: Schema, options: Options, row: Row): (r: seq<Column<Entry>>)
    ensures |r| == |row| && forall i :: 0 <= i < |row| ==> r[i] == ControlledColumnAsWritten(schema, options, row[i])
  {
    seq(|row|, i requires 0 <= i < |row| => ControlledColumnAsWritten(schema, options, row[i]))
  }

  /** As written, the concern's controlled pass collects nothing, and it
      raises on every row that has a column the corrected pass would
      import. */
  lemma ControlledAsWritten(schema: Schema, options: Options, row: Row)
    ensures Fold(map[], ControlledColumnsAsWritten(schema, options, row)).0 == map[]
    ensures Fold(map[], ControlledColumnsAsWritten(schema, options, row)).1 <==>
      exists i :: 0 <= i < |row| && ControlledRaisesAsWritten(schema, options, row[i])
    ensures (exists i :: 0 <= i < |row| && ControlledTarget(schema, options, row[i].0, row[i].1).Some?) ==>
      Fold(map[], ControlledColumnsAsWritten(schema, options, row)).1
  {
    var cs := ControlledColumnsAsWritten(schema, options, row);
    FoldWithoutAdd(map[], cs);
    if exists i :: 0 <= i < |row| && ControlledRaisesAsWritten(schema, options, row[i]) {
      var i :| 0 <= i < |row| && ControlledRaisesAsWritten(schema, options, row[i]);
      assert cs[i].Halt?;
    }
    if exists i :: 0 <= i < |row| && ControlledTarget(schema, options, row[i].0, row[i].1).Some? {
      var i :| 0 <= i < |row| && ControlledTarget(schema, options, row[i].0, row[i].1).Some?;
      assert ControlledRaisesAsWritten(schema, options, row[i]);
    }
  }

  // ---------------------------------------------------------------------
  // interpret_controlled_fields, with the host's split_values

  /** The concern flags a value for destruction when its column name
      starts with "remove" or with "delete". */
  predicate RemovesInConcern(c: ControlledColumn) {
    StartsWith(Lower(c.name), "remove") || StartsWith(Lower(c.name), "delete")
  }

  /** The entry for one stripped value: its id is found as the parser finds
      it; only the removal flag differs. */
  function ConcernEntry(services: Services, schema: Schema, c: ControlledColumn, v: string): (e: Entry)
    ensures e.caption.None? && e.remove == RemovesInConcern(c)
  {
    if services.isUrl(v) && !c.isLabel then Entry(v, None, RemovesInConcern(c))
    else Entry(LocalAuthUrl(services, schema, c.property, UnescapeCsv(v)), None, RemovesInConcern(c))
  }

  /** The concern and the parser give a value the same id; a column whose
      name starts with "delete" removes only in the concern. */
  lemma ConcernEntryAsParser(services: Services, schema: Schema, c: ControlledColumn, v: string)
    ensures ConcernEntry(services, schema, c, v).id == ParserEntry(services, schema, c, v).id
    ensures ConcernEntry(services, schema, c, v).remove == (ParserEntry(services, schema, c, v).remove ||
                                                            StartsWith(Lower(c.name), "delete"))
  {
  }

  function ConcernEntries(services: Services, schema: Schema, c: ControlledColumn, ps: seq<string>): (r: seq<Entry>)
    ensures |r| == |ps| && forall i :: 0 <= i < |ps| ==> r[i] == ConcernEntry(services, schema, c, Strip(ps[i]))
  {
    seq(|ps|, i requires 0 <= i < |ps| => ConcernEntry(services, schema, c, Strip(ps[i])))
  }

  function ConcernControlledColumn(services: Services, schema: Schema, options: Options, cell: (string, string))
    : Column<Entry>
  {
    match ControlledTarget(schema, options, cell.0, cell.1)
    case None => Skip
    case Some(c) => Add(c.property, ConcernEntries(services, schema, c, SplitValues(cell.1)))
  }

  function ConcernControlledColumns(services: Services, schema: Schema, options: Options, row: Row)
    : (r: seq<Column<Entry>>)
    ensures |r| == |row| && forall i :: 0 <= i < |row| ==> r[i] == ConcernControlledColumn(services, schema, options, row[i])
  {
    seq(|row|, i requires 0 <= i < |row| => ConcernControlledColumn(services, schema, options, row[i]))
  }

  /** The concern's `controlled_data`. */
  function ConcernControlled(services: Services, schema: Schema, options: Options, row: Row): map<string, seq<Entry>> {
    Fold(map[], ConcernControlledColumns(services, schema, options, row)).0
  }

  /** The final loop of the concern: each property's distinct data replace
      the attributes with the same id and are appended; a property with no
      data keeps its list. */
  /** A property's list after the merge. */
  function MergedList(attrs: map<string, seq<Attr>>, data: map<string, seq<Entry>>, p: string): seq<Attr> {
    if p in data then MergeAttrs(Get(attrs, p), AttrsOf(data[p], "_destroy")) else Get(attrs, p)
  }

  function MergeControlled(attrs: map<string, seq<Attr>>, data: map<string, seq<Entry>>): (r: map<string, seq<Attr>>)
    ensures forall p {:trigger Get(r, p)} :: Get(r, p) == MergedList(attrs, data, p)
  {
    assert AttrsOf([], "_destroy") == [];
    map p | p in attrs.Keys + data.Keys && (p in attrs || data[p] != []) :: MergedList(attrs, data, p)
  }

  lemma ConcernControlledStep(services: Services, schema: Schema, options: Options, row: Row, i: nat,
                              data: map<string, seq<Entry>>)
    requires i < |row| && Fold(map[], ConcernControlledColumns(services, schema, options, row)[..i]) == (data, false)
    ensures Fold(map[], ConcernControlledColumns(services, schema, options, row)[..i + 1]) ==
      match ControlledTarget(schema, options, row[i].0, row[i].1)
      case None => (data, false)
      case Some(c) => (Extend(data, c.property, ConcernEntries(services, schema, c, SplitValues(row[i].1))), false)
  {
    FoldStep(map[], ConcernControlledColumns(services, schema, options, row), i);
  }

  /** The cell is a controlled column of property `p` whose values are
      flagged for destruction exactly when `removes` says so. */
  predicate FromConcernColumn(schema: Schema, options: Options, cell: (string, string), p: string, removes: bool) {
    var t := ControlledTarget(schema, options, cell.0, cell.1);
    t.Some? && t.value.property == p && (removes <==> RemovesInConcern(t.value))
  }

  /** Every collected entry comes from one of the property's controlled
      columns, and it removes exactly when that column's name starts with
      "remove" or "delete". */
  lemma ConcernEntryOrigin(services: Services, schema: Schema, options: Options, row: Row, p: string, e: Entry)
    requires e in Get(ConcernControlled(services, schema, options, row), p)
    ensures e.caption.None?
    ensures exists i :: 0 <= i < |row| && FromConcernColumn(schema, options, row[i], p, e.remove)
  {
    var cs := ConcernControlledColumns(services, schema, options, row);
    FoldItemsFrom(map[], cs, p, e);
    var i :| 0 <= i < |cs| && cs[i].Add? && cs[i].key == p && e in cs[i].items;
    var c := ControlledTarget(schema, options, row[i].0, row[i].1).value;
    var k :| 0 <= k < |cs[i].items| && cs[i].items[k] == e;
    assert e == ConcernEntry(services, schema, c, Strip(SplitValues(row[i].1)[k]));
  }

  /** Each datum of a property is flagged `_destroy` exactly when its
      column removes. */
  lemma ConcernAttributeOrigin(services: Services, schema: Schema, options: Options, row: Row, p: string, a: Attr)
    requires p in ConcernControlled(services, schema, options, row)
    requires a in AttrsOf(ConcernControlled(services, schema, options, row)[p], "_destroy")
    ensures a.flag in [None, Some("_destroy")]
    ensures exists i :: 0 <= i < |row| && FromConcernColumn(schema, options, row[i], p, a.flag == Some("_destroy"))
  {
    var data := ConcernControlled(services, schema, options, row);
    var e := AttrOfEntry(data[p], "_destroy", a);
    ConcernEntryOrigin(services, schema, options, row, p, e);
  }

  /** After the merge a property's list holds at most one attribute per id
      when it held at most one before. */
  lemma ConcernMergeDistinct(attrs: map<string, seq<Attr>>, data: map<string, seq<Entry>>, p: string)
    requires DistinctIds(Get(attrs, p))
    ensures DistinctIds(Get(MergeControlled(attrs, data), p))
  {
    if p in data {
      MergeAttrsDistinct(Get(attrs, p), AttrsOf(data[p], "_destroy"));
    }
  }

  /** A merged attribute is the last datum with its id, taken from a
      controlled column of the property, or an attribute the metadata
      already had whose id no datum carries. */
  lemma ConcernMergeLastWins(services: Services, schema: Schema, options: Options, row: Row,
                             attrs: map<string, seq<Attr>>, p: string, a: Attr)
    requires p in ConcernControlled(services, schema, options, row)
    requires a in Get(MergeControlled(attrs, ConcernControlled(services, schema, options, row)), p)
    ensures var ds := AttrsOf(ConcernControlled(services, schema, options, row)[p], "_destroy");
      (a in Get(attrs, p) && NoneFrom(ds, 0, a.id)) ||
      ((exists i :: 0 <= i < |ds| && ds[i] == a && NoneFrom(ds, i + 1, a.id)) &&
       exists j :: 0 <= j < |row| && FromConcernColumn(schema, options, row[j], p, a.flag == Some("_destroy")))
  {
    var data := ConcernControlled(services, schema, options, row);
    var ds := AttrsOf(data[p], "_destroy");
    MergeAttrsLastWins(Get(attrs, p), ds, a);
    if !(a in Get(attrs, p) && NoneFrom(ds, 0, a.id)) {
      var i :| 0 <= i < |ds| && ds[i] == a && NoneFrom(ds, i + 1, a.id);
      ConcernAttributeOrigin(services, schema, options, row, p, a);
    }
  }

  /** Every collected entry's id is in the merged list. */
  lemma ConcernMergeKeepsData(attrs: map<string, seq<Attr>>, data: map<string, seq<Entry>>, p: string, e: Entry)
    requires e in Get(data, p)
    ensures exists a :: a in Get(MergeControlled(attrs, data), p) && a.id == e.id
  {
    var ds := AttrsOf(data[p], "_destroy");
    AttrsOfEntries(data[p], "_destroy", e);
    var d := Attr(e.id, if e.remove then Some("_destroy") else None);
    var k :| 0 <= k < |ds| && ds[k] == d;
    MergeAttrsKeepsData(Get(attrs, p), ds, k);
  }

  lemma ConcernEntriesSnoc(services: Services, schema: Schema, c: ControlledColumn, ps: seq<string>, i: nat)
    requires i < |ps|
    ensures ConcernEntries(services, schema, c, ps[..i + 1]) ==
      ConcernEntries(services, schema, c, ps[..i]) + [ConcernEntry(services, schema, c, Strip(ps[i]))]
  {
    var a := ConcernEntries(services, schema, c, ps[..i + 1]);
    var b := ConcernEntries(services, schema, c, ps[..i]) + [ConcernEntry(services, schema, c, Strip(ps[i]))];
    assert |a| == |b|;
    forall j | 0 <= j < |a| ensures a[j] == b[j] {
      if j < i {
        assert ps[..i + 1][j] == ps[..i][j];
      } else {
        assert ps[..i + 1][j] == ps[i];
      }
    }
  }

  /** The inner loop over one cell's values. */
  method CollectConcernEntries(services: Services, schema: Schema, c: ControlledColumn, ps: seq<string>)
    returns (es: seq<Entry>)
    ensures es == ConcernEntries(services, schema, c, ps)
  {
    es := [];
    var i := 0;
    while i < |ps|
      invariant 0 <= i <= |ps|
      invariant es == ConcernEntries(services, schema, c, ps[..i])
    {
      ConcernEntriesSnoc(services, schema, c, ps, i);
      var v := Strip(ps[i]);
      var e;
      if services.isUrl(v) && !c.isLabel {
        e := Entry(v, None, RemovesInConcern(c));
      } else {
        e := Entry(LocalAuthUrl(services, schema, c.property, UnescapeCsv(v)), None, RemovesInConcern(c));
      }
      assert e == ConcernEntry(services, schema, c, v);
      es := es + [e];
      i := i + 1;
    }
    assert ps[..i] == ps;
  }

  /** `data.uniq.each { |d| list.reject! { ... }; list << d }` */
  method MergeList(xs: seq<Attr>, ds: seq<Attr>) returns (list: seq<Attr>)
    ensures list == MergeAttrs(xs, ds)
  {
    list := xs;
    var j := 0;
    while j < |ds|
      invariant 0 <= j <= |ds|
      invariant list == MergeAttrs(xs, ds[..j])
    {
      assert ds[..j + 1][..j] == ds[..j];
      list := WithoutId(list, ds[j].id) + [ds[j]];
      j := j + 1;
    }
    assert ds[..j] == ds;
  }

  /** The part of `data` outside `todo`. */
  function Done<T>(data: map<string, T>, todo: set<string>): (r: map<string, T>)
    ensures forall q :: q in r <==> q in data && q !in todo
  {
    map q | q in data && q !in todo :: data[q]
  }

  /** Merging one more property changes only that property's list. */
  lemma MergeControlledAdd(attrs: map<string, seq<Attr>>, done: map<string, seq<Entry>>, k: string, es: seq<Entry>)
    requires k !in done
    ensures MergeControlled(attrs, done[k := es]) ==
      if es == [] then MergeControlled(attrs, done)
      else MergeControlled(attrs, done)[k := MergedList(attrs, done[k := es], k)]
  {
    var d := done[k := es];
    var a := MergeControlled(attrs, d);
    var m := MergeControlled(attrs, done);
    var b := if es == [] then m else m[k := MergedList(attrs, d, k)];
    forall q ensures q in a <==> q in b {
    }
    forall q | q in a ensures a[q] == b[q] {
      if q != k {
        assert MergedList(attrs, d, q) == MergedList(attrs, done, q);
      } else if es == [] {
        assert AttrsOf(es, "_destroy") == [];
      }
    }
  }

  /** Before any property is merged the attributes are as they were. */
  lemma MergeNothing(attrs: map<string, seq<Attr>>, data: map<string, seq<Entry>>)
    ensures MergeControlled(attrs, Done(data, data.Keys)) == attrs
  {
    var m := MergeControlled(attrs, Done(data, data.Keys));
    forall q | q in m ensures q in attrs && m[q] == attrs[q] {
      assert Get(m, q) == MergedList(attrs, Done(data, data.Keys), q);
    }
  }

  /** Taking one more property out of `todo` merges its entries into the
      list `attrs` has for it. */
  lemma MergeIntoStep(attrs: map<string, seq<Attr>>, data: map<string, seq<Entry>>, todo: set<string>, k: string)
    requires k in todo && todo <= data.Keys
    ensures var m := MergeControlled(attrs, Done(data, todo));
      Get(m, k) == Get(attrs, k) &&
      MergeControlled(attrs, Done(data, todo - {k})) ==
        if data[k] == [] then m else m[k := MergedList(attrs, Done(data, todo - {k}), k)]
  {
    var d := Done(data, todo);
    assert MergedList(attrs, d, k) == Get(attrs, k);
    assert Done(data, todo - {k}) == d[k := data[k]];
    MergeControlledAdd(attrs, d, k, data[k]);
  }

  /** `controlled_data.each { ... }`: the properties are merged one at a
      time, in whatever order the hash yields them. */
  method MergeInto(attrs: map<string, seq<Attr>>, data: map<string, seq<Entry>>) returns (r: map<string, seq<Attr>>)
    ensures r == MergeControlled(attrs, data)
  {
    r := attrs;
    var todo := data.Keys;
    MergeNothing(attrs, data);
    while todo != {}
      invariant todo <= data.Keys
      invariant r == MergeControlled(attrs, Done(data, todo))
      decreases |todo|
    {
      var k :| k in todo;
      MergeIntoStep(attrs, data, todo, k);
      if data[k] != [] {
        var merged := MergeList(Get(r, k), AttrsOf(data[k], "_destroy"));
        assert merged == MergedList(attrs, Done(data, todo - {k}), k);
        r := r[k := merged];
      }
      todo := todo - {k};
    }
    assert Done(data, todo) == data;
  }

  /** `interpret_controlled_fields` with the host's `split_values`: the
      entries of every controlled column are grouped by property, then
      merged into the property's attribute list. */
  method InterpretControlledFields(p: Parser, services: Services, schema: Schema, options: Options)
    modifies p
    ensures p.Snapshot() == old(p.Snapshot()).(metadata := old(p.metadata).(attributes :=
              MergeControlled(old(p.metadata.attributes), ConcernControlled(services, schema, options, old(p.rawRow)))))
  {
    var row := p.rawRow;
    var cs := ConcernControlledColumns(services, schema, options, row);
    var data: map<string, seq<Entry>> := map[];
    var i := 0;
    while i < |row|
      invariant 0 <= i <= |row|
      invariant Fold(map[], cs[..i]) == (data, false)
      invariant p.Snapshot() == old(p.Snapshot())
    {
      ConcernControlledStep(services, schema, options, row, i, data);
      var (h, v) := row[i];
      var t := ControlledTarget(schema, options, h, v);
      if t.Some? {
        var es := CollectConcernEntries(services, schema, t.value, SplitValues(v));
        data := Extend(data, t.value.property, es);
      }
      i := i + 1;
    }
    assert cs[..i] == cs;
    var merged := MergeInto(p.metadata.attributes, data);
    p.metadata := p.metadata.(attributes := merged);
  }

  // ---------------------------------------------------------------------
  // interpret_relationship_fields

  /** The records the relationship pass consults. A proxy is named by its
      id. `collection?` and `ordered_children` are sent to the parent
      proxy, a `WorkProxy`, which defines neither; here what they would
      answer for it is a parameter too. */
  datatype Lookups = Lookups(
    /** `BulkOps::SolrService.record_exists?(id)` */
    recordExists: string -> bool,
    /** `WorkProxy.find_by(work_id: id, operation_id: op)` */
    proxyOfWork: (string, int) -> Option<int>,
    /** `WorkProxy.find_by(work_id: id)` */
    anyProxyOfWork: string -> Option<int>,
    /** `WorkProxy.find(id)`; `None` where `find` raises */
    proxyWithId: string -> Option<int>,
    /** `WorkProxy.find_by(operation_id: op, row_number: n)` */
    proxyAtRow: (int, int) -> Option<int>,
    /** `parent.collection?` */
    isCollection: int -> bool,
    /** the id of `parent.ordered_children.last`, when there are children */
    lastChild: int -> Option<int>,
    /** the id of `find_collection(name)`, if one is found */
    findCollection: string -> Option<string>,
    /** the id `Collection.create(title: [name], ...)` gives */
    newCollectionId: string -> string,
    /** `String#to_f` */
    toF: string -> real
  )

  /** What `find_parent_proxy` returns: a proxy, `false` (no such
      record), nil, or an exception. */
  datatype ParentFound = ParentProxy(id: int) | NoRecord | NoProxy | ParentRaises

  /** The row number a `row` reference names: a negative number counts back
      from the current row, a positive one loses the header offset, any other
      number or text is read by `to_i`, and a `prev` address is the nearest
      earlier row with a blank cell (nil, read as 0, when there is none). */
  function ParentRow(data: seq<Row>, rowNumber: int, v: string, field: string): int {
    if IsIntegerLiteral(v) then
      if ToI(v) < 0 then rowNumber + ToI(v)
      else if ToI(v) > 0 then ToI(v) - ROW_OFFSET
      else ToI(v)
    else if Contains(Lower(v), "prev") then
      match PreviousParent(data, rowNumber, field)
      case Some(j) => j
      case None => 0
    else ToI(v)
  }

  /** The concern and the parser address the same row: the parser's
      reading of a `row` value, turned into a number as the lookup turns
      it, is the concern's row. */
  lemma ParentRowAsParser(data: seq<Row>, rowNumber: int, v: string, field: string)
    requires |Split(v, CharIs(':'))| != 2
    ensures ParentRow(data, rowNumber, v, field) ==
      match InterpretRelationshipValue(data, rowNumber, Some("row"), v, field).target
      case RowIndex(n) => n
      case Ident(t) => ToI(t)
      case NoRow => 0
  {
    if IsIntegerLiteral(v) && ToI(v) > 0 {
      IntToStringToI(ToI(v) - ROW_OFFSET);
    }
  }

  /** `find_parent_proxy(value, field, id_type)`. The identifier type is
      compared in lower case, so a nil type raises. Under `id` a missing
      record gives `false`, and otherwise the proxy of the work in this
      operation, else in any operation, else nil: the branch that would
      create a proxy is never reached, since the host's proxy is present.
      A `proxy_id` that names no proxy raises, a `row` reference looks the
      row up in this operation, and any other type gives nil. */
  function FindParentProxy(l: Lookups, data: seq<Row>, rowNumber: int, operationId: int, v: string, field: string,
                           idType: Option<string>): (r: ParentFound)
    ensures idType.None? ==> r == ParentRaises
    ensures idType.Some? && Lower(idType.value) == "id" ==>
      r != ParentRaises && (r == NoProxy ==> l.recordExists(v))
    ensures idType.Some? && Lower(idType.value) == "id" ==>
      (r == NoRecord <==> !l.recordExists(v)) &&
      (l.recordExists(v) && l.proxyOfWork(v, operationId).Some? ==> r == ParentProxy(l.proxyOfWork(v, operationId).value))
    ensures idType.Some? && Lower(idType.value) == "proxy_id" ==> (r == ParentRaises <==> l.proxyWithId(v).None?)
    ensures idType.Some? && Lower(idType.value) == "row" ==>
      r != ParentRaises && (r.ParentProxy? <==> l.proxyAtRow(operationId, ParentRow(data, rowNumber, v, field)).Some?)
    ensures idType.Some? && Lower(idType.value) !in ["id", "proxy_id", "row"] ==> r == NoProxy
  {
    if idType.None? then ParentRaises
    else
      var t := Lower(idType.value);
      if t == "id" then
        if !l.recordExists(v) then NoRecord
        else match l.proxyOfWork(v, operationId)
          case Some(q) => ParentProxy(q)
          case None =>
            match l.anyProxyOfWork(v)
            case Some(q) => ParentProxy(q)
            case None => NoProxy
      else if t == "proxy_id" then
        match l.proxyWithId(v)
        case Some(q) => ParentProxy(q)
        case None => ParentRaises
      else if t == "row" then
        match l.proxyAtRow(operationId, ParentRow(data, rowNumber, v, field))
        case Some(q) => ParentProxy(q)
        case None => NoProxy
      else NoProxy
  }

  /** The character class the concern splits a parent cell on, as
      written: `[:_\\s]` in a regular expression literal is a colon, an
      underscore, a backslash and the letter `s`. */
  predicate IsValueSepAsWritten(c: char) {
    c == ':' || c == '_' || c == '\\' || c == 's'
  }

  /** The class evidently meant: a colon, an underscore or white space. */
  predicate IsValueSep(c: char) {
    c == ':' || c == '_' || IsSpace(c)
  }

  /** A parent cell that splits into two parts gives the identifier type
      and the value. */
  function SplitParentValue(isValueSep: char -> bool, idType: Option<string>, v: string): (r: (Option<string>, string))
    ensures |Split(v, isValueSep)| != 2 ==> r == (idType, v)
    ensures |Split(v, isValueSep)| == 2 ==> r.0.Some?
  {
    var parts := Split(v, isValueSep);
    if |parts| == 2 then (Some(parts[0]), parts[1]) else (idType, v)
  }

  /** A separator right after the first cut leaves an empty middle part. */
  lemma SplitTwice(a: string, c: string, isSep: char -> bool, s1: char, s2: char)
    requires isSep(s1) && isSep(s2)
    requires forall i :: 0 <= i < |a| ==> !isSep(a[i])
    requires forall i :: 0 <= i < |c| ==> !isSep(c[i])
    requires c != ""
    ensures Split(a + [s1] + ([s2] + c), isSep) == [a, "", c]
  {
    PiecesCut(a, s1, [s2] + c, isSep);
    assert [s2] + c == [] + [s2] + c;
    PiecesCut([], s2, c, isSep);
    PiecesNoSepBy(c, isSep);
  }

  /** As written, an `s` in the identifier splits it once more: the cell
      "id:s8df4j32w" gives three parts, so the whole cell is taken as the
      value and the identifier type stays the default. */
  lemma ParentValueAsWritten(idType: Option<string>)
    ensures Split("id:s8df4j32w", IsValueSepAsWritten) == ["id", "", "8df4j32w"]
    ensures SplitParentValue(IsValueSepAsWritten, idType, "id:s8df4j32w") == (idType, "id:s8df4j32w")
  {
    var a, c := "id", "8df4j32w";
    assert forall i :: 0 <= i < |a| ==> !IsValueSepAsWritten(a[i]);
    assert forall i :: 0 <= i < |c| ==> !IsValueSepAsWritten(c[i]);
    SplitTwice(a, c, IsValueSepAsWritten, ':', 's');
    assert a + [':'] + (['s'] + c) == "id:s8df4j32w";
  }

  /** With the intended class the same cell splits into its type and its
      identifier. */
  lemma ParentValueCorrected(idType: Option<string>)
    ensures SplitParentValue(IsValueSep, idType, "id:s8df4j32w") == (Some("id"), "s8df4j32w")
  {
    var a, b := "id", "s8df4j32w";
    assert forall i :: 0 <= i < |a| ==> !IsValueSep(a[i]);
    assert forall i :: 0 <= i < |b| ==> !IsValueSep(b[i]);
    ParentValueTyped(idType, a, b);
    assert a + ":" + b == "id:s8df4j32w";
  }

  /** With the intended class, `type:value` with no separator in either part
      and a non-empty value always splits into the two. */
  lemma ParentValueTyped(idType: Option<string>, a: string, b: string)
    requires forall i :: 0 <= i < |a| ==> !IsValueSep(a[i])
    requires forall i :: 0 <= i < |b| ==> !IsValueSep(b[i])
    requires b != ""
    ensures SplitParentValue(IsValueSep, idType, a + ":" + b) == (Some(a), b)
  {
    assert a + ":" + b == a + [':'] + b;
    PiecesOneSepBy(a, b, ':', IsValueSep);
  }

  /** The collection a name designates; the concern's own
      `find_or_create_collection` always yields one. */
  function CollectionFor(l: Lookups, name: string): (r: string)
    ensures l.findCollection(name).Some? ==> r == l.findCollection(name).value
    ensures l.findCollection(name).None? ==> r == l.newCollectionId(name)
  {
    if l.findCollection(name).Some? then l.findCollection(name).value else l.newCollectionId(name)
  }

  /** The proxy fields and metadata the pass writes. */
  datatype RelState = RelState(order: Option<real>, parentId: Option<int>, previousSiblingId: Option<int>,
                               collectionIds: seq<string>)

  /** What the pass reads besides the row: the lookups, the sheet, the
      proxy's row number, operation and reference identifier. */
  datatype RelScope = RelScope(lookups: Lookups, data: seq<Row>, rowNumber: int, operationId: int,
                               referenceIdentifier: Option<string>)

  /** The relationship a column is read as: none for a blank or echoing
      cell, otherwise the normalised name of the header's first part. */
  function RelKind(cell: (string, string)): (r: Option<string>)
    ensures r.Some? ==> r.value in RELATIONSHIP_FIELDS
  {
    if IsBlank(cell.1) || IsBlank(cell.0) || cell.1 == cell.0 then None
    else NormalizeRelationshipFieldName(SplitHeader(cell.0, None).1)
  }

  /** The parent a column names, with the header's identifier type (or the
      proxy's reference identifier) unless the cell gives its own. */
  function ParentOf(isValueSep: char -> bool, x: RelScope, cell: (string, string)): ParentFound {
    var (idType, field) := SplitHeader(cell.0, x.referenceIdentifier);
    var (t, v) := SplitParentValue(isValueSep, idType, cell.1);
    FindParentProxy(x.lookups, x.data, x.rowNumber, x.operationId, v, field, t)
  }

  /** A parent column raises when its parent is no proxy (`false.collection?`
      and `nil.collection?` raise) or is a collection, whose title is asked
      of an undefined `BulkOps::Parser.get_title`. */
  predicate ParentStepRaises(isValueSep: char -> bool, x: RelScope, cell: (string, string)) {
    RelKind(cell) == Some("parent") &&
    var f := ParentOf(isValueSep, x, cell);
    (!f.ParentProxy? || x.lookups.isCollection(f.id))
  }

  /** One column of `interpret_relationship_fields`. */
  function ConcernRelStep(isValueSep: char -> bool, x: RelScope, s: RelState, cell: (string, string)): (RelState, bool) {
    match RelKind(cell)
    case None => (s, false)
    case Some(kind) =>
      if kind == "order" then (s.(order := Some(x.lookups.toF(cell.1))), false)
      else if kind == "collection" then
        (s.(collectionIds := s.collectionIds + [CollectionFor(x.lookups, cell.1)]), false)
      else if kind == "parent" then
        match ParentOf(isValueSep, x, cell)
        case ParentProxy(q) =>
          if x.lookups.isCollection(q) then (s, true)
          else
            var siblings := x.lookups.lastChild(q);
            (s.(parentId := Some(q),
                previousSiblingId := if siblings.Some? && s.previousSiblingId.None? then siblings else s.previousSiblingId),
             false)
        case _ => (s, true)
      else (s, false)
  }

  function RelStepOf(isValueSep: char -> bool, x: RelScope): (RelState, (string, string)) -> (RelState, bool) {
    (s, c) => ConcernRelStep(isValueSep, x, s, c)
  }

  /** `interpret_relationship_fields` on the proxy's order, parent and
      previous sibling and on the metadata's collections. */
  function ConcernRelations(isValueSep: char -> bool, x: RelScope, s0: RelState, row: Row): (RelState, bool) {
    Run(RelStepOf(isValueSep, x), s0, row)
  }

  /** The pass raises exactly when one of its parent columns does. */
  lemma ConcernRelationsRaise(isValueSep: char -> bool, x: RelScope, s0: RelState, row: Row)
    ensures ConcernRelations(isValueSep, x, s0, row).1 <==>
      exists i :: 0 <= i < |row| && ParentStepRaises(isValueSep, x, row[i])
  {
    RunRaises(RelStepOf(isValueSep, x), c => ParentStepRaises(isValueSep, x, c), s0, row);
  }

  /** One column of the pass as written: `parent.collection?` and
      `parent.ordered_children` are asked of a `WorkProxy`, which defines
      neither, or of the `false` or nil `find_parent_proxy` gives when it
      finds none, so every parent column raises `NoMethodError` before it
      changes anything. The members around this one take what the two
      calls would answer for the parent proxy as lookups instead. */
  function ConcernRelStepAsWritten(isValueSep: char -> bool, x: RelScope, s: RelState, cell: (string, string))
    : (RelState, bool)
  {
    if RelKind(cell) == Some("parent") then (s, true) else ConcernRelStep(isValueSep, x, s, cell)
  }

  function RelStepAsWrittenOf(isValueSep: char -> bool, x: RelScope): (RelState, (string, string)) -> (RelState, bool) {
    (s, c) => ConcernRelStepAsWritten(isValueSep, x, s, c)
  }

  function ConcernRelationsAsWritten(isValueSep: char -> bool, x: RelScope, s0: RelState, row: Row): (RelState, bool) {
    Run(RelStepAsWrittenOf(isValueSep, x), s0, row)
  }

  /** As written the pass raises exactly when the row has a parent column,
      which is whenever the pass with the lookups raises and more. */
  lemma ConcernRelationsAsWrittenRaise(isValueSep: char -> bool, x: RelScope, s0: RelState, row: Row)
    ensures ConcernRelationsAsWritten(isValueSep, x, s0, row).1 <==>
      exists i :: 0 <= i < |row| && RelKind(row[i]) == Some("parent")
    ensures ConcernRelations(isValueSep, x, s0, row).1 ==> ConcernRelationsAsWritten(isValueSep, x, s0, row).1
  {
    RunRaises(RelStepAsWrittenOf(isValueSep, x), c => RelKind(c) == Some("parent"), s0, row);
    ConcernRelationsRaise(isValueSep, x, s0, row);
    if ConcernRelations(isValueSep, x, s0, row).1 {
      var i :| 0 <= i < |row| && ParentStepRaises(isValueSep, x, row[i]);
      assert RelKind(row[i]) == Some("parent");
    }
  }

  /** On a row without a parent column the two readings agree. */
  lemma {:induction false} ConcernRelationsAsWrittenAgree(isValueSep: char -> bool, x: RelScope, s0: RelState, row: Row)
    requires forall i :: 0 <= i < |row| ==> RelKind(row[i]) != Some("parent")
    ensures ConcernRelationsAsWritten(isValueSep, x, s0, row) == ConcernRelations(isValueSep, x, s0, row)
    decreases |row|
  {
    if |row| > 0 {
      var init := row[..|row| - 1];
      assert forall i :: 0 <= i < |init| ==> init[i] == row[i];
      ConcernRelationsAsWrittenAgree(isValueSep, x, s0, init);
      assert RelKind(row[|row| - 1]) != Some("parent");
    }
  }

  /** The column sets the parent to the proxy `q`, which is no collection. */
  predicate SetsParent(isValueSep: char -> bool, x: RelScope, cell: (string, string), q: int) {
    RelKind(cell) == Some("parent") && ParentOf(isValueSep, x, cell) == ParentProxy(q) && !x.lookups.isCollection(q)
  }

  /** A parent, once changed, is a non-collection proxy some parent column
      named; a previous sibling already set is never overwritten, and a new
      one is the last child of such a parent. */
  lemma {:induction false} ConcernRelationsParent(isValueSep: char -> bool, x: RelScope, s0: RelState, row: Row)
    ensures var r := ConcernRelations(isValueSep, x, s0, row).0;
      (s0.previousSiblingId.Some? ==> r.previousSiblingId == s0.previousSiblingId) &&
      (r.parentId != s0.parentId ==>
         r.parentId.Some? && exists i :: 0 <= i < |row| && SetsParent(isValueSep, x, row[i], r.parentId.value)) &&
      (r.previousSiblingId != s0.previousSiblingId ==>
         r.previousSiblingId.Some? &&
         exists i, q :: 0 <= i < |row| && SetsParent(isValueSep, x, row[i], q) &&
                        x.lookups.lastChild(q) == r.previousSiblingId)
    decreases |row|
  {
    if |row| > 0 {
      var init := row[..|row| - 1];
      var c := row[|row| - 1];
      ConcernRelationsParent(isValueSep, x, s0, init);
      var (prev, halted) := ConcernRelations(isValueSep, x, s0, init);
      var r := ConcernRelations(isValueSep, x, s0, row).0;
      if halted {
        assert r == prev;
      } else {
        assert r == ConcernRelStep(isValueSep, x, prev, c).0;
      }
      if !halted && RelKind(c) == Some("parent") && ParentOf(isValueSep, x, c).ParentProxy? {
        var q := ParentOf(isValueSep, x, c).id;
        if !x.lookups.isCollection(q) {
          assert SetsParent(isValueSep, x, row[|row| - 1], q);
        }
      }
      if r.parentId != s0.parentId && r.parentId == prev.parentId {
        var i :| 0 <= i < |init| && SetsParent(isValueSep, x, init[i], prev.parentId.value);
        assert row[i] == init[i];
      }
      if r.previousSiblingId != s0.previousSiblingId && r.previousSiblingId == prev.previousSiblingId {
        var i, q :| 0 <= i < |init| && SetsParent(isValueSep, x, init[i], q) &&
                    x.lookups.lastChild(q) == prev.previousSiblingId;
        assert row[i] == init[i];
      }
    }
  }

  /** The collection ids the collection columns of a row designate, in
      column order. */
  function CollectionsIn(l: Lookups, row: Row): (r: seq<string>)
    ensures |r| <= |row|
    decreases |row|
  {
    if |row| == 0 then []
    else
      CollectionsIn(l, row[..|row| - 1]) +
      (if RelKind(row[|row| - 1]) == Some("collection") then [CollectionFor(l, row[|row| - 1].1)] else [])
  }

  /** Without an exception every collection column appends its collection,
      in column order, after the ids the metadata already had. */
  lemma {:induction false} ConcernRelationsCollections(isValueSep: char -> bool, x: RelScope, s0: RelState, row: Row)
    requires !ConcernRelations(isValueSep, x, s0, row).1
    ensures ConcernRelations(isValueSep, x, s0, row).0.collectionIds == s0.collectionIds + CollectionsIn(x.lookups, row)
    decreases |row|
  {
    if |row| > 0 {
      var init := row[..|row| - 1];
      var c := row[|row| - 1];
      var prev := ConcernRelations(isValueSep, x, s0, init);
      assert !prev.1;
      ConcernRelationsCollections(isValueSep, x, s0, init);
      assert ConcernRelations(isValueSep, x, s0, row) == ConcernRelStep(isValueSep, x, prev.0, c);
      assert CollectionsIn(x.lookups, row) == CollectionsIn(x.lookups, init) +
        (if RelKind(c) == Some("collection") then [CollectionFor(x.lookups, c.1)] else []);
    }
  }

  /** `interpret_relationship_fields` with the intended value split: the
      `@proxy.update` writes and the appended collections are gathered in
      locals and stored once, which leaves the same state as writing each
      at once; an exception ends the pass with the earlier writes kept. */
  method InterpretRelationshipFields(p: Parser, l: Lookups) returns (raised: bool)
    modifies p, p.proxy
    ensures var x := RelScope(l, old(p.rawData), old(p.proxy.rowNumber), p.proxy.operationId,
                              old(p.proxy.referenceIdentifier));
      var s0 := RelState(old(p.proxy.order), old(p.proxy.parentId), old(p.proxy.previousSiblingId),
                         old(p.metadata.collectionIds));
      var o := ConcernRelations(IsValueSep, x, s0, old(p.rawRow));
      raised == o.1 &&
      p.proxy.State() == old(p.proxy.State()).(order := o.0.order, parentId := o.0.parentId,
                                                previousSiblingId := o.0.previousSiblingId) &&
      p.Snapshot() == old(p.Snapshot()).(metadata := old(p.metadata).(collectionIds := o.0.collectionIds))
  {
    var proxy := p.proxy;
    var x := RelScope(l, p.rawData, proxy.rowNumber, proxy.operationId, proxy.referenceIdentifier);
    var s0 := RelState(proxy.order, proxy.parentId, proxy.previousSiblingId, p.metadata.collectionIds);
    var row := p.rawRow;
    ghost var p0, snap := proxy.State(), p.Snapshot();
    var order, parentId, previousSiblingId, ids := proxy.order, proxy.parentId, proxy.previousSiblingId, p.metadata.collectionIds;
    raised := false;
    var i := 0;
    while i < |row| && !raised
      invariant 0 <= i <= |row|
      invariant ConcernRelations(IsValueSep, x, s0, row[..i]) ==
                (RelState(order, parentId, previousSiblingId, ids), raised)
      invariant proxy.State() == p0 && p.Snapshot() == snap
    {
      RunStep(RelStepOf(IsValueSep, x), s0, row, i);
      ghost var next := ConcernRelStep(IsValueSep, x, RelState(order, parentId, previousSiblingId, ids), row[i]);
      assert Run(RelStepOf(IsValueSep, x), s0, row[..i + 1]) == next;
      var (field, value) := row[i];
      var kind := RelKind(row[i]);
      if kind == Some("order") {
        order := Some(l.toF(value));
      } else if kind == Some("collection") {
        ids := ids + [CollectionFor(l, value)];
      } else if kind == Some("parent") {
        var parent := ParentOf(IsValueSep, x, row[i]);
        if !parent.ParentProxy? || l.isCollection(parent.id) {
          raised := true;
        } else {
          var siblings := l.lastChild(parent.id);
          if siblings.Some? && previousSiblingId.None? {
            previousSiblingId := siblings;
          }
          parentId := Some(parent.id);
        }
      }
      assert (RelState(order, parentId, previousSiblingId, ids), raised) == next;
      i := i + 1;
    }
    if raised {
      RunHalted(RelStepOf(IsValueSep, x), s0, row, i);
    } else {
      assert row[..i] == row;
    }
    assert ConcernRelations(IsValueSep, x, s0, row) == (RelState(order, parentId, previousSiblingId, ids), raised);
    proxy.order, proxy.parentId, proxy.previousSiblingId := order, parentId, previousSiblingId;
    assert proxy.State() == p0.(order := order, parentId := parentId, previousSiblingId := previousSiblingId);
    p.metadata := p.metadata.(collectionIds := ids);
    assert p.Snapshot() == snap.(metadata := snap.metadata.(collectionIds := ids));
  }
}

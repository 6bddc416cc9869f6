/**
  `BulkOps::WorkProxy`: the record that stands for one spreadsheet row and
  the work it becomes. Besides its columns it carries the older copy of
  the row interpretation: each pass loops over the row's cells, builds a
  local metadata hash and updates the record's own columns.
 */
module Proxies {
  import opened Text
  import opened BulkOps
  import opened Cells
  import opened Errors
  import opened Verification
  import opened Interpretation
  import opened Relationships

  // ---------------------------------------------------------------------
  // Formatting of option values

  /** What a `format_*` helper gives back: a value (nil is `None`) or an
      exception. */
  datatype Formatted = Formatted(value: Option<string>) | FormatRaises

  /** `value.titleize.gsub(/[-_\s]/,'')`: a value written like a class name. */
  function ClassStyle(schema: Schema, value: string): string {
    RemoveFieldSeps(schema.titleize(value))
  }

  /** `downcase_first_letter(str)` on a string; on "" `str[0]` is nil and
      `nil.downcase` raises, which is `None` here. */
  function DowncaseFirstLetter(s: string): (r: Option<string>)
    ensures r.None? <==> s == []
    ensures r.Some? ==> |r.value| == |s| && r.value[1..] == s[1..] && r.value[0] == LowerChar(s[0])
  {
    if s == [] then None else Some([LowerChar(s[0])] + s[1..])
  }

  /** The spellings of a reference-identifier column, after `NormField`. */
  const REFERENCE_ID_SPELLINGS: seq<string> :=
    ["referenceidentifier", "referenceid", "refid", "referenceidentifiertype", "referenceidtype", "refidtype",
     "relationshipidentifier", "relationshipid", "relationshipidentifiertype", "relationshipidtype", "relid",
     "relidtype"]

  /** The values `format_reference_id` reads as a row number, after
      `NormField`; the last can never match, since `NormField` removes
      spaces. */
  const ROW_SPELLINGS: seq<string> := ["row", "rownum", "row number"]

  /** `format_reference_id(value)` as written: every value but "id" calls
      `downcase_first_letter` as a method of `String`, which does not have
      one, and raises `NoMethodError`. */
  function FormatReferenceIdAsWritten(value: string): (r: Formatted)
    ensures r.Formatted? <==> value == "id"
    ensures r.Formatted? ==> r.value == Some("id")
  {
    if value == "id" then Formatted(Some("id")) else FormatRaises
  }

  /** `format_reference_id(value)` with the proxy's own
      `downcase_first_letter`: "id" as is, the method-style name when the
      schema or the Solr document knows it, "row" for a row spelling, and
      nil otherwise. */
  function FormatReferenceId(schema: Schema, value: string): (r: Formatted)
    ensures value == "id" ==> r == Formatted(Some("id"))
    ensures r.FormatRaises? <==> value != "id" && ClassStyle(schema, value) == []
    ensures r.Formatted? && r.value.Some? ==>
      r.value.value in ["id", "row"] || r.value.value in schema.fieldNames || r.value.value in schema.solrMethods
    ensures value != "id" && DowncaseFirstLetter(ClassStyle(schema, value)).Some? ==>
      var m := DowncaseFirstLetter(ClassStyle(schema, value)).value;
      (m in schema.fieldNames || m in schema.solrMethods ==> r == Formatted(Some(m))) &&
      (m !in schema.fieldNames && m !in schema.solrMethods ==>
         (r == Formatted(Some("row")) <==> NormField(value) in ROW_SPELLINGS) &&
         (r == Formatted(None) <==> NormField(value) !in ROW_SPELLINGS))
  {
    if value == "id" then Formatted(Some("id"))
    else match DowncaseFirstLetter(ClassStyle(schema, value))
      case None => FormatRaises
      case Some(m) =>
        if m in schema.fieldNames || m in schema.solrMethods then Formatted(Some(m))
        else if NormField(value) in ROW_SPELLINGS then Formatted(Some("row"))
        else Formatted(None)
  }

  /** A `row` reference-identifier column: as written the proxy's pass
      raises on it, while the corrected helper answers "row". */
  lemma ReferenceIdRowRaises(schema: Schema)
    requires DowncaseFirstLetter(ClassStyle(schema, "row")).Some?
    requires DowncaseFirstLetter(ClassStyle(schema, "row")).value !in schema.fieldNames
    requires DowncaseFirstLetter(ClassStyle(schema, "row")).value !in schema.solrMethods
    ensures FormatReferenceIdAsWritten("row") == FormatRaises
    ensures FormatReferenceId(schema, "row") == Formatted(Some("row"))
  {
    assert Lower("row") == "row";
    assert Parameterize("row") == "row";
    assert RemoveFieldSeps("row") == "row";
  }

  predicate IsConstantChar(c: char) {
    'A' <= c <= 'Z' || 'a' <= c <= 'z' || '0' <= c <= '9' || c == '_'
  }

  /** The names `Object.const_defined?` accepts: an upper-case letter
      followed by letters, digits and underscores. On any other name, the
      empty one and "3dObject" included, it raises `NameError`. */
  predicate IsConstantName(name: string) {
    |name| > 0 && 'A' <= name[0] <= 'Z' && forall k :: 0 < k < |name| ==> IsConstantChar(name[k])
  }

  /** `format_worktype(value)`: `NameError` (`None`) when the class-style
      name is no constant name; else that name when such a class is
      defined, else the operation's work type (which is never nil, so the
      final "Work" is unreachable). */
  function FormatWorktype(schema: Schema, value: string, operationWorkType: string): (r: Option<string>)
    ensures r.None? <==> !IsConstantName(ClassStyle(schema, value))
    ensures r.Some? ==> schema.classDefined(r.value) || r.value == operationWorkType
    ensures r.Some? && schema.classDefined(ClassStyle(schema, value)) ==> r.value == ClassStyle(schema, value)
    ensures r.Some? && !schema.classDefined(ClassStyle(schema, value)) ==> r.value == operationWorkType
  {
    if !IsConstantName(ClassStyle(schema, value)) then None
    else if schema.classDefined(ClassStyle(schema, value)) then Some(ClassStyle(schema, value))
    else Some(operationWorkType)
  }

  // ---------------------------------------------------------------------
  // The record

  /** The columns of a proxy the core reads and writes. */
  datatype ProxyState = ProxyState(
    rowNumber: int,
    status: string,
    message: Option<string>,
    workId: Option<string>,
    workType: Option<string>,
    visibility: Option<string>,
    referenceIdentifier: Option<string>,
    order: Option<real>,
    parentId: Option<int>,
    previousSiblingId: Option<int>,
    proxyErrors: seq<Error>
  )

  /** The id Hyrax gives the default admin set. */
  const DEFAULT_ADMIN_SET_ID: string := "admin_set/default"

  /** The admin set `interpret_data` starts from: the ingest set or the
      default set when one exists, otherwise the default set that
      `AdminSet.find_or_create_default_admin_set_id` creates. */
  function ProxyAdminSet(services: Services): string {
    if services.adminSet.Some? then services.adminSet.value else DEFAULT_ADMIN_SET_ID
  }

  class WorkProxy {
    const id: int
    const operationId: int
    var rowNumber: int
    var status: string
    var message: Option<string>
    var workId: Option<string>
    var workType: Option<string>
    var visibility: Option<string>
    var referenceIdentifier: Option<string>
    var order: Option<real>
    var parentId: Option<int>
    var previousSiblingId: Option<int>
    var proxyErrors: seq<Error>

    /** `work_proxies.create(...)`: the columns not given are nil. */
    constructor (id: int, operationId: int, rowNumber: int, status: string, workType: Option<string>,
                 visibility: Option<string>, message: Option<string>)
      ensures this.id == id && this.operationId == operationId
      ensures State() == ProxyState(rowNumber, status, message, None, workType, visibility, None, None, None, None, [])
    {
      this.id := id;
      this.operationId := operationId;
      this.rowNumber := rowNumber;
      this.status := status;
      this.message := message;
      workId := None;
      this.workType := workType;
      this.visibility := visibility;
      referenceIdentifier := None;
      order := None;
      parentId := None;
      previousSiblingId := None;
      proxyErrors := [];
    }

    function State(): ProxyState
      reads this
    {
      ProxyState(rowNumber, status, message, workId, workType, visibility, referenceIdentifier, order, parentId,
                 previousSiblingId, proxyErrors)
    }

    /** `work_type`: the proxy's own type, else the operation's. */
    function WorkType(operationWorkType: string): (r: string)
      reads this
      ensures workType.Some? ==> r == workType.value
      ensures workType.None? ==> r == operationWorkType
    {
      if workType.Some? then workType.value else operationWorkType
    }

    /** `report_error(type, message, **args)`: the record turns to "error"
        with that message and keeps an error built from the keywords
        alone, so the message itself is not part of the error. */
    method ReportError(kind: string, msg: string, url: Option<string>, row: Option<int>)
      modifies this
      ensures State() == old(State()).(status := "error", message := Some(msg),
                                       proxyErrors := old(proxyErrors) + [LabelFailureError(kind, row, url)])
    {
      status := "error";
      message := Some(msg);
      proxyErrors := proxyErrors + [LabelFailureError(kind, row, url)];
    }

    /** `interpret_file_fields(raw_data)`: raises exactly where the file
        pass, read as `fp` says, raises; it adds no metadata. */
    method InterpretFileFields(fp: ProxyFilePass, schema: Schema, rawData: Row) returns (raised: bool)
      ensures raised == ProxyFilePassRaises(fp, schema, rawData)
    {
      if fp == FilesCorrected {
        return false;
      }
      raised := FindColumn(c => FileColumnRaises(schema, c), rawData);
    }

    /** `interpret_scalar_fields(raw_data)`: the plain-split pass into a
        fresh hash; a name that matches a `Work` attribute outside the
        schema raises. */
    method InterpretScalarFields(schema: Schema, rawData: Row) returns (metadata: map<string, seq<string>>, raised: bool)
      ensures (metadata, raised) == ScalarFields(schema, map[], rawData, false)
    {
      var cs := ScalarColumns(schema, rawData, false);
      metadata, raised := map[], false;
      var i := 0;
      while i < |rawData| && !raised
        invariant 0 <= i <= |rawData|
        invariant (metadata, raised) == Fold(map[], cs[..i])
      {
        ScalarStep(schema, map[], rawData, false, i, metadata);
        var (field, values) := rawData[i];
        if !IsBlank(values) && field != values {
          var name := FindFieldName(schema, field);
          if name.Some? {
            if !IsSchemaField(schema, name.value) {
              raised := true;
            } else if !IsControlled(schema, name.value) {
              metadata := AppendPieces(metadata, name.value, Split(values, CharIs(SEPARATOR)), false);
            }
          }
        }
        i := i + 1;
      }
      if raised {
        FoldHalted(map[], cs, i);
      } else {
        assert cs[..i] == cs;
      }
    }

    /** The inner loop of `interpret_controlled_fields` over one cell's
        pieces: each stripped piece becomes an entry, and each url whose
        label cannot be fetched is reported. */
    method CollectEntries(services: Services, schema: Schema, c: ControlledColumn, ps: seq<string>)
      returns (es: seq<Entry>)
      modifies this
      ensures es == ProxyEntries(services, schema, c, ps)
      ensures State() == Reported(old(State()), Failures(services, c, ps))
    {
      es := [];
      ghost var s0 := State();
      var i := 0;
      while i < |ps|
        invariant 0 <= i <= |ps|
        invariant es == ProxyEntries(services, schema, c, ps[..i])
        invariant State() == Reported(s0, Failures(services, c, ps[..i]))
      {
        CollectStep(services, schema, c, ps, i);
        var v := Strip(ps[i]);
        ghost var fs := Failures(services, c, ps[..i]);
        if LabelFails(services, c, v) {
          ReportedStep(s0, fs, v);
          ReportError("cannot_retrieve_label", LABEL_FAILURE_MESSAGE + v, Some(v), Some(rowNumber));
          assert State() == Reported(s0, fs + [v]);
        } else {
          assert Failures(services, c, ps[..i + 1]) == fs;
        }
        es := es + [ProxyEntry(services, schema, c, v)];
        i := i + 1;
      }
      assert ps[..i] == ps;
    }

    /** `interpret_controlled_fields(raw_data)`: the entries of every
        controlled column are grouped by property, each group loses its
        repetitions, and every failed remote label has been reported. */
    method InterpretControlledFields(services: Services, schema: Schema, options: Options, rawData: Row)
      returns (metadata: map<string, seq<Attr>>)
      modifies this
      ensures metadata == ProxyControlled(services, schema, options, rawData)
      ensures State() == Reported(old(State()), RowFailures(services, schema, options, rawData))
    {
      var data := CollectControlled(services, schema, options, rawData);
      metadata := map p | p in data :: AttrsOf(data[p], "_delete");
    }

    /** One column of `interpret_controlled_fields`: a controlled column
        adds its pieces' entries under its property and reports the labels
        that cannot be fetched; any other column changes nothing. */
    method CollectColumn(services: Services, schema: Schema, options: Options, cell: (string, string),
                         data: map<string, seq<Entry>>)
      returns (next: map<string, seq<Entry>>)
      modifies this
      ensures ProxyControlledColumn(services, schema, options, cell).Skip? ==> next == data
      ensures ProxyControlledColumn(services, schema, options, cell).Add? ==>
        next == Extend(data, ProxyControlledColumn(services, schema, options, cell).key,
                       ProxyControlledColumn(services, schema, options, cell).items)
      ensures State() == Reported(old(State()), CellFailures(services, schema, options, cell))
    {
      next := data;
      var t := ControlledTarget(schema, options, cell.0, cell.1);
      if t.Some? {
        var es := CollectEntries(services, schema, t.value, SplitValues(cell.1));
        next := Extend(data, t.value.property, es);
      }
    }

    /** The column loop of `interpret_controlled_fields`. */
    method CollectControlled(services: Services, schema: Schema, options: Options, rawData: Row)
      returns (data: map<string, seq<Entry>>)
      modifies this
      ensures data == Fold(map[], ProxyControlledColumns(services, schema, options, rawData)).0
      ensures State() == Reported(old(State()), RowFailures(services, schema, options, rawData))
    {
      var cs := ProxyControlledColumns(services, schema, options, rawData);
      data := map[];
      ghost var s0 := State();
      var i := 0;
      while i < |rawData|
        invariant 0 <= i <= |rawData|
        invariant Fold(map[], cs[..i]) == (data, false)
        invariant State() == Reported(s0, RowFailures(services, schema, options, rawData[..i]))
      {
        FoldStep(map[], cs, i);
        RowFailuresStep(services, schema, options, rawData, i);
        ReportedConcat(s0, RowFailures(services, schema, options, rawData[..i]),
                       CellFailures(services, schema, options, rawData[i]));
        data := CollectColumn(services, schema, options, rawData[i], data);
        i := i + 1;
      }
      assert rawData[..i] == rawData;
      assert cs[..i] == cs;
    }

    /** `interpret_relationship_fields(raw_data)`: the order column updates
        the record, collection columns collect collection ids, and every
        relationship column creates (and at once resolves) a record; an
        exception while resolving ends the pass. */
    method InterpretRelationshipFields(repo: Repository, services: Services, rawData: Row)
      returns (collectionIds: seq<string>, raised: bool)
      requires Valid(repo)
      modifies this, repo.works
      ensures var o := ProxyRelations(RelContext(repo, services, operationId, old(workId), old(referenceIdentifier), id),
                                      old(order), rawData);
        collectionIds == o.collectionIds && raised == o.raised && State() == old(State()).(order := o.order)
    {
      var x := RelContext(repo, services, operationId, workId, referenceIdentifier, id);
      collectionIds, raised := [], false;
      ghost var created: seq<Params> := [];
      ghost var s0 := State();
      var i := 0;
      while i < |rawData| && !raised
        invariant 0 <= i <= |rawData|
        invariant ProxyRelations(x, s0.order, rawData[..i]) == RelOutcome(collectionIds, order, created, raised)
        invariant State() == s0.(order := order)
      {
        RelationsStep(x, s0.order, rawData, i);
        ghost var prev := RelOutcome(collectionIds, order, created, raised);
        var st := ProxyRelStep(services, referenceIdentifier, id, rawData[i]);
        if st.Some? {
          if st.value.order.Some? {
            order := st.value.order;
          }
          if st.value.collection.Some? {
            collectionIds := collectionIds + [st.value.collection.value];
          }
          if st.value.params.Some? {
            raised := CreateRecord(repo, operationId, workId, st.value.params.value);
            if !raised {
              created := created + [st.value.params.value];
            }
          }
        }
        i := i + 1;
      }
      if raised {
        RelationsHalted(x, old(order), rawData, i);
      } else {
        assert rawData[..i] == rawData;
      }
    }

    /** `interpret_option_fields(raw_data)`: updates the visibility, work
        type and reference identifier columns; returns no metadata. */
    method InterpretOptionFields(schema: Schema, operationWorkType: string, rawData: Row) returns (raised: bool)
      modifies this
      ensures var o := ProxyOptions(schema, operationWorkType,
                                    OptionState(old(visibility), old(workType), old(referenceIdentifier)), rawData);
        raised == o.1 &&
        State() == old(State()).(visibility := o.0.visibility, workType := o.0.workType,
                                 referenceIdentifier := o.0.referenceIdentifier)
    {
      var s0 := OptionState(visibility, workType, referenceIdentifier);
      raised := false;
      var i := 0;
      while i < |rawData| && !raised
        invariant 0 <= i <= |rawData|
        invariant ProxyOptions(schema, operationWorkType, s0, rawData[..i]) ==
                  (OptionState(visibility, workType, referenceIdentifier), raised)
        invariant State() == old(State()).(visibility := visibility, workType := workType,
                                           referenceIdentifier := referenceIdentifier)
      {
        assert rawData[..i + 1][..i] == rawData[..i];
        var (h, v) := rawData[i];
        if !(IsBlank(v) || IsBlank(h) || v == h) {
          var nf := NormField(h);
          if nf in ["visibility", "public"] {
            visibility := FormatVisibility(v);
          }
          if nf in ["worktype", "model", "type"] {
            var t := FormatWorktype(schema, v, operationWorkType);
            if t.None? {
              raised := true;
            } else {
              workType := t;
            }
          }
          if !raised && nf in REFERENCE_ID_SPELLINGS {
            var f := FormatReferenceId(schema, v);
            if f.FormatRaises? {
              raised := true;
            } else {
              referenceIdentifier := f.value;
            }
          }
        }
        i := i + 1;
      }
      if raised {
        OptionsHalted(schema, operationWorkType, s0, rawData, i);
      } else {
        assert rawData[..i] == rawData;
      }
    }

    /** `interpret_data(raw_data)`: the admin set, then the file,
        controlled, scalar, relationship and option passes in that order;
        an exception in one ends the interpretation with the record as the
        earlier passes left it. The admin set is the ingest set, else the
        default set, which `find_or_create_default_admin_set_id` creates
        when it is missing, so it never raises; the closing `setAdminSet`
        then keeps it. */
    method InterpretData(repo: Repository, services: Services, schema: Schema, options: Options,
                         operationWorkType: string, fp: ProxyFilePass, rawData: Row)
      returns (metadata: Metadata, raised: bool)
      requires Valid(repo)
      modifies this, repo.works
      ensures ProxyFilePassRaises(fp, schema, rawData) ==> raised && State() == old(State())
      ensures !ProxyFilePassRaises(fp, schema, rawData) ==>
        var s1 := Reported(old(State()), RowFailures(services, schema, options, rawData));
        var sc := ScalarFields(schema, map[], rawData, false);
        var rel := ProxyRelations(RelContext(repo, services, operationId, old(workId), old(referenceIdentifier), id),
                                  old(order), rawData);
        var opt := ProxyOptions(schema, operationWorkType,
                                OptionState(old(visibility), old(workType), old(referenceIdentifier)), rawData);
        (raised <==> sc.1 || rel.raised || opt.1) &&
        (sc.1 ==> State() == s1) &&
        (!sc.1 && rel.raised ==> State() == s1.(order := rel.order)) &&
        (!sc.1 && !rel.raised ==>
           State() == s1.(order := rel.order, visibility := opt.0.visibility, workType := opt.0.workType,
                          referenceIdentifier := opt.0.referenceIdentifier)) &&
        (!raised ==>
           metadata == Metadata(sc.0, ProxyControlled(services, schema, options, rawData), rel.collectionIds,
                                Some(ProxyAdminSet(services)), None))
    {
      metadata := EMPTY;
      var adminSet := ProxyAdminSet(services);
      raised := InterpretFileFields(fp, schema, rawData);
      if raised {
        return;
      }
      var attributes := InterpretControlledFields(services, schema, options, rawData);
      var values;
      values, raised := InterpretScalarFields(schema, rawData);
      if raised {
        return;
      }
      var collectionIds;
      collectionIds, raised := InterpretRelationshipFields(repo, services, rawData);
      if raised {
        return;
      }
      raised := InterpretOptionFields(schema, operationWorkType, rawData);
      if !raised {
        metadata := Metadata(values, attributes, collectionIds, Some(adminSet), None);
      }
    }
  }

  /** `BulkOps::Error.new(type:, url:, row_number:)` */
  function LabelFailureError(kind: string, row: Option<int>, url: Option<string>): (e: Error)
    ensures e.kind == kind && e.rowNumber == row && e.url == url && e.message == None
  {
    NewError(kind, row, None, None, None, None, None, url, None)
  }

  const LABEL_FAILURE_MESSAGE: string := "cannot fetch remote label for url: "

  /** The record after `report_error(:cannot_retrieve_label, ...)` for each
      url in turn. */
  function Reported(s: ProxyState, urls: seq<string>): (r: ProxyState)
    ensures urls == [] ==> r == s
    ensures urls != [] ==> r.status == "error" && r.message == Some(LABEL_FAILURE_MESSAGE + urls[|urls| - 1])
    ensures r == s.(status := r.status, message := r.message, proxyErrors := r.proxyErrors)
    decreases |urls|
  {
    if urls == [] then s
    else
      var prev := Reported(s, urls[..|urls| - 1]);
      var u := urls[|urls| - 1];
      prev.(status := "error", message := Some(LABEL_FAILURE_MESSAGE + u),
            proxyErrors := prev.proxyErrors + [LabelFailureError("cannot_retrieve_label", Some(s.rowNumber), Some(u))])
  }

  /** Each url adds one error, in order, and the earlier errors stay. */
  lemma {:induction false} ReportedErrors(s: ProxyState, urls: seq<string>)
    ensures |Reported(s, urls).proxyErrors| == |s.proxyErrors| + |urls|
    ensures Reported(s, urls).proxyErrors[..|s.proxyErrors|] == s.proxyErrors
    ensures forall i :: 0 <= i < |urls| ==>
      Reported(s, urls).proxyErrors[|s.proxyErrors| + i] ==
      LabelFailureError("cannot_retrieve_label", Some(s.rowNumber), Some(urls[i]))
    decreases |urls|
  {
    if urls != [] {
      var init := urls[..|urls| - 1];
      ReportedErrors(s, init);
      var prev := Reported(s, init).proxyErrors;
      assert Reported(s, urls).proxyErrors == prev + [LabelFailureError("cannot_retrieve_label", Some(s.rowNumber), Some(urls[|urls| - 1]))];
      forall i | 0 <= i < |urls| - 1
        ensures Reported(s, urls).proxyErrors[|s.proxyErrors| + i] ==
                LabelFailureError("cannot_retrieve_label", Some(s.rowNumber), Some(urls[i]))
      {
        assert urls[i] == init[i];
      }
    }
  }

  lemma {:induction false} ReportedConcat(s: ProxyState, a: seq<string>, b: seq<string>)
    ensures Reported(Reported(s, a), b) == Reported(s, a + b)
    decreases |b|
  {
    if b == [] {
      assert a + b == a;
    } else {
      ReportedConcat(s, a, b[..|b| - 1]);
      assert (a + b)[..|a + b| - 1] == a + b[..|b| - 1];
    }
  }

  /** One more report. */
  lemma ReportedStep(s: ProxyState, urls: seq<string>, u: string)
    ensures Reported(s, urls + [u]) ==
      Reported(s, urls).(status := "error", message := Some(LABEL_FAILURE_MESSAGE + u),
                         proxyErrors := Reported(s, urls).proxyErrors +
                                        [LabelFailureError("cannot_retrieve_label", Some(s.rowNumber), Some(u))])
  {
    assert (urls + [u])[..|urls + [u]| - 1] == urls;
  }

  // ---------------------------------------------------------------------
  // interpret_controlled_fields (the proxy's copy)

  /** `field_name.downcase.starts_with?("remove")`: only "remove" columns
      remove in this copy. */
  predicate RemovesInProxy(c: ControlledColumn) {
    StartsWith(Lower(c.name), "remove")
  }

  /** The proxy's `findAuthUrl`: the parser's lookup, except that a hit
      with no url in it is turned into a local-authority url. */
  function ProxyFindAuthUrl(services: Services, auth: string, value: string): (r: Option<string>)
    ensures r.None? <==> FindAuthUrl(services, auth, value).None?
    ensures r.Some? ==>
      var u := FindAuthUrl(services, auth, value).value;
      (services.hasUrl(u) ==> r.value == u) && (!services.hasUrl(u) ==> r.value == LocalIdToUrl(services.rootUrl, u, auth))
  {
    match FindAuthUrl(services, auth, value)
    case None => None
    case Some(u) => Some(if services.hasUrl(u) then u else LocalIdToUrl(services.rootUrl, u, auth))
  }

  /** The proxy's `localAuthUrl(property, value)`: the value itself for a
      field without a local authority; otherwise a url found in, or minted
      for, that authority. */
  function ProxyLocalAuthUrl(services: Services, schema: Schema, property: string, value: string): (r: string)
    ensures GetLocalAuth(schema, property).None? ==> r == value
    ensures GetLocalAuth(schema, property).Some? ==>
      var auth := GetLocalAuth(schema, property).value;
      (ProxyFindAuthUrl(services, auth, value).None? ==> r == MintLocalAuthUrl(services, auth, value)) &&
      (ProxyFindAuthUrl(services, auth, value).Some? ==> r == ProxyFindAuthUrl(services, auth, value).value)
    ensures GetLocalAuth(schema, property).Some? && !services.hasUrl(r) ==>
      StartsWith(r, services.rootUrl + "/authorities/show/local/")
  {
    match GetLocalAuth(schema, property)
    case None => value
    case Some(auth) =>
      match ProxyFindAuthUrl(services, auth, value)
      case Some(url) => url
      case None => MintLocalAuthUrl(services, auth, value)
  }

  /** The entry for one value: a url in a non-label column is the id and
      its remote label the label; anything else is looked up (or minted) in
      the local authority and is its own label. */
  function ProxyEntry(services: Services, schema: Schema, c: ControlledColumn, v: string): (e: Entry)
    ensures e.remove == RemovesInProxy(c)
  {
    if services.isUrl(v) && !c.isLabel then Entry(v, services.fetchRemoteLabel(v), RemovesInProxy(c))
    else Entry(ProxyLocalAuthUrl(services, schema, c.property, v), Some(v), RemovesInProxy(c))
  }

  /** A url whose remote label cannot be fetched. */
  predicate LabelFails(services: Services, c: ControlledColumn, v: string) {
    services.isUrl(v) && !c.isLabel && services.fetchRemoteLabel(v).None?
  }

  /** The entries of the stripped pieces, blank ones included. */
  function ProxyEntries(services: Services, schema: Schema, c: ControlledColumn, ps: seq<string>): (r: seq<Entry>)
    ensures |r| == |ps|
    ensures forall i :: 0 <= i < |ps| ==> r[i] == ProxyEntry(services, schema, c, Strip(ps[i]))
  {
    seq(|ps|, i requires 0 <= i < |ps| => ProxyEntry(services, schema, c, Strip(ps[i])))
  }

  /** The urls whose label fails, in order. */
  function Failures(services: Services, c: ControlledColumn, ps: seq<string>): seq<string>
    decreases |ps|
  {
    if ps == [] then []
    else
      var v := Strip(ps[|ps| - 1]);
      Failures(services, c, ps[..|ps| - 1]) + (if LabelFails(services, c, v) then [v] else [])
  }

  /** Only pieces whose label fails are reported. */
  lemma {:induction false} FailuresSound(services: Services, c: ControlledColumn, ps: seq<string>, u: string)
    requires u in Failures(services, c, ps)
    ensures exists k :: 0 <= k < |ps| && u == Strip(ps[k]) && LabelFails(services, c, u)
    decreases |ps|
  {
    var n := |ps| - 1;
    var init := ps[..n];
    if u in Failures(services, c, init) {
      FailuresSound(services, c, init, u);
      var k :| 0 <= k < n && u == Strip(init[k]) && LabelFails(services, c, u);
      assert init[k] == ps[k];
    } else {
      assert u == Strip(ps[n]);
    }
  }

  /** Every piece whose label fails is reported. */
  lemma {:induction false} FailuresComplete(services: Services, c: ControlledColumn, ps: seq<string>, k: nat)
    requires k < |ps| && LabelFails(services, c, Strip(ps[k]))
    ensures Strip(ps[k]) in Failures(services, c, ps)
    decreases |ps|
  {
    var n := |ps| - 1;
    var init := ps[..n];
    var tail := if LabelFails(services, c, Strip(ps[n])) then [Strip(ps[n])] else [];
    assert Failures(services, c, ps) == Failures(services, c, init) + tail;
    if k < n {
      assert init[k] == ps[k];
      FailuresComplete(services, c, init, k);
      assert Strip(ps[k]) in Failures(services, c, init);
    } else {
      assert tail == [Strip(ps[k])];
    }
  }

  /** One more piece. */
  lemma CollectStep(services: Services, schema: Schema, c: ControlledColumn, ps: seq<string>, i: nat)
    requires i < |ps|
    ensures ProxyEntries(services, schema, c, ps[..i + 1]) ==
            ProxyEntries(services, schema, c, ps[..i]) + [ProxyEntry(services, schema, c, Strip(ps[i]))]
    ensures Failures(services, c, ps[..i + 1]) ==
            Failures(services, c, ps[..i]) + (if LabelFails(services, c, Strip(ps[i])) then [Strip(ps[i])] else [])
  {
    assert ps[..i + 1][..i] == ps[..i];
    var a := ProxyEntries(services, schema, c, ps[..i + 1]);
    var b := ProxyEntries(services, schema, c, ps[..i]) + [ProxyEntry(services, schema, c, Strip(ps[i]))];
    forall j | 0 <= j < |a| ensures a[j] == b[j] {
      if j < i {
        assert ps[..i + 1][j] == ps[..i][j];
      } else {
        assert ps[..i + 1][j] == ps[i];
      }
    }
  }

  function ProxyControlledColumn(services: Services, schema: Schema, options: Options, cell: (string, string))
    : (r: Column<Entry>)
    ensures r != Halt
    ensures r.Add? ==>
      (ControlledTarget(schema, options, cell.0, cell.1).Some? &&
       var c := ControlledTarget(schema, options, cell.0, cell.1).value;
       r.key == c.property && r.items == ProxyEntries(services, schema, c, SplitValues(cell.1)))
  {
    match ControlledTarget(schema, options, cell.0, cell.1)
    case None => Skip
    case Some(c) => Add(c.property, ProxyEntries(services, schema, c, SplitValues(cell.1)))
  }

  function ProxyControlledColumns(services: Services, schema: Schema, options: Options, row: Row)
    : (r: seq<Column<Entry>>)
    ensures |r| == |row| && forall i :: 0 <= i < |row| ==> r[i] == ProxyControlledColumn(services, schema, options, row[i])
  {
    seq(|row|, i requires 0 <= i < |row| => ProxyControlledColumn(services, schema, options, row[i]))
  }

  /** The failing urls of the whole row, column by column. */
  /** The labels one column fails to fetch: those of its pieces, when it
      is a controlled column. */
  function CellFailures(services: Services, schema: Schema, options: Options, cell: (string, string)): seq<string> {
    match ControlledTarget(schema, options, cell.0, cell.1)
    case None => []
    case Some(c) => Failures(services, c, SplitValues(cell.1))
  }

  function RowFailures(services: Services, schema: Schema, options: Options, row: Row): seq<string>
    decreases |row|
  {
    if row == [] then []
    else
      RowFailures(services, schema, options, row[..|row| - 1]) + CellFailures(services, schema, options, row[|row| - 1])
  }

  /** One more column. */
  lemma RowFailuresStep(services: Services, schema: Schema, options: Options, row: Row, i: nat)
    requires i < |row|
    ensures RowFailures(services, schema, options, row[..i + 1]) ==
      RowFailures(services, schema, options, row[..i]) + CellFailures(services, schema, options, row[i])
  {
    assert row[..i + 1][..i] == row[..i];
  }

  /** The attribute lists the proxy's pass returns, from the collected
      entries: each list without repetitions, flagged "_delete". */
  function ProxyAttributes(data: map<string, seq<Entry>>): (r: map<string, seq<Attr>>)
    ensures r.Keys == data.Keys
    ensures forall p :: p in data ==> r[p] == AttrsOf(data[p], "_delete")
  {
    map p | p in data :: AttrsOf(data[p], "_delete")
  }

  /** The attributes the proxy's controlled pass produces for a row. */
  function ProxyControlled(services: Services, schema: Schema, options: Options, row: Row): map<string, seq<Attr>> {
    ProxyAttributes(Fold(map[], ProxyControlledColumns(services, schema, options, row)).0)
  }

  /** A property's attribute list holds no repeated entry, every entry of
      a column of that property is represented, and an attribute is flagged
      "_delete" exactly when its column starts with "remove". */
  lemma ProxyControlledShape(services: Services, schema: Schema, options: Options, row: Row, p: string, a: Attr)
    requires p in ProxyControlled(services, schema, options, row) && a in ProxyControlled(services, schema, options, row)[p]
    ensures exists i ::
      (0 <= i < |row| && ControlledTarget(schema, options, row[i].0, row[i].1).Some? &&
       var c := ControlledTarget(schema, options, row[i].0, row[i].1).value;
       c.property == p && (a.flag == Some("_delete") <==> RemovesInProxy(c)) && (a.flag.None? <==> !RemovesInProxy(c)))
  {
    var data := Fold(map[], ProxyControlledColumns(services, schema, options, row)).0;
    var e := AttrOfEntry(data[p], "_delete", a);
    var i := EntryOrigin(services, schema, options, row, p, e);
  }

  /** Every collected entry comes from a controlled column of its property
      and removes exactly when that column's name starts with "remove". */
  lemma EntryOrigin(services: Services, schema: Schema, options: Options, row: Row, p: string, e: Entry)
    returns (i: nat)
    requires e in Get(Fold(map[], ProxyControlledColumns(services, schema, options, row)).0, p)
    ensures i < |row| && ControlledTarget(schema, options, row[i].0, row[i].1).Some?
    ensures var c := ControlledTarget(schema, options, row[i].0, row[i].1).value;
      c.property == p && e.remove == RemovesInProxy(c)
  {
    var cs := ProxyControlledColumns(services, schema, options, row);
    FoldItemsFrom(map[], cs, p, e);
    i :| 0 <= i < |cs| && cs[i].Add? && cs[i].key == p && e in cs[i].items;
    ColumnEntry(services, schema, options, row[i], e);
  }

  lemma ColumnEntry(services: Services, schema: Schema, options: Options, cell: (string, string), e: Entry)
    requires ProxyControlledColumn(services, schema, options, cell).Add?
    requires e in ProxyControlledColumn(services, schema, options, cell).items
    ensures ControlledTarget(schema, options, cell.0, cell.1).Some?
    ensures var c := ControlledTarget(schema, options, cell.0, cell.1).value;
      ProxyControlledColumn(services, schema, options, cell).key == c.property && e.remove == RemovesInProxy(c)
  {
    var c := ControlledTarget(schema, options, cell.0, cell.1).value;
    var ps := SplitValues(cell.1);
    var j :| 0 <= j < |ps| && ProxyEntries(services, schema, c, ps)[j] == e;
    assert e == ProxyEntry(services, schema, c, Strip(ps[j]));
  }

  // ---------------------------------------------------------------------
  // interpret_relationship_fields (the proxy's copy)

  const COLLECTION_SPELLINGS: seq<string> :=
    ["collection", "collectiontitle", "memberofcollection", "collectionname", "collectionid"]

  const RELATION_SPELLINGS: seq<string> :=
    ["parent", "parentid", "parentidentifier", "parentwork", "child", "childid", "childidentifier", "childwork",
     "next", "nextfile", "nextwork", "nextid", "nextfileidentifier", "nextfileid", "nextworkid"]

  /** `find_or_create_collection(name)`: a found collection, else nothing
      for a positive number, else a new collection with that title. */
  function FindOrCreateCollection(services: Services, name: string): (r: Option<string>)
    ensures services.findCollection(name).Some? ==> r == services.findCollection(name)
    ensures services.findCollection(name).None? ==>
      (r.None? <==> ToI(name) > 0) && (r.Some? ==> r.value == services.newCollectionId(name))
  {
    if services.findCollection(name).Some? then services.findCollection(name)
    else if ToI(name) > 0 then None
    else Some(services.newCollectionId(name))
  }

  /** What one relationship column does: the order it sets, the collection
      it adds and the relationship record it creates. */
  datatype RelStep = RelStep(order: Option<real>, collection: Option<string>, params: Option<Params>)

  /** One column of the proxy's relationship pass (`None` when skipped). A
      `ref:field` header gives the reference type and the field; a
      `type:value` cell overrides that type; with neither, the proxy's
      `reference_identifier` is used. */
  function ProxyRelStep(services: Services, referenceIdentifier: Option<string>, proxyId: int, cell: (string, string))
    : (r: Option<RelStep>)
    ensures (IsBlank(cell.1) || IsBlank(cell.0) || cell.1 == cell.0) <==> r.None?
    ensures r.Some? && r.value.params.Some? ==>
      var p := r.value.params.value;
      var hs := Split(cell.0, CharIs(':'));
      var vs := Split(cell.1, CharIs(':'));
      p.status == "new" && p.workProxyId == proxyId && p.previousSibling.None? &&
      p.relationshipType in RELATION_SPELLINGS &&
      p.relationshipType == NormField(if |hs| == 2 then hs[1] else cell.0) &&
      (|vs| == 2 ==> p.identifierType == Some(vs[0]) && p.objectIdentifier == Some(vs[1])) &&
      (|vs| != 2 && |hs| == 2 ==> p.identifierType == Some(hs[0]) && p.objectIdentifier == Some(cell.1)) &&
      (|vs| != 2 && |hs| != 2 ==> p.identifierType == referenceIdentifier && p.objectIdentifier == Some(cell.1))
    ensures r.Some? ==> (r.value.order.Some? ==> r.value.order == Some(services.toF(cell.1)))
  {
    var (h, v) := cell;
    if IsBlank(v) || IsBlank(h) || v == h then None
    else
      var parts := Split(h, CharIs(':'));
      var refId := if |parts| == 2 then Some(parts[0]) else None;
      var field := if |parts| == 2 then parts[1] else h;
      var nf := NormField(field);
      var (rid, obj) := SplitPrefix(refId, v);
      Some(RelStep(
        if nf == "order" then Some(services.toF(v)) else None,
        if nf in COLLECTION_SPELLINGS then FindOrCreateCollection(services, v) else None,
        if nf in RELATION_SPELLINGS
        then Some(Params(proxyId, if rid.Some? then rid else referenceIdentifier, nf, Some(obj), None, "new"))
        else None))
  }

  /** The outcome of the relationship pass over a row. */
  datatype RelOutcome = RelOutcome(collectionIds: seq<string>, order: Option<real>, created: seq<Params>, raised: bool)

  /** The context a proxy's relationship columns are read in. */
  datatype RelContext = RelContext(repo: Repository, services: Services, operationId: int, workId: Option<string>,
                                   referenceIdentifier: Option<string>, proxyId: int)

  function ApplyRelStep(x: RelContext, prev: RelOutcome, st: RelStep): RelOutcome {
    var raises := st.params.Some? && CreateRaises(x.repo, x.operationId, x.workId, st.params.value);
    RelOutcome(prev.collectionIds + (if st.collection.Some? then [st.collection.value] else []),
               if st.order.Some? then st.order else prev.order,
               prev.created + (if st.params.Some? && !raises then [st.params.value] else []),
               raises)
  }

  /** The pass column by column; an exception while creating a record ends
      it. */
  function ProxyRelations(x: RelContext, order0: Option<real>, row: Row): RelOutcome
    decreases |row|
  {
    if row == [] then RelOutcome([], order0, [], false)
    else
      var prev := ProxyRelations(x, order0, row[..|row| - 1]);
      if prev.raised then prev
      else match ProxyRelStep(x.services, x.referenceIdentifier, x.proxyId, row[|row| - 1])
        case None => prev
        case Some(st) => ApplyRelStep(x, prev, st)
  }

  /** `BulkOps::Relationship.create(...)` as the pass uses it: only whether
      it raised matters here. */
  method CreateRecord(repo: Repository, operationId: int, workId: Option<string>, p: Params) returns (raised: bool)
    requires Valid(repo)
    modifies repo.works
    ensures raised == CreateRaises(repo, operationId, workId, p)
  {
    var rel;
    rel, raised := Create(repo, operationId, workId, p);
  }

  /** One more column of the relationship pass. */
  lemma RelationsStep(x: RelContext, order0: Option<real>, row: Row, i: nat)
    requires i < |row| && !ProxyRelations(x, order0, row[..i]).raised
    ensures ProxyRelations(x, order0, row[..i + 1]) ==
      match ProxyRelStep(x.services, x.referenceIdentifier, x.proxyId, row[i])
      case None => ProxyRelations(x, order0, row[..i])
      case Some(st) => ApplyRelStep(x, ProxyRelations(x, order0, row[..i]), st)
  {
    assert row[..i + 1][..i] == row[..i];
  }

  /** An exception ends the pass: the later columns change nothing. */
  lemma {:induction false} RelationsHalted(x: RelContext, order0: Option<real>, row: Row, i: nat)
    requires i <= |row| && ProxyRelations(x, order0, row[..i]).raised
    ensures ProxyRelations(x, order0, row) == ProxyRelations(x, order0, row[..i])
    decreases |row| - i
  {
    if i < |row| {
      assert row[..i + 1][..i] == row[..i];
      RelationsHalted(x, order0, row, i + 1);
    } else {
      assert row[..i] == row;
    }
  }

  /** Every record the pass creates comes from one of the row's relationship
      columns and starts out "new". */
  lemma {:induction false} ProxyRelationsCreated(x: RelContext, order0: Option<real>, row: Row, p: Params)
    requires p in ProxyRelations(x, order0, row).created
    ensures p.status == "new" && p.workProxyId == x.proxyId && p.relationshipType in RELATION_SPELLINGS
    ensures exists i ::
      (0 <= i < |row| && ProxyRelStep(x.services, x.referenceIdentifier, x.proxyId, row[i]).Some? &&
       ProxyRelStep(x.services, x.referenceIdentifier, x.proxyId, row[i]).value.params == Some(p))
    decreases |row|
  {
    var init := row[..|row| - 1];
    var prev := ProxyRelations(x, order0, init);
    if p in prev.created {
      ProxyRelationsCreated(x, order0, init, p);
      var i :| 0 <= i < |init| && ProxyRelStep(x.services, x.referenceIdentifier, x.proxyId, init[i]).Some? &&
        ProxyRelStep(x.services, x.referenceIdentifier, x.proxyId, init[i]).value.params == Some(p);
      assert row[i] == init[i];
    } else {
      assert ProxyRelStep(x.services, x.referenceIdentifier, x.proxyId, row[|row| - 1]).value.params == Some(p);
    }
  }

  // ---------------------------------------------------------------------
  // interpret_option_fields (the proxy's copy)

  datatype OptionState = OptionState(visibility: Option<string>, workType: Option<string>,
                                     referenceIdentifier: Option<string>)

  /** One column of the option pass: `visibility`/`public` sets the
      visibility, `worktype`/`model`/`type` the work type, a
      reference-identifier spelling the reference identifier; formatting
      the work type or the reference identifier may raise, after the
      earlier updates of the column. */
  function ProxyOptionStep(schema: Schema, operationWorkType: string, s: OptionState, cell: (string, string))
    : (r: (OptionState, bool))
    ensures (IsBlank(cell.1) || IsBlank(cell.0) || cell.1 == cell.0) ==> r == (s, false)
    ensures !(IsBlank(cell.1) || IsBlank(cell.0) || cell.1 == cell.0) ==>
      var nf := NormField(cell.0);
      (r.1 <==> (nf in ["worktype", "model", "type"] && !IsConstantName(ClassStyle(schema, cell.1))) ||
                (nf in REFERENCE_ID_SPELLINGS && FormatReferenceId(schema, cell.1).FormatRaises?)) &&
      (r.0.visibility == if nf in ["visibility", "public"] then FormatVisibility(cell.1) else s.visibility)
    ensures !r.1 && !(IsBlank(cell.1) || IsBlank(cell.0) || cell.1 == cell.0) ==>
      var nf := NormField(cell.0);
      (r.0.workType == if nf in ["worktype", "model", "type"]
                       then FormatWorktype(schema, cell.1, operationWorkType) else s.workType) &&
      (nf in REFERENCE_ID_SPELLINGS ==> FormatReferenceId(schema, cell.1) == Formatted(r.0.referenceIdentifier)) &&
      (nf !in REFERENCE_ID_SPELLINGS ==> r.0.referenceIdentifier == s.referenceIdentifier)
  {
    var (h, v) := cell;
    if IsBlank(v) || IsBlank(h) || v == h then (s, false)
    else
      var nf := NormField(h);
      var s1 := if nf in ["visibility", "public"] then s.(visibility := FormatVisibility(v)) else s;
      if nf in ["worktype", "model", "type"] && FormatWorktype(schema, v, operationWorkType).None? then (s1, true)
      else
        var s2 := if nf in ["worktype", "model", "type"]
                  then s1.(workType := FormatWorktype(schema, v, operationWorkType)) else s1;
        if nf in REFERENCE_ID_SPELLINGS then
          match FormatReferenceId(schema, v)
          case FormatRaises => (s2, true)
          case Formatted(id) => (s2.(referenceIdentifier := id), false)
        else (s2, false)
  }

  /** The option pass over a row, stopping at an exception. */
  function ProxyOptions(schema: Schema, operationWorkType: string, s0: OptionState, row: Row): (OptionState, bool)
    decreases |row|
  {
    if row == [] then (s0, false)
    else
      var prev := ProxyOptions(schema, operationWorkType, s0, row[..|row| - 1]);
      if prev.1 then prev else ProxyOptionStep(schema, operationWorkType, prev.0, row[|row| - 1])
  }

  /** An exception ends the pass: the later columns change nothing. */
  lemma {:induction false} OptionsHalted(schema: Schema, operationWorkType: string, s0: OptionState, row: Row, i: nat)
    requires i <= |row| && ProxyOptions(schema, operationWorkType, s0, row[..i]).1
    ensures ProxyOptions(schema, operationWorkType, s0, row) == ProxyOptions(schema, operationWorkType, s0, row[..i])
    decreases |row| - i
  {
    if i < |row| {
      assert row[..i + 1][..i] == row[..i];
      OptionsHalted(schema, operationWorkType, s0, row, i + 1);
    } else {
      assert row[..i] == row;
    }
  }

  // ---------------------------------------------------------------------
  // interpret_file_fields (the proxy's copy)

  /** How the proxy's file pass is read. As written a file column that
      names no metadata field raises: an added file through
      `operation.get_file_paths`, whose `BulkOps::Operation::INGEST_MEDIA_PATH`
      is undefined once there is a file name, and a removed one through
      `get_removed_filesets`, which calls the proxy's own `record_exists?`,
      defined with no parameter, with one id for each listed value.
      `FilesCorrected` reads those calls as intended, and the pass then
      raises nothing (its uploads and deletions are not modelled). */
  datatype ProxyFilePass = FilesAsWritten | FilesCorrected

  /** A file column the pass acts on: filled, not the header repeated, a
      file field by `is_file_field?` and no metadata field by
      `find_field_name`. */
  predicate ActsOnFile(schema: Schema, cell: (string, string)) {
    !(IsBlank(cell.1) || IsBlank(cell.0) || cell.0 == cell.1) &&
    IsFileField(schema, cell.0) != NotFile && FindFieldName(schema, cell.0).None?
  }

  /** Such a column raises as written: a removal with a value to look up, an
      addition with a path to build. */
  predicate FileColumnRaises(schema: Schema, cell: (string, string)) {
    ActsOnFile(schema, cell) &&
    if IsFileField(schema, cell.0) == RemoveFile then SplitValues(cell.1) != []
    else GetFilePathsAsWritten(cell.1).None?
  }

  /** Whether some column satisfies `p`, looked for in row order. */
  method FindColumn(p: ((string, string)) -> bool, row: Row) returns (found: bool)
    ensures found <==> exists i :: 0 <= i < |row| && p(row[i])
  {
    var i := 0;
    while i < |row|
      invariant 0 <= i <= |row|
      invariant forall j :: 0 <= j < i ==> !p(row[j])
    {
      if p(row[i]) {
        return true;
      }
      i := i + 1;
    }
    return false;
  }

  predicate ProxyFilePassRaises(fp: ProxyFilePass, schema: Schema, row: Row) {
    fp == FilesAsWritten && exists i :: 0 <= i < |row| && FileColumnRaises(schema, row[i])
  }

  /** As written an added-file column raises exactly when the intended
      `get_file_paths` would give it a path to upload. */
  lemma AddFileColumnRaises(filePrefix: Option<string>, schema: Schema, cell: (string, string))
    requires ActsOnFile(schema, cell) && IsFileField(schema, cell.0) == AddFile
    ensures FileColumnRaises(schema, cell) <==> GetFilePaths(filePrefix, cell.1) != []
  {
    GetFilePathsAsWrittenRaises(filePrefix, cell.1);
  }
}

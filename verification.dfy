/**
  `BulkOps::Verification`: the checks an operation runs over its spreadsheet
  before it may start. Headers must name work attributes or special columns,
  controlled-vocabulary urls must resolve to labels, and the files a row
  names must exist. Each check appends its errors to the operation's
  `@verification_errors`.
 */
module Verification {
  import opened Text
  import opened BulkOps
  import opened Errors

  // ---------------------------------------------------------------------
  // is_file_field?

  /** What `is_file_field?` answers: false, "add" or "remove". */
  datatype FileAction = NotFile | AddFile | RemoveFile

  const REMOVE_WORDS: seq<string> := ["remove", "delete"]

  /** `words.any? { |w| vocab.include?(w) }`. */
  function AnyIn(words: seq<string>, vocab: seq<string>): (b: bool)
    ensures b <==> exists i :: 0 <= i < |words| && words[i] in vocab
  {
    if |words| == 0 then false
    else if words[0] in vocab then true
    else
      var rest := AnyIn(words[1..], vocab);
      assert forall i :: 1 <= i < |words| ==> words[i] == words[1..][i - 1];
      rest
  }

  /** A column holds files when it is not blank, is not a schema field and
      one of its words is a file word; it removes files when one of its
      words is also "remove" or "delete". */
  function IsFileField(schema: Schema, fieldname: string): (r: FileAction)
    ensures r != NotFile <==>
      !IsBlank(fieldname) && !IsSchemaField(schema, fieldname) &&
      exists i :: 0 <= i < |schema.words(fieldname)| && schema.words(fieldname)[i] in FILE_FIELDS
    ensures r == RemoveFile <==>
      r != NotFile && exists i :: 0 <= i < |schema.words(fieldname)| && schema.words(fieldname)[i] in REMOVE_WORDS
  {
    if IsBlank(fieldname) || IsSchemaField(schema, fieldname) then NotFile
    else
      var parts := schema.words(fieldname);
      if !AnyIn(parts, FILE_FIELDS) then NotFile
      else if AnyIn(parts, REMOVE_WORDS) then RemoveFile
      else AddFile
  }

  /** The classification on three typical headers, given the words the
      inflector splits them into. A "remove" word alone does not make a
      file column. */
  lemma FileFieldExamples(schema: Schema)
    requires !IsSchemaField(schema, "Remove Files") && schema.words("Remove Files") == ["remove", "files"]
    requires !IsSchemaField(schema, "filename") && schema.words("filename") == ["filename"]
    requires !IsSchemaField(schema, "remove_title") && schema.words("remove_title") == ["remove", "title"]
    ensures IsFileField(schema, "Remove Files") == RemoveFile
    ensures IsFileField(schema, "filename") == AddFile
    ensures IsFileField(schema, "remove_title") == NotFile
  {
    assert !IsBlank("Remove Files") by { assert !IsSpace("Remove Files"[0]); }
    assert !IsBlank("filename") by { assert !IsSpace("filename"[0]); }
    assert schema.words("Remove Files")[1] in FILE_FIELDS;
    assert schema.words("Remove Files")[0] in REMOVE_WORDS;
    assert schema.words("filename")[0] in FILE_FIELDS;
    assert !(exists i :: 0 <= i < |schema.words("filename")| && schema.words("filename")[i] in REMOVE_WORDS) by {
      forall i | 0 <= i < |schema.words("filename")|
        ensures schema.words("filename")[i] !in REMOVE_WORDS
      {
        assert schema.words("filename")[i] == "filename";
      }
    }
    assert !(exists i :: 0 <= i < |schema.words("remove_title")| && schema.words("remove_title")[i] in FILE_FIELDS) by {
      forall i | 0 <= i < |schema.words("remove_title")|
        ensures schema.words("remove_title")[i] !in FILE_FIELDS
      {
        assert schema.words("remove_title")[i] == "remove" || schema.words("remove_title")[i] == "title";
      }
    }
  }

  // ---------------------------------------------------------------------
  // find_field_name

  /** `t` spells `word` with its first letter in either case, as the
      patterns `[aA]ttributes`, `[lL]abel`, `[rR]emove` and `[dD]elete` do. */
  predicate MatchesWord(t: string, word: string)
    requires |word| > 0
  {
    |t| == |word| && LowerChar(t[0]) == word[0] && t[1..] == word[1..]
  }

  /** `gsub!(/[_\s-]?[wW]ord$/, '')` on a one-line name. */
  function StripSuffixWord(s: string, word: string): (r: string)
    requires |word| > 0
    ensures |r| <= |s| && r == s[..|r|]
  {
    if |s| >= |word| && MatchesWord(s[|s| - |word|..], word) then
      var t := s[..|s| - |word|];
      if |t| > 0 && IsFieldSep(t[|t| - 1]) then t[..|t| - 1] else t
    else s
  }

  /** `gsub!(/^[wW]ord[_\s-]?/, '')` on a one-line name. */
  function StripPrefixWord(s: string, word: string): (r: string)
    requires |word| > 0
    ensures |r| <= |s| && r == s[|s| - |r|..]
  {
    if |s| >= |word| && MatchesWord(s[..|word|], word) then
      var t := s[|word|..];
      if |t| > 0 && IsFieldSep(t[0]) then t[1..] else t
    else s
  }

  /** The header without an "attributes" or "label" suffix. */
  function WithoutSuffixes(fieldname: string): string {
    StripSuffixWord(StripSuffixWord(fieldname, "attributes"), "label")
  }

  /** The field a header names: one trailing "attributes" and "label" and
      one leading "remove" and "delete" are cut off, in that order. */
  function BaseFieldName(fieldname: string): string {
    StripPrefixWord(StripPrefixWord(WithoutSuffixes(fieldname), "remove"), "delete")
  }

  /** `gsub(/[_\s-]/, '').parameterize`, the form two names are compared in. */
  function FieldKey(s: string): string {
    Parameterize(RemoveFieldSeps(s))
  }

  /** `candidates.select { ... }.first`: the first candidate with the key. */
  function FirstWithKey(candidates: seq<string>, key: string): (r: Option<string>)
    ensures r.None? <==> forall i :: 0 <= i < |candidates| ==> FieldKey(candidates[i]) != key
    ensures r.Some? ==>
      exists i :: 0 <= i < |candidates| && candidates[i] == r.value && FieldKey(candidates[i]) == key &&
        forall j :: 0 <= j < i ==> FieldKey(candidates[j]) != key
  {
    if |candidates| == 0 then None
    else if FieldKey(candidates[0]) == key then Some(candidates[0])
    else
      var r := FirstWithKey(candidates[1..], key);
      FirstWithKeyShift(candidates, key, r);
      r
  }

  /** What the first match in `candidates[1..]` says about `candidates`,
      when `candidates[0]` does not match. */
  lemma FirstWithKeyShift(candidates: seq<string>, key: string, r: Option<string>)
    requires |candidates| > 0 && FieldKey(candidates[0]) != key
    requires r.None? <==> forall i :: 0 <= i < |candidates[1..]| ==> FieldKey(candidates[1..][i]) != key
    requires r.Some? ==>
      exists i :: 0 <= i < |candidates[1..]| && candidates[1..][i] == r.value && FieldKey(candidates[1..][i]) == key &&
        forall j :: 0 <= j < i ==> FieldKey(candidates[1..][j]) != key
    ensures r.None? <==> forall i :: 0 <= i < |candidates| ==> FieldKey(candidates[i]) != key
    ensures r.Some? ==>
      exists i :: 0 <= i < |candidates| && candidates[i] == r.value && FieldKey(candidates[i]) == key &&
        forall j :: 0 <= j < i ==> FieldKey(candidates[j]) != key
  {
    var tail := candidates[1..];
    assert forall i :: 1 <= i < |candidates| ==> candidates[i] == tail[i - 1];
    if r.Some? {
      var i :| 0 <= i < |tail| && tail[i] == r.value && FieldKey(tail[i]) == key &&
        forall j :: 0 <= j < i ==> FieldKey(tail[j]) != key;
      assert candidates[i + 1] == r.value && FieldKey(candidates[i + 1]) == key;
      assert forall j :: 0 <= j < i + 1 ==> FieldKey(candidates[j]) != key;
    }
  }

  /** `find_field_name`: the first work attribute, then schema field, whose
      key is the key of the header's base name; None stands for false. */
  function FindFieldName(schema: Schema, fieldname: string): Option<string> {
    FirstWithKey(schema.attributeNames + schema.fieldNames, FieldKey(BaseFieldName(fieldname)))
  }

  /** No letter of `word` after the first is a separator. */
  predicate PlainWord(word: string) {
    |word| > 0 && ('a' <= word[0] <= 'z') && forall k :: 0 <= k < |word| ==> !IsFieldSep(word[k])
  }

  /** Cutting a suffix from `p + n` touches only `n`, when `p` ends in a
      separator and `n` itself has no such suffix. */
  lemma StripSuffixAfterSeparator(p: string, n: string, word: string)
    requires PlainWord(word) && |p| > 0 && IsFieldSep(p[|p| - 1])
    requires StripSuffixWord(n, word) == n
    ensures StripSuffixWord(p + n, word) == p + n
  {
    var s := p + n;
    if |s| >= |word| {
      var w := s[|s| - |word|..];
      if |n| < |word| {
        var k := |word| - |n| - 1;
        assert w[k] == p[|p| - 1];
        if k == 0 {
          assert LowerChar(w[0]) == w[0];
        } else {
          assert w[1..][k - 1] == w[k];
          assert word[1..][k - 1] == word[k];
        }
      } else if |n| == |word| {
        assert w == n;
        assert StripSuffixWord(n, word) == n;
      } else {
        assert w == n[|n| - |word|..];
        assert StripSuffixWord(n, word) == n;
      }
      assert !MatchesWord(w, word);
    }
  }

  /** "Title Label", "title_label" and "title" name the same field. */
  lemma LabelColumnFindsBaseField(schema: Schema, n: string, sep: char, l: char)
    requires IsFieldSep(sep) && (l == 'l' || l == 'L')
    requires StripSuffixWord(n, "attributes") == n && StripSuffixWord(n, "label") == n
    ensures FindFieldName(schema, n + [sep, l] + "abel") == FindFieldName(schema, n)
  {
    var s := n + [sep, l] + "abel";
    assert StripSuffixWord(s, "attributes") == s by {
      if |s| >= 10 {
        assert s[|s| - 1] == 'l';
        assert s[|s| - 10..][9] == 'l';
      }
    }
    assert s[|s| - 5..] == [l] + "abel";
    assert s[..|s| - 5] == n + [sep];
    assert StripSuffixWord(s, "label") == n;
    assert WithoutSuffixes(s) == WithoutSuffixes(n);
  }

  /** A name behind a separator keeps the suffixes it does not have. */
  lemma SuffixesAfterSeparator(p: string, n: string)
    requires |p| > 0 && IsFieldSep(p[|p| - 1])
    requires WithoutSuffixes(n) == n
    ensures WithoutSuffixes(p + n) == p + n
  {
    assert PlainWord("attributes") && PlainWord("label");
    assert StripSuffixWord(n, "attributes") == n by {
      var a := StripSuffixWord(n, "attributes");
      assert |WithoutSuffixes(n)| <= |a| <= |n|;
      assert a == n[..|a|];
    }
    StripSuffixAfterSeparator(p, n, "attributes");
    StripSuffixAfterSeparator(p, n, "label");
  }

  /** "remove_title" and "title" name the same field. */
  lemma RemoveColumnFindsBaseField(schema: Schema, n: string, r: char, sep: char)
    requires IsFieldSep(sep) && (r == 'r' || r == 'R')
    requires WithoutSuffixes(n) == n && StripPrefixWord(n, "remove") == n
    ensures FindFieldName(schema, [r] + "emove" + [sep] + n) == FindFieldName(schema, n)
  {
    var p := [r] + "emove" + [sep];
    var s := p + n;
    SuffixesAfterSeparator(p, n);
    assert s[..6] == [r] + "emove";
    assert s[6..] == [sep] + n;
    assert StripPrefixWord(s, "remove") == n;
    assert BaseFieldName(s) == BaseFieldName(n);
    assert [r] + "emove" + [sep] + n == s;
  }

  // ---------------------------------------------------------------------
  // get_file_paths

  /** `File.join` of two parts: exactly one '/' at the joint. */
  function JoinPath(a: string, b: string): (r: string)
    ensures StartsWith(r, a)
  {
    if |a| > 0 && a[|a| - 1] == '/' && |b| > 0 && b[0] == '/' then a + b[1..]
    else if (|a| > 0 && a[|a| - 1] == '/') || (|b| > 0 && b[0] == '/') then a + b
    else a + "/" + b
  }

  function WithoutLeadingSlash(b: string): string {
    if |b| > 0 && b[0] == '/' then b[1..] else b
  }

  /** The directory every ingested file lives in: the media path joined with
      the operation's file prefix, if any. */
  function MediaDir(filePrefix: Option<string>): string {
    JoinPath(INGEST_MEDIA_PATH, Show(filePrefix))
  }

  /** `get_file_paths`: one path in the media directory per `;`-separated
      name. */
  function GetFilePaths(filePrefix: Option<string>, filestring: string): (r: seq<string>)
    ensures IsBlank(filestring) ==> r == []
    ensures !IsBlank(filestring) ==> |r| == |Split(filestring, CharIs(SEPARATOR))|
  {
    if IsBlank(filestring) then []
    else
      var names := Split(filestring, CharIs(SEPARATOR));
      seq(|names|, i requires 0 <= i < |names| => JoinPath(MediaDir(filePrefix), names[i]))
  }

  lemma JoinPathEnds(a: string, b: string)
    ensures EndsWith(JoinPath(a, b), WithoutLeadingSlash(b))
  {
    var r := JoinPath(a, b);
    var t := WithoutLeadingSlash(b);
    assert r[|r| - |t|..] == t;
  }

  /** Every path lies under "/dams_ingest/" and ends with the name it was
      made from, less a leading '/'. */
  lemma FilePathsShape(filePrefix: Option<string>, filestring: string, i: nat)
    requires !IsBlank(filestring) && i < |Split(filestring, CharIs(SEPARATOR))|
    ensures StartsWith(GetFilePaths(filePrefix, filestring)[i], INGEST_MEDIA_PATH + "/")
    ensures EndsWith(GetFilePaths(filePrefix, filestring)[i],
                     WithoutLeadingSlash(Split(filestring, CharIs(SEPARATOR))[i]))
  {
    var names := Split(filestring, CharIs(SEPARATOR));
    var d := MediaDir(filePrefix);
    assert StartsWith(d, INGEST_MEDIA_PATH + "/") by {
      var pre := Show(filePrefix);
      if |pre| > 0 && pre[0] == '/' {
        assert d == INGEST_MEDIA_PATH + pre;
        assert d[..|INGEST_MEDIA_PATH| + 1] == INGEST_MEDIA_PATH + "/";
      } else {
        assert d == INGEST_MEDIA_PATH + "/" + pre;
        assert d[..|INGEST_MEDIA_PATH| + 1] == INGEST_MEDIA_PATH + "/";
      }
    }
    var path := JoinPath(d, names[i]);
    assert GetFilePaths(filePrefix, filestring)[i] == path;
    assert path[..|d|] == d;
    assert path[..|INGEST_MEDIA_PATH| + 1] == d[..|INGEST_MEDIA_PATH| + 1];
    JoinPathEnds(d, names[i]);
  }

  /** `get_file_paths` as written. The block of line 59 reads
      `BulkOps::Operation::INGEST_MEDIA_PATH`, but the constant is defined in
      `BulkOps`, and a scoped lookup does not search the enclosing module,
      so the block raises NameError on the first name it maps. None stands
      for that exception. A blank cell, or one whose split keeps no name,
      never runs the block and gives no path. */
  function GetFilePathsAsWritten(filestring: string): (r: Option<seq<string>>)
    ensures r.Some? ==> r.value == []
  {
    if IsBlank(filestring) || Split(filestring, CharIs(SEPARATOR)) == [] then Some([]) else None
  }

  /** As written, `get_file_paths` raises exactly when the corrected one
      would give a path, and otherwise gives the same empty list. */
  lemma GetFilePathsAsWrittenRaises(filePrefix: Option<string>, filestring: string)
    ensures GetFilePathsAsWritten(filestring).None? <==> GetFilePaths(filePrefix, filestring) != []
    ensures GetFilePathsAsWritten(filestring).Some? ==>
              GetFilePathsAsWritten(filestring).value == GetFilePaths(filePrefix, filestring)
  {
  }

  // ---------------------------------------------------------------------
  // get_ref_id

  /** A cell that names the row's reference identifier: neither its header
      nor its value is blank, the value does not echo the header, and the
      header normalises like one of the reference-identifier spellings. */
  predicate IsRefIdCell(cell: (string, string)) {
    !IsBlank(cell.0) && !IsBlank(cell.1) && cell.0 != cell.1 &&
    exists k :: 0 <= k < |REFERENCE_IDENTIFIER_FIELDS| && NormField(REFERENCE_IDENTIFIER_FIELDS[k]) == NormField(cell.0)
  }

  /** A reference type as Ruby holds it: a string, or the symbol `:id`
      that `get_ref_id` falls back to, which equals no string. */
  datatype RefType = RefText(text: string) | IdSymbol

  /** `get_ref_id`: the value of the first reference-identifier cell,
      otherwise the operation's reference identifier, otherwise `:id`. */
  function GetRefId(row: Row, referenceIdentifier: Option<string>): (r: RefType)
    ensures forall i :: 0 <= i < |row| && IsRefIdCell(row[i]) && (forall j :: 0 <= j < i ==> !IsRefIdCell(row[j]))
              ==> r == RefText(row[i].1)
    ensures (forall i :: 0 <= i < |row| ==> !IsRefIdCell(row[i])) ==>
              r == (if referenceIdentifier.Some? then RefText(referenceIdentifier.value) else IdSymbol)
  {
    if |row| == 0 then (if referenceIdentifier.Some? then RefText(referenceIdentifier.value) else IdSymbol)
    else if IsRefIdCell(row[0]) then RefText(row[0].1)
    else
      assert forall i :: 1 <= i < |row| ==> row[i] == row[1..][i - 1];
      GetRefId(row[1..], referenceIdentifier)
  }

  // ---------------------------------------------------------------------
  // verify_column_headers

  /** A header the check accepts without a field of its own: its normalised
      form ends in "label" or is that of a special column, an ignored
      header or a work attribute. */
  predicate HeaderExempt(schema: Schema, ignored: seq<string>, header: string) {
    var redux := NormField(header);
    EndsWith(redux, "label") ||
    (exists k :: 0 <= k < |SPECIAL_COLUMNS| && NormField(SPECIAL_COLUMNS[k]) == redux) ||
    (exists k :: 0 <= k < |ignored| && NormField(ignored[k]) == redux) ||
    (exists k :: 0 <= k < |schema.attributeNames| && NormField(schema.attributeNames[k]) == redux)
  }

  predicate IsBadHeader(schema: Schema, ignored: seq<string>, header: string) {
    !IsBlank(header) && !HeaderExempt(schema, ignored, header)
  }

  function BadHeaderError(header: string): Error {
    NewError("bad_header", None, None, None, None, None, Some(header), None, None)
  }

  /** The errors `verify_column_headers` appends for `headers`, in order. */
  function HeaderErrors(schema: Schema, ignored: seq<string>, headers: seq<string>): (r: seq<Error>)
    ensures |r| <= |headers|
    ensures forall e :: e in r ==> e.kind == "bad_header" && e.field.Some? && e.field.value in headers &&
                                   IsBadHeader(schema, ignored, e.field.value)
  {
    if |headers| == 0 then []
    else
      var h := headers[|headers| - 1];
      HeaderErrors(schema, ignored, headers[..|headers| - 1])
      + (if IsBadHeader(schema, ignored, h) then [BadHeaderError(h)] else [])
  }

  /** Every non-blank header that is not exempt gets its `bad_header`. */
  lemma {:induction false} HeaderErrorsComplete(schema: Schema, ignored: seq<string>, headers: seq<string>, i: nat)
    requires i < |headers| && IsBadHeader(schema, ignored, headers[i])
    ensures BadHeaderError(headers[i]) in HeaderErrors(schema, ignored, headers)
    decreases |headers|
  {
    var init := headers[..|headers| - 1];
    if i < |headers| - 1 {
      assert init[i] == headers[i];
      HeaderErrorsComplete(schema, ignored, init, i);
    }
  }

  /** A header the loop of `verify_column_headers` passes over before it
      reaches line 123: a blank one, or one whose normalised form ends in
      "label". */
  predicate HeaderSkippedEarly(header: string) {
    IsBlank(header) || EndsWith(NormField(header), "label")
  }

  /** `verify_column_headers` as written. Line 123 reads
      `BulkOps::Operation::SPECIAL_COLUMNS`, a constant of `BulkOps` that
      `BulkOps::Operation` does not have, so it raises NameError. The loop
      therefore stops at the first header it does not pass over early, and
      no `bad_header` is ever appended. The result is the index of that
      header, or None when the loop finishes. */
  function HeaderRaiseAsWritten(headers: seq<string>): (r: Option<nat>)
    ensures r.None? <==> forall i :: 0 <= i < |headers| ==> HeaderSkippedEarly(headers[i])
    ensures r.Some? ==> r.value < |headers| && !HeaderSkippedEarly(headers[r.value]) &&
                        forall i :: 0 <= i < r.value ==> HeaderSkippedEarly(headers[i])
  {
    if |headers| == 0 then None
    else if !HeaderSkippedEarly(headers[0]) then Some(0)
    else
      var rest := HeaderRaiseAsWritten(headers[1..]);
      assert forall i :: 1 <= i < |headers| ==> headers[i] == headers[1..][i - 1];
      if rest.None? then None else Some(rest.value + 1)
  }

  /** As written, a header that is neither blank nor a label makes the
      header check raise, at that header or at an earlier one. */
  lemma NonLabelHeaderRaisesAsWritten(headers: seq<string>, i: nat)
    requires i < |headers| && !HeaderSkippedEarly(headers[i])
    ensures HeaderRaiseAsWritten(headers).Some? && HeaderRaiseAsWritten(headers).value <= i
  {
  }

  /** The header `parent` names a special column. The corrected check
      accepts it, while as written the check raises on it. */
  lemma SpecialHeaderRaisesAsWritten(schema: Schema, ignored: seq<string>)
    ensures HeaderRaiseAsWritten(["parent"]) == Some(0)
    ensures HeaderErrors(schema, ignored, ["parent"]) == []
  {
    var h := "parent";
    assert forall i :: 0 <= i < |h| ==> IsLowerAlnum(h[i]);
    NormFieldIsLowerAlnum(h);
    LowerOfLowerAlnum(h);
    KeepAlnumFixed(h);
    assert NormField(SPECIAL_COLUMNS[0]) == NormField(h);
    assert h[1] != "label"[0];
  }

  // ---------------------------------------------------------------------
  // verify_remote_urls

  /** `cannot_retrieve_label` for `url` in `field` on data row `rowNum`. */
  function LabelError(rowNum: nat, field: string, url: string): Error {
    NewError("cannot_retrieve_label", Some(rowNum + ROW_OFFSET), None, None, None, None, Some(field), Some(url), None)
  }

  /** A url fails when no label comes back for it and the field has no
      local vocabulary to fall back on. */
  predicate UrlFails(schema: Schema, labelFound: string -> bool, field: string, url: string) {
    !labelFound(url) && field !in schema.localAuthority
  }

  function UrlsOf(row: Row, field: string): seq<string> {
    Split(Cell(row, field), CharIs(SEPARATOR))
  }

  /** The errors for the first `k` urls of `field` on row `rowNum`. */
  function FieldUrlErrors(schema: Schema, labelFound: string -> bool, rowNum: nat, field: string,
                          urls: seq<string>): (r: seq<Error>)
    ensures forall e :: e in r ==> e.kind == "cannot_retrieve_label" && e.rowNumber == Some(rowNum + ROW_OFFSET) &&
                                   e.field == Some(field) && e.url.Some? && e.url.value in urls &&
                                   UrlFails(schema, labelFound, field, e.url.value)
  {
    if |urls| == 0 then []
    else
      var u := urls[|urls| - 1];
      FieldUrlErrors(schema, labelFound, rowNum, field, urls[..|urls| - 1])
      + (if UrlFails(schema, labelFound, field, u) then [LabelError(rowNum, field, u)] else [])
  }

  /** The errors for row `rowNum` over the controlled fields `fields`. */
  function RowUrlErrors(schema: Schema, labelFound: string -> bool, rowNum: nat, row: Row,
                        fields: seq<string>): (r: seq<Error>)
    ensures forall e :: e in r ==> e.kind == "cannot_retrieve_label" && e.rowNumber == Some(rowNum + ROW_OFFSET) &&
                                   e.field.Some? && e.field.value in fields && e.url.Some? &&
                                   e.url.value in UrlsOf(row, e.field.value) &&
                                   UrlFails(schema, labelFound, e.field.value, e.url.value)
  {
    if |fields| == 0 then []
    else
      var f := fields[|fields| - 1];
      RowUrlErrors(schema, labelFound, rowNum, row, fields[..|fields| - 1])
      + FieldUrlErrors(schema, labelFound, rowNum, f, UrlsOf(row, f))
  }

  /** The errors `verify_remote_urls` appends for `rows`, row by row. */
  function UrlErrors(schema: Schema, labelFound: string -> bool, rows: seq<Row>): (r: seq<Error>)
    ensures forall e :: e in r ==>
      e.kind == "cannot_retrieve_label" && e.rowNumber.Some? &&
      0 <= e.rowNumber.value - ROW_OFFSET < |rows| && e.field.Some? && e.field.value in schema.controlled &&
      e.url.Some? && e.url.value in UrlsOf(rows[e.rowNumber.value - ROW_OFFSET], e.field.value) &&
      UrlFails(schema, labelFound, e.field.value, e.url.value)
  {
    if |rows| == 0 then []
    else
      var init := rows[..|rows| - 1];
      var rest := UrlErrors(schema, labelFound, init);
      assert forall k :: 0 <= k < |init| ==> init[k] == rows[k];
      rest + RowUrlErrors(schema, labelFound, |rows| - 1, rows[|rows| - 1], schema.controlled)
  }

  /** Every failing url of a controlled field gets its error. */
  lemma {:induction false} FieldUrlErrorsComplete(schema: Schema, labelFound: string -> bool, rowNum: nat,
                                                  field: string, urls: seq<string>, k: nat)
    requires k < |urls| && UrlFails(schema, labelFound, field, urls[k])
    ensures LabelError(rowNum, field, urls[k]) in FieldUrlErrors(schema, labelFound, rowNum, field, urls)
    decreases |urls|
  {
    var init := urls[..|urls| - 1];
    if k < |urls| - 1 {
      assert init[k] == urls[k];
      FieldUrlErrorsComplete(schema, labelFound, rowNum, field, init, k);
    }
  }

  lemma {:induction false} RowUrlErrorsComplete(schema: Schema, labelFound: string -> bool, rowNum: nat, row: Row,
                                                fields: seq<string>, j: nat, k: nat)
    requires j < |fields| && k < |UrlsOf(row, fields[j])| && UrlFails(schema, labelFound, fields[j], UrlsOf(row, fields[j])[k])
    ensures LabelError(rowNum, fields[j], UrlsOf(row, fields[j])[k]) in RowUrlErrors(schema, labelFound, rowNum, row, fields)
    decreases |fields|
  {
    var init := fields[..|fields| - 1];
    if j < |fields| - 1 {
      assert init[j] == fields[j];
      RowUrlErrorsComplete(schema, labelFound, rowNum, row, init, j, k);
    } else {
      FieldUrlErrorsComplete(schema, labelFound, rowNum, fields[j], UrlsOf(row, fields[j]), k);
    }
  }

  /** Every url of a controlled field that neither resolves nor has a local
      vocabulary is reported with its row, field and url. */
  lemma {:induction false} UrlErrorsComplete(schema: Schema, labelFound: string -> bool, rows: seq<Row>,
                                             i: nat, j: nat, k: nat)
    requires i < |rows| && j < |schema.controlled|
    requires k < |UrlsOf(rows[i], schema.controlled[j])|
    requires UrlFails(schema, labelFound, schema.controlled[j], UrlsOf(rows[i], schema.controlled[j])[k])
    ensures LabelError(i, schema.controlled[j], UrlsOf(rows[i], schema.controlled[j])[k])
            in UrlErrors(schema, labelFound, rows)
    decreases |rows|
  {
    var init := rows[..|rows| - 1];
    if i < |rows| - 1 {
      assert init[i] == rows[i];
      UrlErrorsComplete(schema, labelFound, init, i, j, k);
    } else {
      RowUrlErrorsComplete(schema, labelFound, i, rows[i], schema.controlled, j, k);
    }
  }

  // ---------------------------------------------------------------------
  // verify_files

  function MissingFileError(path: string): Error {
    NewError("cannot_find_file", None, None, None, None, None, None, None, Some(path))
  }

  /** The paths among `paths` that `fileExists` does not find, as errors. */
  function PathErrors(fileExists: string -> bool, paths: seq<string>): (r: seq<Error>)
    ensures forall e :: e in r ==> e.kind == "cannot_find_file" && e.file.Some? && e.file.value in paths &&
                                   !fileExists(e.file.value)
  {
    if |paths| == 0 then []
    else
      var p := paths[|paths| - 1];
      PathErrors(fileExists, paths[..|paths| - 1]) + (if fileExists(p) then [] else [MissingFileError(p)])
  }

  /** A cell whose files are checked: under a file column, not blank and
      not an echo of its header. */
  predicate IsFileCell(schema: Schema, cell: (string, string)) {
    IsFileField(schema, cell.0) != NotFile && !IsBlank(cell.1) && cell.0 != cell.1
  }

  /** The errors for the cells `cells` of one row, cell by cell. */
  function CellsFileErrors(schema: Schema, filePrefix: Option<string>, fileExists: string -> bool,
                           cells: Row): (r: seq<Error>)
    ensures forall e :: e in r ==> e.kind == "cannot_find_file" && e.file.Some? && !fileExists(e.file.value)
  {
    if |cells| == 0 then []
    else
      var c := cells[|cells| - 1];
      CellsFileErrors(schema, filePrefix, fileExists, cells[..|cells| - 1])
      + (if IsFileCell(schema, c) then PathErrors(fileExists, GetFilePaths(filePrefix, c.1)) else [])
  }

  /** The errors `verify_files` returns for `rows`, row by row. */
  function FileErrors(schema: Schema, filePrefix: Option<string>, fileExists: string -> bool,
                      rows: seq<Row>): (r: seq<Error>)
    ensures forall e :: e in r ==> e.kind == "cannot_find_file" && e.file.Some? && !fileExists(e.file.value)
  {
    if |rows| == 0 then []
    else
      FileErrors(schema, filePrefix, fileExists, rows[..|rows| - 1])
      + CellsFileErrors(schema, filePrefix, fileExists, rows[|rows| - 1])
  }

  lemma {:induction false} PathErrorsComplete(fileExists: string -> bool, paths: seq<string>, k: nat)
    requires k < |paths| && !fileExists(paths[k])
    ensures MissingFileError(paths[k]) in PathErrors(fileExists, paths)
    decreases |paths|
  {
    var init := paths[..|paths| - 1];
    if k < |paths| - 1 {
      assert init[k] == paths[k];
      PathErrorsComplete(fileExists, init, k);
    }
  }

  lemma {:induction false} CellsFileErrorsComplete(schema: Schema, filePrefix: Option<string>,
                                                   fileExists: string -> bool, cells: Row, j: nat, k: nat)
    requires j < |cells| && IsFileCell(schema, cells[j])
    requires k < |GetFilePaths(filePrefix, cells[j].1)| && !fileExists(GetFilePaths(filePrefix, cells[j].1)[k])
    ensures MissingFileError(GetFilePaths(filePrefix, cells[j].1)[k]) in CellsFileErrors(schema, filePrefix, fileExists, cells)
    decreases |cells|
  {
    var init := cells[..|cells| - 1];
    if j < |cells| - 1 {
      assert init[j] == cells[j];
      CellsFileErrorsComplete(schema, filePrefix, fileExists, init, j, k);
    } else {
      PathErrorsComplete(fileExists, GetFilePaths(filePrefix, cells[j].1), k);
    }
  }

  /** Every path named in a file column of some row that does not exist is
      reported. */
  lemma {:induction false} FileErrorsComplete(schema: Schema, filePrefix: Option<string>, fileExists: string -> bool,
                                              rows: seq<Row>, i: nat, j: nat, k: nat)
    requires i < |rows| && j < |rows[i]| && IsFileCell(schema, rows[i][j])
    requires k < |GetFilePaths(filePrefix, rows[i][j].1)| && !fileExists(GetFilePaths(filePrefix, rows[i][j].1)[k])
    ensures MissingFileError(GetFilePaths(filePrefix, rows[i][j].1)[k]) in FileErrors(schema, filePrefix, fileExists, rows)
    decreases |rows|
  {
    var init := rows[..|rows| - 1];
    if i < |rows| - 1 {
      assert init[i] == rows[i];
      FileErrorsComplete(schema, filePrefix, fileExists, init, i, j, k);
    } else {
      CellsFileErrorsComplete(schema, filePrefix, fileExists, rows[i], j, k);
    }
  }

  /** The inner loop of `verify_files` over one cell's paths. */
  method CollectPathErrors(fileExists: string -> bool, paths: seq<string>) returns (r: seq<Error>)
    ensures r == PathErrors(fileExists, paths)
  {
    r := [];
    var k := 0;
    while k < |paths|
      invariant 0 <= k <= |paths|
      invariant r == PathErrors(fileExists, paths[..k])
    {
      assert paths[..k + 1][..k] == paths[..k];
      if !fileExists(paths[k]) {
        r := r + [MissingFileError(paths[k])];
      }
      k := k + 1;
    }
    assert paths[..k] == paths;
  }

  /** The loop of `verify_files` over the file cells of one row. */
  method CollectRowFileErrors(schema: Schema, filePrefix: Option<string>, fileExists: string -> bool, row: Row)
    returns (r: seq<Error>)
    ensures r == CellsFileErrors(schema, filePrefix, fileExists, row)
  {
    r := [];
    var j := 0;
    while j < |row|
      invariant 0 <= j <= |row|
      invariant r == CellsFileErrors(schema, filePrefix, fileExists, row[..j])
    {
      assert row[..j + 1][..j] == row[..j];
      if IsFileCell(schema, row[j]) {
        var more := CollectPathErrors(fileExists, GetFilePaths(filePrefix, row[j].1));
        r := r + more;
      }
      j := j + 1;
    }
    assert row[..j] == row;
  }

  /** The inner loop of `verify_remote_urls` over one field's urls. */
  method CollectFieldUrlErrors(schema: Schema, labelFound: string -> bool, rowNum: nat, field: string,
                               urls: seq<string>) returns (r: seq<Error>)
    ensures r == FieldUrlErrors(schema, labelFound, rowNum, field, urls)
  {
    r := [];
    var k := 0;
    while k < |urls|
      invariant 0 <= k <= |urls|
      invariant r == FieldUrlErrors(schema, labelFound, rowNum, field, urls[..k])
    {
      assert urls[..k + 1][..k] == urls[..k];
      if !labelFound(urls[k]) && field !in schema.localAuthority {
        r := r + [LabelError(rowNum, field, urls[k])];
      }
      k := k + 1;
    }
    assert urls[..k] == urls;
  }

  /** The loop of `verify_remote_urls` over the controlled fields of one row. */
  method CollectRowUrlErrors(schema: Schema, labelFound: string -> bool, rowNum: nat, row: Row)
    returns (r: seq<Error>)
    ensures r == RowUrlErrors(schema, labelFound, rowNum, row, schema.controlled)
  {
    r := [];
    var j := 0;
    while j < |schema.controlled|
      invariant 0 <= j <= |schema.controlled|
      invariant r == RowUrlErrors(schema, labelFound, rowNum, row, schema.controlled[..j])
    {
      assert schema.controlled[..j + 1][..j] == schema.controlled[..j];
      var field := schema.controlled[j];
      var more := CollectFieldUrlErrors(schema, labelFound, rowNum, field, UrlsOf(row, field));
      r := r + more;
      j := j + 1;
    }
    assert schema.controlled[..j] == schema.controlled;
  }

  // ---------------------------------------------------------------------
  // verify_internal_references and verify_works_to_update

  /** The `bad_object_reference` error the reference check appends for the
      row at index `rowNum`, naming the object `obj`. */
  function BadReferenceError(rowNum: nat, obj: string): Error {
    NewError("bad_object_reference", Some(rowNum + ROW_OFFSET), Some(obj), None, None, None, None, None, None)
  }

  /** Errors to prepend to an outcome that may be an exception (`None`). */
  function Prepend(found: seq<Error>, rest: Option<seq<Error>>): Option<seq<Error>> {
    match rest
    case None => None
    case Some(more) => Some(found + more)
  }

  lemma PrependNothing(rest: Option<seq<Error>>)
    ensures Prepend([], rest) == rest
  {
    if rest.Some? {
      assert [] + rest.value == rest.value;
    }
  }

  /** `Prepend` twice is `Prepend` of both. */
  lemma PrependTwice(found: seq<Error>, here: seq<Error>, rest: Option<seq<Error>>)
    ensures Prepend(found, Prepend(here, rest)) == Prepend(found + here, rest)
  {
    if rest.Some? {
      assert found + (here + rest.value) == found + here + rest.value;
    }
  }

  /** One relationship column of `verify_internal_references`, for the row
      at index `rowNum` under the reference type `refId`: the reference type
      for the following columns (a `type:` prefix replaces it) and the
      errors the column appends, `None` when it raises. A blank cell is
      skipped. A `row` reference raises: the argument of `is_a?` swallows
      the whole condition and compares the string object id with 0. A
      missing `id` or `hyrax id` record appends a `bad_object_reference`
      at `row_num + ROW_OFFSET`. Any other reference is ignored. */
  function ReferenceStep(row: Row, rowNum: nat, refId: RefType, recordExists: string -> bool, col: string)
    : (r: (RefType, Option<seq<Error>>))
    ensures Cell(row, col) == "" ==> r == (refId, Some([]))
    ensures r.1.None? <==> Cell(row, col) != "" && r.0 == RefText("row")
    ensures r.1.Some? ==> |r.1.value| <= 1 && forall e :: e in r.1.value ==>
      e.kind == "bad_object_reference" && e.rowNumber == Some(rowNum + ROW_OFFSET) &&
      e.objectId.Some? && !recordExists(e.objectId.value)
  {
    var obj := Cell(row, col);
    if obj == "" then (refId, Some([]))
    else
      var parts := Split(obj, CharIs(':'));
      var ref := if |parts| == 2 then RefText(Lower(parts[0])) else refId;
      var target := if |parts| == 2 then parts[1] else obj;
      if ref == RefText("row") then (ref, None)
      else if (ref == RefText("id") || ref == RefText("hyrax id")) && !recordExists(target) then
        (ref, Some([BadReferenceError(rowNum, target)]))
      else (ref, Some([]))
  }

  /** The reference check of `verify_internal_references` over the
      relationship columns `cols` of the row at index `rowNum`, with the
      rows enumerated by `each_with_index` as the other checks do, so that
      `row_num` is that index (as written the block splats each row, see
      `InternalReferencesAsWritten`). `None` is an exception. */
  function ReferenceErrors(row: Row, rowNum: nat, refId: RefType, recordExists: string -> bool, cols: seq<string>)
    : (r: Option<seq<Error>>)
    ensures r.Some? ==> forall e :: e in r.value ==>
      e.kind == "bad_object_reference" && e.rowNumber == Some(rowNum + ROW_OFFSET) &&
      e.objectId.Some? && !recordExists(e.objectId.value)
    decreases |cols|
  {
    if |cols| == 0 then Some([])
    else
      var (ref, here) := ReferenceStep(row, rowNum, refId, recordExists, cols[0]);
      match here
      case None => None
      case Some(found) => Prepend(found, ReferenceErrors(row, rowNum, ref, recordExists, cols[1..]))
  }

  /** The column loop of `verify_internal_references` for one row. */
  method CheckRowReferences(row: Row, rowNum: nat, refId: RefType, recordExists: string -> bool, cols: seq<string>)
    returns (r: Option<seq<Error>>)
    ensures r == ReferenceErrors(row, rowNum, refId, recordExists, cols)
  {
    var found: seq<Error> := [];
    var ref := refId;
    var j := 0;
    assert cols[0..] == cols;
    PrependNothing(ReferenceErrors(row, rowNum, ref, recordExists, cols));
    while j < |cols|
      invariant 0 <= j <= |cols|
      invariant ReferenceErrors(row, rowNum, refId, recordExists, cols)
                == Prepend(found, ReferenceErrors(row, rowNum, ref, recordExists, cols[j..]))
    {
      assert cols[j..][1..] == cols[j + 1..];
      var (next, here) := ReferenceStep(row, rowNum, ref, recordExists, cols[j]);
      if here.None? {
        return None;
      }
      PrependTwice(found, here.value, ReferenceErrors(row, rowNum, next, recordExists, cols[j + 1..]));
      found := found + here.value;
      ref := next;
      j := j + 1;
    }
    assert cols[j..] == [] && found + [] == found;
    return Some(found);
  }

  /** The fallback `:id` matches neither the row nor the id branch, so
      references without a `type:` prefix are ignored under it, whatever
      the repository holds. */
  lemma {:induction false} SymbolReferencesIgnored(row: Row, rowNum: nat, recordExists: string -> bool, cols: seq<string>)
    requires forall k :: 0 <= k < |cols| ==> |Split(Cell(row, cols[k]), CharIs(':'))| != 2
    ensures ReferenceErrors(row, rowNum, IdSymbol, recordExists, cols) == Some([])
    decreases |cols|
  {
    if |cols| > 0 {
      assert forall k :: 0 <= k < |cols[1..]| ==> cols[1..][k] == cols[k + 1];
      SymbolReferencesIgnored(row, rowNum, recordExists, cols[1..]);
      PrependNothing(Some([]));
    }
  }

  /** A relationship cell `id:<x>` whose record does not exist is reported,
      unless the row raises. */
  lemma {:induction false} MissingRecordReported(row: Row, rowNum: nat, refId: RefType, recordExists: string -> bool,
                                                 cols: seq<string>, k: nat)
    requires k < |cols|
    requires var parts := Split(Cell(row, cols[k]), CharIs(':'));
             |parts| == 2 && Lower(parts[0]) == "id" && !recordExists(parts[1])
    requires ReferenceErrors(row, rowNum, refId, recordExists, cols).Some?
    ensures BadReferenceError(rowNum, Split(Cell(row, cols[k]), CharIs(':'))[1])
              in ReferenceErrors(row, rowNum, refId, recordExists, cols).value
    decreases |cols|
  {
    if k > 0 {
      var ref := ReferenceStep(row, rowNum, refId, recordExists, cols[0]).0;
      assert cols[1..][k - 1] == cols[k];
      MissingRecordReported(row, rowNum, ref, recordExists, cols[1..], k - 1);
    }
  }

  /** The reference check of the row at index `rowNum`, under the
      reference type `get_ref_id` gives it. */
  function RowReferenceErrors(row: Row, rowNum: nat, referenceIdentifier: Option<string>, recordExists: string -> bool)
    : Option<seq<Error>>
  {
    ReferenceErrors(row, rowNum, GetRefId(row, referenceIdentifier), recordExists, RELATIONSHIP_COLUMNS)
  }

  /** The reference check raises at the row at index `rowNum`. */
  predicate RowReferencesRaise(row: Row, rowNum: nat, referenceIdentifier: Option<string>, recordExists: string -> bool) {
    RowReferenceErrors(row, rowNum, referenceIdentifier, recordExists).None?
  }

  /** `verify_internal_references` raises at some row. */
  predicate InternalReferencesRaise(rows: seq<Row>, referenceIdentifier: Option<string>, recordExists: string -> bool) {
    exists i :: 0 <= i < |rows| && RowReferencesRaise(rows[i], i, referenceIdentifier, recordExists)
  }

  /** The errors `verify_internal_references` appends over `rows`, in row
      order, or `None` when it raises. */
  function InternalReferenceErrors(rows: seq<Row>, referenceIdentifier: Option<string>, recordExists: string -> bool)
    : (r: Option<seq<Error>>)
    ensures r.Some? ==> forall e :: e in r.value ==>
      e.kind == "bad_object_reference" && e.rowNumber.Some? && 0 <= e.rowNumber.value - ROW_OFFSET < |rows| &&
      e.objectId.Some? && !recordExists(e.objectId.value)
  {
    if |rows| == 0 then Some([])
    else
      var init := rows[..|rows| - 1];
      var last := |rows| - 1;
      assert forall k :: 0 <= k < |init| ==> init[k] == rows[k];
      match InternalReferenceErrors(init, referenceIdentifier, recordExists)
      case None => None
      case Some(earlier) =>
        Prepend(earlier, RowReferenceErrors(rows[last], last, referenceIdentifier, recordExists))
  }

  /** One more row: its errors follow the earlier rows', unless one of
      them raises. */
  lemma InternalReferenceErrorsSnoc(rows: seq<Row>, i: nat, referenceIdentifier: Option<string>,
                                    recordExists: string -> bool)
    requires i < |rows|
    ensures InternalReferenceErrors(rows[..i + 1], referenceIdentifier, recordExists) ==
      match InternalReferenceErrors(rows[..i], referenceIdentifier, recordExists)
      case None => None
      case Some(earlier) => Prepend(earlier, RowReferenceErrors(rows[i], i, referenceIdentifier, recordExists))
  {
    assert rows[..i + 1][..i] == rows[..i];
  }

  /** The check raises exactly when some row raises. */
  lemma {:induction false} InternalReferencesRaiseExactly(rows: seq<Row>, referenceIdentifier: Option<string>,
                                                          recordExists: string -> bool)
    ensures InternalReferenceErrors(rows, referenceIdentifier, recordExists).None?
            <==> InternalReferencesRaise(rows, referenceIdentifier, recordExists)
    decreases |rows|
  {
    if |rows| > 0 {
      var init := rows[..|rows| - 1];
      assert forall k :: 0 <= k < |init| ==> init[k] == rows[k];
      var last := |rows| - 1;
      InternalReferencesRaiseExactly(init, referenceIdentifier, recordExists);
      assert InternalReferenceErrors(rows, referenceIdentifier, recordExists).None? <==>
        InternalReferenceErrors(init, referenceIdentifier, recordExists).None? ||
        RowReferencesRaise(rows[last], last, referenceIdentifier, recordExists);
      if InternalReferencesRaise(init, referenceIdentifier, recordExists) {
        var i :| 0 <= i < |init| && RowReferencesRaise(init[i], i, referenceIdentifier, recordExists);
        assert rows[i] == init[i];
        assert InternalReferencesRaise(rows, referenceIdentifier, recordExists);
      } else if RowReferencesRaise(rows[last], last, referenceIdentifier, recordExists) {
        assert InternalReferencesRaise(rows, referenceIdentifier, recordExists);
      } else {
        forall i | 0 <= i < |rows|
          ensures !RowReferencesRaise(rows[i], i, referenceIdentifier, recordExists)
        {
          if i < last {
            assert !RowReferencesRaise(init[i], i, referenceIdentifier, recordExists);
            assert rows[i] == init[i];
          } else {
            assert i == last;
          }
        }
      }
    }
  }

  /** With no reference identifier in the row or the operation, a sheet
      whose relationship cells carry no `type:` prefix passes the reference
      check without an error. */
  lemma {:induction false} UnprefixedReferencesIgnored(rows: seq<Row>, recordExists: string -> bool)
    requires forall i :: 0 <= i < |rows| ==> forall j :: 0 <= j < |rows[i]| ==> !IsRefIdCell(rows[i][j])
    requires forall i, k :: 0 <= i < |rows| && 0 <= k < |RELATIONSHIP_COLUMNS| ==>
               |Split(Cell(rows[i], RELATIONSHIP_COLUMNS[k]), CharIs(':'))| != 2
    ensures InternalReferenceErrors(rows, None, recordExists) == Some([])
    decreases |rows|
  {
    if |rows| > 0 {
      var init := rows[..|rows| - 1];
      var last := |rows| - 1;
      assert forall k :: 0 <= k < |init| ==> init[k] == rows[k];
      UnprefixedReferencesIgnored(init, recordExists);
      assert GetRefId(rows[last], None) == IdSymbol;
      SymbolReferencesIgnored(rows[last], last, recordExists, RELATIONSHIP_COLUMNS);
    }
  }

  /** `verify_internal_references` as written, once the constant at line
      193 is read from `BulkOps`: whether it raises. `each` over the
      `CSV::Table` yields each `CSV::Row`, which answers `to_ary`, so the
      two-parameter block splats it: `row` is the row's first [header,
      field] pair and `row_num` the second. `get_ref_id` finds no
      identifier in a pair, and `row[relationship]` is then `Array#[]` with
      a String, which raises TypeError (on the nil of a row without cells,
      NoMethodError). The first row raises, whatever it holds. */
  predicate InternalReferencesAsWritten(rows: seq<Row>) {
    |rows| > 0
  }

  /** A sheet with the headers `title` and `parent` and the one row `A,`:
      as written the reference check raises, while with the rows
      enumerated it passes without an error. */
  lemma SplatRaisesAsWritten(recordExists: string -> bool, referenceIdentifier: Option<string>)
    ensures var rows := [[("title", "A"), ("parent", "")]];
      InternalReferencesAsWritten(rows) && InternalReferenceErrors(rows, referenceIdentifier, recordExists) == Some([])
  {
    var row := [("title", "A"), ("parent", "")];
    assert Cell(row, "parent") == "";
    assert Cell(row, "child") == "";
    assert Cell(row, "next") == "";
    var g := GetRefId(row, referenceIdentifier);
    assert RELATIONSHIP_COLUMNS[1..] == ["child", "next"] && ["child", "next"][1..] == ["next"] && ["next"][1..] == [];
    PrependNothing(Some([]));
    assert ReferenceErrors(row, 0, g, recordExists, ["next"]) == Some([]);
    assert ReferenceErrors(row, 0, g, recordExists, ["child", "next"]) == Some([]);
    assert ReferenceErrors(row, 0, g, recordExists, RELATIONSHIP_COLUMNS) == Some([]);
    var rows := [row];
    assert rows[..0] == [];
  }

  /** A parent `id:<x>` whose record is missing: the intended check
      reports it as a `bad_object_reference` on row 2, where the as-written
      one raises at the row. */
  lemma MissingParentReported(recordExists: string -> bool, referenceIdentifier: Option<string>, x: string)
    requires x != "" && ':' !in x && !recordExists(x)
    ensures var rows := [[("parent", "id:" + x)]];
      InternalReferencesAsWritten(rows) &&
      InternalReferenceErrors(rows, referenceIdentifier, recordExists) == Some([BadReferenceError(0, x)])
  {
    var obj := "id:" + x;
    var row := [("parent", obj)];
    assert Cell(row, "parent") == obj;
    assert Cell(row, "child") == "";
    assert Cell(row, "next") == "";
    assert Pieces(obj, CharIs(':')) == ["id", x] by {
      PiecesOneSep("id", x, ':');
      assert "id" + [':'] + x == obj;
    }
    assert Split(obj, CharIs(':')) == ["id", x];
    assert Lower("id") == "id";
    var id := RefText("id");
    assert RELATIONSHIP_COLUMNS[1..] == ["child", "next"] && ["child", "next"][1..] == ["next"] && ["next"][1..] == [];
    PrependNothing(Some([]));
    assert ReferenceErrors(row, 0, id, recordExists, ["next"]) == Some([]);
    assert ReferenceErrors(row, 0, id, recordExists, ["child", "next"]) == Some([]);
    var g := GetRefId(row, referenceIdentifier);
    var bad := BadReferenceError(0, x);
    assert ReferenceStep(row, 0, g, recordExists, "parent") == (id, Some([bad]));
    assert [bad] + [] == [bad];
    assert ReferenceErrors(row, 0, g, recordExists, RELATIONSHIP_COLUMNS) == Some([bad]);
    var rows := [row];
    assert rows[..0] == [];
    PrependNothing(Some([bad]));
  }

  /** The result of `verify`: its boolean, or an exception. */
  datatype Outcome = Returned(ok: bool) | Raised

  /** A row-typed parent reference always makes the check raise. */
  lemma RowReferenceRaises(row: Row, rowNum: nat, refId: RefType, recordExists: string -> bool, target: string)
    requires |row| > 0 && row[0] == ("parent", "row:" + target) && target != "" && ':' !in target
    ensures ReferenceErrors(row, rowNum, refId, recordExists, RELATIONSHIP_COLUMNS).None?
  {
    var obj := "row:" + target;
    assert Cell(row, "parent") == obj;
    assert obj[3] == ':';
    assert forall k :: 0 <= k < 3 ==> obj[k] != ':';
    assert forall k :: 4 <= k < |obj| ==> obj[k] == target[k - 4];
    assert Pieces(obj, CharIs(':')) == ["row", target] by {
      PiecesOneSep("row", target, ':');
      assert "row" + [':'] + target == obj;
    }
    assert Split(obj, CharIs(':')) == ["row", target];
    assert Lower("row") == "row";
  }

  // ---------------------------------------------------------------------
  // The verifier

  /** The verification state of an operation: its accumulated
      `@verification_errors`, and what the checks read. */
  class Verifier {
    var errors: seq<Error>
    const schema: Schema
    const options: Options

    constructor (schema: Schema, options: Options)
      ensures this.schema == schema && this.options == options && errors == []
    {
      this.schema := schema;
      this.options := options;
      errors := [];
    }

    /** `verify_column_headers`. */
    method VerifyColumnHeaders(headers: seq<string>)
      modifies this
      ensures errors == old(errors) + HeaderErrors(schema, options.ignoredHeaders, headers)
    {
      var i := 0;
      while i < |headers|
        invariant 0 <= i <= |headers|
        invariant errors == old(errors) + HeaderErrors(schema, options.ignoredHeaders, headers[..i])
      {
        assert headers[..i + 1][..i] == headers[..i];
        var h := headers[i];
        if !IsBlank(h) && !HeaderExempt(schema, options.ignoredHeaders, h) {
          errors := errors + [BadHeaderError(h)];
        }
        i := i + 1;
      }
      assert headers[..i] == headers;
    }

    /** `verify_column_headers` as written: it appends nothing, and it
        raises at the first header that is neither blank nor a label. */
    method VerifyColumnHeadersAsWritten(headers: seq<string>) returns (raised: bool)
      ensures raised <==> HeaderRaiseAsWritten(headers).Some?
    {
      var i := 0;
      while i < |headers|
        invariant 0 <= i <= |headers|
        invariant forall j :: 0 <= j < i ==> HeaderSkippedEarly(headers[j])
      {
        var h := headers[i];
        if !IsBlank(h) && !EndsWith(NormField(h), "label") {
          return true;
        }
        i := i + 1;
      }
      return false;
    }

    /** `verify_remote_urls`; `labelFound` stands for a successful
        `fetch_remote_label`. */
    method VerifyRemoteUrls(rows: seq<Row>, labelFound: string -> bool)
      modifies this
      ensures errors == old(errors) + UrlErrors(schema, labelFound, rows)
    {
      var found := [];
      var i := 0;
      while i < |rows|
        invariant 0 <= i <= |rows|
        invariant found == UrlErrors(schema, labelFound, rows[..i])
        invariant errors == old(errors)
      {
        assert rows[..i + 1][..i] == rows[..i];
        var more := CollectRowUrlErrors(schema, labelFound, i, rows[i]);
        found := found + more;
        i := i + 1;
      }
      assert rows[..i] == rows;
      errors := errors + found;
    }

    /** `verify_internal_references`, with the rows enumerated by
        `each_with_index`: appends the bad references, or raises (`true`)
        with nothing appended. */
    method VerifyInternalReferences(rows: seq<Row>, referenceIdentifier: Option<string>, recordExists: string -> bool)
      returns (raised: bool)
      modifies this
      ensures raised <==> InternalReferencesRaise(rows, referenceIdentifier, recordExists)
      ensures raised <==> InternalReferenceErrors(rows, referenceIdentifier, recordExists).None?
      ensures raised ==> errors == old(errors)
      ensures !raised ==> errors == old(errors) + InternalReferenceErrors(rows, referenceIdentifier, recordExists).value
    {
      InternalReferencesRaiseExactly(rows, referenceIdentifier, recordExists);
      var found: seq<Error> := [];
      var i := 0;
      while i < |rows|
        invariant 0 <= i <= |rows|
        invariant InternalReferenceErrors(rows[..i], referenceIdentifier, recordExists) == Some(found)
        invariant errors == old(errors)
      {
        var more := CheckRowReferences(rows[i], i, GetRefId(rows[i], referenceIdentifier), recordExists,
                                       RELATIONSHIP_COLUMNS);
        assert more == RowReferenceErrors(rows[i], i, referenceIdentifier, recordExists);
        if more.None? {
          assert RowReferencesRaise(rows[i], i, referenceIdentifier, recordExists);
          return true;
        }
        InternalReferenceErrorsSnoc(rows, i, referenceIdentifier, recordExists);
        found := found + more.value;
        i := i + 1;
      }
      assert rows[..i] == rows;
      errors := errors + found;
      return false;
    }

    /** `verify_files`: returns the errors it appends; `fileExists` stands
        for `File.file?`. */
    method VerifyFiles(rows: seq<Row>, fileExists: string -> bool) returns (fileErrors: seq<Error>)
      modifies this
      ensures fileErrors == FileErrors(schema, options.filePrefix, fileExists, rows)
      ensures errors == old(errors) + fileErrors
    {
      fileErrors := [];
      var i := 0;
      while i < |rows|
        invariant 0 <= i <= |rows|
        invariant fileErrors == FileErrors(schema, options.filePrefix, fileExists, rows[..i])
        invariant errors == old(errors)
      {
        assert rows[..i + 1][..i] == rows[..i];
        var more := CollectRowFileErrors(schema, options.filePrefix, fileExists, rows[i]);
        fileErrors := fileErrors + more;
        i := i + 1;
      }
      assert rows[..i] == rows;
      errors := errors + fileErrors;
    }

    /** `verify`: runs the checks in order and answers true iff no error
        has accumulated. With errors it writes the report first, which may
        raise. The `notify` call after the report (lines 19, 25-32) is
        left out: it iterates `options["notifications"]`, so the answer
        false assumes that option is set (a nil one raises NoMethodError).
        `recordExists` stands for `SolrDocument.find`. The reference check
        is the corrected one: the constant read from `BulkOps` and the rows
        enumerated with their index (`VerifyInternalReferences`). An update
        with rows raises, because `verify_works_to_update` calls the
        undefined `record_exists`. */
    method Verify(headers: seq<string>, rows: seq<Row>, labelFound: string -> bool, recordExists: string -> bool,
                  fileExists: string -> bool, isUpdate: bool, referenceIdentifier: Option<string>)
      returns (r: Outcome)
      modifies this
      ensures var checked := old(errors) + HeaderErrors(schema, options.ignoredHeaders, headers)
                             + UrlErrors(schema, labelFound, rows);
              var refs := InternalReferenceErrors(rows, referenceIdentifier, recordExists);
              if refs.None? then
                r == Raised && errors == checked
              else
                errors == checked + refs.value + FileErrors(schema, options.filePrefix, fileExists, rows) &&
                if isUpdate && |rows| > 0 then r == Raised
                else if errors == [] then r == Returned(true)
                else if Report(errors).WriteRaises? then r == Raised
                else r == Returned(false)
    {
      VerifyColumnHeaders(headers);
      VerifyRemoteUrls(rows, labelFound);
      var raised := VerifyInternalReferences(rows, referenceIdentifier, recordExists);
      if raised {
        return Raised;
      }
      var _ := VerifyFiles(rows, fileExists);
      if isUpdate && |rows| > 0 {
        return Raised;
      }
      if errors != [] {
        var report := WriteErrors(errors);
        if report.WriteRaises? {
          return Raised;
        }
        return Returned(false);
      }
      return Returned(true);
    }

    /** `verify` as written. The header check raises on any header that is
        neither blank nor a label. `verify_internal_references` reads
        `BulkOps::Operation::RELATIONSHIP_COLUMNS` on its first row and
        raises there, after `verify_remote_urls` has appended its errors;
        with that constant corrected it still raises at the first row, on
        the splatted row (`InternalReferencesAsWritten`). So
        `verify` answers only for a sheet without rows whose headers are all
        blank or labels; the file and update checks then see no row. */
    method VerifyAsWritten(headers: seq<string>, rows: seq<Row>, labelFound: string -> bool,
                           fileExists: string -> bool) returns (r: Outcome)
      modifies this
      ensures HeaderRaiseAsWritten(headers).Some? ==> r == Raised && errors == old(errors)
      ensures HeaderRaiseAsWritten(headers).None? && rows != [] ==>
                r == Raised && errors == old(errors) + UrlErrors(schema, labelFound, rows)
      ensures HeaderRaiseAsWritten(headers).None? && rows == [] ==>
                errors == old(errors) &&
                r == (if errors == [] then Returned(true)
                      else if Report(errors).WriteRaises? then Raised else Returned(false))
    {
      var raised := VerifyColumnHeadersAsWritten(headers);
      if raised {
        return Raised;
      }
      VerifyRemoteUrls(rows, labelFound);
      if InternalReferencesAsWritten(rows) {
        return Raised;
      }
      var _ := VerifyFiles(rows, fileExists);
      if errors != [] {
        var report := WriteErrors(errors);
        if report.WriteRaises? {
          return Raised;
        }
        return Returned(false);
      }
      return Returned(true);
    }
  }
}

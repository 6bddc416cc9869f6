/**
  The cell mini-language of `BulkOps::Parser`: escape-aware splitting of
  multi-valued cells, CSV unescaping, relationship headers and `type:value`
  cells with their row arithmetic, and the visibility vocabulary.
 */
module Cells {
  import opened Text
  import opened BulkOps

  // ---------------------------------------------------------------------
  // split_values

  /** The pieces of `s` cut at every `;` that is not immediately preceded
      by a backslash (the split of `/(?<!\\);/`), all pieces kept; `prev` is
      the character just before `s`, if any. */
  function EscPieces(s: string, prev: Option<char>): (r: seq<string>)
    ensures |r| >= 1
    decreases |s|
  {
    if |s| == 0 then [""]
    else
      var rest := EscPieces(s[1..], Some(s[0]));
      if s[0] == SEPARATOR && prev != Some('\\') then [""] + rest
      else [[s[0]] + rest[0]] + rest[1..]
  }

  /** `gsub("\\;", ";")`: every escaped separator loses its backslash. */
  function UnescapeSeparators(s: string): (r: string)
    ensures |r| <= |s|
    decreases |s|
  {
    if |s| == 0 then ""
    else if |s| >= 2 && s[0] == '\\' && s[1] == SEPARATOR then [SEPARATOR] + UnescapeSeparators(s[2..])
    else [s[0]] + UnescapeSeparators(s[1..])
  }

  /** The raw pieces `split_values` keeps: Ruby's `split` drops trailing
      empty pieces (so an empty cell has none). */
  function RawValues(s: string): seq<string> {
    DropTrailingEmpty(EscPieces(s, None))
  }

  /** `Parser#split_values` (and the identical `WorkProxy#split_values`). */
  function SplitValues(s: string): (r: seq<string>)
    ensures |r| == |RawValues(s)|
    ensures forall i :: 0 <= i < |r| ==> r[i] == Strip(UnescapeSeparators(RawValues(s)[i]))
  {
    var raw := RawValues(s);
    seq(|raw|, i requires 0 <= i < |raw| => Strip(UnescapeSeparators(raw[i])))
  }

  /** Every `;` inside a piece is escaped by the character before it. */
  predicate SeparatorsEscaped(ps: seq<string>, prev: Option<char>) {
    forall i, k {:trigger ps[i][k]} :: 0 <= i < |ps| && 0 <= k < |ps[i]| && ps[i][k] == SEPARATOR ==>
      (k > 0 && ps[i][k - 1] == '\\') || (i == 0 && k == 0 && prev == Some('\\'))
  }

  lemma SeparatorEscapedAt(ps: seq<string>, prev: Option<char>, i: nat, k: nat)
    requires SeparatorsEscaped(ps, prev)
    requires i < |ps| && k < |ps[i]| && ps[i][k] == SEPARATOR
    ensures (k > 0 && ps[i][k - 1] == '\\') || (i == 0 && k == 0 && prev == Some('\\'))
  {
  }

  /** The escape-aware cut is exact: joining the pieces with `;` gives the
      input back, every `;` left inside a piece is escaped by the character
      before it, and no piece followed by a cut ends in a backslash (so each
      cut really was at an unescaped `;`). */
  lemma EscPiecesSound(s: string, prev: Option<char>)
    ensures Join(EscPieces(s, prev), [SEPARATOR]) == s
    ensures SeparatorsEscaped(EscPieces(s, prev), prev)
    ensures forall i :: 0 <= i < |EscPieces(s, prev)| - 1 && EscPieces(s, prev)[i] != "" ==>
              EscPieces(s, prev)[i][|EscPieces(s, prev)[i]| - 1] != '\\'
  {
    EscPiecesJoin(s, prev);
    EscPiecesEscaped(s, prev);
    EscPiecesCutsUnescaped(s, prev);
  }

  lemma {:induction false} EscPiecesJoin(s: string, prev: Option<char>)
    ensures Join(EscPieces(s, prev), [SEPARATOR]) == s
    decreases |s|
  {
    if |s| > 0 {
      var r := EscPieces(s, prev);
      var rest := EscPieces(s[1..], Some(s[0]));
      EscPiecesJoin(s[1..], Some(s[0]));
      if s[0] == SEPARATOR && prev != Some('\\') {
        assert r == [""] + rest;
        assert r[1..] == rest;
      } else {
        var p := [s[0]] + rest[0];
        assert r == [p] + rest[1..];
        if |rest| > 1 {
          assert r[1..] == rest[1..];
          assert Join(rest, [SEPARATOR]) == rest[0] + [SEPARATOR] + Join(rest[1..], [SEPARATOR]);
          assert Join(r, [SEPARATOR]) == p + [SEPARATOR] + Join(rest[1..], [SEPARATOR]);
        }
        assert s == [s[0]] + s[1..];
      }
    }
  }

  lemma {:induction false} EscPiecesEscaped(s: string, prev: Option<char>)
    ensures SeparatorsEscaped(EscPieces(s, prev), prev)
    decreases |s|
  {
    if |s| > 0 {
      var r := EscPieces(s, prev);
      var rest := EscPieces(s[1..], Some(s[0]));
      EscPiecesEscaped(s[1..], Some(s[0]));
      if s[0] == SEPARATOR && prev != Some('\\') {
        assert r == [""] + rest;
        forall i, k | 0 <= i < |r| && 0 <= k < |r[i]| && r[i][k] == SEPARATOR
          ensures (k > 0 && r[i][k - 1] == '\\') || (i == 0 && k == 0 && prev == Some('\\'))
        {
          assert i > 0 && r[i] == rest[i - 1];
          SeparatorEscapedAt(rest, Some(s[0]), i - 1, k);
        }
      } else {
        var p := [s[0]] + rest[0];
        assert r == [p] + rest[1..];
        forall i, k | 0 <= i < |r| && 0 <= k < |r[i]| && r[i][k] == SEPARATOR
          ensures (k > 0 && r[i][k - 1] == '\\') || (i == 0 && k == 0 && prev == Some('\\'))
        {
          if i == 0 {
            if k == 0 {
              assert r[0][0] == s[0];
            } else {
              assert r[0][k] == rest[0][k - 1];
              SeparatorEscapedAt(rest, Some(s[0]), 0, k - 1);
              if k - 1 == 0 {
                assert r[0][k - 1] == s[0];
              } else {
                assert r[0][k - 1] == rest[0][k - 2];
              }
            }
          } else {
            assert r[i] == rest[i];
            SeparatorEscapedAt(rest, Some(s[0]), i, k);
          }
        }
      }
    }
  }

  lemma {:induction false} EscPiecesCutsUnescaped(s: string, prev: Option<char>)
    ensures forall i :: 0 <= i < |EscPieces(s, prev)| - 1 && EscPieces(s, prev)[i] != "" ==>
              EscPieces(s, prev)[i][|EscPieces(s, prev)[i]| - 1] != '\\'
    ensures |EscPieces(s, prev)| > 1 && EscPieces(s, prev)[0] == "" ==> prev != Some('\\')
    decreases |s|
  {
    if |s| > 0 {
      var r := EscPieces(s, prev);
      var rest := EscPieces(s[1..], Some(s[0]));
      EscPiecesCutsUnescaped(s[1..], Some(s[0]));
      if s[0] == SEPARATOR && prev != Some('\\') {
        assert r == [""] + rest;
        forall i | 0 <= i < |r| - 1 && r[i] != ""
          ensures r[i][|r[i]| - 1] != '\\'
        {
          assert r[i] == rest[i - 1];
        }
      } else {
        var p := [s[0]] + rest[0];
        assert r == [p] + rest[1..];
        forall i | 0 <= i < |r| - 1 && r[i] != ""
          ensures r[i][|r[i]| - 1] != '\\'
        {
          if i == 0 {
            if rest[0] == "" {
              assert r[0] == [s[0]];
            } else {
              assert r[0][|r[0]| - 1] == rest[0][|rest[0]| - 1];
            }
          } else {
            assert r[i] == rest[i];
          }
        }
      }
    }
  }

  /** The values of a cell without any backslash are its `;`-separated
      pieces, stripped, with trailing empty pieces dropped. */
  lemma {:induction false} EscPiecesWithoutBackslash(s: string, prev: Option<char>)
    requires forall i :: 0 <= i < |s| ==> s[i] != '\\'
    requires prev != Some('\\')
    ensures EscPieces(s, prev) == Pieces(s, CharIs(SEPARATOR))
    decreases |s|
  {
    if |s| > 0 {
      EscPiecesWithoutBackslash(s[1..], Some(s[0]));
    }
  }

  lemma {:induction false} UnescapeSeparatorsIdentity(s: string)
    requires forall i :: 0 <= i < |s| ==> s[i] != '\\'
    ensures UnescapeSeparators(s) == s
    decreases |s|
  {
    if |s| > 0 {
      UnescapeSeparatorsIdentity(s[1..]);
      assert [s[0]] + s[1..] == s;
    }
  }

  /** Without escapes `split_values` is the plain `;` split, every piece
      stripped. */
  lemma SplitValuesPlain(s: string)
    requires forall i :: 0 <= i < |s| ==> s[i] != '\\'
    ensures |SplitValues(s)| == |Split(s, CharIs(SEPARATOR))|
    ensures forall i :: 0 <= i < |SplitValues(s)| ==> SplitValues(s)[i] == Strip(Split(s, CharIs(SEPARATOR))[i])
  {
    EscPiecesWithoutBackslash(s, None);
    var raw := RawValues(s);
    PiecesHaveNoSeparator(s, CharIs('\\'));
    forall i | 0 <= i < |raw|
      ensures UnescapeSeparators(raw[i]) == raw[i]
    {
      PiecesBackslashFree(s, i);
      UnescapeSeparatorsIdentity(raw[i]);
    }
  }

  lemma {:induction false} PiecesBackslashFree(s: string, i: nat)
    requires forall j :: 0 <= j < |s| ==> s[j] != '\\'
    requires i < |Pieces(s, CharIs(SEPARATOR))|
    ensures forall j :: 0 <= j < |Pieces(s, CharIs(SEPARATOR))[i]| ==> Pieces(s, CharIs(SEPARATOR))[i][j] != '\\'
    decreases |s|
  {
    if |s| > 0 {
      var rest := Pieces(s[1..], CharIs(SEPARATOR));
      if s[0] == SEPARATOR {
        if i > 0 {
          PiecesBackslashFree(s[1..], i - 1);
        }
      } else if i == 0 {
        PiecesBackslashFree(s[1..], 0);
      } else {
        PiecesBackslashFree(s[1..], i);
      }
    }
  }

  // ---------------------------------------------------------------------
  // unescape_csv

  /** The characters `unescape_csv` accepts after a backslash. */
  predicate IsCsvEscapable(c: char) {
    c == '\'' || c == '"' || c == ';' || c == ','
  }

  /** `gsub(/\\(['";,])/, '\1')`, scanning left to right. */
  function UnescapeCsv(s: string): (r: string)
    ensures |r| <= |s|
    decreases |s|
  {
    if |s| == 0 then ""
    else if |s| >= 2 && s[0] == '\\' && IsCsvEscapable(s[1]) then [s[1]] + UnescapeCsv(s[2..])
    else [s[0]] + UnescapeCsv(s[1..])
  }

  /** The escaping `unescape_csv` undoes: a backslash before each quote,
      apostrophe, semicolon and comma. */
  function EscapeCsv(s: string): (r: string)
    ensures |r| >= |s|
  {
    if |s| == 0 then ""
    else if IsCsvEscapable(s[0]) then ['\\', s[0]] + EscapeCsv(s[1..])
    else [s[0]] + EscapeCsv(s[1..])
  }

  /** Unescaping recovers every escaped string, backslashes included. */
  lemma {:induction false} UnescapeEscape(s: string)
    ensures UnescapeCsv(EscapeCsv(s)) == s
    decreases |s|
  {
    if |s| > 0 {
      UnescapeEscape(s[1..]);
      var e := EscapeCsv(s[1..]);
      if IsCsvEscapable(s[0]) {
        assert (['\\', s[0]] + e)[2..] == e;
      } else {
        assert ([s[0]] + e)[1..] == e;
        if s[0] == '\\' && |e| > 0 {
          assert !IsCsvEscapable(e[0]);
        }
      }
      assert [s[0]] + s[1..] == s;
    }
  }

  /** A string in which no backslash precedes an escapable character, in
      particular one without a backslash, is left unchanged. */
  lemma {:induction false} UnescapeCsvIdentity(s: string)
    requires forall i :: 0 <= i < |s| - 1 && s[i] == '\\' ==> !IsCsvEscapable(s[i + 1])
    ensures UnescapeCsv(s) == s
    decreases |s|
  {
    if |s| > 0 {
      assert forall i :: 0 <= i < |s[1..]| - 1 && s[1..][i] == '\\' ==> !IsCsvEscapable(s[1..][i + 1]) by {
        forall i | 0 <= i < |s[1..]| - 1 && s[1..][i] == '\\'
          ensures !IsCsvEscapable(s[1..][i + 1])
        {
          assert s[i + 1] == '\\';
        }
      }
      UnescapeCsvIdentity(s[1..]);
      assert [s[0]] + s[1..] == s;
    }
  }

  /** Each escape sequence costs exactly one character: the result is one
      character shorter per backslash that precedes an escapable character. */
  lemma UnescapeCsvOnlyDeletesBackslashes(s: string)
    ensures |UnescapeCsv(s)| == |s| - EscapeCount(s)
  {
  }

  /** The number of escape sequences `unescape_csv` rewrites. */
  function EscapeCount(s: string): (n: nat)
    ensures n <= |s| / 2 + 1
    decreases |s|
  {
    if |s| == 0 then 0
    else if |s| >= 2 && s[0] == '\\' && IsCsvEscapable(s[1]) then 1 + EscapeCount(s[2..])
    else EscapeCount(s[1..])
  }

  // ---------------------------------------------------------------------
  // format_visibility

  /** `format_visibility`: the visibility a cell asks for, `None` for a
      word outside the three synonym sets. */
  function FormatVisibility(value: string): (r: Option<string>)
    ensures r.Some? ==> r.value in ["open", "ucsc", "restricted"]
  {
    var v := Lower(value);
    if v in ["public", "open", "true"] then Some("open")
    else if v in ["campus", "ucsc", "institution"] then Some("ucsc")
    else if v in ["restricted", "private", "closed", "false"] then Some("restricted")
    else None
  }

  /** The mapping ignores case. */
  lemma FormatVisibilityIgnoresCase(value: string)
    ensures FormatVisibility(Lower(value)) == FormatVisibility(value)
  {
    LowerIdempotent(value);
  }

  /** A formatted visibility formats to itself. */
  lemma FormatVisibilityIdempotent(value: string)
    ensures FormatVisibility(value).Some? ==> FormatVisibility(FormatVisibility(value).value) == FormatVisibility(value)
  {
    LowerOfLowerAlnum("open");
    LowerOfLowerAlnum("ucsc");
    LowerOfLowerAlnum("restricted");
  }

  /** The three synonym sets, each both ways. */
  lemma FormatVisibilityClasses(value: string)
    ensures FormatVisibility(value) == Some("open") <==> Lower(value) in ["public", "open", "true"]
    ensures FormatVisibility(value) == Some("ucsc") <==> Lower(value) in ["campus", "ucsc", "institution"]
    ensures FormatVisibility(value) == Some("restricted") <==>
              Lower(value) in ["restricted", "private", "closed", "false"]
    ensures FormatVisibility(value) == None <==>
              Lower(value) !in ["public", "open", "true", "campus", "ucsc", "institution",
                                "restricted", "private", "closed", "false"]
  {
  }

  // ---------------------------------------------------------------------
  // normalize_relationship_field_name

  /** `Parser.normalize_relationship_field_name`. */
  function NormalizeRelationshipFieldName(field: string): (r: Option<string>)
    ensures r.Some? ==> r.value in RELATIONSHIP_FIELDS && r.value == KeepAlnum(Lower(field))
    ensures r.None? ==> KeepAlnum(Lower(field)) !in RELATIONSHIP_FIELDS
  {
    NormFieldIsLowerAlnum(field);
    var n := NormField(field);
    if n in RELATIONSHIP_FIELDS then Some(n) else None
  }

  /** Case, punctuation and spacing are irrelevant to the recognised name. */
  lemma NormalizeSameLetters(a: string, b: string)
    requires KeepAlnum(Lower(a)) == KeepAlnum(Lower(b))
    ensures NormalizeRelationshipFieldName(a) == NormalizeRelationshipFieldName(b)
  {
  }

  // ---------------------------------------------------------------------
  // find_previous_parent

  /** Ruby's `array[k]`: a negative index counts from the end, an index
      outside the array gives nil. */
  function RubyIndex<T>(a: seq<T>, k: int): (r: Option<T>)
    ensures r.Some? <==> -|a| <= k < |a|
    ensures 0 <= k < |a| ==> r == Some(a[k])
    ensures -|a| <= k < 0 ==> r == Some(a[|a| + k])
  {
    if 0 <= k < |a| then Some(a[k]) else if -|a| <= k < 0 then Some(a[|a| + k]) else None
  }

  predicate BlankAt(data: seq<Row>, k: int, field: string)
    requires RubyIndex(data, k).Some?
  {
    IsBlank(Cell(RubyIndex(data, k).value, field))
  }

  /** The scan of `find_previous_parent` from offset `i` on. */
  function PreviousParentFrom(data: seq<Row>, rowNumber: int, field: string, i: nat): Option<int>
    decreases rowNumber - i + |data|
  {
    var k := rowNumber - i;
    if RubyIndex(data, k).None? then None
    else if BlankAt(data, k, field) then Some(k)
    else PreviousParentFrom(data, rowNumber, field, i + 1)
  }

  /** `find_previous_parent(field)`: the nearest row above `rowNumber` whose
      `field` cell is blank. */
  function PreviousParent(data: seq<Row>, rowNumber: int, field: string): Option<int> {
    PreviousParentFrom(data, rowNumber, field, 1)
  }

  /** The scan finds the nearest blank row below `rowNumber - i + 1` and
      stops at the first index Ruby reads as nil. */
  lemma {:induction false} PreviousParentFromSpec(data: seq<Row>, rowNumber: int, field: string, i: nat)
    requires i >= 1
    requires forall k :: rowNumber - i < k < rowNumber ==> RubyIndex(data, k).Some? && !BlankAt(data, k, field)
    ensures var r := PreviousParentFrom(data, rowNumber, field, i);
      (r.Some? ==>
         r.value < rowNumber && RubyIndex(data, r.value).Some? && BlankAt(data, r.value, field) &&
         forall k :: r.value < k < rowNumber ==> RubyIndex(data, k).Some? && !BlankAt(data, k, field)) &&
      (r.None? ==>
         rowNumber - i >= |data| ||
         forall k :: -|data| <= k < rowNumber ==> RubyIndex(data, k).Some? && !BlankAt(data, k, field))
    decreases rowNumber - i + |data|
  {
    var k := rowNumber - i;
    if RubyIndex(data, k).Some? && !BlankAt(data, k, field) {
      PreviousParentFromSpec(data, rowNumber, field, i + 1);
      var r := PreviousParentFrom(data, rowNumber, field, i);
      if r.None? && rowNumber - i - 1 >= |data| {
        assert false;
      }
    }
  }

  /** The row `find_previous_parent` returns is blank in `field` and every
      row between it and `rowNumber` is not; it returns nil only when
      `rowNumber - 1` is past the end or every row Ruby can reach from there
      (counting the wrapped negative indices) has the field filled. */
  lemma PreviousParentSpec(data: seq<Row>, rowNumber: int, field: string)
    ensures var r := PreviousParent(data, rowNumber, field);
      (r.Some? ==>
         r.value < rowNumber && RubyIndex(data, r.value).Some? && BlankAt(data, r.value, field) &&
         forall k :: r.value < k < rowNumber ==> RubyIndex(data, k).Some? && !BlankAt(data, k, field)) &&
      (r.None? ==>
         rowNumber > |data| ||
         forall k :: -|data| <= k < rowNumber ==> RubyIndex(data, k).Some? && !BlankAt(data, k, field))
  {
    PreviousParentFromSpec(data, rowNumber, field, 1);
  }

  /** `find_previous_parent` as the source writes it, a counting loop. */
  method FindPreviousParent(data: seq<Row>, rowNumber: int, field: string) returns (r: Option<int>)
    ensures r == PreviousParent(data, rowNumber, field)
  {
    var i := 1;
    while RubyIndex(data, rowNumber - i).Some?
      invariant i >= 1
      invariant PreviousParentFrom(data, rowNumber, field, i) == PreviousParent(data, rowNumber, field)
      decreases rowNumber - i + |data|
    {
      var prevRow := RubyIndex(data, rowNumber - i).value;
      if IsBlank(Cell(prevRow, field)) {
        return Some(rowNumber - i);
      }
      i := i + 1;
    }
    return None;
  }

  // ---------------------------------------------------------------------
  // interpret_relationship_value

  /** What a relationship cell designates: an identifier string, a row
      number computed from a relative address, or nil from a `prev`
      address with no match. */
  datatype Target = Ident(text: string) | RowIndex(n: int) | NoRow

  datatype RelValue = RelValue(idType: Option<string>, target: Target)

  /** The `type:value` prefix split: `value.split(":")` of two parts
      replaces the identifier type (nil is `None`) with the first and the
      value with the second. */
  function SplitPrefix(idType: Option<string>, value: string): (r: (Option<string>, string))
    ensures |Split(value, CharIs(':'))| != 2 ==> r == (idType, value)
    ensures |Split(value, CharIs(':'))| == 2 ==> r.0.Some?
  {
    var parts := Split(value, CharIs(':'));
    if |parts| == 2 then (Some(parts[0]), parts[1]) else (idType, value)
  }

  /** A value `a:b` with a single colon and a non-empty `b` splits into its
      two sides. */
  lemma SplitPrefixOneColon(idType: Option<string>, a: string, b: string)
    requires forall i :: 0 <= i < |a| ==> a[i] != ':'
    requires forall i :: 0 <= i < |b| ==> b[i] != ':'
    requires b != ""
    ensures SplitPrefix(idType, a + ":" + b) == (Some(a), b)
  {
    PiecesOneSep(a, b, ':');
  }

  /** `interpret_relationship_value(id_type, value, field)` of the parser. */
  function InterpretRelationshipValue(data: seq<Row>, rowNumber: int, idType: Option<string>, value: string, field: string)
    : (r: RelValue)
    ensures r.idType == SplitPrefix(idType, value).0
    ensures r.idType != Some("row") ==> r.target == Ident(SplitPrefix(idType, value).1)
  {
    var (t, v) := SplitPrefix(idType, value);
    if t == Some("row") then
      if IsIntegerLiteral(v) then
        if ToI(v) < 0 then RelValue(t, RowIndex(rowNumber + ToI(v)))
        else if ToI(v) > 0 then RelValue(t, Ident(IntToString(ToI(v) - ROW_OFFSET)))
        else RelValue(t, Ident(v))
      else if Contains(Lower(v), "prev") then
        match PreviousParent(data, rowNumber, field)
        case Some(j) => RelValue(t, RowIndex(j))
        case None => RelValue(t, NoRow)
      else RelValue(t, Ident(v))
    else RelValue(t, Ident(v))
  }

  /** Under `row`, a negative number counts back from the current row, a
      positive one names a spreadsheet line and loses the header offset
      (and reads back as that row), zero and any other text are kept, and a
      `prev` address defers to `find_previous_parent`. */
  lemma RowAddressing(data: seq<Row>, rowNumber: int, idType: Option<string>, value: string, field: string)
    requires SplitPrefix(idType, value).0 == Some("row")
    ensures var v := SplitPrefix(idType, value).1;
      var r := InterpretRelationshipValue(data, rowNumber, idType, value, field);
      (IsIntegerLiteral(v) && ToI(v) < 0 ==> r.target == RowIndex(rowNumber + ToI(v))) &&
      (IsIntegerLiteral(v) && ToI(v) > 0 ==>
        r.target.Ident? && ToI(r.target.text) == ToI(v) - ROW_OFFSET) &&
      (IsIntegerLiteral(v) && ToI(v) == 0 ==> r.target == Ident(v)) &&
      (!IsIntegerLiteral(v) && Contains(Lower(v), "prev") ==>
        r.target == (match PreviousParent(data, rowNumber, field)
                     case Some(j) => RowIndex(j)
                     case None => NoRow)) &&
      (!IsIntegerLiteral(v) && !Contains(Lower(v), "prev") ==> r.target == Ident(v))
  {
    var v := SplitPrefix(idType, value).1;
    if IsIntegerLiteral(v) && ToI(v) > 0 {
      IntToStringToI(ToI(v) - ROW_OFFSET);
    }
  }
}

/**
  What the three copies of the row interpretation (`Parser`, `WorkProxy`
  and the `Interpret*Behavior` concerns) share: the metadata hash they
  build, the column-by-column accumulation of values under field names,
  the selection of controlled-vocabulary columns, the attribute lists of
  controlled properties, and the local-authority lookups.
 */
module Interpretation {
  import opened Text
  import opened BulkOps
  import opened Cells
  import opened Verification

  // ---------------------------------------------------------------------
  // The metadata hash

  /** One entry of a `<property>_attributes` list: the vocabulary id and
      the removal flag, stored under `flag` when the value is to be removed
      (`"_delete"` in the parser and the proxy, `:_destroy` in the concern). */
  datatype Attr = Attr(id: string, flag: Option<string>)

  /** The metadata hash a row is turned into. A key that the source creates
      only on its first append is absent here exactly when its list is
      empty. */
  datatype Metadata = Metadata(
    /** `@metadata[field_name]`: the values of scalar fields */
    values: map<string, seq<string>>,
    /** `@metadata["#{property}_attributes"]`, keyed by the property */
    attributes: map<string, seq<Attr>>,
    /** `@metadata[:member_of_collection_ids]` */
    collectionIds: seq<string>,
    /** `@metadata[:admin_set_id]` */
    adminSetId: Option<string>,
    /** `@metadata[:metadataInheritance]` */
    metadataInheritance: Option<string>
  )

  const EMPTY: Metadata := Metadata(map[], map[], [], None, None)

  /** `hash[k] || []` */
  function Get<T>(m: map<string, seq<T>>, k: string): seq<T> {
    if k in m then m[k] else []
  }

  /** `items.each { |x| (hash[k] ||= []) << x }` */
  function Extend<T>(m: map<string, seq<T>>, k: string, items: seq<T>): (r: map<string, seq<T>>)
    ensures r.Keys == if items == [] then m.Keys else m.Keys + {k}
    ensures Get(r, k) == Get(m, k) + items
    ensures forall j :: j != k ==> Get(r, j) == Get(m, j)
  {
    if items == [] then m else m[k := Get(m, k) + items]
  }

  // ---------------------------------------------------------------------
  // Column-by-column accumulation

  /** What one column contributes: nothing, a list of items under a key,
      or an exception that ends the loop. */
  datatype Column<T> = Skip | Add(key: string, items: seq<T>) | Halt

  /** The loop `@raw_row.each { ... }` over the columns' contributions,
      starting from `m0`; the flag tells whether a column raised, in which
      case the columns after it are never reached. */
  function Fold<T>(m0: map<string, seq<T>>, cs: seq<Column<T>>): (r: (map<string, seq<T>>, bool))
    decreases |cs|
  {
    if |cs| == 0 then (m0, false)
    else
      var prev := Fold(m0, cs[..|cs| - 1]);
      if prev.1 then prev
      else match cs[|cs| - 1]
        case Skip => prev
        case Halt => (prev.0, true)
        case Add(k, items) => (Extend(prev.0, k, items), false)
  }

  /** One more column. */
  lemma FoldStep<T>(m0: map<string, seq<T>>, cs: seq<Column<T>>, i: nat)
    requires i < |cs|
    ensures Fold(m0, cs[..i + 1]) ==
      (var prev := Fold(m0, cs[..i]);
       if prev.1 then prev
       else match cs[i]
         case Skip => prev
         case Halt => (prev.0, true)
         case Add(k, items) => (Extend(prev.0, k, items), false))
  {
    assert cs[..i + 1][..i] == cs[..i];
  }

  /** Once a column has raised, the later ones change nothing. */
  lemma {:induction false} FoldHalted<T>(m0: map<string, seq<T>>, cs: seq<Column<T>>, i: nat)
    requires i <= |cs| && Fold(m0, cs[..i]).1
    ensures Fold(m0, cs) == Fold(m0, cs[..i])
    decreases |cs| - i
  {
    if i < |cs| {
      FoldStep(m0, cs, i);
      FoldHalted(m0, cs, i + 1);
    } else {
      assert cs[..i] == cs;
    }
  }

  /** Existing entries are only extended, never shortened or removed. */
  lemma {:induction false} FoldExtends<T>(m0: map<string, seq<T>>, cs: seq<Column<T>>, k: string)
    ensures k in m0 ==> k in Fold(m0, cs).0
    ensures Get(m0, k) <= Get(Fold(m0, cs).0, k)
    decreases |cs|
  {
    if |cs| > 0 {
      FoldExtends(m0, cs[..|cs| - 1], k);
    }
  }

  /** Every item under a key comes from the starting map or from a column
      that added it under that key. */
  lemma {:induction false} FoldItemsFrom<T>(m0: map<string, seq<T>>, cs: seq<Column<T>>, k: string, x: T)
    requires x in Get(Fold(m0, cs).0, k)
    ensures x in Get(m0, k) || exists i :: 0 <= i < |cs| && cs[i].Add? && cs[i].key == k && x in cs[i].items
    decreases |cs|
  {
    if |cs| > 0 {
      var init := cs[..|cs| - 1];
      var prev := Fold(m0, init);
      if x in Get(prev.0, k) {
        FoldItemsFrom(m0, init, k, x);
        if !(x in Get(m0, k)) {
          var i :| 0 <= i < |init| && init[i].Add? && init[i].key == k && x in init[i].items;
          assert cs[i] == init[i];
        }
      } else {
        assert cs[|cs| - 1].Add? && cs[|cs| - 1].key == k && x in cs[|cs| - 1].items;
      }
    }
  }

  /** A new key comes from a column that added something under it. */
  lemma {:induction false} FoldKeysFrom<T>(m0: map<string, seq<T>>, cs: seq<Column<T>>, k: string)
    requires k in Fold(m0, cs).0 && k !in m0
    ensures exists i :: 0 <= i < |cs| && cs[i].Add? && cs[i].key == k && cs[i].items != []
    decreases |cs|
  {
    if |cs| > 0 {
      var init := cs[..|cs| - 1];
      if k in Fold(m0, init).0 {
        FoldKeysFrom(m0, init, k);
        var i :| 0 <= i < |init| && init[i].Add? && init[i].key == k && init[i].items != [];
        assert cs[i] == init[i];
      }
    }
  }

  /** Without an exception, a key's list is its starting list followed by
      the items of every column that adds under it, in column order. */
  function ItemsFor<T>(cs: seq<Column<T>>, k: string): seq<T>
    decreases |cs|
  {
    if |cs| == 0 then []
    else ItemsFor(cs[..|cs| - 1], k) +
         (if cs[|cs| - 1].Add? && cs[|cs| - 1].key == k then cs[|cs| - 1].items else [])
  }

  lemma {:induction false} FoldInOrder<T>(m0: map<string, seq<T>>, cs: seq<Column<T>>, k: string)
    requires !Fold(m0, cs).1
    ensures Get(Fold(m0, cs).0, k) == Get(m0, k) + ItemsFor(cs, k)
    decreases |cs|
  {
    if |cs| > 0 {
      var init := cs[..|cs| - 1];
      FoldLast(m0, cs, k);
      FoldInOrder(m0, init, k);
    }
  }

  /** The last column of a pass that does not raise extends its key. */
  lemma FoldLast<T>(m0: map<string, seq<T>>, cs: seq<Column<T>>, k: string)
    requires |cs| > 0 && !Fold(m0, cs).1
    ensures var prev := Fold(m0, cs[..|cs| - 1]);
      var c := cs[|cs| - 1];
      !prev.1 && !c.Halt? &&
      Get(Fold(m0, cs).0, k) == Get(prev.0, k) + (if c.Add? && c.key == k then c.items else []) &&
      ItemsFor(cs, k) == ItemsFor(cs[..|cs| - 1], k) + (if c.Add? && c.key == k then c.items else [])
  {
  }

  // ---------------------------------------------------------------------
  // Scalar fields

  /** The value a piece becomes: stripped, and unescaped when asked. */
  function Piece(p: string, unescape: bool): string {
    if unescape then UnescapeCsv(Strip(p)) else Strip(p)
  }

  /** The non-blank pieces, each turned into a value, in order. */
  function NonBlankPieces(ps: seq<string>, unescape: bool): (r: seq<string>)
    ensures |r| <= |ps|
    ensures forall x :: x in r ==> exists p :: p in ps && !IsBlank(p) && x == Piece(p, unescape)
    ensures forall p :: p in ps && !IsBlank(p) ==> Piece(p, unescape) in r
  {
    if |ps| == 0 then []
    else
      var init := ps[..|ps| - 1];
      var rest := NonBlankPieces(init, unescape);
      assert forall p :: p in ps <==> p in init || p == ps[|ps| - 1];
      if IsBlank(ps[|ps| - 1]) then rest
      else rest + [Piece(ps[|ps| - 1], unescape)]
  }

  /** The values a scalar column contributes in `Parser` and the concern:
      each non-blank piece of `split_values`, stripped and unescaped. */
  function EscapedValues(value: string): (r: seq<string>)
    ensures forall x :: x in r ==>
      exists p :: p in SplitValues(value) && !IsBlank(p) && x == UnescapeCsv(Strip(p))
    ensures forall p :: p in SplitValues(value) && !IsBlank(p) ==> UnescapeCsv(Strip(p)) in r
  {
    NonBlankPieces(SplitValues(value), true)
  }

  /** The values a scalar column contributes in `WorkProxy`: a plain split
      on `;` (an escaped separator still cuts), each non-blank piece
      stripped; nothing is unescaped. */
  function PlainValues(value: string): (r: seq<string>)
    ensures forall x :: x in r ==>
      exists p :: p in Split(value, CharIs(SEPARATOR)) && !IsBlank(p) && x == Strip(p)
    ensures forall p :: p in Split(value, CharIs(SEPARATOR)) && !IsBlank(p) ==> Strip(p) in r
  {
    NonBlankPieces(Split(value, CharIs(SEPARATOR)), false)
  }

  lemma NonBlankPiecesStep(ps: seq<string>, i: nat, unescape: bool)
    requires i < |ps|
    ensures NonBlankPieces(ps[..i + 1], unescape) ==
            NonBlankPieces(ps[..i], unescape) + (if IsBlank(ps[i]) then [] else [Piece(ps[i], unescape)])
  {
    assert ps[..i + 1][..i] == ps[..i];
  }

  lemma ExtendTwice<T>(m0: map<string, seq<T>>, k: string, a: seq<T>, b: seq<T>)
    ensures Extend(Extend(m0, k, a), k, b) == Extend(m0, k, a + b)
  {
    if a == [] { assert a + b == b; }
    else if b == [] { assert a + b == a; }
    else {
      assert Get(m0, k) + a + b == Get(m0, k) + (a + b);
      assert Extend(m0, k, a)[k := Get(m0, k) + a + b] == m0[k := Get(m0, k) + (a + b)];
    }
  }

  /** The inner loop of `interpret_scalar_fields`: each non-blank piece is
      appended under `k`, which is created by the first append. */
  method AppendPieces(m0: map<string, seq<string>>, k: string, ps: seq<string>, unescape: bool)
    returns (m: map<string, seq<string>>)
    ensures m == Extend(m0, k, NonBlankPieces(ps, unescape))
  {
    m := m0;
    var i := 0;
    while i < |ps|
      invariant 0 <= i <= |ps|
      invariant m == Extend(m0, k, NonBlankPieces(ps[..i], unescape))
    {
      NonBlankPiecesStep(ps, i, unescape);
      if !IsBlank(ps[i]) {
        ExtendTwice(m0, k, NonBlankPieces(ps[..i], unescape), [Piece(ps[i], unescape)]);
        m := Extend(m, k, [Piece(ps[i], unescape)]);
      } else {
        assert NonBlankPieces(ps[..i + 1], unescape) == NonBlankPieces(ps[..i], unescape);
      }
      i := i + 1;
    }
    assert ps[..i] == ps;
  }

  /** One column of `interpret_scalar_fields`. A column whose value is
      blank or repeats its header, or whose name matches no field, is
      skipped; a name that matches a `Work` attribute the schema does not
      define reaches `nil.controlled?` and raises; a controlled field is
      skipped; otherwise the values go under the matched name. */
  function ScalarColumn(schema: Schema, header: string, value: string, escaped: bool): (r: Column<string>)
    ensures r.Add? ==>
      FindFieldName(schema, header) == Some(r.key) && IsSchemaField(schema, r.key) && !IsControlled(schema, r.key)
    ensures r.Halt? <==>
      !IsBlank(value) && header != value && FindFieldName(schema, header).Some? &&
      !IsSchemaField(schema, FindFieldName(schema, header).value)
    ensures (IsBlank(value) || header == value || FindFieldName(schema, header).None?) ==> r.Skip?
  {
    if IsBlank(value) || header == value then Skip
    else match FindFieldName(schema, header)
      case None => Skip
      case Some(n) =>
        if !IsSchemaField(schema, n) then Halt
        else if IsControlled(schema, n) then Skip
        else Add(n, if escaped then EscapedValues(value) else PlainValues(value))
  }

  function ScalarColumns(schema: Schema, row: Row, escaped: bool): (r: seq<Column<string>>)
    ensures |r| == |row| && forall i :: 0 <= i < |row| ==> r[i] == ScalarColumn(schema, row[i].0, row[i].1, escaped)
  {
    seq(|row|, i requires 0 <= i < |row| => ScalarColumn(schema, row[i].0, row[i].1, escaped))
  }

  /** `interpret_scalar_fields` on a starting hash. */
  function ScalarFields(schema: Schema, m0: map<string, seq<string>>, row: Row, escaped: bool)
    : (map<string, seq<string>>, bool)
  {
    Fold(m0, ScalarColumns(schema, row, escaped))
  }

  /** One more column of the scalar pass. */
  lemma ScalarStep(schema: Schema, m0: map<string, seq<string>>, row: Row, escaped: bool, i: nat,
                   m: map<string, seq<string>>)
    requires i < |row| && Fold(m0, ScalarColumns(schema, row, escaped)[..i]) == (m, false)
    ensures Fold(m0, ScalarColumns(schema, row, escaped)[..i + 1]) ==
      match ScalarColumn(schema, row[i].0, row[i].1, escaped)
      case Skip => (m, false)
      case Halt => (m, true)
      case Add(k, items) => (Extend(m, k, items), false)
  {
    FoldStep(m0, ScalarColumns(schema, row, escaped), i);
  }

  /** The keys the scalar pass adds are schema fields that are not
      controlled, and the entries that were there are only extended. */
  lemma ScalarFieldsShape(schema: Schema, m0: map<string, seq<string>>, row: Row, escaped: bool, k: string)
    ensures var r := ScalarFields(schema, m0, row, escaped).0;
      (k in m0 ==> k in r && m0[k] <= r[k]) &&
      (k in r && k !in m0 ==> IsSchemaField(schema, k) && !IsControlled(schema, k))
  {
    var cs := ScalarColumns(schema, row, escaped);
    FoldExtends(m0, cs, k);
    if k in Fold(m0, cs).0 && k !in m0 {
      FoldKeysFrom(m0, cs, k);
      var i :| 0 <= i < |cs| && cs[i].Add? && cs[i].key == k && cs[i].items != [];
    }
  }

  /** Every value the escaped pass adds under `k` is an unescaped, non-blank
      piece of a column whose name matches `k`. */
  lemma ScalarValueOrigin(schema: Schema, m0: map<string, seq<string>>, row: Row, k: string, x: string)
    requires x in Get(ScalarFields(schema, m0, row, true).0, k) && x !in Get(m0, k)
    ensures exists i :: 0 <= i < |row| && FindFieldName(schema, row[i].0) == Some(k) && x in EscapedValues(row[i].1)
  {
    var cs := ScalarColumns(schema, row, true);
    FoldItemsFrom(m0, cs, k, x);
    var i :| 0 <= i < |cs| && cs[i].Add? && cs[i].key == k && x in cs[i].items;
    assert cs[i] == ScalarColumn(schema, row[i].0, row[i].1, true);
  }

  // ---------------------------------------------------------------------
  // Controlled fields

  /** A controlled value as the loop collects it. `caption` (the label) is only recorded
      by `WorkProxy`; the other copies leave it `None`. */
  datatype Entry = Entry(id: string, caption: Option<string>, remove: bool)

  /** Where a controlled column goes: the property, the column name after
      the `name.authority` split, and whether it is a label column. */
  datatype ControlledColumn = ControlledColumn(property: string, name: string, isLabel: bool)

  /** `field_name.split('.')` of two parts drops the authority. */
  function ColumnName(header: string): string {
    var parts := Split(header, CharIs('.'));
    if |parts| == 2 then parts[0] else header
  }

  /** The column selection of `interpret_controlled_fields`: a column whose
      value or name is blank, that echoes its header, or that is not a
      controlled field is skipped; a label column is skipped under
      `ignore_labels` and otherwise only imported under `import_labels`. */
  function ControlledTarget(schema: Schema, options: Options, header: string, value: string): (r: Option<ControlledColumn>)
    ensures r.Some? ==>
      !IsBlank(value) && !IsBlank(header) && header != value &&
      r.value.name == ColumnName(header) && FindFieldName(schema, r.value.name) == Some(r.value.property) &&
      IsControlled(schema, r.value.property) &&
      r.value.isLabel == EndsWith(Lower(r.value.name), "label") &&
      (r.value.isLabel ==> !options.ignoreLabels && options.importLabels)
    ensures (IsBlank(value) || IsBlank(header) || header == value) ==> r.None?
  {
    if IsBlank(value) || IsBlank(header) || header == value then None
    else
      var name := ColumnName(header);
      match FindFieldName(schema, name)
      case None => None
      case Some(p) =>
        if !IsControlled(schema, p) then None
        else if EndsWith(Lower(name), "label") && (options.ignoreLabels || !options.importLabels) then None
        else Some(ControlledColumn(p, name, EndsWith(Lower(name), "label")))
  }

  /** `data.uniq.map { |d| {"id" => d[:id], flag => true if d[:remove]} }` */
  function ToAttrs(es: seq<Entry>, flag: string): (r: seq<Attr>)
    ensures |r| == |es|
    ensures forall i :: 0 <= i < |es| ==> r[i].id == es[i].id && (r[i].flag == if es[i].remove then Some(flag) else None)
  {
    seq(|es|, i requires 0 <= i < |es| => Attr(es[i].id, if es[i].remove then Some(flag) else None))
  }

  /** The attribute list of a property: its entries without repetition,
      each flagged exactly when it is to be removed. */
  function AttrsOf(es: seq<Entry>, flag: string): seq<Attr> {
    ToAttrs(Uniq(es), flag)
  }

  /** Every attribute stands for one of the entries, flagged exactly when
      that entry removes. */
  lemma AttrOfEntry(es: seq<Entry>, flag: string, a: Attr) returns (e: Entry)
    requires a in AttrsOf(es, flag)
    ensures e in es && a == Attr(e.id, if e.remove then Some(flag) else None)
  {
    var u := Uniq(es);
    var k :| 0 <= k < |u| && ToAttrs(u, flag)[k] == a;
    e := u[k];
  }

  /** Every distinct entry appears once, flagged when it removes. */
  lemma AttrsOfEntries(es: seq<Entry>, flag: string, e: Entry)
    ensures e in es <==> exists i :: 0 <= i < |AttrsOf(es, flag)| && Uniq(es)[i] == e
    ensures e in es ==> Attr(e.id, if e.remove then Some(flag) else None) in AttrsOf(es, flag)
    ensures |AttrsOf(es, flag)| <= |es|
  {
    if e in es {
      var u := Uniq(es);
      var i :| 0 <= i < |u| && u[i] == e;
      assert AttrsOf(es, flag)[i] == Attr(e.id, if e.remove then Some(flag) else None);
    }
  }

  // ---------------------------------------------------------------------
  // The concern's merge

  function WithoutId(xs: seq<Attr>, id: string): (r: seq<Attr>)
    ensures forall a :: a in r <==> a in xs && a.id != id
    ensures |r| <= |xs|
  {
    if |xs| == 0 then []
    else
      var rest := WithoutId(xs[..|xs| - 1], id);
      assert forall a :: a in xs <==> a in xs[..|xs| - 1] || a == xs[|xs| - 1];
      if xs[|xs| - 1].id == id then rest else rest + [xs[|xs| - 1]]
  }

  /** `data.each { |d| list.reject! { |v| v[:id] == d[:id] }; list << d }` */
  function MergeAttrs(xs: seq<Attr>, ds: seq<Attr>): seq<Attr>
    decreases |ds|
  {
    if |ds| == 0 then xs
    else
      var m := MergeAttrs(xs, ds[..|ds| - 1]);
      WithoutId(m, ds[|ds| - 1].id) + [ds[|ds| - 1]]
  }

  predicate DistinctIds(xs: seq<Attr>) {
    forall i, j :: 0 <= i < j < |xs| ==> xs[i].id != xs[j].id
  }

  lemma WithoutIdDistinct(xs: seq<Attr>, id: string)
    requires DistinctIds(xs)
    ensures DistinctIds(WithoutId(xs, id) + [Attr(id, None)])
    decreases |xs|
  {
    var r := WithoutId(xs, id);
    if |xs| > 0 {
      var init := xs[..|xs| - 1];
      WithoutIdDistinct(init, id);
      var last := xs[|xs| - 1];
      var ri := WithoutId(init, id);
      assert forall a :: a in ri ==> a in init;
      if last.id != id {
        assert r == ri + [last];
        forall i, j | 0 <= i < j < |r| ensures r[i].id != r[j].id {
          if j == |r| - 1 {
            assert r[i] in ri;
            var k :| 0 <= k < |init| && init[k] == r[i];
            assert xs[k] == init[k];
          } else {
            assert (ri + [Attr(id, None)])[i] == r[i] && (ri + [Attr(id, None)])[j] == r[j];
          }
        }
      }
    }
    var s := r + [Attr(id, None)];
    forall i, j | 0 <= i < j < |s| ensures s[i].id != s[j].id {
      if j == |s| - 1 {
        assert s[i] in r;
      } else {
        assert s[i] == r[i] && s[j] == r[j];
        RemovedIdsDistinct(xs, id, i, j);
      }
    }
  }

  lemma {:induction false} RemovedIdsDistinct(xs: seq<Attr>, id: string, i: nat, j: nat)
    requires DistinctIds(xs)
    requires i < j < |WithoutId(xs, id)|
    ensures WithoutId(xs, id)[i].id != WithoutId(xs, id)[j].id
    decreases |xs|
  {
    var init := xs[..|xs| - 1];
    var last := xs[|xs| - 1];
    var ri := WithoutId(init, id);
    assert DistinctIds(init) by {
      forall a, b | 0 <= a < b < |init| ensures init[a].id != init[b].id {
        assert init[a] == xs[a] && init[b] == xs[b];
      }
    }
    if last.id == id || j < |ri| {
      RemovedIdsDistinct(init, id, i, j);
    } else {
      assert WithoutId(xs, id)[j] == last;
      assert WithoutId(xs, id)[i] == ri[i];
      assert ri[i] in init;
      var k :| 0 <= k < |init| && init[k] == ri[i];
      assert xs[k] == init[k];
    }
  }

  /** The merged list holds at most one entry per id. */
  lemma {:induction false} MergeAttrsDistinct(xs: seq<Attr>, ds: seq<Attr>)
    requires DistinctIds(xs)
    ensures DistinctIds(MergeAttrs(xs, ds))
    decreases |ds|
  {
    if |ds| > 0 {
      var m := MergeAttrs(xs, ds[..|ds| - 1]);
      MergeAttrsDistinct(xs, ds[..|ds| - 1]);
      var d := ds[|ds| - 1];
      WithoutIdDistinct(m, d.id);
      var r := WithoutId(m, d.id) + [d];
      forall i, j | 0 <= i < j < |r| ensures r[i].id != r[j].id {
        var s := WithoutId(m, d.id) + [Attr(d.id, None)];
        assert r[i].id == s[i].id && r[j].id == s[j].id;
      }
    }
  }

  /** No datum from position `i` on carries `id`. */
  predicate NoneFrom(ds: seq<Attr>, i: int, id: string) {
    forall j :: 0 <= j < |ds| && i <= j ==> ds[j].id != id
  }

  /** A merged entry is the last datum with its id, or an old entry whose
      id no datum carries. */
  lemma {:induction false} MergeAttrsLastWins(xs: seq<Attr>, ds: seq<Attr>, a: Attr)
    requires a in MergeAttrs(xs, ds)
    ensures (exists i :: 0 <= i < |ds| && ds[i] == a && NoneFrom(ds, i + 1, a.id)) ||
            (a in xs && NoneFrom(ds, 0, a.id))
    decreases |ds|
  {
    if |ds| > 0 {
      var init := ds[..|ds| - 1];
      var d := ds[|ds| - 1];
      if a == d {
        assert ds[|ds| - 1] == a && NoneFrom(ds, |ds|, a.id);
      } else {
        assert a in WithoutId(MergeAttrs(xs, init), d.id);
        assert a.id != d.id;
        MergeAttrsLastWins(xs, init, a);
        if a in xs && NoneFrom(init, 0, a.id) {
          NoneFromExtends(ds, 0, a.id);
        } else {
          var i :| 0 <= i < |init| && init[i] == a && NoneFrom(init, i + 1, a.id);
          assert ds[i] == a;
          NoneFromExtends(ds, i + 1, a.id);
        }
      }
    }
  }

  lemma NoneFromExtends(ds: seq<Attr>, i: int, id: string)
    requires 0 <= i < |ds| && NoneFrom(ds[..|ds| - 1], i, id) && ds[|ds| - 1].id != id
    ensures NoneFrom(ds, i, id)
  {
    forall j | i <= j < |ds| ensures ds[j].id != id {
      if j < |ds| - 1 { assert ds[j] == ds[..|ds| - 1][j]; }
    }
  }

  /** Every datum's id is present after the merge. */
  lemma {:induction false} MergeAttrsKeepsData(xs: seq<Attr>, ds: seq<Attr>, i: nat)
    requires i < |ds|
    ensures exists a :: a in MergeAttrs(xs, ds) && a.id == ds[i].id
    decreases |ds|
  {
    var init := ds[..|ds| - 1];
    var d := ds[|ds| - 1];
    if i < |ds| - 1 && ds[i].id != d.id {
      MergeAttrsKeepsData(xs, init, i);
      var a :| a in MergeAttrs(xs, init) && a.id == init[i].id;
      assert a in WithoutId(MergeAttrs(xs, init), d.id);
    } else {
      assert d in MergeAttrs(xs, ds);
    }
  }

  // ---------------------------------------------------------------------
  // Local authorities

  /** One local-authority search hit. */
  datatype AuthEntry = AuthEntry(caption: string, url: Option<string>, id: string)

  /** The collaborators the interpretation consults. */
  datatype Services = Services(
    /** `value =~ /^#{URI::regexp}$/` */
    isUrl: string -> bool,
    /** `value =~ URI::regexp`: the value has a url somewhere in it */
    hasUrl: string -> bool,
    /** `Qa::Authorities::Local.subauthority_for(auth).search(value)`, nil as `None` */
    search: (string, string) -> Option<seq<AuthEntry>>,
    /** the host part `localIdToUrl` puts before the path ("" when the environment has none) */
    rootUrl: string,
    /** `WorkIndexer.fetch_remote_label(url)` */
    fetchRemoteLabel: string -> Option<string>,
    /** the id of `find_collection(name)`, if one is found */
    findCollection: string -> Option<string>,
    /** the id given to `Collection.create(title: [name])` */
    newCollectionId: string -> string,
    /** the id of `AdminSet.where(title: "Bulk Ingest Set")`, else of the default set, when one exists */
    adminSet: Option<string>,
    /** `String#to_f` */
    toF: string -> real
  )

  /** `getLocalAuth(field)`: the local sub-authority of a controlled field. */
  function GetLocalAuth(schema: Schema, field: string): (r: Option<string>)
    ensures r.Some? <==> field in schema.localAuthority
    ensures r.Some? ==> r.value == schema.localAuthority[field]
  {
    if field in schema.localAuthority then Some(schema.localAuthority[field]) else None
  }

  /** `localIdToUrl(id, auth)`: `<root>/authorities/show/local/<auth>/<id>`. */
  function LocalIdToUrl(root: string, id: string, auth: string): (r: string)
    ensures StartsWith(r, root + "/authorities/show/local/") && EndsWith(r, "/" + id)
  {
    root + "/authorities/show/local/" + auth + "/" + id
  }

  /** The first entry labelled exactly `wanted`. */
  function FirstLabelled(entries: seq<AuthEntry>, wanted: string): (r: Option<AuthEntry>)
    ensures r.None? <==> forall i :: 0 <= i < |entries| ==> entries[i].caption != wanted
    ensures r.Some? ==>
      (exists i :: 0 <= i < |entries| && entries[i] == r.value && r.value.caption == wanted &&
         forall j :: 0 <= j < i ==> entries[j].caption != wanted)
  {
    if |entries| == 0 then None
    else if entries[0].caption == wanted then Some(entries[0])
    else
      var r := FirstLabelled(entries[1..], wanted);
      assert forall i :: 1 <= i < |entries| ==> entries[i] == entries[1..][i - 1];
      r
  }

  /** `findAuthUrl(auth, value)` of the parser and the concern: the url (or
      else the id) of the first exact-label match of the stripped value. */
  function FindAuthUrl(services: Services, auth: string, value: string): (r: Option<string>)
    ensures r.Some? ==>
      (services.search(auth, Strip(value)).Some? &&
       exists e :: e in services.search(auth, Strip(value)).value && e.caption == Strip(value) &&
         r.value == (if e.url.Some? then e.url.value else e.id))
    ensures r.None? <==>
      (services.search(auth, Strip(value)).None? ||
       forall e :: e in services.search(auth, Strip(value)).value ==> e.caption != Strip(value))
  {
    var v := Strip(value);
    match services.search(auth, v)
    case None => None
    case Some(entries) =>
      match FirstLabelled(entries, v)
      case None => None
      case Some(e) => Some(if e.url.Some? then e.url.value else e.id)
  }

  /** `mintLocalAuthUrl(auth, value)`: the url of a new entry whose id is the
      parameterized label. */
  function MintLocalAuthUrl(services: Services, auth: string, value: string): (r: string)
    ensures r == LocalIdToUrl(services.rootUrl, Parameterize(Strip(value)), auth)
  {
    LocalIdToUrl(services.rootUrl, Parameterize(Strip(value)), auth)
  }

  /** `localAuthUrl(property, value)`: the value itself for a field without
      a local authority; otherwise the matching entry's url, or a freshly
      minted one. It never comes back empty-handed. */
  function LocalAuthUrl(services: Services, schema: Schema, property: string, value: string): (r: string)
    ensures GetLocalAuth(schema, property).None? ==> r == value
    ensures GetLocalAuth(schema, property).Some? ==>
      var auth := GetLocalAuth(schema, property).value;
      (FindAuthUrl(services, auth, value).Some? ==> r == FindAuthUrl(services, auth, value).value) &&
      (FindAuthUrl(services, auth, value).None? ==> r == MintLocalAuthUrl(services, auth, value))
  {
    match GetLocalAuth(schema, property)
    case None => value
    case Some(auth) =>
      match FindAuthUrl(services, auth, value)
      case Some(url) => url
      case None => MintLocalAuthUrl(services, auth, value)
  }
}

/**
  `VerifyWorksJob`: a scan that runs a fixed table of checks on every
  repository object, records for each object id one result code whose bit
  `id` is set for every failed check, and writes a report grouping the ids
  by code. The repository probes a check performs are an oracle of the
  document (`Doc.probe`).
 */
module VerifyWorks {
  import opened Text

  // ---------------------------------------------------------------------
  // The table of checks
  // ---------------------------------------------------------------------

  /** The `method` of each entry of `tests`. */
  datatype Check =
    | PageLoad | SimpleMetadataDisplay | SimpleMetadataIndexing | ControlledMetadataDisplay
    | ControlledMetadataIndexing | CharacterEncoding | CollectionIndexing | CollectionDisplay
    | ParentIndexing | PrimaryImageIndexing | PrimaryImageDisplay | OrderedMembersIndexing
    | ChildWorkDisplay | ChildWorkIndexing | FilesetIndexing | Inheritance | FilesetPermissions

  /** `tests`, in table order. */
  const TESTS: seq<Check> := [
    PageLoad, SimpleMetadataDisplay, SimpleMetadataIndexing, ControlledMetadataDisplay,
    ControlledMetadataIndexing, CharacterEncoding, CollectionIndexing, CollectionDisplay,
    ParentIndexing, PrimaryImageIndexing, PrimaryImageDisplay, OrderedMembersIndexing,
    ChildWorkDisplay, ChildWorkIndexing, FilesetIndexing, Inheritance, FilesetPermissions]

  /** The entry's `id`. */
  function Id(c: Check): nat {
    match c
    case PageLoad => 1
    case SimpleMetadataDisplay => 2
    case SimpleMetadataIndexing => 3
    case ControlledMetadataDisplay => 4
    case ControlledMetadataIndexing => 5
    case CharacterEncoding => 6
    case CollectionIndexing => 7
    case CollectionDisplay => 8
    case ParentIndexing => 9
    case PrimaryImageIndexing => 10
    case PrimaryImageDisplay => 11
    case OrderedMembersIndexing => 12
    case ChildWorkDisplay => 13
    case ChildWorkIndexing => 14
    case FilesetIndexing => 15
    case Inheritance => 16
    case FilesetPermissions => 17
  }

  /** Whether the entry carries `object_types: [Work]`. */
  predicate WorkOnly(c: Check) {
    c in {ParentIndexing, PrimaryImageIndexing, PrimaryImageDisplay, OrderedMembersIndexing,
          ChildWorkDisplay, ChildWorkIndexing, FilesetIndexing}
  }

  /** The entry's `message`. */
  function Message(c: Check): string {
    match c
    case PageLoad => "The work show page failed to load successfully"
    case SimpleMetadataDisplay => "Some simple metadata is not displaying properly"
    case SimpleMetadataIndexing => "Some simple metadata is not being indexed properly"
    case ControlledMetadataDisplay => "Some controlled metadata is not displaying properly"
    case ControlledMetadataIndexing => "Some controlled metadata is not being indexed properly"
    case CharacterEncoding => "There are some character encoding issues with some metadata"
    case CollectionIndexing => "This object is not indexing its parent collection properly"
    case CollectionDisplay => "The object is not displaying its parent collection properly"
    case ParentIndexing => "The object is not indexing its parent work properly"
    case PrimaryImageIndexing => "The object is not indexing its primary image properly"
    case PrimaryImageDisplay => "The object is not displaying its primary image properly"
    case OrderedMembersIndexing => "The object is not indexing its ordered members properly"
    case ChildWorkDisplay => "The object is not displaying its child works properly"
    case ChildWorkIndexing => "The object is not indexing its child works properly"
    case FilesetIndexing => "The object is not indexing its filesets properly"
    case Inheritance => "The object has not inherited metadata properly from its parent work"
    case FilesetPermissions => "The visibility of this work's fileset(s) is more restrictive than that of the work itself"
  }

  /** The check a table id names, if any. */
  function CheckOf(id: int): (r: Option<Check>)
    ensures r.Some? ==> Id(r.value) == id
  {
    if 1 <= id <= |TESTS| then Some(TESTS[id - 1]) else None
  }

  /** Each check is listed once, at the position its id gives, so ids
      name checks one to one. */
  lemma CheckOfId(c: Check)
    ensures 1 <= Id(c) <= |TESTS| && TESTS[Id(c) - 1] == c && CheckOf(Id(c)) == Some(c)
  {
  }

  lemma IdInjective(a: Check, b: Check)
    requires Id(a) == Id(b)
    ensures a == b
  {
    CheckOfId(a);
    CheckOfId(b);
  }

  lemma IdDistinct(a: Check, b: Check)
    requires a != b
    ensures Id(a) != Id(b)
  {
    if Id(a) == Id(b) {
      IdInjective(a, b);
    }
  }

  /** The table lists every check, in increasing id order. */
  lemma TestsOrdered()
    ensures forall c :: c in TESTS
    ensures forall i :: 0 <= i < |TESTS| ==> Id(TESTS[i]) == i + 1
  {
    forall c ensures c in TESTS {
      CheckOfId(c);
    }
  }

  lemma TestsDistinct()
    ensures forall i, j :: 0 <= i < j < |TESTS| ==> TESTS[i] != TESTS[j]
  {
    TestsOrdered();
  }

  // ---------------------------------------------------------------------
  // Running the checks
  // ---------------------------------------------------------------------

  /** What a check learns about one document: its id, the id of the
      repository object fetched for it, whether that object is a `Work`,
      whether the document is an image, and for each probing check its
      outcome (`None` when it raised). */
  datatype Doc = Doc(id: string, objectId: string, objectIsWork: bool, isImage: bool,
                     probe: Check -> Option<bool>)

  /** A probe passes when it ran and answered true; an exception is
      rescued as a failure. */
  predicate Passed(o: Option<bool>) {
    o == Some(true)
  }

  /** The check's method, as the job defines it: the display checks and
      `character_encoding` are stubs that pass; `fileset_indexing` is not
      defined, so sending it raises and fails; `primary_image_indexing`
      fails for an image, because its lookup names an undefined
      `representative_id` and rescues the error; `controlled_metadata_indexing`
      passes unless its lookups raise, because its `all?` block gives an
      array, which is always truthy; the other checks probe the repository. */
  predicate Body(c: Check, d: Doc) {
    match c
    case PageLoad => true
    case SimpleMetadataDisplay => true
    case ControlledMetadataDisplay => true
    case CharacterEncoding => true
    case CollectionDisplay => true
    case PrimaryImageDisplay => true
    case ChildWorkDisplay => true
    case FilesetIndexing => false
    case PrimaryImageIndexing => !d.isImage
    case ControlledMetadataIndexing => d.probe(c).Some?
    case _ => Passed(d.probe(c))
  }

  /** `fileset_permissions` as written reads `doc`, a name the job does not
      define; the NameError is rescued by `run_test`, so the check fails. */
  predicate BodyAsWritten(c: Check, d: Doc) {
    if c == FilesetPermissions then false else Body(c, d)
  }

  /** `run_test`: a check limited to works passes unless the fetched
      object is a work; a document whose fetched object has another id
      fails; otherwise the check's method decides. */
  predicate RunTest(c: Check, d: Doc) {
    if WorkOnly(c) && !d.objectIsWork then true
    else if d.id != d.objectId then false
    else Body(c, d)
  }

  /** `run_test` as written: the class test reads `@Object`, which is never
      assigned, so its class is NilClass and every check limited to works
      is skipped as passed; `fileset_permissions` always fails. */
  predicate RunTestAsWritten(c: Check, d: Doc) {
    if WorkOnly(c) then true
    else if d.id != d.objectId then false
    else BodyAsWritten(c, d)
  }

  // ---------------------------------------------------------------------
  // The result code
  // ---------------------------------------------------------------------

  function Pow2(n: nat): (r: nat)
    ensures r >= 1
  {
    if n == 0 then 1 else 2 * Pow2(n - 1)
  }

  /** Bit `i` of `n`. */
  predicate Bit(n: nat, i: nat) {
    if i == 0 then n % 2 == 1 else Bit(n / 2, i - 1)
  }

  /** `select`: the checks of `cs` that `keep` holds for, in order. */
  function Select(cs: seq<Check>, keep: Check -> bool): (r: seq<Check>)
    ensures |r| <= |cs|
  {
    if cs == [] then [] else Select(cs[..|cs| - 1], keep) + (if keep(cs[|cs| - 1]) then [cs[|cs| - 1]] else [])
  }

  /** The `reduce(0)` of `run_tests`: the sum of `2**id` over the checks. */
  function CodeOf(cs: seq<Check>): nat {
    if cs == [] then 0 else CodeOf(cs[..|cs| - 1]) + Pow2(Id(cs[|cs| - 1]))
  }

  function FailsOn(d: Doc): Check -> bool {
    c => !RunTest(c, d)
  }

  /** The result code `run_tests` stores for a document. */
  function ResultCode(d: Doc): nat {
    CodeOf(Select(TESTS, FailsOn(d)))
  }

  function ResultCodeAsWritten(d: Doc): nat {
    CodeOf(Select(TESTS, c => !RunTestAsWritten(c, d)))
  }

  lemma {:induction false} SelectSpec(cs: seq<Check>, keep: Check -> bool)
    ensures forall c :: c in Select(cs, keep) <==> c in cs && keep(c)
    ensures (forall i, j :: 0 <= i < j < |cs| ==> cs[i] != cs[j]) ==>
              forall i, j :: 0 <= i < j < |Select(cs, keep)| ==> Select(cs, keep)[i] != Select(cs, keep)[j]
  {
    if cs != [] {
      var init := cs[..|cs| - 1];
      SelectSpec(init, keep);
      assert forall c :: c in cs <==> c in init || c == cs[|cs| - 1];
      if forall i, j :: 0 <= i < j < |cs| ==> cs[i] != cs[j] {
        assert cs[|cs| - 1] !in init;
      }
    }
  }

  lemma {:induction false} SelectSame(cs: seq<Check>, p: Check -> bool, q: Check -> bool)
    requires forall c :: c in cs ==> p(c) == q(c)
    ensures Select(cs, p) == Select(cs, q)
  {
    if cs != [] {
      SelectSame(cs[..|cs| - 1], p, q);
    }
  }

  lemma {:induction false} BitOfZero(i: nat)
    ensures !Bit(0, i)
  {
    if i > 0 {
      BitOfZero(i - 1);
    }
  }

  /** Adding `2**j` to a number whose bit `j` is clear sets that bit and
      leaves every other bit as it was. */
  lemma {:induction false} BitOfAddPow(x: nat, j: nat, i: nat)
    requires !Bit(x, j)
    ensures Bit(x + Pow2(j), i) <==> Bit(x, i) || i == j
  {
    if j == 0 {
      assert x % 2 == 0;
      if i > 0 {
        assert (x + 1) / 2 == x / 2;
      }
    } else {
      var p := Pow2(j - 1);
      assert (x + 2 * p) / 2 == x / 2 + p;
      assert (x + 2 * p) % 2 == x % 2;
      if i > 0 {
        BitOfAddPow(x / 2, j - 1, i - 1);
      }
    }
  }

  /** For checks listed at most once the sum of their powers of two has
      bit `i` set exactly when one of them has id `i`: the sum is the
      bitwise or of the checks' bits. */
  lemma {:induction false} CodeBits(cs: seq<Check>, i: nat)
    requires forall a, b :: 0 <= a < b < |cs| ==> cs[a] != cs[b]
    ensures Bit(CodeOf(cs), i) <==> HasId(cs, i)
    decreases |cs|
  {
    if cs == [] {
      BitOfZero(i);
    } else {
      var init := cs[..|cs| - 1];
      var last := cs[|cs| - 1];
      CodeBits(init, i);
      CodeBits(init, Id(last));
      forall k | 0 <= k < |init|
        ensures Id(init[k]) != Id(last)
      {
        assert init[k] == cs[k];
        IdDistinct(init[k], last);
      }
      BitOfAddPow(CodeOf(init), Id(last), i);
      HasIdSplit(cs, i);
    }
  }

  predicate HasId(cs: seq<Check>, i: nat) {
    exists k :: 0 <= k < |cs| && Id(cs[k]) == i
  }

  lemma HasIdSplit(cs: seq<Check>, i: nat)
    requires cs != []
    ensures HasId(cs, i) <==> HasId(cs[..|cs| - 1], i) || Id(cs[|cs| - 1]) == i
  {
    var init := cs[..|cs| - 1];
    if HasId(cs, i) {
      var k :| 0 <= k < |cs| && Id(cs[k]) == i;
      if k < |init| {
        assert Id(init[k]) == i;
      }
    }
    if HasId(init, i) {
      var k :| 0 <= k < |init| && Id(init[k]) == i;
      assert Id(cs[k]) == i;
    }
  }

  /** The code of any selection of the table has bit `id(c)` set exactly
      for the selected checks `c`, and no other bit. */
  lemma SelectionBits(keep: Check -> bool, i: nat)
    ensures Bit(CodeOf(Select(TESTS, keep)), i) <==> exists c :: Id(c) == i && keep(c)
  {
    var s := Select(TESTS, keep);
    TestsDistinct();
    TestsOrdered();
    SelectSpec(TESTS, keep);
    CodeBits(s, i);
    if exists c :: Id(c) == i && keep(c) {
      var c :| Id(c) == i && keep(c);
      assert c in s;
      var k :| 0 <= k < |s| && s[k] == c;
      assert HasId(s, i);
    }
    if HasId(s, i) {
      var k :| 0 <= k < |s| && Id(s[k]) == i;
      assert s[k] in s;
      assert keep(s[k]);
    }
  }

  /** The stored code has bit `id(c)` set exactly for the checks the
      document failed. */
  lemma ResultCodeBits(d: Doc, c: Check)
    ensures Bit(ResultCode(d), Id(c)) <==> !RunTest(c, d)
  {
    SelectionBits(FailsOn(d), Id(c));
    if Bit(ResultCode(d), Id(c)) {
      var c' :| Id(c') == Id(c) && FailsOn(d)(c');
      IdInjective(c, c');
    }
  }

  // ---------------------------------------------------------------------
  // Decoding a code
  // ---------------------------------------------------------------------

  function Digit(b: nat): char {
    if b == 0 then '0' else '1'
  }

  /** `Integer#to_s(2)`. */
  function ToBase2(n: nat): (r: string)
    ensures |r| > 0
  {
    if n < 2 then [Digit(n)] else ToBase2(n / 2) + [Digit(n % 2)]
  }

  function Reverse(s: string): (r: string)
    ensures |r| == |s|
  {
    if s == [] then [] else [s[|s| - 1]] + Reverse(s[..|s| - 1])
  }

  /** `code.to_s(2).reverse`. */
  function BinCode(code: nat): string {
    Reverse(ToBase2(code))
  }

  /** `bin_code[i].to_i`: the digit at `i`, and `nil.to_i` (0) past the end. */
  function DigitAt(bin: string, i: nat): int {
    if i < |bin| then ToI([bin[i]]) else 0
  }

  /** The checks whose bit is set in `code`. */
  function HasBit(code: nat): Check -> bool {
    c => Bit(code, Id(c))
  }

  /** `interpret_error_code` over the checks `cs`. */
  function ErrorsOf(cs: seq<Check>, bin: string): seq<string> {
    if cs == [] then []
    else ErrorsOf(cs[..|cs| - 1], bin) + (if DigitAt(bin, Id(cs[|cs| - 1])) == 0 then [] else [Message(cs[|cs| - 1])])
  }

  /** `interpret_error_code(code)`. */
  function InterpretErrorCode(code: nat): seq<string> {
    ErrorsOf(TESTS, BinCode(code))
  }

  function Messages(cs: seq<Check>): (r: seq<string>)
    ensures |r| == |cs|
  {
    if cs == [] then [] else Messages(cs[..|cs| - 1]) + [Message(cs[|cs| - 1])]
  }

  /** Position `i` of the reversed binary string holds bit `i`, and every
      bit past its end is clear. */
  lemma {:induction false} BinCodeBits(n: nat, i: nat)
    ensures i < |BinCode(n)| ==> (BinCode(n)[i] == '0' || BinCode(n)[i] == '1') && (BinCode(n)[i] == '1' <==> Bit(n, i))
    ensures i >= |BinCode(n)| ==> !Bit(n, i)
    decreases n
  {
    if n < 2 {
      assert BinCode(n) == [Digit(n)];
      if i > 0 {
        BitOfZero(i - 1);
      }
    } else {
      var t := ToBase2(n / 2);
      assert ToBase2(n) == t + [Digit(n % 2)];
      assert (t + [Digit(n % 2)])[..|t|] == t;
      assert BinCode(n) == [Digit(n % 2)] + BinCode(n / 2);
      if i > 0 {
        BinCodeBits(n / 2, i - 1);
      }
    }
  }

  lemma DigitValues()
    ensures ToI("0") == 0 && ToI("1") == 1
  {
    IntToStringToI(0);
    IntToStringToI(1);
  }

  /** `bin_code[i].to_i` is non-zero exactly when bit `i` is set. */
  lemma DigitAtBit(code: nat, i: nat)
    ensures DigitAt(BinCode(code), i) != 0 <==> Bit(code, i)
  {
    BinCodeBits(code, i);
    DigitValues();
  }

  lemma {:induction false} ErrorsOfSpec(cs: seq<Check>, code: nat)
    ensures ErrorsOf(cs, BinCode(code)) == Messages(Select(cs, HasBit(code)))
  {
    if cs != [] {
      var init := cs[..|cs| - 1];
      var last := cs[|cs| - 1];
      ErrorsOfSpec(init, code);
      DigitAtBit(code, Id(last));
      var sel := Select(init, HasBit(code));
      if HasBit(code)(last) {
        assert Select(cs, HasBit(code)) == sel + [last];
        assert (sel + [last])[..|sel|] == sel;
        assert Messages(sel + [last]) == Messages(sel) + [Message(last)];
      } else {
        assert Select(cs, HasBit(code)) == sel;
      }
    }
  }

  /** `interpret_error_code` lists the messages of exactly the checks
      whose bit is set, in table order. */
  lemma InterpretErrorCodeSpec(code: nat)
    ensures InterpretErrorCode(code) == Messages(Select(TESTS, HasBit(code)))
  {
    ErrorsOfSpec(TESTS, code);
  }

  /** Decoding the code of any selection of the table gives back the
      messages of that selection. */
  lemma EncodeDecode(keep: Check -> bool)
    ensures InterpretErrorCode(CodeOf(Select(TESTS, keep))) == Messages(Select(TESTS, keep))
  {
    var code := CodeOf(Select(TESTS, keep));
    InterpretErrorCodeSpec(code);
    forall c | c in TESTS
      ensures Bit(code, Id(c)) == keep(c)
    {
      SelectionBits(keep, Id(c));
      if Bit(code, Id(c)) {
        var c' :| Id(c') == Id(c) && keep(c');
        IdInjective(c, c');
      }
    }
    SelectSame(TESTS, HasBit(code), keep);
  }

  /** The report lists for a stored code the messages of exactly the
      checks the document failed. */
  lemma ResultCodeDecodes(d: Doc)
    ensures InterpretErrorCode(ResultCode(d)) == Messages(Select(TESTS, FailsOn(d)))
  {
    EncodeDecode(FailsOn(d));
  }

  // ---------------------------------------------------------------------
  // Findings about `run_test` as written
  // ---------------------------------------------------------------------

  /** As written, no check limited to works can ever fail. */
  lemma WorkChecksNeverFailAsWritten(d: Doc, c: Check)
    requires WorkOnly(c)
    ensures !Bit(ResultCodeAsWritten(d), Id(c))
  {
    SelectionBits(c' => !RunTestAsWritten(c', d), Id(c));
    if Bit(ResultCodeAsWritten(d), Id(c)) {
      var c' :| Id(c') == Id(c) && !RunTestAsWritten(c', d);
      IdInjective(c, c');
    }
  }

  /** A work whose parent does not list it: the intended check records
      bit 9, the check as written does not. */
  lemma ParentIndexingSkippedAsWritten()
    ensures var d := Doc("w", "w", true, false, c => Some(false));
      Bit(ResultCode(d), 9) && !Bit(ResultCodeAsWritten(d), 9)
  {
    var d := Doc("w", "w", true, false, c => Some(false));
    ResultCodeBits(d, ParentIndexing);
    WorkChecksNeverFailAsWritten(d, ParentIndexing);
  }

  /** As written, every document whose fetched object matches fails
      `fileset_permissions`, whatever its file sets are. */
  lemma FilesetPermissionsAlwaysFailsAsWritten(d: Doc)
    requires d.id == d.objectId
    ensures Bit(ResultCodeAsWritten(d), 17)
  {
    SelectionBits(c' => !RunTestAsWritten(c', d), 17);
    assert Id(FilesetPermissions) == 17;
  }

  /** With the documents' own fields, `fileset_permissions` fails exactly
      when the object differs or the probe does not pass. */
  lemma FilesetPermissionsProbed(d: Doc)
    ensures Bit(ResultCode(d), 17) <==> d.id != d.objectId || !Passed(d.probe(FilesetPermissions))
  {
    ResultCodeBits(d, FilesetPermissions);
  }

  /** `controlled_metadata_indexing` records bit 5 only when the object
      differs or a lookup raised: a label missing from the index goes
      unnoticed. */
  lemma ControlledIndexingFailsOnlyByRaising(d: Doc)
    ensures Bit(ResultCode(d), 5) <==> d.id != d.objectId || d.probe(ControlledMetadataIndexing).None?
  {
    ResultCodeBits(d, ControlledMetadataIndexing);
  }

  // ---------------------------------------------------------------------
  // The report
  // ---------------------------------------------------------------------

  /** One entry of `@data.keys.group_by { |key| @data[key] }`. */
  datatype Group = Group(code: nat, ids: seq<string>)

  /** The ids of `keys` whose stored code is `code`, in order. */
  function KeysWith(keys: seq<string>, codes: map<string, nat>, code: nat): seq<string>
    requires forall k :: k in keys ==> k in codes
  {
    if keys == [] then []
    else KeysWith(keys[..|keys| - 1], codes, code) + (if codes[keys[|keys| - 1]] == code then [keys[|keys| - 1]] else [])
  }

  function CodeSeq(keys: seq<string>, codes: map<string, nat>): (r: seq<nat>)
    requires forall k :: k in keys ==> k in codes
    ensures |r| == |keys| && forall i :: 0 <= i < |keys| ==> r[i] == codes[keys[i]]
  {
    if keys == [] then [] else CodeSeq(keys[..|keys| - 1], codes) + [codes[keys[|keys| - 1]]]
  }

  function GroupCodes(gs: seq<Group>): (r: seq<nat>)
    ensures |r| == |gs|
  {
    if gs == [] then [] else [gs[0].code] + GroupCodes(gs[1..])
  }

  lemma {:induction false} GroupCodesAt(gs: seq<Group>, i: int)
    requires 0 <= i < |gs|
    ensures GroupCodes(gs)[i] == gs[i].code
  {
    if i > 0 {
      GroupCodesAt(gs[1..], i - 1);
    }
  }

  /** Filing `key` under `code`: appended to the group of that code, or in
      a new group at the end. */
  function Place(gs: seq<Group>, code: nat, key: string): seq<Group> {
    if gs == [] then [Group(code, [key])]
    else if gs[0].code == code then [gs[0].(ids := gs[0].ids + [key])] + gs[1..]
    else [gs[0]] + Place(gs[1..], code, key)
  }

  /** `group_by`: the keys in order, each filed under its code. */
  function Groups(keys: seq<string>, codes: map<string, nat>): seq<Group>
    requires forall k :: k in keys ==> k in codes
  {
    if keys == [] then [] else Place(Groups(keys[..|keys| - 1], codes), codes[keys[|keys| - 1]], keys[|keys| - 1])
  }

  lemma {:induction false} PlaceCodes(gs: seq<Group>, code: nat, key: string)
    ensures GroupCodes(Place(gs, code, key)) == if code in GroupCodes(gs) then GroupCodes(gs) else GroupCodes(gs) + [code]
  {
    if gs != [] && gs[0].code != code {
      PlaceCodes(gs[1..], code, key);
      var rest := GroupCodes(gs[1..]);
      assert GroupCodes(gs) == [gs[0].code] + rest;
      assert code in GroupCodes(gs) <==> code in rest;
      assert [gs[0].code] + (rest + [code]) == ([gs[0].code] + rest) + [code];
    }
  }

  /** Filing touches only the group of `code`, or adds it at the end. */
  lemma {:induction false} PlaceIds(gs: seq<Group>, code: nat, key: string, i: int)
    requires forall a, b :: 0 <= a < b < |GroupCodes(gs)| ==> GroupCodes(gs)[a] != GroupCodes(gs)[b]
    requires 0 <= i < |Place(gs, code, key)|
    ensures var r := Place(gs, code, key);
      if r[i].code == code then
        (if i < |gs| then r[i] == gs[i].(ids := gs[i].ids + [key]) else r[i].ids == [key] && i == |gs|)
      else i < |gs| && r[i] == gs[i]
  {
    if gs != [] && i > 0 {
      assert GroupCodes(gs) == [gs[0].code] + GroupCodes(gs[1..]);
      if gs[0].code != code {
        var rest := GroupCodes(gs[1..]);
        forall a, b | 0 <= a < b < |rest|
          ensures rest[a] != rest[b]
        {
          assert rest[a] == GroupCodes(gs)[a + 1] && rest[b] == GroupCodes(gs)[b + 1];
        }
        PlaceIds(gs[1..], code, key, i - 1);
      } else {
        GroupCodesAt(gs, i);
        assert GroupCodes(gs)[0] == code;
      }
    }
  }

  /** `group_by` yields one group per distinct code, in the order the
      codes first occur, and each group holds exactly the ids with its
      code, in order. */
  lemma {:induction false} GroupsSpec(keys: seq<string>, codes: map<string, nat>)
    requires forall k :: k in keys ==> k in codes
    ensures GroupCodes(Groups(keys, codes)) == Uniq(CodeSeq(keys, codes))
    ensures forall i :: 0 <= i < |Groups(keys, codes)| ==>
      Groups(keys, codes)[i].ids == KeysWith(keys, codes, Groups(keys, codes)[i].code)
  {
    if keys != [] {
      var init := keys[..|keys| - 1];
      var key := keys[|keys| - 1];
      GroupsSpec(init, codes);
      PlaceCodes(Groups(init, codes), codes[key], key);
      forall i | 0 <= i < |Groups(keys, codes)|
        ensures Groups(keys, codes)[i].ids == KeysWith(keys, codes, Groups(keys, codes)[i].code)
      {
        GroupStep(keys, codes, i);
      }
    }
  }

  lemma GroupStep(keys: seq<string>, codes: map<string, nat>, i: int)
    requires forall k :: k in keys ==> k in codes
    requires keys != []
    requires var gs := Groups(keys[..|keys| - 1], codes);
      GroupCodes(gs) == Uniq(CodeSeq(keys[..|keys| - 1], codes)) &&
      forall j :: 0 <= j < |gs| ==> gs[j].ids == KeysWith(keys[..|keys| - 1], codes, gs[j].code)
    requires 0 <= i < |Groups(keys, codes)|
    ensures Groups(keys, codes)[i].ids == KeysWith(keys, codes, Groups(keys, codes)[i].code)
  {
    var init := keys[..|keys| - 1];
    var key := keys[|keys| - 1];
    var gs := Groups(init, codes);
    var r := Place(gs, codes[key], key);
    assert Groups(keys, codes) == r;
    PlaceIds(gs, codes[key], key, i);
    var c := r[i].code;
    if c == codes[key] {
      assert KeysWith(keys, codes, c) == KeysWith(init, codes, c) + [key];
      if i >= |gs| {
        PlaceCodes(gs, codes[key], key);
        KeysWithAbsent(init, codes, codes[key]);
      }
    } else {
      assert KeysWith(keys, codes, c) == KeysWith(init, codes, c);
    }
  }

  /** No id of `keys` has a code that no group of theirs carries. */
  lemma KeysWithAbsent(keys: seq<string>, codes: map<string, nat>, code: nat)
    requires forall k :: k in keys ==> k in codes
    requires code !in Uniq(CodeSeq(keys, codes))
    ensures KeysWith(keys, codes, code) == []
  {
    if keys != [] {
      var init := keys[..|keys| - 1];
      assert CodeSeq(keys, codes)[..|keys| - 1] == CodeSeq(init, codes);
      assert codes[keys[|keys| - 1]] in CodeSeq(keys, codes);
      KeysWithAbsent(init, codes, code);
    }
  }

  /** The groups the report writes: those whose code is not 0. */
  function Sections(gs: seq<Group>): seq<Group> {
    if gs == [] then [] else Sections(gs[..|gs| - 1]) + (if gs[|gs| - 1].code == 0 then [] else [gs[|gs| - 1]])
  }

  const FOUND_PREFIX: string := "We found "
  const FOUND_SUFFIX: string := " objects with the following combination of errors:"
  const IDS_HEADER: string := "These are the ids of the works with this combination of errors:"
  const RULE: string := "------------------------------------------"

  /** The lines one group adds to the report file. */
  function SectionLines(g: Group): seq<string> {
    [FOUND_PREFIX + NatToString(|g.ids|) + FOUND_SUFFIX] + InterpretErrorCode(g.code) +
    ["", IDS_HEADER, Join(g.ids, ","), "", RULE]
  }

  function Render(ss: seq<Group>): seq<string> {
    if ss == [] then [] else Render(ss[..|ss| - 1]) + SectionLines(ss[|ss| - 1])
  }

  /** Writing one more group adds its lines, unless its code is 0. */
  lemma RenderStep(gs: seq<Group>, i: int)
    requires 0 <= i < |gs|
    ensures Render(Sections(gs[..i + 1])) ==
            Render(Sections(gs[..i])) + (if gs[i].code == 0 then [] else SectionLines(gs[i]))
  {
    assert gs[..i + 1][..i] == gs[..i];
    var done := Sections(gs[..i]);
    if gs[i].code != 0 {
      assert Sections(gs[..i + 1]) == done + [gs[i]];
      assert (done + [gs[i]])[..|done|] == done;
    } else {
      assert Sections(gs[..i + 1]) == done;
    }
  }

  lemma {:induction false} SectionsSpec(gs: seq<Group>)
    ensures forall g :: g in Sections(gs) <==> g in gs && g.code != 0
  {
    if gs != [] {
      SectionsSpec(gs[..|gs| - 1]);
      assert forall g :: g in gs <==> g in gs[..|gs| - 1] || g == gs[|gs| - 1];
    }
  }

  lemma {:induction false} KeysWithSpec(keys: seq<string>, codes: map<string, nat>, code: nat)
    requires forall k :: k in keys ==> k in codes
    ensures forall k :: k in KeysWith(keys, codes, code) <==> k in keys && codes[k] == code
  {
    if keys != [] {
      KeysWithSpec(keys[..|keys| - 1], codes, code);
      assert forall k :: k in keys <==> k in keys[..|keys| - 1] || k == keys[|keys| - 1];
    }
  }

  /** The report has no section for code 0, one section per other code
      that occurs, and lists an id exactly in the section of its code. */
  lemma ReportSpec(keys: seq<string>, codes: map<string, nat>)
    requires forall k :: k in keys ==> k in codes
    ensures var ss := Sections(Groups(keys, codes));
      (forall i :: 0 <= i < |ss| ==> ss[i].code != 0 && ss[i].ids == KeysWith(keys, codes, ss[i].code)) &&
      (forall i, j :: 0 <= i < j < |ss| ==> ss[i].code != ss[j].code) &&
      (forall k :: k in keys && codes[k] != 0 ==> exists i :: 0 <= i < |ss| && ss[i].code == codes[k])
  {
    ReportSectionsHoldKeys(keys, codes);
    ReportCodesDistinct(keys, codes);
    ReportCoversCodes(keys, codes);
  }

  /** Each section of the report is a group of a non-zero code. */
  lemma ReportSectionsHoldKeys(keys: seq<string>, codes: map<string, nat>)
    requires forall k :: k in keys ==> k in codes
    ensures var ss := Sections(Groups(keys, codes));
      forall i :: 0 <= i < |ss| ==> ss[i].code != 0 && ss[i].ids == KeysWith(keys, codes, ss[i].code)
  {
    var gs := Groups(keys, codes);
    var ss := Sections(gs);
    GroupsSpec(keys, codes);
    SectionsSpec(gs);
    forall i | 0 <= i < |ss|
      ensures ss[i].code != 0 && ss[i].ids == KeysWith(keys, codes, ss[i].code)
    {
      assert ss[i] in gs;
    }
  }

  /** No two sections of the report share a code. */
  lemma ReportCodesDistinct(keys: seq<string>, codes: map<string, nat>)
    requires forall k :: k in keys ==> k in codes
    ensures var ss := Sections(Groups(keys, codes));
      forall i, j :: 0 <= i < j < |ss| ==> ss[i].code != ss[j].code
  {
    var gs := Groups(keys, codes);
    GroupsSpec(keys, codes);
    forall i, j | 0 <= i < j < |gs|
      ensures gs[i].code != gs[j].code
    {
      GroupCodesAt(gs, i);
      GroupCodesAt(gs, j);
    }
    SectionsOrdered(gs);
  }

  /** Every non-zero code of an id has a section. */
  lemma ReportCoversCodes(keys: seq<string>, codes: map<string, nat>)
    requires forall k :: k in keys ==> k in codes
    ensures var ss := Sections(Groups(keys, codes));
      forall k :: k in keys && codes[k] != 0 ==> exists i :: 0 <= i < |ss| && ss[i].code == codes[k]
  {
    var ss := Sections(Groups(keys, codes));
    forall k | k in keys && codes[k] != 0
      ensures exists i :: 0 <= i < |ss| && ss[i].code == codes[k]
    {
      CodeHasSection(keys, codes, k);
    }
  }

  /** The section for the code of one id. */
  lemma CodeHasSection(keys: seq<string>, codes: map<string, nat>, k: string)
    requires forall k :: k in keys ==> k in codes
    requires k in keys && codes[k] != 0
    ensures exists i :: 0 <= i < |Sections(Groups(keys, codes))| && Sections(Groups(keys, codes))[i].code == codes[k]
  {
    var gs := Groups(keys, codes);
    var ss := Sections(gs);
    var cs := CodeSeq(keys, codes);
    GroupsSpec(keys, codes);
    var m :| 0 <= m < |keys| && keys[m] == k;
    assert cs[m] == codes[k];
    assert codes[k] in Uniq(cs);
    var gc := GroupCodes(gs);
    assert codes[k] in gc;
    var j :| 0 <= j < |gc| && gc[j] == codes[k];
    GroupCodesAt(gs, j);
    SectionsSpec(gs);
    assert gs[j] in ss;
    var i :| 0 <= i < |ss| && ss[i] == gs[j];
  }

  /** Sections keeps the groups' order, so distinct codes stay distinct. */
  lemma {:induction false} SectionsOrdered(gs: seq<Group>)
    requires forall i, j :: 0 <= i < j < |gs| ==> gs[i].code != gs[j].code
    ensures forall i, j :: 0 <= i < j < |Sections(gs)| ==> Sections(gs)[i].code != Sections(gs)[j].code
  {
    if gs != [] {
      var init := gs[..|gs| - 1];
      var last := gs[|gs| - 1];
      SectionsOrdered(init);
      SectionsSpec(init);
      if last.code != 0 {
        var ss := Sections(gs);
        forall i | 0 <= i < |ss| - 1
          ensures ss[i].code != last.code
        {
          assert ss[i] in Sections(init);
          var j :| 0 <= j < |init| && init[j] == ss[i];
          assert gs[j] == ss[i];
        }
      }
    }
  }

  // ---------------------------------------------------------------------
  // The job's state
  // ---------------------------------------------------------------------

  class VerifyWorksJob {
    /** `@data`: the code stored for each document id ... */
    var codes: map<string, nat>
    /** ... and its keys in insertion order. */
    var order: seq<string>

    ghost predicate Valid()
      reads this
    {
      (forall i, j :: 0 <= i < j < |order| ==> order[i] != order[j]) &&
      (forall k :: k in codes <==> k in order)
    }

    /** `@data = {}`. */
    constructor ()
      ensures Valid() && codes == map[] && order == []
    {
      codes := map[];
      order := [];
    }

    /** `run_tests`: the document's result code is stored under its id; a
        new id is added after the others. */
    method RunTests(d: Doc)
      requires Valid()
      modifies this
      ensures Valid()
      ensures codes == old(codes)[d.id := ResultCode(d)]
      ensures order == if d.id in old(codes) then old(order) else old(order) + [d.id]
    {
      var code := ResultCode(d);
      if d.id !in codes {
        order := order + [d.id];
      }
      codes := codes[d.id := code];
    }

    /** `verify_work`: an id already in `@data` is skipped, any other is
        checked. */
    method VerifyWork(d: Doc)
      requires Valid()
      modifies this
      ensures Valid()
      ensures old(d.id in codes) ==> codes == old(codes) && order == old(order)
      ensures old(d.id !in codes) ==> codes == old(codes)[d.id := ResultCode(d)] && order == old(order) + [d.id]
    {
      if d.id in codes {
        return;
      }
      RunTests(d);
    }

    /** `verify_collection`: the same skip, for a collection's document. */
    method VerifyCollection(d: Doc)
      requires Valid()
      modifies this
      ensures Valid()
      ensures old(d.id in codes) ==> codes == old(codes) && order == old(order)
      ensures old(d.id !in codes) ==> codes == old(codes)[d.id := ResultCode(d)] && order == old(order) + [d.id]
    {
      if d.id in codes {
        return;
      }
      RunTests(d);
    }

    /** `generate_report`: the ids are grouped by code and every group but
        code 0 is written, in group order, as the lines of the report
        file. */
    method GenerateReport() returns (lines: seq<string>)
      requires Valid()
      ensures lines == Render(Sections(Groups(order, codes)))
    {
      var gs := Groups(order, codes);
      lines := [];
      var i := 0;
      while i < |gs|
        invariant 0 <= i <= |gs|
        invariant lines == Render(Sections(gs[..i]))
      {
        RenderStep(gs, i);
        if gs[i].code != 0 {
          lines := lines + SectionLines(gs[i]);
        }
        i := i + 1;
      }
      assert gs[..i] == gs;
    }
  }
}

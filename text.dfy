/**
  Ruby and ActiveSupport behaviour that the bulk-operation code relies on:
  `Array#uniq` and, restricted to ASCII, character classes, `downcase`,
  `strip`, `blank?`, `split` with a one-character pattern, `to_i`, integer
  rendering and Rails' `parameterize`.
 */
module Text {

  datatype Option<T> = None | Some(value: T)

  /** The characters of Ruby's `\s` and of `[[:space:]]` in ASCII. */
  predicate IsSpace(c: char) {
    c == ' ' || 9 <= c as int <= 13
  }

  /** `String#strip` also removes NUL characters. */
  predicate IsStripped(c: char) {
    IsSpace(c) || c == '\0'
  }

  predicate IsDigit(c: char) {
    '0' <= c <= '9'
  }

  predicate IsLowerAlnum(c: char) {
    ('a' <= c <= 'z') || IsDigit(c)
  }

  function LowerChar(c: char): char {
    if 'A' <= c <= 'Z' then (c as int + 32) as char else c
  }

  /** `String#downcase` on ASCII. */
  function Lower(s: string): (r: string)
    ensures |r| == |s|
    ensures forall i :: 0 <= i < |s| ==> r[i] == LowerChar(s[i])
  {
    seq(|s|, i requires 0 <= i < |s| => LowerChar(s[i]))
  }

  lemma LowerIdempotent(s: string)
    ensures Lower(Lower(s)) == Lower(s)
  {
  }

  /** ActiveSupport `blank?` on a string: empty or only whitespace. */
  predicate IsBlank(s: string) {
    forall i :: 0 <= i < |s| ==> IsSpace(s[i])
  }

  function LStrip(s: string): (r: string)
    ensures |r| <= |s| && r == s[|s| - |r|..]
    ensures r == [] || !IsStripped(r[0])
  {
    if |s| > 0 && IsStripped(s[0]) then LStrip(s[1..]) else s
  }

  function RStrip(s: string): (r: string)
    ensures |r| <= |s| && r == s[..|r|]
    ensures r == [] || !IsStripped(r[|r| - 1])
  {
    if |s| > 0 && IsStripped(s[|s| - 1]) then RStrip(s[..|s| - 1]) else s
  }

  /** `String#strip`. */
  function Strip(s: string): (r: string)
    ensures |r| <= |s|
    ensures r == [] || (!IsStripped(r[0]) && !IsStripped(r[|r| - 1]))
  {
    RStrip(LStrip(s))
  }

  predicate StartsWith(s: string, p: string) {
    |p| <= |s| && s[..|p|] == p
  }

  predicate EndsWith(s: string, p: string) {
    |p| <= |s| && s[|s| - |p|..] == p
  }

  /** `p` occurs in `s` at offset `i`. */
  predicate OccursAt(s: string, p: string, i: int) {
    0 <= i <= |s| - |p| && s[i..i + |p|] == p
  }

  /** `String#include?`. */
  predicate Contains(s: string, p: string) {
    exists i :: 0 <= i <= |s| && OccursAt(s, p, i)
  }

  function Join(xs: seq<string>, sep: string): (r: string)
    ensures |xs| == 1 ==> r == xs[0]
  {
    if |xs| == 0 then "" else if |xs| == 1 then xs[0] else xs[0] + sep + Join(xs[1..], sep)
  }

  lemma JoinAppend(xs: seq<string>, x: string, sep: string)
    requires |xs| > 0
    ensures Join(xs + [x], sep) == Join(xs, sep) + sep + x
  {
    if |xs| > 1 {
      assert (xs + [x])[1..] == xs[1..] + [x];
      JoinAppend(xs[1..], x, sep);
    }
  }

  /** Every occurrence in `s` of a character satisfying `isSep` cuts a piece;
      all pieces are kept, so there is one more piece than separators. */
  function Pieces(s: string, isSep: char -> bool): (r: seq<string>)
    ensures |r| >= 1
    decreases |s|
  {
    if |s| == 0 then [""]
    else
      var rest := Pieces(s[1..], isSep);
      if isSep(s[0]) then [""] + rest else [[s[0]] + rest[0]] + rest[1..]
  }

  function DropTrailingEmpty(xs: seq<string>): (r: seq<string>)
    ensures |r| <= |xs| && r == xs[..|r|]
    ensures r == [] || r[|r| - 1] != ""
    ensures forall i :: |r| <= i < |xs| ==> xs[i] == ""
  {
    if |xs| > 0 && xs[|xs| - 1] == "" then DropTrailingEmpty(xs[..|xs| - 1]) else xs
  }

  /** `String#split` with a one-character pattern or a character class:
      leading empty pieces are kept, trailing empty pieces are dropped. */
  function Split(s: string, isSep: char -> bool): seq<string> {
    DropTrailingEmpty(Pieces(s, isSep))
  }

  lemma PiecesHaveNoSeparator(s: string, isSep: char -> bool)
    ensures forall k, j :: 0 <= k < |Pieces(s, isSep)| && 0 <= j < |Pieces(s, isSep)[k]| ==> !isSep(Pieces(s, isSep)[k][j])
  {
  }

  lemma {:induction false} PiecesJoin(s: string, c: char)
    ensures Join(Pieces(s, x => x == c), [c]) == s
    decreases |s|
  {
    if |s| > 0 {
      var rest := Pieces(s[1..], x => x == c);
      PiecesJoin(s[1..], c);
      if s[0] == c {
        assert Pieces(s, x => x == c) == [""] + rest;
      } else {
        assert Pieces(s, x => x == c) == [[s[0]] + rest[0]] + rest[1..];
      }
    }
  }

  function CharIs(c: char): char -> bool {
    x => x == c
  }

  function IsDigits(s: string): bool {
    forall i :: 0 <= i < |s| ==> IsDigit(s[i])
  }

  /** The regular expression `\A[-+]?[0-9]+\z`. */
  predicate IsIntegerLiteral(s: string) {
    if |s| > 0 && (s[0] == '-' || s[0] == '+') then |s| > 1 && IsDigits(s[1..])
    else |s| > 0 && IsDigits(s)
  }

  function DigitsPrefix(s: string): (r: string)
    ensures |r| <= |s| && r == s[..|r|] && IsDigits(r)
  {
    if |s| > 0 && IsDigit(s[0]) then [s[0]] + DigitsPrefix(s[1..]) else ""
  }

  function DigitsValue(s: string): (n: nat)
    requires IsDigits(s)
  {
    if |s| == 0 then 0 else DigitsValue(s[..|s| - 1]) * 10 + (s[|s| - 1] as int - '0' as int)
  }

  /** `String#to_i` on ASCII digits only: leading whitespace, an optional
      sign and the longest run of digits. Ruby also skips an underscore
      between digits ("1_0" is 10); every caller here reads a string with
      no underscore. */
  function ToI(s: string): int {
    var t := LStripSpace(s);
    if |t| > 0 && t[0] == '-' then -(DigitsValue(DigitsPrefix(t[1..])) as int)
    else if |t| > 0 && t[0] == '+' then DigitsValue(DigitsPrefix(t[1..]))
    else DigitsValue(DigitsPrefix(t))
  }

  function LStripSpace(s: string): (r: string)
    ensures |r| <= |s|
  {
    if |s| > 0 && IsSpace(s[0]) then LStripSpace(s[1..]) else s
  }

  function NatToString(n: nat): (r: string)
    ensures |r| > 0 && IsDigits(r)
  {
    if n < 10 then [('0' as int + n) as char] else NatToString(n / 10) + [('0' as int + n % 10) as char]
  }

  /** `Integer#to_s`. */
  function IntToString(n: int): string {
    if n < 0 then "-" + NatToString(-n) else NatToString(n)
  }

  lemma {:induction false} NatToStringValue(n: nat)
    ensures DigitsValue(NatToString(n)) == n
  {
    var r := NatToString(n);
    if n >= 10 {
      NatToStringValue(n / 10);
      assert r[..|r| - 1] == NatToString(n / 10);
    }
  }

  lemma DigitsPrefixOfDigits(s: string)
    requires IsDigits(s)
    ensures DigitsPrefix(s) == s
  {
  }

  /** Reading back a rendered integer: `n.to_s.to_i == n`. */
  lemma IntToStringToI(n: int)
    ensures ToI(IntToString(n)) == n
  {
    var r := NatToString(if n < 0 then -n else n);
    NatToStringValue(if n < 0 then -n else n);
    DigitsPrefixOfDigits(r);
    assert IsDigit(r[0]);
    if n < 0 {
      assert IntToString(n)[1..] == r;
    }
  }

  /** Characters that Rails' `parameterize` keeps (after lower-casing). */
  predicate IsParamChar(c: char) {
    IsLowerAlnum(c) || c == '-' || c == '_'
  }

  function DashOthers(s: string): (r: string)
    ensures |r| == |s|
  {
    seq(|s|, i requires 0 <= i < |s| => if IsParamChar(s[i]) then s[i] else '-')
  }

  /** Collapses every run of '-' into a single '-'. */
  function SqueezeDashes(s: string): string {
    if |s| < 2 then s
    else if s[0] == '-' && s[1] == '-' then SqueezeDashes(s[1..])
    else [s[0]] + SqueezeDashes(s[1..])
  }

  function TrimDash(s: string): string {
    var a := if |s| > 0 && s[0] == '-' then s[1..] else s;
    if |a| > 0 && a[|a| - 1] == '-' then a[..|a| - 1] else a
  }

  /** Rails' `parameterize` on ASCII: runs of characters other than letters,
      digits, '-' and '_' become one '-', runs of '-' collapse, one leading
      and one trailing '-' go, and the result is lower case. */
  function Parameterize(s: string): string {
    TrimDash(SqueezeDashes(DashOthers(Lower(s))))
  }

  predicate IsFieldSep(c: char) {
    c == '_' || c == '-' || IsSpace(c)
  }

  /** `gsub(/[_\s-]/, '')`. */
  function RemoveFieldSeps(s: string): (r: string)
    ensures forall i :: 0 <= i < |r| ==> !IsFieldSep(r[i])
    ensures |r| <= |s|
  {
    if |s| == 0 then ""
    else if IsFieldSep(s[0]) then RemoveFieldSeps(s[1..])
    else [s[0]] + RemoveFieldSeps(s[1..])
  }

  /** `downcase.parameterize.gsub(/[_\s-]/, '')`, the normalised header
      comparison used throughout the code. */
  function NormField(s: string): string {
    RemoveFieldSeps(Parameterize(Lower(s)))
  }

  function KeepAlnum(s: string): (r: string)
    ensures forall i :: 0 <= i < |r| ==> IsLowerAlnum(r[i])
  {
    if |s| == 0 then ""
    else if IsLowerAlnum(s[0]) then [s[0]] + KeepAlnum(s[1..])
    else KeepAlnum(s[1..])
  }

  lemma RemoveSepsConcat(a: string, b: string)
    ensures RemoveFieldSeps(a + b) == RemoveFieldSeps(a) + RemoveFieldSeps(b)
  {
    if |a| > 0 {
      assert (a + b)[1..] == a[1..] + b;
      assert (a + b)[0] == a[0];
      RemoveSepsConcat(a[1..], b);
      if IsFieldSep(a[0]) {
        assert RemoveFieldSeps(a + b) == RemoveFieldSeps(a[1..] + b);
        assert RemoveFieldSeps(a) == RemoveFieldSeps(a[1..]);
      } else {
        assert RemoveFieldSeps(a + b) == [a[0]] + RemoveFieldSeps(a[1..] + b);
        assert RemoveFieldSeps(a) == [a[0]] + RemoveFieldSeps(a[1..]);
      }
    } else {
      assert a + b == b;
    }
  }

  lemma {:induction false} RemoveSepsSqueeze(s: string)
    ensures RemoveFieldSeps(SqueezeDashes(s)) == RemoveFieldSeps(s)
    decreases |s|
  {
    if |s| >= 2 {
      RemoveSepsSqueeze(s[1..]);
      if !(s[0] == '-' && s[1] == '-') {
        assert [s[0]] + s[1..] == s;
        RemoveSepsConcat([s[0]], SqueezeDashes(s[1..]));
        RemoveSepsConcat([s[0]], s[1..]);
      }
    }
  }

  lemma RemoveSepsTrim(s: string)
    ensures RemoveFieldSeps(TrimDash(s)) == RemoveFieldSeps(s)
  {
    var a := if |s| > 0 && s[0] == '-' then s[1..] else s;
    if |s| > 0 && s[0] == '-' {
      assert s == [s[0]] + s[1..];
      RemoveSepsConcat([s[0]], s[1..]);
    }
    if |a| > 0 && a[|a| - 1] == '-' {
      assert a == a[..|a| - 1] + [a[|a| - 1]];
      RemoveSepsConcat(a[..|a| - 1], [a[|a| - 1]]);
    }
  }

  lemma {:induction false} RemoveSepsDash(s: string)
    requires forall i :: 0 <= i < |s| ==> s[i] == LowerChar(s[i])
    ensures RemoveFieldSeps(DashOthers(s)) == KeepAlnum(s)
    decreases |s|
  {
    if |s| > 0 {
      assert DashOthers(s) == [DashOthers(s)[0]] + DashOthers(s[1..]);
      RemoveSepsConcat([DashOthers(s)[0]], DashOthers(s[1..]));
      RemoveSepsDash(s[1..]);
      assert !('A' <= s[0] <= 'Z');
    }
  }

  /** On ASCII input the normalised form of a header is exactly its letters
      and digits, lower-cased, in order. */
  lemma NormFieldIsLowerAlnum(s: string)
    ensures NormField(s) == KeepAlnum(Lower(s))
  {
    var l := Lower(Lower(s));
    LowerIdempotent(s);
    RemoveSepsTrim(SqueezeDashes(DashOthers(l)));
    RemoveSepsSqueeze(DashOthers(l));
    RemoveSepsDash(l);
  }

  /** The normalised form never holds '_', '-' or whitespace. */
  lemma NormFieldHasNoSeparators(s: string)
    ensures forall i :: 0 <= i < |NormField(s)| ==> !IsFieldSep(NormField(s)[i])
  {
  }

  lemma KeepAlnumFixed(s: string)
    requires forall i :: 0 <= i < |s| ==> IsLowerAlnum(s[i])
    ensures KeepAlnum(s) == s
  {
  }

  lemma LowerOfLowerAlnum(s: string)
    requires forall i :: 0 <= i < |s| ==> IsLowerAlnum(s[i])
    ensures Lower(s) == s
  {
  }

  /** Normalising is idempotent. */
  lemma NormFieldIdempotent(s: string)
    ensures NormField(NormField(s)) == NormField(s)
  {
    NormFieldIsLowerAlnum(s);
    var n := NormField(s);
    NormFieldIsLowerAlnum(n);
    LowerOfLowerAlnum(n);
    KeepAlnumFixed(n);
  }

  lemma ContainsSelf(s: string)
    ensures Contains(s, s)
  {
    assert OccursAt(s, s, 0);
  }

  lemma ContainsAppendLeft(a: string, b: string, p: string)
    requires Contains(a, p)
    ensures Contains(a + b, p)
  {
    var i :| 0 <= i <= |a| && OccursAt(a, p, i);
    assert (a + b)[i..i + |p|] == a[i..i + |p|];
    assert OccursAt(a + b, p, i);
  }

  lemma ContainsPrepend(a: string, b: string, p: string)
    requires Contains(b, p)
    ensures Contains(a + b, p)
  {
    var i :| 0 <= i <= |b| && OccursAt(b, p, i);
    assert 0 <= i <= |b| - |p|;
    assert (a + b)[|a| + i..|a| + i + |p|] == b[i..i + |p|];
    assert OccursAt(a + b, p, |a| + i);
  }

  /** Every element of a joined list occurs in the joined string. */
  lemma {:induction false} JoinContains(xs: seq<string>, sep: string, i: nat)
    requires i < |xs|
    ensures Contains(Join(xs, sep), xs[i])
    decreases |xs|
  {
    if |xs| == 1 {
      ContainsSelf(xs[0]);
    } else if i == 0 {
      ContainsSelf(xs[0]);
      ContainsAppendLeft(xs[0], sep + Join(xs[1..], sep), xs[0]);
      assert xs[0] + sep + Join(xs[1..], sep) == xs[0] + (sep + Join(xs[1..], sep));
    } else {
      JoinContains(xs[1..], sep, i - 1);
      ContainsPrepend(xs[0] + sep, Join(xs[1..], sep), xs[i]);
    }
  }

  /** Lexicographic order on strings (code point by code point), the order
      of Ruby's `String#<=>` and `Symbol#<=>` on ASCII. */
  predicate StrLt(a: string, b: string) {
    if |a| == 0 then |b| > 0
    else |b| > 0 && (a[0] < b[0] || (a[0] == b[0] && StrLt(a[1..], b[1..])))
  }

  lemma StrLtIrreflexive(a: string)
    ensures !StrLt(a, a)
  {
  }

  lemma {:induction false} StrLtTransitive(a: string, b: string, c: string)
    requires StrLt(a, b) && StrLt(b, c)
    ensures StrLt(a, c)
    decreases |a|
  {
    if |a| > 0 && a[0] == b[0] && b[0] == c[0] {
      StrLtTransitive(a[1..], b[1..], c[1..]);
    }
  }

  lemma {:induction false} StrLtTotal(a: string, b: string)
    ensures a == b || StrLt(a, b) || StrLt(b, a)
    decreases |a|
  {
    if |a| > 0 && |b| > 0 && a[0] == b[0] {
      StrLtTotal(a[1..], b[1..]);
      if a[1..] == b[1..] {
        assert a == [a[0]] + a[1..] && b == [b[0]] + b[1..];
      }
    }
  }

  lemma {:induction false} StrLtAsymmetric(a: string, b: string)
    requires StrLt(a, b)
    ensures !StrLt(b, a)
    decreases |a|
  {
    if |a| > 0 && a[0] == b[0] {
      StrLtAsymmetric(a[1..], b[1..]);
    }
  }

  /** A piece-split of a string with exactly one separator, with no
      separator on either side of it, has exactly those two sides. */
  lemma {:induction false} PiecesOneSep(a: string, b: string, c: char)
    requires forall i :: 0 <= i < |a| ==> a[i] != c
    requires forall i :: 0 <= i < |b| ==> b[i] != c
    ensures Pieces(a + [c] + b, CharIs(c)) == [a, b]
    decreases |a|
  {
    if |a| == 0 {
      assert a + [c] + b == [c] + b;
      assert (a + [c] + b)[1..] == b;
      PiecesNoSep(b, c);
    } else {
      assert (a + [c] + b)[1..] == a[1..] + [c] + b;
      PiecesOneSep(a[1..], b, c);
      assert [a[0]] + a[1..] == a;
    }
  }

  lemma {:induction false} PiecesNoSep(s: string, c: char)
    requires forall i :: 0 <= i < |s| ==> s[i] != c
    ensures Pieces(s, CharIs(c)) == [s]
    decreases |s|
  {
    if |s| > 0 {
      PiecesNoSep(s[1..], c);
      assert [s[0]] + s[1..] == s;
    }
  }

  lemma {:induction false} PiecesNoSepBy(s: string, isSep: char -> bool)
    requires forall i :: 0 <= i < |s| ==> !isSep(s[i])
    ensures Pieces(s, isSep) == [s]
    decreases |s|
  {
    if |s| > 0 {
      PiecesNoSepBy(s[1..], isSep);
      assert [s[0]] + s[1..] == s;
    }
  }

  lemma {:induction false} PiecesOneSepBy(a: string, b: string, c: char, isSep: char -> bool)
    requires isSep(c)
    requires forall i :: 0 <= i < |a| ==> !isSep(a[i])
    requires forall i :: 0 <= i < |b| ==> !isSep(b[i])
    ensures Pieces(a + [c] + b, isSep) == [a, b]
    decreases |a|
  {
    if |a| == 0 {
      assert a + [c] + b == [c] + b;
      assert (a + [c] + b)[1..] == b;
      PiecesNoSepBy(b, isSep);
    } else {
      assert (a + [c] + b)[1..] == a[1..] + [c] + b;
      PiecesOneSepBy(a[1..], b, c, isSep);
      assert [a[0]] + a[1..] == a;
    }
  }

  /** A separator after a separator-free prefix cuts off that prefix. */
  lemma {:induction false} PiecesCut(a: string, c: char, b: string, isSep: char -> bool)
    requires isSep(c)
    requires forall i :: 0 <= i < |a| ==> !isSep(a[i])
    ensures Pieces(a + [c] + b, isSep) == [a] + Pieces(b, isSep)
    decreases |a|
  {
    if |a| == 0 {
      assert a + [c] + b == [c] + b;
      assert (a + [c] + b)[1..] == b;
    } else {
      assert (a + [c] + b)[1..] == a[1..] + [c] + b;
      PiecesCut(a[1..], c, b, isSep);
      assert [a[0]] + a[1..] == a;
    }
  }

  /** `Array#uniq`: the first occurrence of each element, in order. */
  function Uniq<T(==,!new)>(xs: seq<T>): (r: seq<T>)
    ensures forall x :: x in r <==> x in xs
    ensures forall i, j :: 0 <= i < j < |r| ==> r[i] != r[j]
    ensures |r| <= |xs|
  {
    if |xs| == 0 then []
    else
      var u := Uniq(xs[..|xs| - 1]);
      assert forall x :: x in xs <==> x in xs[..|xs| - 1] || x == xs[|xs| - 1];
      if xs[|xs| - 1] in u then u else u + [xs[|xs| - 1]]
  }

  lemma {:induction false} UniqOfDistinct<T(!new)>(xs: seq<T>)
    requires forall i, j :: 0 <= i < j < |xs| ==> xs[i] != xs[j]
    ensures Uniq(xs) == xs
    decreases |xs|
  {
    if |xs| > 0 {
      UniqOfDistinct(xs[..|xs| - 1]);
      assert xs[|xs| - 1] !in xs[..|xs| - 1];
      assert xs[..|xs| - 1] + [xs[|xs| - 1]] == xs;
    }
  }
}

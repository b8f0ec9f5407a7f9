/**
 * The string primitives the stores use: `toLowerCase`, `includes`, `trim`,
 * the default string order of `sort`, `join`/`split` on one character, and
 * decimal rendering and `parseInt(_, 10)` for the page number in the URL.
 */
module Text {
  import opened Wrappers
  import Seqs

  // ---- case folding and substring search ---------------------------------

  function LowerChar(c: char): char {
    if 'A' <= c <= 'Z' then (c as int - 'A' as int + 'a' as int) as char else c
  }

  /** `toLowerCase`, on the ASCII letters. */
  function ToLower(s: string): (r: string)
    ensures |r| == |s|
    ensures forall i :: 0 <= i < |s| ==> r[i] == LowerChar(s[i])
  {
    if s == [] then [] else ToLower(s[..|s| - 1]) + [LowerChar(s[|s| - 1])]
  }

  lemma ToLowerIdempotent(s: string)
    ensures ToLower(ToLower(s)) == ToLower(s)
  {
    assert forall i :: 0 <= i < |s| ==> LowerChar(LowerChar(s[i])) == LowerChar(s[i]);
  }

  predicate OccursAt(hay: string, needle: string, i: nat) {
    i + |needle| <= |hay| && hay[i..i + |needle|] == needle
  }

  /** `hay.includes(needle)`. */
  predicate Contains(hay: string, needle: string)
    decreases |hay|
  {
    needle <= hay || (hay != [] && Contains(hay[1..], needle))
  }

  /** `Contains` holds exactly when `needle` occurs in `hay` at some position. */
  lemma {:induction false} ContainsIffOccurs(hay: string, needle: string)
    ensures Contains(hay, needle) <==> exists i: nat :: OccursAt(hay, needle, i)
    decreases |hay|
  {
    if needle <= hay {
      assert OccursAt(hay, needle, 0);
    }
    if hay != [] {
      ContainsIffOccurs(hay[1..], needle);
      if Contains(hay[1..], needle) {
        var i: nat :| OccursAt(hay[1..], needle, i);
        assert OccursAt(hay, needle, i + 1);
      }
      if i: nat :| OccursAt(hay, needle, i) {
        if i > 0 {
          assert OccursAt(hay[1..], needle, i - 1);
        }
      }
    }
  }

  /** Every string includes the empty string: an empty filter matches everything. */
  lemma ContainsEmpty(hay: string)
    ensures Contains(hay, "")
  {
  }

  // ---- whitespace and trim ------------------------------------------------

  /**
   * The characters `String.prototype.trim` and `parseInt` skip: ECMAScript's
   * WhiteSpace (tab, vertical tab, form feed, no-break space, byte order mark and
   * the space separators) and LineTerminator (LF, CR, line and paragraph separator).
   */
  predicate IsWhite(c: char) {
    || c == '\t' || c == '\n' || c == '\U{000B}' || c == '\U{000C}' || c == '\r'
    || c == ' ' || c == '\U{00A0}' || c == '\U{1680}'
    || ('\U{2000}' <= c <= '\U{200A}')
    || c == '\U{2028}' || c == '\U{2029}' || c == '\U{202F}' || c == '\U{205F}'
    || c == '\U{3000}' || c == '\U{FEFF}'
  }

  /** Length of the whitespace run at the start of `s`. */
  function LeadingWhite(s: string): (k: nat)
    ensures k <= |s|
    ensures forall i :: 0 <= i < k ==> IsWhite(s[i])
    ensures k < |s| ==> !IsWhite(s[k])
  {
    if s == [] || !IsWhite(s[0]) then 0 else 1 + LeadingWhite(s[1..])
  }

  /** Where the whitespace run at the end of `s` begins. */
  function TrailingWhite(s: string): (k: nat)
    ensures k <= |s|
    ensures forall i :: k <= i < |s| ==> IsWhite(s[i])
    ensures k > 0 ==> !IsWhite(s[k - 1])
  {
    if s == [] || !IsWhite(s[|s| - 1]) then |s| else TrailingWhite(s[..|s| - 1])
  }

  /** `s.trimStart()`: `s` without its leading whitespace, and nothing else dropped. */
  function TrimStart(s: string): (r: string)
    ensures |r| <= |s| && r == s[|s| - |r|..]
    ensures forall i :: 0 <= i < |s| - |r| ==> IsWhite(s[i])
    ensures r != [] ==> !IsWhite(r[0])
  {
    s[LeadingWhite(s)..]
  }

  /**
   * `s.trim()`: the longest piece of `s` that neither starts nor ends with
   * whitespace, obtained by dropping whitespace only.
   */
  function Trim(s: string): (r: string)
    ensures |r| > 0 ==> !IsWhite(r[0]) && !IsWhite(r[|r| - 1])
    ensures exists a: nat, b: nat ::
              (&& a <= b <= |s| && r == s[a..b]
               && (forall i :: 0 <= i < a ==> IsWhite(s[i]))
               && (forall i :: b <= i < |s| ==> IsWhite(s[i])))
  {
    var a := LeadingWhite(s);
    var t := s[a..];
    var b := TrailingWhite(t);
    assert t[..b] == s[a..a + b];
    t[..b]
  }

  lemma TrimIdempotent(s: string)
    ensures Trim(Trim(s)) == Trim(s)
  {
    var r := Trim(s);
    assert LeadingWhite(r) == 0;
    assert TrailingWhite(r[LeadingWhite(r)..]) == |r|;
  }

  // ---- the default string order -------------------------------------------

  /**
   * Lexicographic order on characters, the order `Array.prototype.sort` uses
   * for strings (and `localeCompare` is taken to agree with it).
   */
  predicate StrLe(a: string, b: string)
    decreases |a|
  {
    if a == [] then true
    else if b == [] then false
    else if a[0] != b[0] then a[0] < b[0]
    else StrLe(a[1..], b[1..])
  }

  lemma {:induction false} StrLeTotal(a: string, b: string)
    ensures StrLe(a, b) || StrLe(b, a)
    decreases |a|
  {
    if a != [] && b != [] && a[0] == b[0] {
      StrLeTotal(a[1..], b[1..]);
    }
  }

  lemma {:induction false} StrLeAntisymmetric(a: string, b: string)
    requires StrLe(a, b) && StrLe(b, a)
    ensures a == b
    decreases |a|
  {
    if a != [] && b != [] {
      StrLeAntisymmetric(a[1..], b[1..]);
      assert a == [a[0]] + a[1..] && b == [b[0]] + b[1..];
    }
  }

  lemma {:induction false} StrLeTransitive(a: string, b: string, c: string)
    requires StrLe(a, b) && StrLe(b, c)
    ensures StrLe(a, c)
    decreases |a|
  {
    if a != [] && b != [] && c != [] && a[0] == b[0] == c[0] {
      StrLeTransitive(a[1..], b[1..], c[1..]);
    }
  }

  lemma StrLeIsTotalPreorder()
    ensures Seqs.TotalPreorder(StrLe)
  {
    forall a, b ensures StrLe(a, b) || StrLe(b, a) {
      StrLeTotal(a, b);
    }
    forall a, b, c | StrLe(a, b) && StrLe(b, c) ensures StrLe(a, c) {
      StrLeTransitive(a, b, c);
    }
  }

  /** A shared prefix does not decide the order: the rest does. */
  lemma {:induction false} StrLeSharedPrefix(p: string, a: string, b: string)
    ensures StrLe(p + a, p + b) == StrLe(a, b)
    decreases |p|
  {
    if p != [] {
      assert (p + a)[0] == p[0] == (p + b)[0];
      assert (p + a)[1..] == p[1..] + a && (p + b)[1..] == p[1..] + b;
      StrLeSharedPrefix(p[1..], a, b);
      assert StrLe(p + a, p + b) == StrLe(p[1..] + a, p[1..] + b);
    } else {
      assert p + a == a && p + b == b;
    }
  }

  /** `Array.from(new Set(xs)).sort()`. */
  function SortedDistinct(xs: seq<string>): seq<string> {
    Seqs.InsertionSort(Seqs.Distinct(xs), StrLe)
  }

  /**
   * The sorted distinct values of `xs` are strictly increasing and hold exactly
   * the values of `xs`.
   */
  lemma SortedDistinctSpec(xs: seq<string>)
    ensures forall i, j :: 0 <= i < j < |SortedDistinct(xs)| ==>
      StrLe(SortedDistinct(xs)[i], SortedDistinct(xs)[j]) && SortedDistinct(xs)[i] != SortedDistinct(xs)[j]
    ensures forall x :: x in SortedDistinct(xs) <==> x in xs
  {
    var d := Seqs.Distinct(xs);
    var r := SortedDistinct(xs);
    StrLeIsTotalPreorder();
    Seqs.InsertionSortCorrect(d, StrLe);
    Seqs.DistinctInEncounterOrder(xs);
    forall x ensures x in r <==> x in xs {
      calc {
        x in r;
        x in multiset(r);
        x in multiset(d);
        x in d;
      }
    }
    Seqs.PermutationKeepsNoDup(d, r);
  }

  // ---- join and split on one character ------------------------------------

  /** `parts.join(sep)`. */
  function Join(parts: seq<string>, sep: char): string {
    if |parts| == 0 then ""
    else if |parts| == 1 then parts[0]
    else parts[0] + [sep] + Join(parts[1..], sep)
  }

  /** Joining two non-empty lists is joining each and putting `sep` between. */
  lemma {:induction false} JoinAppend(a: seq<string>, b: seq<string>, sep: char)
    requires |a| > 0 && |b| > 0
    ensures Join(a + b, sep) == Join(a, sep) + [sep] + Join(b, sep)
  {
    if |a| > 1 {
      JoinAppend(a[1..], b, sep);
      assert (a + b)[1..] == a[1..] + b;
    }
  }

  /** `s.split(sep)`: the pieces between occurrences of `sep`. */
  function Split(s: string, sep: char): (r: seq<string>)
    ensures |r| >= 1
    decreases |s|
  {
    if s == [] then [""]
    else
      var rest := Split(s[1..], sep);
      if s[0] == sep then [""] + rest else [[s[0]] + rest[0]] + rest[1..]
  }

  function CountChar(s: string, c: char): nat {
    if s == [] then 0 else (if s[0] == c then 1 else 0) + CountChar(s[1..], c)
  }

  function TotalCount(parts: seq<string>, c: char): nat {
    if parts == [] then 0 else CountChar(parts[0], c) + TotalCount(parts[1..], c)
  }

  lemma {:induction false} CountCharAppend(a: string, b: string, c: char)
    ensures CountChar(a + b, c) == CountChar(a, c) + CountChar(b, c)
  {
    if a == [] {
      assert a + b == b;
    } else {
      assert (a + b)[1..] == a[1..] + b;
      CountCharAppend(a[1..], b, c);
    }
  }

  /** Splitting yields one more piece than there are separators. */
  lemma {:induction false} SplitLength(s: string, c: char)
    ensures |Split(s, c)| == CountChar(s, c) + 1
  {
    if s != [] {
      SplitLength(s[1..], c);
    }
  }

  lemma {:induction false} JoinCount(parts: seq<string>, c: char)
    requires |parts| >= 1
    ensures CountChar(Join(parts, c), c) == |parts| - 1 + TotalCount(parts, c)
  {
    if |parts| > 1 {
      JoinCount(parts[1..], c);
      CountCharAppend(parts[0] + [c], Join(parts[1..], c), c);
      CountCharAppend(parts[0], [c], c);
    }
  }

  /**
   * Joining pieces with `c` and splitting on `c` gives back one piece per
   * separator plus one: the pieces themselves exactly when none contains `c`.
   */
  lemma JoinSplitCount(parts: seq<string>, c: char)
    requires |parts| >= 1
    ensures |Split(Join(parts, c), c)| == |parts| + TotalCount(parts, c)
  {
    SplitLength(Join(parts, c), c);
    JoinCount(parts, c);
  }

  lemma {:induction false} TotalCountZero(parts: seq<string>, c: char)
    ensures TotalCount(parts, c) == 0 <==> forall i :: 0 <= i < |parts| ==> c !in parts[i]
  {
    if parts != [] {
      TotalCountZero(parts[1..], c);
      CountCharZero(parts[0], c);
      assert forall i :: 1 <= i < |parts| ==> parts[i] == parts[1..][i - 1];
    }
  }

  lemma {:induction false} CountCharZero(s: string, c: char)
    ensures CountChar(s, c) == 0 <==> c !in s
  {
    if s != [] {
      CountCharZero(s[1..], c);
      assert s == [s[0]] + s[1..];
    }
  }

  lemma {:induction false} SplitNoSep(s: string, c: char)
    requires c !in s
    ensures Split(s, c) == [s]
  {
    if s != [] {
      SplitNoSep(s[1..], c);
      assert [s[0]] + s[1..] == s;
    }
  }

  lemma {:induction false} SplitPrefix(a: string, c: char, b: string)
    requires c !in a
    ensures Split(a + [c] + b, c) == [a] + Split(b, c)
  {
    if a != [] {
      assert (a + [c] + b)[1..] == a[1..] + [c] + b;
      SplitPrefix(a[1..], c, b);
      assert [a[0]] + a[1..] == a;
    } else {
      assert (a + [c] + b)[1..] == b;
    }
  }

  /** When no piece contains the separator, `split` undoes `join`. */
  lemma {:induction false} SplitJoin(parts: seq<string>, c: char)
    requires |parts| >= 1
    requires forall i :: 0 <= i < |parts| ==> c !in parts[i]
    ensures Split(Join(parts, c), c) == parts
  {
    if |parts| == 1 {
      SplitNoSep(parts[0], c);
    } else {
      SplitJoin(parts[1..], c);
      SplitPrefix(parts[0], c, Join(parts[1..], c));
    }
  }

  // ---- decimal numbers -----------------------------------------------------

  predicate IsDigit(c: char) {
    '0' <= c <= '9'
  }

  function DigitChar(d: nat): char
    requires d < 10
  {
    ('0' as int + d) as char
  }

  /** `String(n)` for a natural number. */
  function NatToString(n: nat): (r: string)
    ensures |r| >= 1
    ensures forall i :: 0 <= i < |r| ==> IsDigit(r[i])
  {
    if n < 10 then [DigitChar(n)] else NatToString(n / 10) + [DigitChar(n % 10)]
  }

  /** `String(i)` for an integer. */
  function IntToString(i: int): string {
    if i < 0 then "-" + NatToString(-i) else NatToString(i)
  }

  /** The longest prefix of `s` made of decimal digits. */
  function DigitPrefix(s: string): (r: string)
    ensures r <= s
    ensures forall i :: 0 <= i < |r| ==> IsDigit(r[i])
    ensures |r| < |s| ==> !IsDigit(s[|r|])
  {
    if s == [] || !IsDigit(s[0]) then [] else [s[0]] + DigitPrefix(s[1..])
  }

  function DigitValue(c: char): nat
    requires IsDigit(c)
  {
    c as int - '0' as int
  }

  function DigitsValue(ds: string): nat
    requires forall i :: 0 <= i < |ds| ==> IsDigit(ds[i])
  {
    if ds == [] then 0 else 10 * DigitsValue(ds[..|ds| - 1]) + DigitValue(ds[|ds| - 1])
  }

  /**
   * `parseInt(s, 10)`: skip leading whitespace, read an optional sign and then
   * as many decimal digits as there are; no digit at all is `NaN`, here `None`.
   */
  function ParseInt(s: string): (r: Option<int>)
    ensures r.None? <==> DigitPrefix(SignedBody(TrimStart(s))) == []
  {
    var t := TrimStart(s);
    var ds := DigitPrefix(SignedBody(t));
    var v: int := DigitsValue(ds);
    if ds == [] then None
    else if |t| > 0 && t[0] == '-' then Some(-v)
    else Some(v)
  }

  function SignedBody(t: string): string {
    if |t| > 0 && (t[0] == '-' || t[0] == '+') then t[1..] else t
  }

  lemma {:induction false} DigitPrefixOfDigits(s: string)
    requires forall i :: 0 <= i < |s| ==> IsDigit(s[i])
    ensures DigitPrefix(s) == s
  {
    if s != [] {
      DigitPrefixOfDigits(s[1..]);
    }
  }

  lemma {:induction false} DigitsValueOfNat(n: nat)
    ensures DigitsValue(NatToString(n)) == n
  {
    if n >= 10 {
      DigitsValueOfNat(n / 10);
      var r := NatToString(n);
      assert r[..|r| - 1] == NatToString(n / 10);
    }
  }

  /** Reading back a rendered integer gives the integer: `parseInt(String(i), 10) == i`. */
  lemma ParseIntOfIntToString(i: int)
    ensures ParseInt(IntToString(i)) == Some(i)
  {
    var n: nat := if i < 0 then -i else i;
    IntToStringShape(i);
    DigitPrefixOfDigits(NatToString(n));
    DigitsValueOfNat(n);
  }

  /** `String(i)`: an optional minus sign, then the digits of `|i|`, no whitespace. */
  lemma IntToStringShape(i: int)
    ensures var s := IntToString(i);
            && |s| > 0
            && (s[0] == '-' <==> i < 0)
            && TrimStart(s) == s
            && SignedBody(s) == NatToString(if i < 0 then -i else i)
  {
    var digits := NatToString(if i < 0 then -i else i);
    var s := IntToString(i);
    assert IsDigit(digits[0]);
    assert LeadingWhite(s) == 0;
    if i < 0 {
      assert s[1..] == digits;
    }
  }
}

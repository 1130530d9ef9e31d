/**
 * Shared vocabulary for the model: an Option type, the few Python string
 * operations the handlers rely on (strip, upper/lower, startswith/endswith,
 * split, join, code-point ordering, str(int)) and a key-directed insertion
 * sort standing for Python's `sorted`/`list.sort` on text keys.
 */
module Common {

  datatype Option<+T> = None | Some(value: T)

  // ---------------------------------------------------------------------
  // Characters
  // ---------------------------------------------------------------------

  /** Python's `str.isspace` on one character (the set `str.strip()` removes). */
  predicate IsSpace(c: char) {
    var n := c as int;
    (0x09 <= n <= 0x0D) || (0x1C <= n <= 0x20) || n == 0x85 || n == 0xA0 ||
    n == 0x1680 || (0x2000 <= n <= 0x200A) || n == 0x2028 || n == 0x2029 ||
    n == 0x202F || n == 0x205F || n == 0x3000
  }

  predicate IsDigit(c: char) { '0' <= c <= '9' }

  function UpperChar(c: char): (r: char)
    ensures 'a' <= c <= 'z' ==> 'A' <= r <= 'Z' && r as int == c as int - 32
    ensures !('a' <= c <= 'z') ==> r == c
  {
    if 'a' <= c <= 'z' then (c as int - 32) as char else c
  }

  function LowerChar(c: char): (r: char)
    ensures 'A' <= c <= 'Z' ==> 'a' <= r <= 'z' && r as int == c as int + 32
    ensures !('A' <= c <= 'Z') ==> r == c
  {
    if 'A' <= c <= 'Z' then (c as int + 32) as char else c
  }

  /** `str.upper()` restricted to the ASCII letters. */
  function Upper(s: string): (r: string)
    ensures |r| == |s|
    ensures forall i :: 0 <= i < |s| ==> r[i] == UpperChar(s[i])
  {
    if s == [] then [] else [UpperChar(s[0])] + Upper(s[1..])
  }

  /** `str.lower()` restricted to the ASCII letters. */
  function Lower(s: string): (r: string)
    ensures |r| == |s|
    ensures forall i :: 0 <= i < |s| ==> r[i] == LowerChar(s[i])
  {
    if s == [] then [] else [LowerChar(s[0])] + Lower(s[1..])
  }

  /** `str.capitalize()` restricted to ASCII: first letter upper, the rest lower. */
  function Capitalize(s: string): (r: string)
    ensures |r| == |s|
    ensures s != [] ==> r[0] == UpperChar(s[0]) && r[1..] == Lower(s[1..])
  {
    if s == [] then [] else [UpperChar(s[0])] + Lower(s[1..])
  }

  // ---------------------------------------------------------------------
  // strip
  // ---------------------------------------------------------------------

  function LStrip(s: string): (r: string)
    ensures |r| <= |s| && r == s[|s| - |r|..]
    ensures forall k :: 0 <= k < |s| - |r| ==> IsSpace(s[k])
    ensures r == [] || !IsSpace(r[0])
  {
    if s != [] && IsSpace(s[0]) then LStrip(s[1..]) else s
  }

  function RStrip(s: string): (r: string)
    ensures |r| <= |s| && r == s[..|r|]
    ensures forall k :: |r| <= k < |s| ==> IsSpace(s[k])
    ensures r == [] || !IsSpace(r[|r| - 1])
  {
    if s != [] && IsSpace(s[|s| - 1]) then RStrip(s[..|s| - 1]) else s
  }

  /**
   * Python's `str.strip()`: the longest middle part of `s` that neither
   * starts nor ends with white space; everything cut off is white space.
   */
  function Strip(s: string): (r: string)
    ensures |r| <= |s|
    ensures r == [] || (!IsSpace(r[0]) && !IsSpace(r[|r| - 1]))
  {
    StripParts(s);
    RStrip(LStrip(s))
  }

  /** Strip gives the empty text exactly for all-white-space input, and keeps only characters of its input. */
  lemma StripContents(s: string)
    ensures Strip(s) == [] <==> forall k :: 0 <= k < |s| ==> IsSpace(s[k])
    ensures forall c :: c in Strip(s) ==> c in s
  {
    StripParts(s);
  }

  lemma StripParts(s: string)
    ensures |RStrip(LStrip(s))| <= |s|
    ensures RStrip(LStrip(s)) == [] || (!IsSpace(RStrip(LStrip(s))[0]) && !IsSpace(RStrip(LStrip(s))[|RStrip(LStrip(s))| - 1]))
    ensures RStrip(LStrip(s)) == [] <==> forall k :: 0 <= k < |s| ==> IsSpace(s[k])
    ensures forall c :: c in RStrip(LStrip(s)) ==> c in s
  {
    var l := LStrip(s);
    LStripEmpty(s);
    RStripKeepsHead(l);
    SliceChars(s, |s| - |l|);
    SliceChars(l, 0, |RStrip(l)|);
  }

  lemma LStripEmpty(s: string)
    ensures LStrip(s) == [] <==> forall k :: 0 <= k < |s| ==> IsSpace(s[k])
  {
    var l := LStrip(s);
    if l != [] {
      assert s[|s| - |l|] == l[0];
    }
  }

  lemma RStripKeepsHead(l: string)
    requires l == [] || !IsSpace(l[0])
    ensures RStrip(l) == [] <==> l == []
    ensures RStrip(l) != [] ==> RStrip(l)[0] == l[0]
  {
  }

  /** Every character of a slice is a character of the text. */
  lemma SliceChars(s: string, i: nat, j: nat := |s|)
    requires i <= j <= |s|
    ensures forall c :: c in s[i..j] ==> c in s
  {
    forall c | c in s[i..j] ensures c in s {
      var k :| 0 <= k < j - i && s[i..j][k] == c;
      assert s[i + k] == c;
    }
  }

  /** When nothing at either end is white space, strip leaves the text alone. */
  lemma StripUnpadded(s: string)
    requires s == [] || (!IsSpace(s[0]) && !IsSpace(s[|s| - 1]))
    ensures Strip(s) == s
  {
  }

  // ---------------------------------------------------------------------
  // Prefixes, suffixes, search
  // ---------------------------------------------------------------------

  predicate StartsWith(s: string, p: string) {
    |p| <= |s| && s[..|p|] == p
  }

  predicate EndsWith(s: string, p: string) {
    |p| <= |s| && s[|s| - |p|..] == p
  }

  /** Index of the first occurrence of `c` in `s`. */
  function IndexOf(s: string, c: char): (r: Option<nat>)
    ensures r.None? <==> c !in s
    ensures r.Some? ==> r.value < |s| && s[r.value] == c && c !in s[..r.value]
  {
    if s == [] then None
    else if s[0] == c then Some(0)
    else match IndexOf(s[1..], c)
      case None => None
      case Some(i) => assert s[1..][..i] == s[1..i + 1]; Some(i + 1)
  }

  // ---------------------------------------------------------------------
  // split / join / character replacement
  // ---------------------------------------------------------------------

  /** Python's `s.split(c)` for a one-character separator. */
  function Split(s: string, c: char): (parts: seq<string>)
    ensures |parts| >= 1
    ensures forall i :: 0 <= i < |parts| ==> c !in parts[i]
    decreases |s|
  {
    match IndexOf(s, c)
    case None => [s]
    case Some(i) => [s[..i]] + Split(s[i + 1..], c)
  }

  /** Python's `sep.join(parts)`. */
  function Join(parts: seq<string>, sep: string): string {
    if parts == [] then []
    else if |parts| == 1 then parts[0]
    else parts[0] + sep + Join(parts[1..], sep)
  }

  /** Splitting and re-joining on the same character gives back the text. */
  lemma {:induction false} JoinSplit(s: string, c: char)
    ensures Join(Split(s, c), [c]) == s
    decreases |s|
  {
    match IndexOf(s, c)
    case None =>
    case Some(i) =>
      var rest := Split(s[i + 1..], c);
      assert Split(s, c) == [s[..i]] + rest;
      JoinCons(s[..i], rest, [c]);
      JoinSplit(s[i + 1..], c);
      assert s == s[..i] + [c] + s[i + 1..];
  }

  lemma JoinCons(h: string, rest: seq<string>, sep: string)
    requires rest != []
    ensures Join([h] + rest, sep) == h + sep + Join(rest, sep)
  {
    assert ([h] + rest)[1..] == rest;
  }

  /** Joining separator-free parts and splitting again gives back the parts. */
  lemma {:induction false} SplitJoin(parts: seq<string>, c: char)
    requires |parts| >= 1
    requires forall i :: 0 <= i < |parts| ==> c !in parts[i]
    ensures Split(Join(parts, [c]), c) == parts
    decreases |parts|
  {
    if |parts| == 1 {
      assert IndexOf(parts[0], c).None?;
    } else {
      var rest := Join(parts[1..], [c]);
      var s := parts[0] + [c] + rest;
      assert s[|parts[0]|] == c;
      assert s[..|parts[0]|] == parts[0];
      assert IndexOf(s, c) == Some(|parts[0]|);
      assert s[|parts[0]| + 1..] == rest;
      SplitJoin(parts[1..], c);
    }
  }

  /** `s.replace(a, b)` for single characters. */
  function ReplaceChar(s: string, a: char, b: char): (r: string)
    ensures |r| == |s|
    ensures forall i :: 0 <= i < |s| ==> r[i] == (if s[i] == a then b else s[i])
  {
    if s == [] then [] else [if s[0] == a then b else s[0]] + ReplaceChar(s[1..], a, b)
  }

  /** `s.replace(c, "")`. */
  function RemoveChar(s: string, c: char): (r: string)
    ensures c !in r
    ensures forall x :: x in r <==> x in s && x != c
  {
    if s == [] then [] else (if s[0] == c then [] else [s[0]]) + RemoveChar(s[1..], c)
  }

  // ---------------------------------------------------------------------
  // Python's ordering of str values (by code point, lexicographic)
  // ---------------------------------------------------------------------

  predicate StrLt(a: string, b: string) {
    if a == [] then b != []
    else if b == [] then false
    else if a[0] != b[0] then a[0] < b[0]
    else StrLt(a[1..], b[1..])
  }

  predicate StrLe(a: string, b: string) {
    a == b || StrLt(a, b)
  }

  lemma {:induction false} StrLtIrreflexive(a: string)
    ensures !StrLt(a, a)
    decreases |a|
  {
    if a != [] { StrLtIrreflexive(a[1..]); }
  }

  lemma {:induction false} StrLtTransitive(a: string, b: string, c: string)
    requires StrLt(a, b) && StrLt(b, c)
    ensures StrLt(a, c)
    decreases |a|
  {
    if a != [] && a[0] == b[0] && b[0] == c[0] {
      StrLtTransitive(a[1..], b[1..], c[1..]);
    }
  }

  lemma {:induction false} StrLtTotal(a: string, b: string)
    ensures a == b || StrLt(a, b) || StrLt(b, a)
    decreases |a|
  {
    if a != [] && b != [] && a[0] == b[0] {
      StrLtTotal(a[1..], b[1..]);
      if a[1..] == b[1..] {
        assert a == [a[0]] + a[1..] && b == [b[0]] + b[1..];
      }
    }
  }

  lemma {:induction false} StrLtAsymmetric(a: string, b: string)
    requires StrLt(a, b)
    ensures !StrLt(b, a)
    decreases |a|
  {
    if a != [] && a[0] == b[0] { StrLtAsymmetric(a[1..], b[1..]); }
  }

  /** Comparing texts whose first parts have the same length. */
  lemma {:induction false} StrLtConcat(x1: string, y1: string, x2: string, y2: string)
    requires |x1| == |x2|
    ensures StrLt(x1 + y1, x2 + y2) <==> StrLt(x1, x2) || (x1 == x2 && StrLt(y1, y2))
    decreases |x1|
  {
    if x1 == [] {
      assert x1 + y1 == y1 && x2 + y2 == y2;
    } else {
      assert (x1 + y1)[0] == x1[0] && (x2 + y2)[0] == x2[0];
      assert (x1 + y1)[1..] == x1[1..] + y1 && (x2 + y2)[1..] == x2[1..] + y2;
      StrLtConcat(x1[1..], y1, x2[1..], y2);
      if x1[0] == x2[0] && x1[1..] == x2[1..] {
        assert x1 == [x1[0]] + x1[1..] && x2 == [x2[0]] + x2[1..];
      }
    }
  }

  /** A proper prefix sorts first. */
  lemma {:induction false} StrLtPrefix(p: string, s: string)
    requires s != []
    ensures StrLt(p, p + s)
    decreases |p|
  {
    if p != [] {
      assert (p + s)[1..] == p[1..] + s;
      StrLtPrefix(p[1..], s);
    }
  }

  // ---------------------------------------------------------------------
  // str(n) for natural numbers, and its inverse
  // ---------------------------------------------------------------------

  function DigitChar(d: nat): (c: char)
    requires d < 10
    ensures IsDigit(c) && c as int - '0' as int == d
  {
    ('0' as int + d) as char
  }

  function DigitValue(c: char): nat
    requires IsDigit(c)
  {
    c as int - '0' as int
  }

  /** Python's `str(n)` for n >= 0: decimal digits, no leading zero. */
  function NatToString(n: nat): (s: string)
    ensures |s| >= 1
    ensures forall i :: 0 <= i < |s| ==> IsDigit(s[i])
    ensures n >= 10 ==> |s| >= 2
    decreases n
  {
    if n < 10 then [DigitChar(n)] else NatToString(n / 10) + [DigitChar(n % 10)]
  }

  /** Python's `str(n)` for any integer. */
  function IntToString(n: int): (s: string)
    ensures n >= 0 ==> s == NatToString(n)
    ensures n < 0 ==> s == "-" + NatToString(-n)
  {
    if n < 0 then "-" + NatToString(-n) else NatToString(n)
  }

  /** Decimal value of a digit string (Python's `int(s)` on ASCII digits). */
  function ParseNat(s: string): nat
    requires forall i :: 0 <= i < |s| ==> IsDigit(s[i])
  {
    if s == [] then 0 else 10 * ParseNat(s[..|s| - 1]) + DigitValue(s[|s| - 1])
  }

  lemma {:induction false} ParseNatToString(n: nat)
    ensures ParseNat(NatToString(n)) == n
    decreases n
  {
    if n >= 10 {
      var s := NatToString(n);
      assert s[..|s| - 1] == NatToString(n / 10);
      ParseNatToString(n / 10);
    }
  }

  lemma NatToStringInjective(a: nat, b: nat)
    requires NatToString(a) == NatToString(b)
    ensures a == b
  {
    ParseNatToString(a);
    ParseNatToString(b);
  }

  // ---------------------------------------------------------------------
  // Sorting by a text key (Python's sorted / list.sort)
  // ---------------------------------------------------------------------

  predicate SortedBy<T>(s: seq<T>, key: T -> string) {
    forall i, j :: 0 <= i < j < |s| ==> StrLe(key(s[i]), key(s[j]))
  }

  function InsertBy<T>(x: T, s: seq<T>, key: T -> string): (r: seq<T>)
    requires SortedBy(s, key)
    ensures multiset(r) == multiset(s) + multiset{x}
    ensures SortedBy(r, key)
  {
    if s == [] then [x]
    else if StrLt(key(s[0]), key(x)) then
      var rest := InsertBy(x, s[1..], key);
      assert s == [s[0]] + s[1..];
      LowerBoundAll(key(s[0]), rest, s[1..], x, key);
      ConsSortedBy(s[0], rest, key);
      [s[0]] + rest
    else
      assert StrLe(key(x), key(s[0])) by { StrLtTotal(key(x), key(s[0])); }
      forall j | 0 <= j < |s| ensures StrLe(key(x), key(s[j])) {
        if j > 0 && key(x) != key(s[0]) && key(s[0]) != key(s[j]) {
          StrLtTransitive(key(x), key(s[0]), key(s[j]));
        }
      }
      ConsSortedBy(x, s, key);
      [x] + s
  }

  /** A bound that holds for `x` and for every element of `s` holds for every element of a permutation of both. */
  lemma LowerBoundAll<T>(b: string, rest: seq<T>, s: seq<T>, x: T, key: T -> string)
    requires multiset(rest) == multiset(s) + multiset{x}
    requires StrLe(b, key(x)) && forall k :: 0 <= k < |s| ==> StrLe(b, key(s[k]))
    ensures forall j :: 0 <= j < |rest| ==> StrLe(b, key(rest[j]))
  {
    forall j | 0 <= j < |rest| ensures StrLe(b, key(rest[j])) {
      assert rest[j] in multiset(rest);
      if rest[j] != x {
        assert rest[j] in multiset(s);
        var k :| 0 <= k < |s| && s[k] == rest[j];
      }
    }
  }

  lemma UpperBoundAll<T>(b: string, rest: seq<T>, s: seq<T>, x: T, key: T -> string)
    requires multiset(rest) == multiset(s) + multiset{x}
    requires StrLe(key(x), b) && forall k :: 0 <= k < |s| ==> StrLe(key(s[k]), b)
    ensures forall j :: 0 <= j < |rest| ==> StrLe(key(rest[j]), b)
  {
    forall j | 0 <= j < |rest| ensures StrLe(key(rest[j]), b) {
      assert rest[j] in multiset(rest);
      if rest[j] != x {
        assert rest[j] in multiset(s);
        var k :| 0 <= k < |s| && s[k] == rest[j];
      }
    }
  }

  lemma ConsSortedBy<T>(h: T, s: seq<T>, key: T -> string)
    requires SortedBy(s, key) && forall j :: 0 <= j < |s| ==> StrLe(key(h), key(s[j]))
    ensures SortedBy([h] + s, key)
  {
    var r := [h] + s;
    forall i, j | 0 <= i < j < |r| ensures StrLe(key(r[i]), key(r[j])) {
      assert r[j] == s[j - 1];
      if i > 0 { assert r[i] == s[i - 1]; }
    }
  }

  lemma ConsSortedDescBy<T>(h: T, s: seq<T>, key: T -> string)
    requires SortedDescBy(s, key) && forall j :: 0 <= j < |s| ==> StrLe(key(s[j]), key(h))
    ensures SortedDescBy([h] + s, key)
  {
    var r := [h] + s;
    forall i, j | 0 <= i < j < |r| ensures StrLe(key(r[j]), key(r[i])) {
      assert r[j] == s[j - 1];
      if i > 0 { assert r[i] == s[i - 1]; }
    }
  }

  /** An insertion sort ordering `s` by `key`, keeping every element. */
  function SortBy<T>(s: seq<T>, key: T -> string): (r: seq<T>)
    ensures multiset(r) == multiset(s)
    ensures |r| == |s|
    ensures SortedBy(r, key)
  {
    if s == [] then []
    else
      assert s == [s[0]] + s[1..];
      InsertBy(s[0], SortBy(s[1..], key), key)
  }

  lemma StrLeAntisymmetric(a: string, b: string)
    requires StrLe(a, b) && StrLe(b, a)
    ensures a == b
  {
    if a != b { StrLtAsymmetric(a, b); }
  }

  lemma SortedHeadsEqual<T>(r1: seq<T>, r2: seq<T>, key: T -> string)
    requires SortedBy(r1, key) && SortedBy(r2, key)
    requires multiset(r1) == multiset(r2) && r1 != []
    requires forall i, j :: 0 <= i < j < |r1| ==> key(r1[i]) != key(r1[j])
    ensures r2 != [] && r1[0] == r2[0]
  {
    assert r1[0] in multiset(r2);
    var k :| 0 <= k < |r2| && r2[k] == r1[0];
    assert r2[0] in multiset(r1);
    var m :| 0 <= m < |r1| && r1[m] == r2[0];
    assert StrLe(key(r1[0]), key(r1[m]));
    assert StrLe(key(r2[0]), key(r2[k]));
    StrLeAntisymmetric(key(r1[0]), key(r2[0]));
  }

  lemma MultisetTails<T>(r1: seq<T>, r2: seq<T>)
    requires r1 != [] && r2 != [] && r1[0] == r2[0] && multiset(r1) == multiset(r2)
    ensures multiset(r1[1..]) == multiset(r2[1..])
  {
    assert r1 == [r1[0]] + r1[1..] && r2 == [r2[0]] + r2[1..];
    assert multiset(r1) == multiset{r1[0]} + multiset(r1[1..]);
    assert multiset(r2) == multiset{r1[0]} + multiset(r2[1..]);
    var x := r1[0];
    forall y ensures multiset(r1[1..])[y] == multiset(r2[1..])[y] {
      assert multiset(r1)[y] == multiset{x}[y] + multiset(r1[1..])[y];
      assert multiset(r2)[y] == multiset{x}[y] + multiset(r2[1..])[y];
    }
  }

  lemma SortedTail<T>(r: seq<T>, key: T -> string)
    requires r != [] && SortedBy(r, key)
    ensures SortedBy(r[1..], key)
  {
    var t := r[1..];
    forall i, j | 0 <= i < j < |t| ensures StrLe(key(t[i]), key(t[j])) {
      assert t[i] == r[i + 1] && t[j] == r[j + 1];
    }
  }

  /** With distinct keys there is only one sorted arrangement of a collection. */
  lemma {:induction false} SortedByUnique<T>(r1: seq<T>, r2: seq<T>, key: T -> string)
    requires SortedBy(r1, key) && SortedBy(r2, key)
    requires multiset(r1) == multiset(r2)
    requires forall i, j :: 0 <= i < j < |r1| ==> key(r1[i]) != key(r1[j])
    ensures r1 == r2
    decreases |r1|
  {
    if r1 == [] {
      assert |r2| == |multiset(r2)| == 0;
    } else {
      SortedHeadsEqual(r1, r2, key);
      MultisetTails(r1, r2);
      SortedTail(r1, key);
      SortedTail(r2, key);
      var t1 := r1[1..];
      assert forall i, j :: 0 <= i < j < |t1| ==> key(t1[i]) != key(t1[j]) by {
        forall i, j | 0 <= i < j < |t1| ensures key(t1[i]) != key(t1[j]) {
          assert t1[i] == r1[i + 1] && t1[j] == r1[j + 1];
        }
      }
      SortedByUnique(t1, r2[1..], key);
      assert r1 == [r1[0]] + t1 && r2 == [r2[0]] + r2[1..];
    }
  }

  /** No value occurs twice. */
  predicate Distinct<T(==)>(s: seq<T>) {
    forall i, j :: 0 <= i < j < |s| ==> s[i] != s[j]
  }

  /** An element occurring at two positions is counted at least twice. */
  lemma CountTwice<T>(s: seq<T>, i: nat, j: nat)
    requires i < j < |s| && s[i] == s[j]
    ensures multiset(s)[s[i]] >= 2
  {
    assert s == s[..j] + s[j..];
    assert s[..j][i] == s[i] && s[j..][0] == s[j];
    assert s[i] in multiset(s[..j]) && s[j] in multiset(s[j..]);
  }

  lemma StrLeTransitive(a: string, b: string, c: string)
    requires StrLe(a, b) && StrLe(b, c)
    ensures StrLe(a, c)
  {
    if a != b && b != c { StrLtTransitive(a, b, c); }
  }

  /** Latest first: each key is at least the keys after it. */
  predicate SortedDescBy<T>(s: seq<T>, key: T -> string) {
    forall i, j :: 0 <= i < j < |s| ==> StrLe(key(s[j]), key(s[i]))
  }

  /** Puts `x` in front of the first element whose key does not exceed its own. */
  function InsertDescBy<T>(x: T, s: seq<T>, key: T -> string): (r: seq<T>)
    requires SortedDescBy(s, key)
    ensures multiset(r) == multiset(s) + multiset{x}
    ensures SortedDescBy(r, key)
  {
    if s == [] || StrLe(key(s[0]), key(x)) then
      forall j | 0 <= j < |s| ensures StrLe(key(s[j]), key(x)) {
        StrLeTransitive(key(s[j]), key(s[0]), key(x));
      }
      ConsSortedDescBy(x, s, key);
      [x] + s
    else
      var rest := InsertDescBy(x, s[1..], key);
      assert s == [s[0]] + s[1..];
      assert StrLe(key(x), key(s[0])) by { StrLtTotal(key(x), key(s[0])); }
      UpperBoundAll(key(s[0]), rest, s[1..], x, key);
      ConsSortedDescBy(s[0], rest, key);
      [s[0]] + rest
  }

  /**
   * `sorted(s, key=key, reverse=True)`: latest key first, and among equal
   * keys the original order, since each element goes in front of the equal
   * ones that follow it.
   */
  function SortDescBy<T>(s: seq<T>, key: T -> string): (r: seq<T>)
    ensures multiset(r) == multiset(s)
    ensures |r| == |s|
    ensures SortedDescBy(r, key)
  {
    if s == [] then []
    else
      assert s == [s[0]] + s[1..];
      InsertDescBy(s[0], SortDescBy(s[1..], key), key)
  }

  function Identity(s: string): string { s }

  /** `sorted(names)` for a list of texts. */
  function SortStrings(s: seq<string>): (r: seq<string>)
    ensures multiset(r) == multiset(s)
    ensures forall i, j :: 0 <= i < j < |r| ==> StrLe(r[i], r[j])
  {
    SortBy(s, Identity)
  }
}

/** Character and string operations shared by the catalogue server, the
    downloader and the browser client: ASCII case mapping, whitespace
    stripping, Python's `str.split`, substring search, decimal rendering with
    zero padding, and the code-point order Python uses to sort names. */
module Text {

  import Wrappers

  /** The ASCII characters for which Python's `str.isspace()` holds:
      tab, line feed, vertical tab, form feed, carriage return, the four
      information separators 0x1C-0x1F and space. */
  const PyWhitespace: set<char> :=
    {'\t', '\n', '\U{B}', '\U{C}', '\r', '\U{1C}', '\U{1D}', '\U{1E}', '\U{1F}', ' '}

  /** The ASCII characters JavaScript's `String.prototype.trim` removes. */
  const JsWhitespace: set<char> := {'\t', '\n', '\U{B}', '\U{C}', '\r', ' '}

  // ---------------------------------------------------------------------
  // Case mapping and stripping

  function LowerChar(c: char): char {
    if 'A' <= c <= 'Z' then (c as int + 32) as char else c
  }

  /** ASCII lower-casing (`str.lower()` for ASCII text). */
  function Lower(s: string): (r: string)
    ensures |r| == |s|
    ensures forall i :: 0 <= i < |s| ==> r[i] == LowerChar(s[i])
  {
    if s == [] then [] else [LowerChar(s[0])] + Lower(s[1..])
  }

  /** `s.lstrip(chars)`: drops the longest prefix made of characters in `cs`. */
  function LStrip(s: string, cs: set<char>): (r: string)
    ensures |r| <= |s| && r == s[|s| - |r|..]
    ensures r != [] ==> r[0] !in cs
    ensures forall i :: 0 <= i < |s| - |r| ==> s[i] in cs
  {
    if s != [] && s[0] in cs then LStrip(s[1..], cs) else s
  }

  /** `s.rstrip(chars)`: drops the longest suffix made of characters in `cs`. */
  function RStrip(s: string, cs: set<char>): (r: string)
    ensures |r| <= |s| && r == s[..|r|]
    ensures r != [] ==> r[|r| - 1] !in cs
    ensures forall i :: |r| <= i < |s| ==> s[i] in cs
  {
    if s != [] && s[|s| - 1] in cs then RStrip(s[..|s| - 1], cs) else s
  }

  /** `s.strip(chars)`; with `PyWhitespace` it is Python's `strip()`, with
      `JsWhitespace` JavaScript's `trim()`. */
  function Strip(s: string, cs: set<char>): string {
    RStrip(LStrip(s, cs), cs)
  }

  /** Stripping leaves a string alone whose ends are not in `cs`. */
  lemma StripUnchanged(s: string, cs: set<char>)
    requires s != [] ==> s[0] !in cs && s[|s| - 1] !in cs
    ensures Strip(s, cs) == s
  {
  }

  /** A stripped string neither starts nor ends with a character of `cs`. */
  lemma StripEnds(s: string, cs: set<char>)
    ensures var r := Strip(s, cs); r != [] ==> r[0] !in cs && r[|r| - 1] !in cs
  {
    var l := LStrip(s, cs);
    var r := RStrip(l, cs);
    if r != [] {
      assert r[0] == l[0];
    }
  }

  /** Stripping twice is stripping once. */
  lemma StripIdempotent(s: string, cs: set<char>)
    ensures Strip(Strip(s, cs), cs) == Strip(s, cs)
  {
    StripEnds(s, cs);
    StripUnchanged(Strip(s, cs), cs);
  }

  /** What `rstrip` keeps of `x + [c]` when `x` does not end in `c`. */
  lemma RStripOne(x: string, c: char)
    requires x != [] ==> x[|x| - 1] != c
    ensures RStrip(x + [c], {c}) == x
  {
    assert (x + [c])[..|x + [c]| - 1] == x;
  }

  // ---------------------------------------------------------------------
  // Searching

  /** Python's `needle in haystack` for strings. */
  predicate Contains(haystack: string, needle: string)
    decreases |haystack|
  {
    needle <= haystack || (haystack != [] && Contains(haystack[1..], needle))
  }

  /** `needle` occurs in `haystack` starting at index `i`. */
  predicate OccursAt(haystack: string, needle: string, i: nat) {
    i + |needle| <= |haystack| && haystack[i..i + |needle|] == needle
  }

  /** `Contains` holds exactly when `needle` occurs at some position. */
  lemma {:induction false} ContainsIff(haystack: string, needle: string)
    ensures Contains(haystack, needle) <==> exists i: nat :: OccursAt(haystack, needle, i)
    decreases |haystack|
  {
    var h := haystack;
    if needle <= h {
      assert OccursAt(h, needle, 0);
    } else if h == [] {
    } else {
      ContainsIff(h[1..], needle);
      if exists i: nat :: OccursAt(h, needle, i) {
        var i: nat :| OccursAt(h, needle, i);
        assert i != 0;
        assert OccursAt(h[1..], needle, i - 1);
      }
      if Contains(h[1..], needle) {
        var j: nat :| OccursAt(h[1..], needle, j);
        assert h[j + 1..j + 1 + |needle|] == h[1..][j..j + |needle|];
        assert OccursAt(h, needle, j + 1);
      }
    }
  }

  /** `s.endswith(suffix)`. */
  predicate EndsWith(s: string, suffix: string) {
    |suffix| <= |s| && s[|s| - |suffix|..] == suffix
  }

  /** The position of the last `c` in `s` (Python's `s.rfind(c)`, with
      `None` for -1). */
  function LastIndex(s: string, c: char): (r: Wrappers.Option<nat>)
    ensures r.None? <==> c !in s
    ensures r.Some? ==> r.value < |s| && s[r.value] == c && forall k :: r.value < k < |s| ==> s[k] != c
  {
    if s == [] then Wrappers.None
    else if s[|s| - 1] == c then Wrappers.Some(|s| - 1)
    else
      var r := LastIndex(s[..|s| - 1], c);
      assert c !in s[..|s| - 1] ==> c !in s by {
        assert s == s[..|s| - 1] + [s[|s| - 1]];
      }
      r
  }

  /** Nothing after the last occurrence of `c` is a `c`. */
  lemma AfterLastIndex(s: string, c: char, k: nat)
    requires LastIndex(s, c) == Wrappers.Some(k)
    ensures c !in s[k + 1..]
  {
    var t := s[k + 1..];
    forall j | 0 <= j < |t| ensures t[j] != c {
      assert t[j] == s[k + 1 + j];
    }
  }

  // ---------------------------------------------------------------------
  // Splitting

  /** The pieces joined back with `sep` between them (Python's `sep.join`). */
  function Join(parts: seq<string>, sep: char): string {
    if parts == [] then []
    else if |parts| == 1 then parts[0]
    else parts[0] + [sep] + Join(parts[1..], sep)
  }

  /** Python's `s.split(sep)` for a one-character separator: never empty, no
      piece contains `sep`, and joining the pieces gives `s` back. */
  function Split(s: string, sep: char): (r: seq<string>)
    ensures |r| >= 1
    ensures forall i :: 0 <= i < |r| ==> sep !in r[i]
    ensures Join(r, sep) == s
  {
    if s == [] then [[]]
    else
      var rest := Split(s[1..], sep);
      if s[0] == sep then
        assert Join([[]] + rest, sep) == [sep] + Join(rest, sep);
        [[]] + rest
      else
        var r := [[s[0]] + rest[0]] + rest[1..];
        assert |rest| > 1 ==> Join(rest, sep) == rest[0] + [sep] + Join(rest[1..], sep);
        assert |rest| > 1 ==> Join(r, sep) == [s[0]] + rest[0] + [sep] + Join(rest[1..], sep);
        r
  }

  function Last<T>(s: seq<T>): T
    requires s != []
  {
    s[|s| - 1]
  }

  lemma HeadTail<T>(t: seq<T>)
    requires t != []
    ensures t == [t[0]] + t[1..]
  {
  }

  lemma AppendAssoc<T>(a: seq<T>, b: seq<T>, c: seq<T>)
    ensures a + (b + c) == (a + b) + c
  {
  }

  /** The prefix of length i + 1 is the prefix of length i and then s[i]. */
  lemma PrefixStep<T>(s: seq<T>, i: nat)
    requires i < |s|
    ensures s[..i + 1] != [] && s[..i + 1][..i] == s[..i] && Last(s[..i + 1]) == s[i]
  {
  }

  lemma SplitAround<T>(s: seq<T>, k: nat)
    requires k < |s|
    ensures s == s[..k] + [s[k]] + s[k + 1..]
  {
  }

  lemma InitLast<T>(s: seq<T>)
    requires s != []
    ensures s == s[..|s| - 1] + [Last(s)]
  {
  }

  lemma WholePrefix<T>(s: seq<T>)
    ensures s[..|s|] == s
  {
  }

  lemma InAppend<T>(a: seq<T>, b: seq<T>, x: T)
    ensures x in a + b <==> x in a || x in b
  {
  }

  lemma PrefixIndex<T>(s: seq<T>, k: nat, i: nat)
    requires i < k <= |s|
    ensures s[..k][i] == s[i]
  {
  }

  /** A string without the separator is one piece. */
  lemma {:induction false} SplitNoSep(s: string, sep: char)
    requires sep !in s
    ensures Split(s, sep) == [s]
  {
    if s != [] {
      SplitNoSep(s[1..], sep);
    }
  }

  /** Splitting `a + [sep] + b` with `sep` absent from `a`: `a` is the first
      piece and the rest is the split of `b`. */
  lemma {:induction false} SplitAfterFirst(a: string, b: string, sep: char)
    requires sep !in a
    ensures Split(a + [sep] + b, sep) == [a] + Split(b, sep)
  {
    if a == [] {
      assert ([sep] + b)[1..] == b;
    } else {
      var s := a + [sep] + b;
      assert s[1..] == a[1..] + [sep] + b;
      SplitAfterFirst(a[1..], b, sep);
      SplitCons(s, sep);
      var rest := Split(s[1..], sep);
      assert rest[0] == a[1..] && rest[1..] == Split(b, sep);
      assert [s[0]] + a[1..] == a;
    }
  }

  /** A first character other than the separator joins the first piece of
      the rest. */
  lemma SplitCons(s: string, sep: char)
    requires s != [] && s[0] != sep
    ensures Split(s, sep) == [[s[0]] + Split(s[1..], sep)[0]] + Split(s[1..], sep)[1..]
  {
  }

  /** The last piece of a split is what follows the last separator. */
  lemma {:induction false} SplitLast(a: string, b: string, sep: char)
    requires sep !in b
    ensures Last(Split(a + [sep] + b, sep)) == b
  {
    if a == [] {
      assert ([sep] + b)[1..] == b;
      SplitNoSep(b, sep);
    } else {
      var s := a + [sep] + b;
      assert s[1..] == a[1..] + [sep] + b;
      assert s[1..][|a| - 1] == sep;
      SplitLastStep(s, sep);
      SplitLast(a[1..], b, sep);
    }
  }

  /** A separator beyond the first character leaves the last piece to the
      split of the rest. */
  lemma SplitLastStep(s: string, sep: char)
    requires s != [] && sep in s[1..]
    ensures Last(Split(s, sep)) == Last(Split(s[1..], sep))
  {
    var rest := Split(s[1..], sep);
    SplitHasTwo(s[1..], sep);
    if s[0] == sep {
      SplitSepFirst(s, sep);
      LastOfAppend([[]], rest);
    } else {
      SplitCons(s, sep);
      LastOfAppend([[s[0]] + rest[0]], rest[1..]);
      assert Last(rest[1..]) == Last(rest);
    }
  }

  lemma LastOfAppend<T>(a: seq<T>, b: seq<T>)
    requires b != []
    ensures Last(a + b) == Last(b)
  {
  }

  /** A separator in front gives an empty first piece. */
  lemma SplitSepFirst(s: string, sep: char)
    requires s != [] && s[0] == sep
    ensures Split(s, sep) == [[]] + Split(s[1..], sep)
  {
  }

  /** A string holding the separator splits into at least two pieces. */
  lemma SplitHasTwo(t: string, sep: char)
    requires sep in t
    ensures |Split(t, sep)| >= 2
  {
  }

  // ---------------------------------------------------------------------
  // Decimal numbers

  predicate IsDigit(c: char) {
    '0' <= c <= '9'
  }

  predicate AllDigits(s: string) {
    forall i :: 0 <= i < |s| ==> IsDigit(s[i])
  }

  /** A digit string holds no character other than digits. */
  lemma DigitsExclude(s: string, c: char)
    requires AllDigits(s) && !IsDigit(c)
    ensures c !in s
  {
  }

  function DigitChar(d: nat): (c: char)
    requires d < 10
    ensures IsDigit(c)
  {
    ('0' as int + d) as char
  }

  function DigitValue(c: char): (d: nat)
    requires IsDigit(c)
    ensures d < 10
  {
    c as int - '0' as int
  }

  function Pow10(k: nat): (p: nat)
    ensures p >= 1
  {
    if k == 0 then 1 else 10 * Pow10(k - 1)
  }

  /** `str(n)` for a non-negative integer. */
  function Decimal(n: nat): (r: string)
    ensures |r| >= 1 && AllDigits(r)
  {
    if n < 10 then [DigitChar(n)] else Decimal(n / 10) + [DigitChar(n % 10)]
  }

  /** The number a string of digits denotes. */
  function ValueOf(s: string): nat
    requires AllDigits(s)
  {
    if s == [] then 0 else ValueOf(s[..|s| - 1]) * 10 + DigitValue(s[|s| - 1])
  }

  /** Reading back what `Decimal` wrote gives the number. */
  lemma {:induction false} DecimalValue(n: nat)
    ensures ValueOf(Decimal(n)) == n
  {
    if n >= 10 {
      DecimalValue(n / 10);
      var r := Decimal(n);
      assert r[..|r| - 1] == Decimal(n / 10);
    }
  }

  /** `str(n)` has at most `k` digits when `n < 10^k`. */
  lemma {:induction false} DecimalLength(n: nat, k: nat)
    requires k >= 1 && n < Pow10(k)
    ensures |Decimal(n)| <= k
  {
    if n >= 10 {
      DecimalLength(n / 10, k - 1);
    }
  }

  /** `s.padStart(width, fill)` in JavaScript; with fill '0' on `Decimal(n)`
      it is also Python's `%0<width>d`. */
  function PadLeft(s: string, width: nat, fill: char): (r: string)
    ensures |r| == if |s| >= width then |s| else width
    ensures r[|r| - |s|..] == s
    ensures forall i :: 0 <= i < |r| - |s| ==> r[i] == fill
  {
    if |s| >= width then s else seq(width - |s|, _ => fill) + s
  }

  /** Python's `f"{n:0{width}d}"` / `"%0<width>d" % n` for `n >= 0`. */
  function ZeroPad(n: nat, width: nat): string {
    PadLeft(Decimal(n), width, '0')
  }

  /** Leading zeros do not change the value of a digit string. */
  lemma {:induction false} LeadingZeros(z: string, s: string)
    requires forall i :: 0 <= i < |z| ==> z[i] == '0'
    requires AllDigits(s)
    ensures AllDigits(z + s) && ValueOf(z + s) == ValueOf(s)
    decreases |s|, |z|
  {
    if s == [] {
      assert z + s == z;
      if z != [] {
        LeadingZeros(z[..|z| - 1], []);
        assert z[..|z| - 1] + [] == z[..|z| - 1];
      }
    } else {
      var t := z + s;
      assert t[..|t| - 1] == z + s[..|s| - 1];
      LeadingZeros(z, s[..|s| - 1]);
    }
  }

  /** A zero-padded number is all digits, reads back as the number, and has
      exactly `width` characters when the number fits. */
  lemma ZeroPadValue(n: nat, width: nat)
    ensures AllDigits(ZeroPad(n, width)) && ValueOf(ZeroPad(n, width)) == n
    ensures width >= 1 && n < Pow10(width) ==> |ZeroPad(n, width)| == width
  {
    var d := Decimal(n);
    var r := ZeroPad(n, width);
    DecimalValue(n);
    if |d| < width {
      assert r == r[..|r| - |d|] + d;
      LeadingZeros(r[..|r| - |d|], d);
    }
    if width >= 1 && n < Pow10(width) {
      DecimalLength(n, width);
    }
  }

  /** The value of a digit string read from the front: the first digit
      weighs 10^(length-1), and the value stays below 10^length. */
  lemma {:induction false} ValueOfFront(s: string)
    requires s != [] && AllDigits(s)
    ensures ValueOf(s) == DigitValue(s[0]) * Pow10(|s| - 1) + ValueOf(s[1..])
    ensures ValueOf(s[1..]) < Pow10(|s| - 1)
  {
    var head := [s[0]];
    assert head + s[1..] == s;
    assert head[..0] == [];
    ValueOfConcat(head, s[1..]);
    ValueBound(s[1..]);
  }

  /** The value of a concatenation: the front part shifted by the length of
      the back part. */
  lemma {:induction false} ValueOfConcat(a: string, b: string)
    requires AllDigits(a) && AllDigits(b)
    ensures ValueOf(a + b) == ValueOf(a) * Pow10(|b|) + ValueOf(b)
  {
    if b == [] {
      assert a + b == a;
    } else {
      var front := b[..|b| - 1];
      assert (a + b)[..|a + b| - 1] == a + front;
      assert (a + b)[|a + b| - 1] == b[|b| - 1];
      ValueOfConcat(a, front);
      Regroup(ValueOf(a), Pow10(|front|), ValueOf(front), DigitValue(b[|b| - 1]));
    }
  }

  lemma Regroup(d: nat, q: nat, r: nat, x: nat)
    ensures (d * q + r) * 10 + x == d * (10 * q) + (r * 10 + x)
  {
  }

  lemma {:induction false} ValueBound(s: string)
    requires AllDigits(s)
    ensures ValueOf(s) < Pow10(|s|)
  {
    if s != [] {
      ValueBound(s[..|s| - 1]);
    }
  }

  // ---------------------------------------------------------------------
  // Code-point order on strings (Python's `<=` on `str`)

  predicate StrLe(a: string, b: string) {
    a == [] || (b != [] && (a[0] < b[0] || (a[0] == b[0] && StrLe(a[1..], b[1..]))))
  }

  lemma {:induction false} StrLeTotal(a: string, b: string)
    ensures StrLe(a, b) || StrLe(b, a)
  {
    if a != [] && b != [] && a[0] == b[0] {
      StrLeTotal(a[1..], b[1..]);
    }
  }

  lemma {:induction false} StrLeTrans(a: string, b: string, c: string)
    requires StrLe(a, b) && StrLe(b, c)
    ensures StrLe(a, c)
  {
    if a != [] && a[0] == b[0] && b[0] == c[0] {
      StrLeTrans(a[1..], b[1..], c[1..]);
    }
  }

  lemma {:induction false} StrLeAntisym(a: string, b: string)
    requires StrLe(a, b) && StrLe(b, a)
    ensures a == b
  {
    if a != [] {
      StrLeAntisym(a[1..], b[1..]);
    }
  }

  /** A common prefix does not affect the order. */
  lemma {:induction false} StrLeCommonPrefix(p: string, a: string, b: string)
    ensures StrLe(p + a, p + b) == StrLe(a, b)
  {
    if p != [] {
      assert (p + a)[0] == p[0] == (p + b)[0];
      assert (p + a)[1..] == p[1..] + a;
      assert (p + b)[1..] == p[1..] + b;
      StrLeCommonPrefix(p[1..], a, b);
    } else {
      assert p + a == a && p + b == b;
    }
  }

  /** Two different strings of the same length are ordered by themselves,
      whatever follows them. */
  lemma {:induction false} StrLeSameLength(a: string, x: string, b: string, y: string)
    requires |a| == |b| && a != b
    ensures StrLe(a + x, b + y) == StrLe(a, b)
  {
    if a[0] == b[0] {
      assert a[1..] != b[1..];
      assert (a + x)[1..] == a[1..] + x;
      assert (b + y)[1..] == b[1..] + y;
      StrLeSameLength(a[1..], x, b[1..], y);
    }
  }

  /** A digit string whose first digit is smaller denotes the smaller
      number, whatever the other digits of two equally long strings are. */
  lemma FirstDigitDecides(a: string, b: string)
    requires |a| == |b| && a != [] && AllDigits(a) && AllDigits(b)
    requires DigitValue(a[0]) < DigitValue(b[0])
    ensures ValueOf(a) < ValueOf(b)
  {
    ValueOfFront(a);
    ValueOfFront(b);
    Weighted(DigitValue(a[0]), ValueOf(a[1..]), DigitValue(b[0]), ValueOf(b[1..]), Pow10(|a| - 1));
  }

  lemma Weighted(da: nat, ra: nat, db: nat, rb: nat, p: nat)
    requires da < db && ra < p
    ensures da * p + ra < db * p + rb
  {
    MulMono(da + 1, db, p);
  }

  lemma MulMono(x: nat, y: nat, p: nat)
    requires x <= y
    ensures x * p <= y * p
  {
  }

  /** For digit strings of equal length the string order is the numeric
      order. */
  lemma {:induction false} DigitOrder(a: string, b: string)
    requires |a| == |b| && AllDigits(a) && AllDigits(b)
    ensures StrLe(a, b) <==> ValueOf(a) <= ValueOf(b)
  {
    if a != [] {
      if a[0] == b[0] {
        ValueOfFront(a);
        ValueOfFront(b);
        DigitOrder(a[1..], b[1..]);
      } else if a[0] < b[0] {
        FirstDigitDecides(a, b);
      } else {
        FirstDigitDecides(b, a);
      }
    }
  }
}

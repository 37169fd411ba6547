/** The .NET string routines the readers rely on: `char.IsWhiteSpace`,
    `string.Trim`, `string.IsNullOrWhiteSpace`, `string.Split(char)`,
    `string.Replace("\\n", "\n")`, `int.TryParse`, `int.ToString()` and the
    decimal subset of `float.TryParse`, written over `seq<char>`. */
module Text {
  import opened Common

  const MinInt32: int := -0x8000_0000
  const MaxInt32: int := 0x7FFF_FFFF

  /** `char.IsWhiteSpace`: the Unicode space separators and the control
      characters U+0009 to U+000D and U+0085. */
  predicate IsWhiteSpace(c: char)
    ensures IsWhiteSpace(c) ==> !('0' <= c <= '9') && c != '-' && c != '+' && c != '.' && c != ',' && c != '"'
  {
    || ('\t' <= c <= '\r') || c == ' ' || c == '\U{85}' || c == '\U{A0}' || c == '\U{1680}'
    || ('\U{2000}' <= c <= '\U{200A}') || c == '\U{2028}' || c == '\U{2029}'
    || c == '\U{202F}' || c == '\U{205F}' || c == '\U{3000}'
  }

  /** The white space `NumberStyles.AllowLeadingWhite`/`AllowTrailingWhite` accept. */
  predicate IsNumberWhite(c: char)
  {
    ('\t' <= c <= '\r') || c == ' '
  }

  /** `string.IsNullOrWhiteSpace` (a C# null string is modelled as the empty one). */
  predicate IsNullOrWhiteSpace(s: string)
    ensures s == [] ==> IsNullOrWhiteSpace(s)
    ensures s != [] ==> (IsNullOrWhiteSpace(s) <==> IsWhiteSpace(s[0]) && IsNullOrWhiteSpace(s[1..]))
  {
    forall i :: 0 <= i < |s| ==> IsWhiteSpace(s[i])
  }

  /** Which characters a trim removes: all of `char.IsWhiteSpace`, or only
      the white space a number may be surrounded by. */
  datatype WhiteSet = AnyWhiteSpace | NumberWhite

  predicate IsIn(c: char, w: WhiteSet)
  {
    if w == AnyWhiteSpace then IsWhiteSpace(c) else IsNumberWhite(c)
  }

  /** The first position at or after `i` whose character is not in `w`. */
  function SkipStart(s: string, i: nat, w: WhiteSet): (k: nat)
    requires i <= |s|
    ensures i <= k <= |s| && (k < |s| ==> !IsIn(s[k], w))
    decreases |s| - i
  {
    if i < |s| && IsIn(s[i], w) then SkipStart(s, i + 1, w) else i
  }

  /** The end of `s[lo..j]` once the characters in `w` at its end are dropped. */
  function SkipEnd(s: string, lo: nat, j: nat, w: WhiteSet): (k: nat)
    requires lo <= j <= |s|
    ensures lo <= k <= j && (k > lo ==> !IsIn(s[k - 1], w))
    decreases j
  {
    if j > lo && IsIn(s[j - 1], w) then SkipEnd(s, lo, j - 1, w) else j
  }

  lemma {:induction false} SkipStartSkipsOnly(s: string, i: nat, w: WhiteSet)
    requires i <= |s|
    ensures forall k :: i <= k < SkipStart(s, i, w) ==> IsIn(s[k], w)
    decreases |s| - i
  {
    if i < |s| && IsIn(s[i], w) {
      SkipStartSkipsOnly(s, i + 1, w);
    }
  }

  lemma {:induction false} SkipEndSkipsOnly(s: string, lo: nat, j: nat, w: WhiteSet)
    requires lo <= j <= |s|
    ensures forall k :: SkipEnd(s, lo, j, w) <= k < j ==> IsIn(s[k], w)
    decreases j
  {
    if j > lo && IsIn(s[j - 1], w) {
      SkipEndSkipsOnly(s, lo, j - 1, w);
    }
  }

  /** Where `Trim` starts and ends. */
  function TrimStart(s: string): nat
    ensures TrimStart(s) <= |s|
  {
    SkipStart(s, 0, AnyWhiteSpace)
  }

  function TrimEnd(s: string): (k: nat)
    ensures TrimStart(s) <= k <= |s|
  {
    SkipEnd(s, TrimStart(s), |s|, AnyWhiteSpace)
  }

  /** `string.Trim()`: drops leading and trailing white space. */
  function Trim(s: string): (r: string)
    ensures |r| <= |s|
    ensures r != [] ==> !IsWhiteSpace(r[0]) && !IsWhiteSpace(r[|r| - 1])
  {
    s[TrimStart(s)..TrimEnd(s)]
  }

  /** What `Trim` removes is white space on both sides of what it keeps. */
  lemma TrimDropsOnlyWhiteSpace(s: string)
    ensures IsNullOrWhiteSpace(s[..TrimStart(s)]) && IsNullOrWhiteSpace(s[TrimEnd(s)..])
  {
    SkipStartSkipsOnly(s, 0, AnyWhiteSpace);
    SkipEndSkipsOnly(s, TrimStart(s), |s|, AnyWhiteSpace);
  }

  /** `Trim` gives the empty string exactly for blank input. */
  lemma TrimEmptyIff(s: string)
    ensures Trim(s) == [] <==> IsNullOrWhiteSpace(s)
  {
    TrimDropsOnlyWhiteSpace(s);
    if Trim(s) == [] {
      assert s == s[..TrimStart(s)] + s[TrimEnd(s)..];
    } else {
      assert !IsWhiteSpace(s[TrimStart(s)]);
    }
  }

  /** Text without white space at either end is left as it is. */
  lemma TrimUnchanged(s: string)
    requires s == [] || (!IsWhiteSpace(s[0]) && !IsWhiteSpace(s[|s| - 1]))
    ensures Trim(s) == s
  {
  }

  function Count(s: string, c: char): (n: nat)
    ensures n <= |s|
  {
    if s == [] then 0 else (if s[0] == c then 1 else 0) + Count(s[1..], c)
  }

  /** `s.Split(sep)`: every piece, empty ones included, in order. */
  function Split(s: string, sep: char): (r: seq<string>)
    ensures |r| == Count(s, sep) + 1
    ensures forall i :: 0 <= i < |r| ==> sep !in r[i]
  {
    if s == [] then [""]
    else
      var rest := Split(s[1..], sep);
      if s[0] == sep then [""] + rest
      else [[s[0]] + rest[0]] + rest[1..]
  }

  /** `string.Join(sep, parts)`. */
  function Join(parts: seq<string>, sep: char): (r: string)
    requires |parts| >= 1
    ensures |parts[0]| <= |r| && r[..|parts[0]|] == parts[0]
    ensures |parts| == 1 <==> r == parts[0]
    ensures |parts| > 1 ==> r[|parts[0]|] == sep
  {
    if |parts| == 1 then parts[0] else parts[0] + [sep] + Join(parts[1..], sep)
  }

  lemma {:induction false} JoinAppend(parts: seq<string>, last: string, sep: char)
    requires |parts| >= 1
    ensures Join(parts + [last], sep) == Join(parts, sep) + [sep] + last
  {
    if |parts| > 1 {
      assert (parts + [last])[1..] == parts[1..] + [last];
      JoinAppend(parts[1..], last, sep);
    }
  }

  /** Split loses nothing: joining the pieces with the separator gives the input back. */
  lemma {:induction false} JoinSplit(s: string, sep: char)
    ensures Join(Split(s, sep), sep) == s
  {
    if s != [] {
      JoinSplit(s[1..], sep);
      var rest := Split(s[1..], sep);
      if s[0] == sep {
        assert ([""] + rest)[1..] == rest;
      } else {
        var r := [[s[0]] + rest[0]] + rest[1..];
        if |rest| > 1 {
          assert r[1..] == rest[1..];
        }
      }
    }
  }

  /** Text without the separator splits into itself alone. */
  lemma {:induction false} SplitNoSeparator(a: string, sep: char)
    requires sep !in a
    ensures Split(a, sep) == [a]
  {
    if a != [] {
      SplitNoSeparator(a[1..], sep);
      assert [a[0]] + a[1..] == a;
    }
  }

  /** A separator-free head followed by a separator splits off as the first piece. */
  lemma {:induction false} SplitAfterHead(a: string, b: string, sep: char)
    requires sep !in a
    ensures Split(a + [sep] + b, sep) == [a] + Split(b, sep)
  {
    var s := a + [sep] + b;
    if a == [] {
      assert s == [sep] + b && s[1..] == b;
    } else {
      assert s[1..] == a[1..] + [sep] + b;
      SplitAfterHead(a[1..], b, sep);
      assert [a[0]] + a[1..] == a;
    }
  }

  /** Join loses nothing when no piece holds the separator: splitting the
      joined text gives the pieces back. */
  lemma {:induction false} SplitJoin(parts: seq<string>, sep: char)
    requires |parts| >= 1 && forall i :: 0 <= i < |parts| ==> sep !in parts[i]
    ensures Split(Join(parts, sep), sep) == parts
  {
    if |parts| == 1 {
      SplitNoSeparator(parts[0], sep);
    } else {
      SplitJoin(parts[1..], sep);
      SplitAfterHead(parts[0], Join(parts[1..], sep), sep);
      assert [parts[0]] + parts[1..] == parts;
    }
  }

  /** A character other than the separator occurs in the joined text only if
      it occurs in a piece. */
  lemma {:induction false} JoinAvoids(parts: seq<string>, sep: char, c: char)
    requires |parts| >= 1 && c != sep && forall i :: 0 <= i < |parts| ==> c !in parts[i]
    ensures c !in Join(parts, sep)
  {
    if |parts| > 1 {
      JoinAvoids(parts[1..], sep, c);
    }
  }

  /** The joined text ends with the last piece. */
  lemma {:induction false} JoinEndsWithLast(parts: seq<string>, sep: char)
    requires |parts| >= 1 && parts[|parts| - 1] != []
    ensures var j := Join(parts, sep); var l := parts[|parts| - 1];
      j != [] && j[|j| - 1] == l[|l| - 1]
  {
    if |parts| > 1 {
      JoinEndsWithLast(parts[1..], sep);
    }
  }

  /** The joined text starts with the first piece and ends with the last one. */
  lemma JoinEnds(parts: seq<string>, sep: char)
    requires |parts| >= 1 && parts[0] != [] && parts[|parts| - 1] != []
    ensures var j := Join(parts, sep); var l := parts[|parts| - 1];
      j != [] && j[0] == parts[0][0] && j[|j| - 1] == l[|l| - 1]
  {
    JoinEndsWithLast(parts, sep);
  }

  predicate IsDigit(c: char)
  {
    '0' <= c <= '9'
  }

  predicate AllDigits(s: string)
  {
    forall i :: 0 <= i < |s| ==> IsDigit(s[i])
  }

  /** The value of a decimal digit character. */
  function DigitValue(c: char): nat
  {
    if IsDigit(c) then c as int - '0' as int else 0
  }

  /** `s[a..b]` is all decimal digits. */
  predicate DigitsIn(s: string, a: nat, b: nat)
    requires a <= b <= |s|
    decreases b
  {
    b == a || (IsDigit(s[b - 1]) && DigitsIn(s, a, b - 1))
  }

  /** The value of the digits `s[a..b]`, most significant first. */
  function DigitsValue(s: string, a: nat, b: nat): nat
    requires a <= b <= |s|
    decreases b
  {
    if b == a then 0 else DigitsValue(s, a, b - 1) * 10 + DigitValue(s[b - 1])
  }

  /** `int.TryParse(s, out v)` with the default `NumberStyles.Integer`: optional
      white space around an optional sign and one or more decimal digits whose
      value fits in 32 bits. */
  function ParseInt32(s: string): (r: Option<int>)
    ensures r.Some? ==> MinInt32 <= r.value <= MaxInt32
  {
    var lo := SkipStart(s, 0, NumberWhite);
    var hi := SkipEnd(s, lo, |s|, NumberWhite);
    if lo == hi then None
    else
      var a := if s[lo] == '-' || s[lo] == '+' then lo + 1 else lo;
      if a == hi || !DigitsIn(s, a, hi) then None
      else
        var v := if s[lo] == '-' then -(DigitsValue(s, a, hi) as int) else DigitsValue(s, a, hi);
        if MinInt32 <= v <= MaxInt32 then Some(v) else None
  }

  function DigitChar(d: nat): char
    requires d < 10
  {
    ('0' as int + d) as char
  }

  /** `n.ToString()` for a non-negative `int`. */
  function NatToString(n: nat): (s: string)
    ensures s != [] && AllDigits(s)
  {
    if n < 10 then [DigitChar(n)] else NatToString(n / 10) + [DigitChar(n % 10)]
  }

  lemma {:induction false} DigitsValuePrefix(p: string, q: string, a: nat, b: nat)
    requires a <= b <= |p|
    ensures DigitsValue(p + q, a, b) == DigitsValue(p, a, b)
    ensures DigitsIn(p + q, a, b) == DigitsIn(p, a, b)
    decreases b
  {
    if b > a {
      DigitsValuePrefix(p, q, a, b - 1);
    }
  }

  lemma {:induction false} DigitsOfNatToString(n: nat)
    ensures var s := NatToString(n); DigitsIn(s, 0, |s|) && DigitsValue(s, 0, |s|) == n
  {
    var s := NatToString(n);
    if n >= 10 {
      DigitsOfNatToString(n / 10);
      DigitsValuePrefix(NatToString(n / 10), [DigitChar(n % 10)], 0, |s| - 1);
    }
  }

  /** Printing a count and parsing it back gives the count. */
  lemma ParseNatToString(n: nat)
    requires n <= MaxInt32
    ensures ParseInt32(NatToString(n)) == Some(n)
  {
    DigitsOfNatToString(n);
  }

  function Pow10(k: nat): (p: nat)
    ensures p >= 1
  {
    if k == 0 then 1 else 10 * Pow10(k - 1)
  }

  /** The first '.' in `s[a..b]`, or `b` when there is none. */
  function DotIndex(s: string, a: nat, b: nat): (k: nat)
    requires a <= b <= |s|
    ensures a <= k <= b
    decreases b - a
  {
    if a == b || s[a] == '.' then a else DotIndex(s, a + 1, b)
  }

  /** The decimal subset of `float.TryParse`: optional white space around an
      optional sign, digits and at most one decimal point, at least one digit. */
  function ParseDecimal(s: string): (r: Option<real>)
    ensures r.Some? ==> exists k :: 0 <= k < |s| && IsDigit(s[k])
    ensures r.Some? && r.value < 0.0 ==> '-' in s
  {
    var lo := SkipStart(s, 0, NumberWhite);
    var hi := SkipEnd(s, lo, |s|, NumberWhite);
    if lo == hi then None
    else
      var a := if s[lo] == '-' || s[lo] == '+' then lo + 1 else lo;
      var dot := DotIndex(s, a, hi);
      var f := if dot < hi then dot + 1 else hi;
      if !DigitsIn(s, a, dot) || !DigitsIn(s, f, hi) || (dot - a) + (hi - f) == 0 then None
      else
        var v := DigitsValue(s, a, dot) as real + DigitsValue(s, f, hi) as real / Pow10(hi - f) as real;
        Some(if s[lo] == '-' then -v else v)
  }

  lemma {:induction false} DigitsHaveNoDot(s: string, a: nat, b: nat)
    requires a <= b <= |s| && DigitsIn(s, 0, b)
    ensures DotIndex(s, a, b) == b
    decreases b - a
  {
    if a < b {
      DigitsInAt(s, 0, b, a);
      DigitsHaveNoDot(s, a + 1, b);
    }
  }

  lemma {:induction false} DigitsInAt(s: string, a: nat, b: nat, i: nat)
    requires a <= i < b <= |s| && DigitsIn(s, a, b)
    ensures IsDigit(s[i])
    decreases b
  {
    if i < b - 1 {
      DigitsInAt(s, a, b - 1, i);
    }
  }

  /** A whole number written in decimal reads back as that number. */
  lemma ParseDecimalOfNat(n: nat)
    ensures ParseDecimal(NatToString(n)) == Some(n as real)
  {
    var s := NatToString(n);
    DigitsOfNatToString(n);
    DigitsHaveNoDot(s, 0, |s|);
  }

  /** `s.Replace("\\n", "\n")`: every backslash followed by `n`, scanned left
      to right, becomes a newline character. */
  function ReplaceEscapedNewlines(s: string): (r: string)
    ensures |r| <= |s|
    ensures s != [] ==> r != [] && (r[0] == s[0] || (s[0] == '\\' && r[0] == '\n'))
    ensures !HasEscapedNewline(r)
  {
    if |s| >= 2 && s[0] == '\\' && s[1] == 'n' then
      var rest := ReplaceEscapedNewlines(s[2..]);
      assert forall i :: 0 <= i < |rest| - 1 ==> ("\n" + rest)[i + 1] == rest[i];
      "\n" + rest
    else if s == [] then []
    else
      var rest := ReplaceEscapedNewlines(s[1..]);
      assert forall i :: 0 <= i < |rest| - 1 ==> ([s[0]] + rest)[i + 1] == rest[i];
      [s[0]] + rest
  }

  /** A literal backslash-n pair somewhere in `s`. */
  predicate HasEscapedNewline(s: string)
  {
    exists i :: 0 <= i < |s| - 1 && s[i] == '\\' && s[i + 1] == 'n'
  }
}

/**
 * The Kotlin standard-library string operations the scrapers are built from,
 * with the semantics of the JVM implementation: a missing delimiter makes
 * `substringBefore`/`substringAfter` return the receiver, `split` on a missing
 * delimiter gives one piece, `replace` rewrites every non-overlapping
 * occurrence from left to right, `trim` strips `Char.isWhitespace` characters.
 */
module KotlinText {

  import opened Wrappers

  /** `d` occurs in `s` starting at index `i`. */
  predicate OccursAt(s: string, d: string, i: int)
  {
    0 <= i && i + |d| <= |s| && s[i..i + |d|] == d
  }

  /** `s.indexOf(d, from)`: the first occurrence at or after `from`, or -1. */
  function IndexOfFrom(s: string, d: string, from: nat): (r: int)
    ensures r == -1 || (from <= r && OccursAt(s, d, r))
    ensures forall j {:trigger OccursAt(s, d, j)} :: from <= j && (r == -1 || j < r) ==> !OccursAt(s, d, j)
    decreases |s| - from
  {
    if |s| < from + |d| then -1
    else if s[from..from + |d|] == d then from
    else IndexOfFrom(s, d, from + 1)
  }

  /** `s.indexOf(d)`. */
  function IndexOf(s: string, d: string): int
  {
    IndexOfFrom(s, d, 0)
  }

  /** `d in s`. */
  predicate Contains(s: string, d: string)
  {
    IndexOf(s, d) >= 0
  }

  /** The last occurrence starting at or before `k`, or -1. */
  function LastIndexAtOrBefore(s: string, d: string, k: int): (r: int)
    ensures r == -1 || (0 <= r <= k && OccursAt(s, d, r))
    ensures forall j {:trigger OccursAt(s, d, j)} :: r < j <= k ==> !OccursAt(s, d, j)
    decreases if k < 0 then 0 else k + 1
  {
    if k < 0 then -1
    else if OccursAt(s, d, k) then k
    else LastIndexAtOrBefore(s, d, k - 1)
  }

  /** `s.lastIndexOf(d)`. */
  function LastIndexOf(s: string, d: string): int
  {
    LastIndexAtOrBefore(s, d, |s|)
  }

  /** `s.substringBefore(d)`. */
  function SubstringBefore(s: string, d: string): string
  {
    var i := IndexOf(s, d);
    if i < 0 then s else s[..i]
  }

  /** `s.substringAfter(d)`. */
  function SubstringAfter(s: string, d: string): string
  {
    var i := IndexOf(s, d);
    if i < 0 then s else s[i + |d|..]
  }

  /** `s.substringBeforeLast(d)`. */
  function SubstringBeforeLast(s: string, d: string): string
  {
    var i := LastIndexOf(s, d);
    if i < 0 then s else s[..i]
  }

  /** `s.substringAfterLast(d)`. */
  function SubstringAfterLast(s: string, d: string): string
  {
    var i := LastIndexOf(s, d);
    if i < 0 then s else s[i + |d|..]
  }

  /** `s.split(d)` for a non-empty delimiter (trailing empty pieces are kept). */
  function Split(s: string, d: string): (r: seq<string>)
    requires |d| > 0
    ensures |r| >= 1
    decreases |s|
  {
    var i := IndexOf(s, d);
    if i < 0 then [s] else [s[..i]] + Split(s[i + |d|..], d)
  }

  /** `parts.joinToString(sep)`. */
  function Join(parts: seq<string>, sep: string): string
  {
    if |parts| == 0 then ""
    else if |parts| == 1 then parts[0]
    else parts[0] + sep + Join(parts[1..], sep)
  }

  /** `s.replace(from, to)` for a non-empty `from`. */
  function Replace(s: string, from: string, to: string): string
    requires |from| > 0
    decreases |s|
  {
    var i := IndexOf(s, from);
    if i < 0 then s else s[..i] + to + Replace(s[i + |from|..], from, to)
  }

  /** `s.startsWith(p)` */
  predicate StartsWith(s: string, p: string)
  {
    |p| <= |s| && s[..|p|] == p
  }

  /** `s.endsWith(p)` */
  predicate EndsWith(s: string, p: string)
  {
    |p| <= |s| && s[|s| - |p|..] == p
  }

  /** `s.removePrefix(p)`. */
  function RemovePrefix(s: string, p: string): (r: string)
    ensures StartsWith(s, p) ==> p + r == s
    ensures !StartsWith(s, p) ==> r == s
  {
    if StartsWith(s, p) then s[|p|..] else s
  }

  /** `s.removeSuffix(p)`. */
  function RemoveSuffix(s: string, p: string): (r: string)
    ensures EndsWith(s, p) ==> r + p == s
    ensures !EndsWith(s, p) ==> r == s
  {
    if EndsWith(s, p) then s[..|s| - |p|] else s
  }

  /** `Char.isWhitespace()` on the JVM: `Character.isWhitespace || Character.isSpaceChar`. */
  predicate IsWhitespace(c: char)
  {
    c == ' ' || c == '\t' || c == '\n' || c == '\U{000B}' || c == '\U{000C}' || c == '\r'
    || ('\U{001C}' <= c <= '\U{001F}') || c == '\U{00A0}' || c == '\U{1680}'
    || ('\U{2000}' <= c <= '\U{200A}') || c == '\U{2028}' || c == '\U{2029}'
    || c == '\U{202F}' || c == '\U{205F}' || c == '\U{3000}'
  }

  /** `s.isBlank()`. */
  predicate IsBlank(s: string)
  {
    forall i :: 0 <= i < |s| ==> IsWhitespace(s[i])
  }

  /** `s.trimStart()`. */
  function TrimStart(s: string): (r: string)
    ensures |r| <= |s| && r == s[|s| - |r|..]
    ensures r == [] || !IsWhitespace(r[0])
    ensures IsBlank(s[..|s| - |r|])
    decreases |s|
  {
    if |s| > 0 && IsWhitespace(s[0]) then
      var t := s[1..];
      var r := TrimStart(t);
      assert s[..|s| - |r|] == [s[0]] + t[..|t| - |r|];
      assert r == s[|s| - |r|..];
      r
    else s
  }

  /** `s.trimEnd()`. */
  function TrimEnd(s: string): (r: string)
    ensures |r| <= |s| && r == s[..|r|]
    ensures r == [] || !IsWhitespace(r[|r| - 1])
    ensures IsBlank(s[|r|..])
    decreases |s|
  {
    if |s| > 0 && IsWhitespace(s[|s| - 1]) then
      var t := s[..|s| - 1];
      var r := TrimEnd(t);
      assert s[|r|..] == t[|r|..] + [s[|s| - 1]];
      assert r == s[..|r|];
      r
    else s
  }

  /** `s.trim()`. */
  function Trim(s: string): string
  {
    TrimEnd(TrimStart(s))
  }

  /**
   * The first code points of the blocks of ten decimal digits (Unicode
   * general category `Nd`) of the Basic Multilingual Plane other than ASCII,
   * in order: Arabic-Indic, extended Arabic-Indic, N'Ko, Devanagari, Bengali
   * and the other Indic scripts, Thai, Lao, Tibetan, Myanmar, Khmer,
   * Mongolian, Limbu, New Tai Lue, Tai Tham, Balinese, Sundanese, Lepcha,
   * Ol Chiki, Vai, Saurashtra, Kayah Li, Javanese, Myanmar extended, Cham,
   * Meetei Mayek and fullwidth. A Kotlin `Char` is one UTF-16 unit, so a digit
   * outside that plane is two surrogate units, and `isDigit()` holds for
   * neither of them.
   */
  const OTHER_DIGIT_ZEROS: seq<int> := [
    0x0660, 0x06F0, 0x07C0, 0x0966, 0x09E6, 0x0A66, 0x0AE6, 0x0B66,
    0x0BE6, 0x0C66, 0x0CE6, 0x0D66, 0x0DE6, 0x0E50, 0x0ED0, 0x0F20,
    0x1040, 0x1090, 0x17E0, 0x1810, 0x1946, 0x19D0, 0x1A80, 0x1A90,
    0x1B50, 0x1BB0, 0x1C40, 0x1C50, 0xA620, 0xA8D0, 0xA900, 0xA9D0,
    0xA9F0, 0xAA50, 0xABF0, 0xFF10
  ]

  /** `n` is one of the ten code points from `zero` on. */
  predicate InBlock(n: int, zero: int)
  {
    zero <= n < zero + 10
  }

  /** `n` lies in one of the digit blocks from the `i`-th on. */
  predicate InBlocksFrom(n: int, i: nat)
    decreases |OTHER_DIGIT_ZEROS| - i
  {
    i < |OTHER_DIGIT_ZEROS| && (InBlock(n, OTHER_DIGIT_ZEROS[i]) || InBlocksFrom(n, i + 1))
  }

  /** The first code point of the block, from the `i`-th on, that holds `n`. */
  function BlockZeroFrom(n: int, i: nat): (z: int)
    requires InBlocksFrom(n, i)
    ensures InBlock(n, z)
    decreases |OTHER_DIGIT_ZEROS| - i
  {
    if InBlock(n, OTHER_DIGIT_ZEROS[i]) then OTHER_DIGIT_ZEROS[i] else BlockZeroFrom(n, i + 1)
  }

  /** Every block from the `i`-th on starts at or above the Arabic-Indic zero. */
  lemma {:induction false} BlocksAboveAscii(n: int, i: nat)
    requires InBlocksFrom(n, i)
    ensures n >= 0x660
    decreases |OTHER_DIGIT_ZEROS| - i
  {
    if !InBlock(n, OTHER_DIGIT_ZEROS[i]) {
      BlocksAboveAscii(n, i + 1);
    }
  }

  /** A decimal digit of the Basic Multilingual Plane other than the ASCII ones. */
  predicate IsOtherDigit(c: char): (b: bool)
    ensures b ==> c as int >= 0x660
  {
    if InBlocksFrom(c as int, 0) then BlocksAboveAscii(c as int, 0); true else false
  }

  /** `Char.isDigit()`. */
  predicate IsDigit(c: char)
  {
    IsAsciiDigit(c) || IsOtherDigit(c)
  }

  /** The numeric value of a digit, as `Character.digit(c, 10)` gives it. */
  function DigitValue(c: char): (r: nat)
    requires IsDigit(c)
    ensures r < 10
    ensures IsAsciiDigit(c) ==> r == (c as int) - ('0' as int)
  {
    if IsAsciiDigit(c) then (c as int) - ('0' as int) else (c as int) - BlockZeroFrom(c as int, 0)
  }

  /** `s.filter { it.isDigit() }`. */
  function FilterDigits(s: string): (r: string)
    ensures |r| <= |s|
    ensures forall i :: 0 <= i < |r| ==> IsDigit(r[i])
  {
    if |s| == 0 then ""
    else if IsDigit(s[|s| - 1]) then FilterDigits(s[..|s| - 1]) + [s[|s| - 1]]
    else FilterDigits(s[..|s| - 1])
  }

  predicate AllDigits(s: string)
  {
    forall i :: 0 <= i < |s| ==> IsDigit(s[i])
  }

  /** The value of a string of digits, most significant first. */
  function DecimalValue(s: string): nat
    requires AllDigits(s)
  {
    if |s| == 0 then 0 else DecimalValue(s[..|s| - 1]) * 10 + DigitValue(s[|s| - 1])
  }

  const INT_MAX: int := 0x7FFF_FFFF
  const INT_MIN: int := -0x8000_0000

  /** A 32-bit `Int` result: the mathematical value reduced into [INT_MIN, INT_MAX]. */
  function WrapInt(x: int): (r: int)
    ensures INT_MIN <= r <= INT_MAX
    ensures (r - x) % 0x1_0000_0000 == 0
    ensures INT_MIN <= x <= INT_MAX ==> r == x
  {
    (x - INT_MIN) % 0x1_0000_0000 + INT_MIN
  }

  /** `s.toIntOrNull()` for a text without sign: `None` unless it is digits within `Int` range. */
  function ToIntOrNull(s: string): (r: Option<int>)
    ensures r.None? <==> (s == [] || !AllDigits(s) || DecimalValue(s) > INT_MAX)
    ensures r.Some? ==> 0 <= r.value <= INT_MAX && r.value == DecimalValue(s)
  {
    if s == [] || !AllDigits(s) || DecimalValue(s) > INT_MAX then None else Some(DecimalValue(s))
  }

  predicate IsAsciiDigit(c: char)
  {
    '0' <= c <= '9'
  }

  /**
   * The texts `String.toFloat()` reads in this model: ASCII digits with at
   * most one decimal point, and at least one digit.
   */
  predicate PlainDecimal(s: string)
  {
    (forall i :: 0 <= i < |s| ==> IsAsciiDigit(s[i]) || s[i] == '.')
    && multiset(s)['.'] <= 1
    && exists i :: 0 <= i < |s| && IsAsciiDigit(s[i])
  }

  /** `s.toFloat()`, the number kept as its text; anything else throws. */
  function ToFloat(s: string): Result<string>
  {
    if PlainDecimal(s) then Success(s) else Failure("NumberFormatException")
  }

  /**
   * `s.filter { it.isDigit() }.toFloat()`: it reads exactly when some digit
   * is kept and all kept digits are ASCII (the other scripts' digits pass the
   * filter but not the parser).
   */
  function DigitsNumber(text: string): (r: Result<string>)
    ensures r.Success? <==> FilterDigits(text) != "" && forall i :: 0 <= i < |FilterDigits(text)| ==> IsAsciiDigit(FilterDigits(text)[i])
    ensures r.Success? ==> r.value == FilterDigits(text) && AllDigits(r.value)
  {
    var digits := FilterDigits(text);
    assert '.' !in digits;
    assert multiset(digits)['.'] == 0;
    assert digits != [] ==> IsDigit(digits[0]);
    ToFloat(digits)
  }

  function DigitChar(d: nat): (c: char)
    requires d < 10
    ensures '0' <= c <= '9' && DigitValue(c) == d
  {
    ('0' as int + d) as char
  }

  /** The decimal text of a natural number (`"$n"`). */
  function NatToString(n: nat): (r: string)
    ensures |r| >= 1 && AllDigits(r)
  {
    if n < 10 then [DigitChar(n)] else NatToString(n / 10) + [DigitChar(n % 10)]
  }

  /** The decimal text of an `Int` (`"$i"`). */
  function IntToString(i: int): string
  {
    if i < 0 then "-" + NatToString(-i) else NatToString(i)
  }

  /** `c.uppercase()` for the Latin alphabet. */
  function UpperChar(c: char): char
  {
    if 'a' <= c <= 'z' then (c as int - 32) as char else c
  }

  /** `c.lowercase()` for the Latin and Russian alphabets. */
  function LowerChar(c: char): char
  {
    if 'A' <= c <= 'Z' then (c as int + 32) as char
    else if 'А' <= c <= 'Я' then (c as int + 32) as char
    else if c == 'Ё' then 'ё'
    else c
  }

  /** `s.replaceFirstChar(Char::uppercase)`. */
  function Capitalize(s: string): (r: string)
    ensures |r| == |s|
    ensures |s| > 0 ==> r[0] == UpperChar(s[0]) && r[1..] == s[1..]
  {
    if |s| == 0 then s else [UpperChar(s[0])] + s[1..]
  }

  /** `s.lowercase()`. */
  function Lowercase(s: string): (r: string)
    ensures |r| == |s|
    ensures forall i :: 0 <= i < |s| ==> r[i] == LowerChar(s[i])
  {
    if |s| == 0 then s else Lowercase(s[..|s| - 1]) + [LowerChar(s[|s| - 1])]
  }

  // ---------------------------------------------------------------------
  // Properties of the operations above.
  // ---------------------------------------------------------------------

  lemma OccursAtContains(s: string, d: string, i: int)
    requires OccursAt(s, d, i)
    ensures Contains(s, d) && IndexOf(s, d) <= i
  {
  }

  /** A text written around `d` contains it. */
  lemma ContainsInfix(a: string, d: string, b: string)
    ensures Contains(a + d + b, d)
  {
    var s := a + d + b;
    assert s[|a|..|a| + |d|] == d;
    OccursAtContains(s, d, |a|);
  }

  /**
   * With the delimiter present, `s` is the part before it, the delimiter and
   * the part after it, and the part before it does not contain it.
   */
  lemma BeforeAfter(s: string, d: string)
    requires |d| > 0 && Contains(s, d)
    ensures s == SubstringBefore(s, d) + d + SubstringAfter(s, d)
    ensures !Contains(SubstringBefore(s, d), d)
  {
    var i := IndexOf(s, d);
    assert OccursAt(s, d, i);
    assert s == s[..i] + s[i..i + |d|] + s[i + |d|..];
    if Contains(s[..i], d) {
      var j := IndexOf(s[..i], d);
      PrefixOccurrence(s, i, d, j);
    }
  }

  /** An occurrence inside a prefix is an occurrence in the whole text. */
  lemma PrefixOccurrence(s: string, k: nat, d: string, j: int)
    requires k <= |s| && OccursAt(s[..k], d, j)
    ensures OccursAt(s, d, j)
  {
    assert s[j..j + |d|] == s[..k][j..j + |d|];
  }

  /** A delimiter missing from the receiver leaves both substrings equal to it. */
  lemma MissingDelimiter(s: string, d: string)
    requires !Contains(s, d)
    ensures SubstringBefore(s, d) == s && SubstringAfter(s, d) == s
  {
  }

  /** `d` first occurs in `a + d` at its end. */
  predicate FirstAtEnd(a: string, d: string)
  {
    IndexOf(a + d, d) == |a|
  }

  /** A one-character delimiter first occurs at the end of `a + d` when `a` lacks that character. */
  lemma FirstAtEndChar(a: string, c: char)
    requires c !in a
    ensures FirstAtEnd(a, [c])
  {
    assert OccursAt(a + [c], [c], |a|);
    forall j | 0 <= j < |a|
      ensures !OccursAt(a + [c], [c], j)
    {
      assert (a + [c])[j] == a[j];
    }
  }

  /** A text lacking the delimiter's first character does not contain the delimiter. */
  lemma NoFirstCharNoOccurrence(s: string, d: string)
    requires |d| > 0 && d[0] !in s
    ensures !Contains(s, d)
  {
    forall j | 0 <= j < |s|
      ensures !OccursAt(s, d, j)
    {
      assert j + |d| <= |s| ==> s[j..j + |d|][0] == s[j];
    }
    assert !OccursAt(s, d, IndexOf(s, d));
  }

  /** A delimiter whose first character is missing from `a` first occurs in `a + d` at its end. */
  lemma FirstAtEndFirstChar(a: string, d: string)
    requires |d| > 0 && d[0] !in a
    ensures FirstAtEnd(a, d)
  {
    assert OccursAt(a + d, d, |a|) by {
      assert (a + d)[|a|..|a| + |d|] == d;
    }
    forall j | 0 <= j < |a|
      ensures !OccursAt(a + d, d, j)
    {
      assert (a + d)[j] == a[j];
      assert j + |d| <= |a + d| ==> (a + d)[j..j + |d|][0] == (a + d)[j];
    }
  }

  /**
   * When `d` first occurs in `a + d` at its end, the first occurrence in
   * `a + d + b` is that one, so `substringBefore` gives `a` and
   * `substringAfter` gives `b`.
   */
  lemma FirstOccurrence(a: string, d: string, b: string)
    requires FirstAtEnd(a, d)
    ensures IndexOf(a + d + b, d) == |a|
    ensures SubstringBefore(a + d + b, d) == a
    ensures SubstringAfter(a + d + b, d) == b
  {
    var s := a + d + b;
    assert OccursAt(s, d, |a|) by {
      assert s[|a|..|a| + |d|] == d;
    }
    forall j | 0 <= j < |a|
      ensures !OccursAt(s, d, j)
    {
      assert s[j..j + |d|] == (a + d)[j..j + |d|];
      assert !OccursAt(a + d, d, j);
    }
    assert IndexOf(s, d) == |a|;
    assert s[..|a|] == a;
    assert s[|a| + |d|..] == b;
  }

  /** The text between the first `open` and the following `close`. */
  lemma Between(pre: string, open: string, v: string, close: string, rest: string)
    requires FirstAtEnd(pre, open) && FirstAtEnd(v, close)
    ensures SubstringBefore(SubstringAfter(pre + open + v + close + rest, open), close) == v
  {
    assert pre + open + v + close + rest == pre + open + (v + close + rest);
    FirstOccurrence(pre, open, v + close + rest);
    assert v + close + rest == v + close + rest;
    FirstOccurrence(v, close, rest);
  }

  /** A one-character delimiter occurs last at `|a|` in `a + [c] + b` when `b` lacks it. */
  lemma LastOccurrence(a: string, c: char, b: string)
    requires c !in b
    ensures LastIndexOf(a + [c] + b, [c]) == |a|
    ensures SubstringBeforeLast(a + [c] + b, [c]) == a
    ensures SubstringAfterLast(a + [c] + b, [c]) == b
  {
    var t := a + [c] + b;
    assert OccursAt(t, [c], |a|) by {
      assert t[|a|..|a| + 1] == [c];
    }
    forall j | |a| < j <= |t|
      ensures !OccursAt(t, [c], j)
    {
      if j < |t| {
        assert t[j] == b[j - |a| - 1];
        assert t[j..j + 1][0] == t[j];
      }
    }
    assert t[..|a|] == a;
    assert t[|a| + 1..] == b;
  }

  /** Splitting on a one-character delimiter: a last piece without it is split off whole. */
  lemma {:induction false} SplitSnoc(s: string, c: char, a: string)
    requires c !in a
    ensures Split(s + [c] + a, [c]) == Split(s, [c]) + [a]
    decreases |s|
  {
    var d := [c];
    var t := s + d + a;
    NoFirstCharNoOccurrence(a, d);
    var i := IndexOf(s, d);
    if i < 0 {
      if c in s {
        var j :| 0 <= j < |s| && s[j] == c;
        assert s[j..j + 1] == d;
        OccursAtContains(s, d, j);
      }
      FirstAtEndChar(s, c);
      FirstOccurrence(s, d, a);
      assert t[..|s|] == s;
      assert t[|s| + 1..] == a;
    } else {
      assert OccursAt(s, d, i);
      assert OccursAt(t, d, i) by {
        assert i + 1 <= |s| && s[i..i + 1] == d;
        assert t[i] == s[i];
        assert t[i..i + 1] == [t[i]];
        assert s[i..i + 1] == [s[i]];
      }
      forall j | 0 <= j < i
        ensures !OccursAt(t, d, j)
      {
        assert t[j..j + 1] == s[j..j + 1];
        assert !OccursAt(s, d, j);
      }
      assert IndexOf(t, d) == i;
      var rest := s[i + 1..];
      assert t[..i] == s[..i];
      assert t[i + 1..] == rest + d + a;
      SplitSnoc(rest, c, a);
    }
  }

  /** Splitting and joining again with the same delimiter gives back the text. */
  lemma {:induction false} JoinSplit(s: string, d: string)
    requires |d| > 0
    ensures Join(Split(s, d), d) == s
    decreases |s|
  {
    var i := IndexOf(s, d);
    if i >= 0 {
      var rest := s[i + |d|..];
      JoinSplit(rest, d);
      var tail := Split(rest, d);
      assert Split(s, d) == [s[..i]] + tail;
      assert Join([s[..i]] + tail, d) == s[..i] + d + Join(tail, d);
      BeforeAfter(s, d);
    }
  }

  /** No piece of a split contains the delimiter. */
  lemma {:induction false} SplitPiecesFree(s: string, d: string)
    requires |d| > 0
    ensures forall k :: 0 <= k < |Split(s, d)| ==> !Contains(Split(s, d)[k], d)
    decreases |s|
  {
    var i := IndexOf(s, d);
    if i >= 0 {
      BeforeAfter(s, d);
      SplitPiecesFree(s[i + |d|..], d);
    }
  }

  /** Splitting a text that lacks the delimiter gives exactly that text. */
  lemma SplitMissing(s: string, d: string)
    requires |d| > 0 && !Contains(s, d)
    ensures Split(s, d) == [s]
  {
  }

  /** `replace` is splitting on the old text and joining with the new one. */
  lemma {:induction false} ReplaceIsJoinSplit(s: string, from: string, to: string)
    requires |from| > 0
    ensures Replace(s, from, to) == Join(Split(s, from), to)
    decreases |s|
  {
    var i := IndexOf(s, from);
    if i >= 0 {
      var rest := s[i + |from|..];
      ReplaceIsJoinSplit(rest, from, to);
      var tail := Split(rest, from);
      assert Split(s, from) == [s[..i]] + tail;
      assert Join([s[..i]] + tail, to) == s[..i] + to + Join(tail, to);
    }
  }

  /** Replacing a text by itself changes nothing. */
  lemma ReplaceSame(s: string, d: string)
    requires |d| > 0
    ensures Replace(s, d, d) == s
  {
    ReplaceIsJoinSplit(s, d, d);
    JoinSplit(s, d);
  }

  /** A text without the old text is left alone. */
  lemma ReplaceAbsent(s: string, from: string, to: string)
    requires |from| > 0 && !Contains(s, from)
    ensures Replace(s, from, to) == s
  {
  }

  /** A leading occurrence is replaced, and a rest without the old text is kept. */
  lemma ReplaceLeading(from: string, rest: string, to: string)
    requires |from| > 0 && !Contains(rest, from)
    ensures Replace(from + rest, from, to) == to + rest
  {
    var s := from + rest;
    assert OccursAt(s, from, 0) by {
      assert s[..|from|] == from;
    }
    assert s[|from|..] == rest;
    assert s[..0] == [];
  }

  /** The first occurrence is rewritten, then the rest of the text in turn. */
  lemma ReplaceFirst(a: string, from: string, b: string, to: string)
    requires |from| > 0 && FirstAtEnd(a, from)
    ensures Replace(a + from + b, from, to) == a + to + Replace(b, from, to)
  {
    var s := a + from + b;
    FirstOccurrence(a, from, b);
    assert s[..|a|] == a;
    assert s[|a| + |from|..] == b;
  }

  /** A one-character text the receiver lacks is removed as nothing. */
  lemma RemoveMissingChar(s: string, c: char)
    requires c !in s
    ensures Replace(s, [c], "") == s
  {
    NoFirstCharNoOccurrence(s, [c]);
  }

  /** Removing a character that occurs only at the end drops that last character. */
  lemma RemoveTrailingChar(s: string, c: char)
    requires c !in s
    ensures Replace(s + [c], [c], "") == s
  {
    FirstAtEndChar(s, c);
    var t := s + [c];
    assert OccursAt(t, [c], |s|);
    assert t[..|s|] == s;
    assert t[|s| + 1..] == "";
  }

  /** Removing a character that occurs only at both ends gives the text between them. */
  lemma RemoveSurroundingChar(s: string, c: char)
    requires c !in s
    ensures Replace([c] + s + [c], [c], "") == s
  {
    var t := [c] + s + [c];
    assert OccursAt(t, [c], 0);
    assert t[1..] == s + [c];
    assert t[..0] == "";
    RemoveTrailingChar(s, c);
  }

  /** A delimiter whose second character is missing from `a` (and differs from its first) first occurs in `a + d` at its end. */
  lemma FirstAtEndSecondChar(a: string, d: string)
    requires |d| >= 2 && d[1] !in a && d[1] != d[0]
    ensures FirstAtEnd(a, d)
  {
    var t := a + d;
    assert OccursAt(t, d, |a|) by {
      assert t[|a|..|a| + |d|] == d;
    }
    forall j | 0 <= j < |a|
      ensures !OccursAt(t, d, j)
    {
      if j + |d| <= |t| {
        assert t[j..j + |d|][1] == t[j + 1];
        if j + 1 < |a| {
          assert t[j + 1] == a[j + 1];
        } else {
          assert t[j + 1] == d[0];
        }
      }
    }
  }

  /** A text whose only copy of `d`'s first character is its last one does not contain `d` (of two or more characters). */
  lemma ClosingChar(a: string, d: string)
    requires |d| >= 2 && d[0] !in a
    ensures !Contains(a + [d[0]], d)
  {
    var t := a + [d[0]];
    forall j | 0 <= j < |t|
      ensures !OccursAt(t, d, j)
    {
      if j < |a| && j + |d| <= |t| {
        assert t[j..j + |d|][0] == t[j] == a[j];
      }
    }
    assert !OccursAt(t, d, IndexOf(t, d));
  }

  /** A text without leading or trailing whitespace is its own trim. */
  lemma TrimClean(s: string)
    requires |s| > 0 && !IsWhitespace(s[0]) && !IsWhitespace(s[|s| - 1])
    ensures Trim(s) == s
  {
  }

  /** A character missing from every part and from the separator is missing from the join. */
  lemma {:induction false} JoinLacks(parts: seq<string>, sep: string, c: char)
    requires c !in sep
    requires forall k :: 0 <= k < |parts| ==> c !in parts[k]
    ensures c !in Join(parts, sep)
  {
    if |parts| > 1 {
      JoinLacks(parts[1..], sep, c);
    }
  }

    /** Joining a part in front of non-empty parts puts the separator between them. */
  lemma JoinCons(a: string, parts: seq<string>, sep: string)
    requires |parts| > 0
    ensures Join([a] + parts, sep) == a + sep + Join(parts, sep)
  {
    assert ([a] + parts)[1..] == parts;
  }

/** A prefix on the first part comes out in front of the join. */
  lemma JoinHead(a: string, parts: seq<string>, sep: string)
    requires |parts| > 0
    ensures Join([a + parts[0]] + parts[1..], sep) == a + Join(parts, sep)
  {
    var q := [a + parts[0]] + parts[1..];
    assert q[1..] == parts[1..];
    if |parts| > 1 {
      assert (a + parts[0]) + sep + Join(parts[1..], sep) == a + (parts[0] + sep + Join(parts[1..], sep));
    }
  }

  /**
   * Joining with `d` and splitting on `d` gives the parts back when `d`
   * first meets each part but the last at its end and the last lacks `d`.
   */
  lemma {:induction false} SplitOfJoin(parts: seq<string>, d: string)
    requires |d| > 0 && |parts| > 0
    requires forall k :: 0 <= k < |parts| - 1 ==> FirstAtEnd(parts[k], d)
    requires !Contains(parts[|parts| - 1], d)
    ensures Split(Join(parts, d), d) == parts
  {
    if |parts| > 1 {
      var tail := parts[1..];
      SplitOfJoinTail(parts, d);
      SplitOfJoin(tail, d);
      SplitAtFirst(parts[0], d, Join(tail, d));
      assert parts == [parts[0]] + tail;
    }
  }

  /** The parts after the first meet the conditions of `SplitOfJoin` too. */
  lemma SplitOfJoinTail(parts: seq<string>, d: string)
    requires |parts| > 1
    requires forall k :: 0 <= k < |parts| - 1 ==> FirstAtEnd(parts[k], d)
    requires !Contains(parts[|parts| - 1], d)
    ensures forall k :: 0 <= k < |parts| - 2 ==> FirstAtEnd(parts[1..][k], d)
    ensures !Contains(parts[1..][|parts| - 2], d)
  {
    forall k | 0 <= k < |parts| - 2
      ensures FirstAtEnd(parts[1..][k], d)
    {
      assert parts[1..][k] == parts[k + 1];
    }
  }

  /** Splitting `a + d + b` where `d` first occurs after `a` gives `a`, then the split of `b`. */
  lemma SplitAtFirst(a: string, d: string, b: string)
    requires |d| > 0 && FirstAtEnd(a, d)
    ensures Split(a + d + b, d) == [a] + Split(b, d)
  {
    var t := a + d + b;
    FirstOccurrence(a, d, b);
    assert t[..|a|] == a;
  }

  /** Every character of a replacement result comes from the receiver or the new text. */
  lemma {:induction false} ReplaceChars(s: string, from: string, to: string, c: char)
    requires |from| > 0
    requires c in Replace(s, from, to)
    ensures c in s || c in to
    decreases |s|
  {
    var i := IndexOf(s, from);
    if i >= 0 {
      var rest := s[i + |from|..];
      assert Replace(s, from, to) == s[..i] + to + Replace(rest, from, to);
      if c in s[..i] {
      } else if c in to {
      } else {
        assert c in Replace(rest, from, to);
        ReplaceChars(rest, from, to, c);
        assert c in s;
      }
    }
  }

  /** A character neither the receiver nor the replacement has does not appear. */
  lemma {:induction false} ReplaceKeepsOut(s: string, from: string, to: string, c: char)
    requires |from| > 0 && c !in s && c !in to
    ensures c !in Replace(s, from, to)
    decreases |s|
  {
    var i := IndexOf(s, from);
    if i >= 0 {
      var front, rest := s[..i], s[i + |from|..];
      assert c !in rest by {
        forall k | 0 <= k < |rest|
          ensures rest[k] != c
        {
          assert rest[k] == s[i + |from| + k];
        }
      }
      assert c !in front by {
        forall k | 0 <= k < |front|
          ensures front[k] != c
        {
          assert front[k] == s[k];
        }
      }
      ReplaceKeepsOut(rest, from, to, c);
      assert Replace(s, from, to) == front + to + Replace(rest, from, to);
    }
  }

  /** Replacing a single character by the empty text removes every occurrence of it. */
  lemma {:induction false} RemoveCharGone(s: string, c: char)
    ensures c !in Replace(s, [c], "")
    decreases |s|
  {
    var i := IndexOf(s, [c]);
    var before := if i < 0 then s else s[..i];
    assert c !in before by {
      forall k | 0 <= k < |before|
        ensures before[k] != c
      {
        assert !OccursAt(s, [c], k);
        assert s[k..k + 1] == [s[k]];
      }
    }
    if i >= 0 {
      var rest := s[i + 1..];
      RemoveCharGone(rest, c);
      assert Replace(s, [c], "") == before + "" + Replace(rest, [c], "");
    }
  }

  /** Blanks in front are trimmed away up to the first non-blank character. */
  lemma {:induction false} TrimStartBlank(p: string, x: string)
    requires IsBlank(p) && |x| > 0 && !IsWhitespace(x[0])
    ensures TrimStart(p + x) == x
    decreases |p|
  {
    if |p| > 0 {
      assert (p + x)[1..] == p[1..] + x;
      TrimStartBlank(p[1..], x);
    } else {
      assert p + x == x;
    }
  }

  /** Blanks behind are trimmed away back to the last non-blank character. */
  lemma {:induction false} TrimEndBlank(x: string, p: string)
    requires IsBlank(p) && |x| > 0 && !IsWhitespace(x[|x| - 1])
    ensures TrimEnd(x + p) == x
    decreases |p|
  {
    if |p| > 0 {
      assert (x + p)[..|x + p| - 1] == x + p[..|p| - 1];
      TrimEndBlank(x, p[..|p| - 1]);
    } else {
      assert x + p == x;
    }
  }

  /** Trimming a text padded with blanks on both sides gives the text. */
  lemma TrimPadded(p1: string, s: string, p2: string)
    requires IsBlank(p1) && IsBlank(p2) && |s| > 0 && !IsWhitespace(s[0]) && !IsWhitespace(s[|s| - 1])
    ensures Trim(p1 + s + p2) == s
  {
    assert p1 + s + p2 == p1 + (s + p2);
    TrimStartBlank(p1, s + p2);
    TrimEndBlank(s, p2);
  }

  /** Trimming leaves neither leading nor trailing whitespace and is a slice of the receiver. */
  lemma TrimProperties(s: string)
    ensures var r := Trim(s);
      (r == [] || (!IsWhitespace(r[0]) && !IsWhitespace(r[|r| - 1])))
      && exists a, b :: 0 <= a <= b <= |s| && r == s[a..b]
  {
    var t := TrimStart(s);
    var r := TrimEnd(t);
    var a := |s| - |t|;
    assert r == s[a..a + |r|];
  }

  /** Trimming twice is trimming once. */
  lemma TrimIdempotent(s: string)
    ensures Trim(Trim(s)) == Trim(s)
  {
    var r := Trim(s);
    TrimProperties(s);
    assert TrimStart(r) == r;
    assert TrimEnd(r) == r;
  }

  /** A text is blank exactly when trimming it leaves nothing. */
  lemma BlankIffTrimEmpty(s: string)
    ensures IsBlank(s) <==> Trim(s) == ""
  {
    var t := TrimStart(s);
    if Trim(s) == "" {
      assert t == [];
      assert s[..|s|] == s;
    }
    if IsBlank(s) && |t| > 0 {
      assert false;
    }
  }

  /** Reading back the decimal text of a number gives the number. */
  lemma {:induction false} DecimalRoundTrip(n: nat)
    ensures DecimalValue(NatToString(n)) == n
  {
    if n >= 10 {
      DecimalRoundTrip(n / 10);
      var s := NatToString(n);
      assert s[..|s| - 1] == NatToString(n / 10);
    }
  }

  /** The decimal text of a natural number uses the ASCII digits only. */
  lemma {:induction false} NatTextAscii(n: nat)
    ensures forall i :: 0 <= i < |IntToString(n)| ==> '0' <= IntToString(n)[i] <= '9'
  {
    var s := NatToString(n);
    assert IntToString(n) == s;
    if n >= 10 {
      NatTextAscii(n / 10);
      var front := NatToString(n / 10);
      assert IntToString(n / 10) == front;
      assert s == front + [DigitChar(n % 10)];
      forall i | 0 <= i < |s|
        ensures '0' <= s[i] <= '9'
      {
        if i < |front| {
          assert s[i] == front[i];
        }
      }
    }
  }

  /** The decimal text of a natural number reads back as a float. */
  lemma NatTextIsFloat(n: nat)
    ensures ToFloat(IntToString(n)) == Success(IntToString(n))
  {
    var s := IntToString(n);
    NatTextAscii(n);
    assert '.' !in s;
    assert multiset(s)['.'] == 0;
    assert IsAsciiDigit(s[0]);
  }

  /** The text of an `Int` determines the `Int`. */
  lemma IntToStringInjective(i: int, j: int)
    requires IntToString(i) == IntToString(j)
    ensures i == j
  {
    SignOfText(i);
    SignOfText(j);
    if i < 0 && j < 0 {
      assert NatToString(-i) == NatToString(-j) by {
        assert NatToString(-i) == IntToString(i)[1..];
        assert NatToString(-j) == IntToString(j)[1..];
      }
      DecimalRoundTrip(-i);
      DecimalRoundTrip(-j);
    } else if i >= 0 && j >= 0 {
      assert NatToString(i) == NatToString(j);
      DecimalRoundTrip(i);
      DecimalRoundTrip(j);
    }
  }

  /** `n.toString().toIntOrNull()` gives `n` back for every non-negative `Int`. */
  lemma IntTextRoundTrip(n: nat)
    requires n <= INT_MAX
    ensures ToIntOrNull(IntToString(n)) == Some(n)
  {
    SignOfText(n);
    NatTextAscii(n);
    assert AllDigits(IntToString(n));
    assert IntToString(n) == NatToString(n);
    DecimalRoundTrip(n);
  }

  /** The text of an `Int` starts with a minus sign exactly for negative values. */
  lemma SignOfText(i: int)
    ensures |IntToString(i)| > 0 && (IntToString(i)[0] == '-' <==> i < 0)
  {
    if i >= 0 {
      assert IsDigit(NatToString(i)[0]);
    }
  }

  /** Digits survive the filter and nothing else does. */
  lemma {:induction false} FilterDigitsKeepsDigits(s: string)
    ensures AllDigits(s) ==> FilterDigits(s) == s
    ensures (forall i :: 0 <= i < |s| ==> !IsDigit(s[i])) ==> FilterDigits(s) == ""
  {
    if |s| > 0 {
      FilterDigitsKeepsDigits(s[..|s| - 1]);
    }
  }

  /** The digit filter works piece by piece. */
  lemma {:induction false} FilterDigitsAppend(a: string, b: string)
    ensures FilterDigits(a + b) == FilterDigits(a) + FilterDigits(b)
    decreases |b|
  {
    if |b| > 0 {
      var front := b[..|b| - 1];
      assert (a + b)[..|a + b| - 1] == a + front;
      FilterDigitsAppend(a, front);
    } else {
      assert a + b == a;
    }
  }

  /** A digit-free text followed by the decimal text of a number filters down to that text. */
  lemma NumberAfterText(pre: string, n: nat)
    requires forall i :: 0 <= i < |pre| ==> !IsDigit(pre[i])
    ensures FilterDigits(pre + IntToString(n)) == IntToString(n)
  {
    FilterDigitsAppend(pre, IntToString(n));
    FilterDigitsKeepsDigits(pre);
    FilterDigitsKeepsDigits(IntToString(n));
  }

  /** Filtering digits twice is filtering once. */
  lemma FilterDigitsIdempotent(s: string)
    ensures FilterDigits(FilterDigits(s)) == FilterDigits(s)
  {
    FilterDigitsKeepsDigits(FilterDigits(s));
  }

  /**
   * A digit of another script passes the `isDigit()` filter, so the digits
   * handed to `toFloat()` are not all ASCII and the read throws.
   */
  lemma ForeignDigitThrows(pre: string, c: char, post: string)
    requires IsDigit(c) && !IsAsciiDigit(c)
    ensures DigitsNumber(pre + [c] + post).Failure?
  {
    FilterDigitsAppend(pre, [c]);
    FilterDigitsAppend(pre + [c], post);
    assert FilterDigits([c]) == [c] by {
      assert [c][..0] == [];
    }
    var kept := FilterDigits(pre + [c] + post);
    assert kept[|FilterDigits(pre)|] == c;
  }
}

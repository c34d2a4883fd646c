/** The values a worksheet cell can hold, and the three Python built-ins the
    web app applies to them: truthiness (`if not x`), `str(x)` and `int(x)`;
    plus `str.strip()` and the decimal spelling of integers they rely on. */
module Cells {
  import opened Wrappers

  /** A string that `str()` of a date, float or boolean can produce: never empty. */
  type NonEmptyString = s: string | |s| > 0 witness "?"

  /** A cell as the spreadsheet library returns it. `Other` stands for every
      other kind of value (floats, booleans, dates); it carries what Python
      answers for it: its truthiness, `int()` of it (`None` when `int()`
      raises) and `str()` of it. */
  datatype Cell =
    | Empty
    | Int(n: int)
    | Str(s: string)
    | Other(truthy: bool, asInt: Option<int>, text: NonEmptyString)

  /** Python truthiness of a cell value: `None`, `0` and `''` are false. */
  predicate Truthy(c: Cell) {
    match c
    case Empty => false
    case Int(n) => n != 0
    case Str(s) => s != ""
    case Other(t, _, _) => t
  }

  /** `str(value)` of a cell value. */
  function Text(c: Cell): string {
    match c
    case Empty => "None"
    case Int(n) => DecimalText(n)
    case Str(s) => s
    case Other(_, _, t) => t
  }

  /** `int(value)` of a cell value; `None` where Python raises. */
  function IntOf(c: Cell): Option<int> {
    match c
    case Empty => None
    case Int(n) => Some(n)
    case Str(s) => ParseDecimal(s)
    case Other(_, i, _) => i
  }

  // ---------------------------------------------------------------- strip

  /** The characters Python's `str.isspace()` accepts, which `strip()` removes. */
  predicate IsSpace(c: char) {
    || c == ' '
    || '\t' <= c <= '\r'
    || '\U{1C}' <= c <= '\U{1F}'
    || c == '\U{85}' || c == '\U{A0}' || c == '\U{1680}'
    || '\U{2000}' <= c <= '\U{200A}'
    || c == '\U{2028}' || c == '\U{2029}' || c == '\U{202F}' || c == '\U{205F}'
    || c == '\U{3000}'
  }

  /** The white space `int()` of a text skips around the number: what
      `isspace()` accepts except the four separators U+001C to U+001F, which
      `int()` rejects. */
  predicate IntSpace(c: char) {
    IsSpace(c) && !('\U{1C}' <= c <= '\U{1F}')
  }

  /** Every character of `s` is white space (so `s.strip()` is empty). */
  predicate IsBlank(s: string) {
    forall k :: 0 <= k < |s| ==> IsSpace(s[k])
  }

  /** Drops the characters that satisfy `sp` from the front of `s`. */
  function LStrip(s: string, sp: char -> bool): string {
    if s != [] && sp(s[0]) then LStrip(s[1..], sp) else s
  }

  /** Drops the characters that satisfy `sp` from the back of `s`. */
  function RStrip(s: string, sp: char -> bool): string {
    if s != [] && sp(s[|s| - 1]) then RStrip(s[..|s| - 1], sp) else s
  }

  /** Drops the characters that satisfy `sp` from both ends of `s`. */
  function StripWith(s: string, sp: char -> bool): string {
    RStrip(LStrip(s, sp), sp)
  }

  /** `s.strip()`: `s` without its leading and trailing white space. */
  function Strip(s: string): string {
    StripWith(s, IsSpace)
  }

  /** The padding `int()` of a text ignores, removed from both ends. */
  function IntStrip(s: string): string {
    StripWith(s, IntSpace)
  }

  /** Left stripping keeps the longest suffix that does not start with a
      character of `sp`; everything it drops satisfies `sp`. */
  lemma {:induction false} LStripSuffix(s: string, sp: char -> bool)
    ensures |LStrip(s, sp)| <= |s| && LStrip(s, sp) == s[|s| - |LStrip(s, sp)|..]
    ensures forall k :: 0 <= k < |s| - |LStrip(s, sp)| ==> sp(s[k])
    ensures LStrip(s, sp) != [] ==> !sp(LStrip(s, sp)[0])
  {
    if s != [] && sp(s[0]) {
      LStripSuffix(s[1..], sp);
      forall k | 0 < k < |s| - |LStrip(s, sp)| ensures sp(s[k]) {
        assert s[k] == s[1..][k - 1];
      }
    }
  }

  /** Right stripping keeps the longest prefix that does not end with a
      character of `sp`; everything it drops satisfies `sp`. */
  lemma {:induction false} RStripPrefix(s: string, sp: char -> bool)
    ensures |RStrip(s, sp)| <= |s| && RStrip(s, sp) == s[..|RStrip(s, sp)|]
    ensures forall k :: |RStrip(s, sp)| <= k < |s| ==> sp(s[k])
    ensures RStrip(s, sp) != [] ==> !sp(RStrip(s, sp)[|RStrip(s, sp)| - 1])
  {
    if s != [] && sp(s[|s| - 1]) {
      RStripPrefix(s[..|s| - 1], sp);
      forall k | |RStrip(s, sp)| <= k < |s| - 1 ensures sp(s[k]) {
        assert s[k] == s[..|s| - 1][k];
      }
    }
  }

  /** What stripping keeps is the slice of `s` between a prefix and a suffix
      made of characters of `sp`. */
  lemma StripWithSlice(s: string, sp: char -> bool) returns (i: nat)
    ensures i + |StripWith(s, sp)| <= |s| && StripWith(s, sp) == s[i..i + |StripWith(s, sp)|]
    ensures forall k :: 0 <= k < i ==> sp(s[k])
    ensures forall k :: i + |StripWith(s, sp)| <= k < |s| ==> sp(s[k])
  {
    var l := LStrip(s, sp);
    var r := RStrip(l, sp);
    LStripSuffix(s, sp);
    RStripPrefix(l, sp);
    i := |s| - |l|;
    assert l == s[i..];
    assert r == l[..|r|];
    forall k | i + |r| <= k < |s| ensures sp(s[k]) {
      assert s[k] == l[k - i];
    }
  }

  /** Stripping leaves no character of `sp` at either end. */
  lemma StripWithEnds(s: string, sp: char -> bool)
    ensures StripWith(s, sp) != [] ==> !sp(StripWith(s, sp)[0]) && !sp(StripWith(s, sp)[|StripWith(s, sp)| - 1])
  {
    var l := LStrip(s, sp);
    var r := RStrip(l, sp);
    LStripSuffix(s, sp);
    RStripPrefix(l, sp);
    if r != [] {
      assert r[0] == l[0];
    }
  }

  /** A string with no character of `sp` at either end is its own strip. */
  lemma StripWithTrimmed(s: string, sp: char -> bool)
    requires s != [] ==> !sp(s[0]) && !sp(s[|s| - 1])
    ensures StripWith(s, sp) == s
  {
  }

  /** Stripping twice is stripping once. */
  lemma StripWithIdempotent(s: string, sp: char -> bool)
    ensures StripWith(StripWith(s, sp), sp) == StripWith(s, sp)
  {
    StripWithEnds(s, sp);
    StripWithTrimmed(StripWith(s, sp), sp);
  }

  /** `strip()` leaves no white space at either end, and gives `''` exactly
      when the input is blank. */
  lemma StripTrims(s: string)
    ensures |Strip(s)| <= |s|
    ensures Strip(s) != [] ==> !IsSpace(Strip(s)[0]) && !IsSpace(Strip(s)[|Strip(s)| - 1])
    ensures Strip(s) == [] <==> IsBlank(s)
  {
    var i := StripWithSlice(s, IsSpace);
    StripWithEnds(s, IsSpace);
    if Strip(s) == [] {
      forall k | 0 <= k < |s| ensures IsSpace(s[k]) {
      }
    } else {
      assert s[i] == Strip(s)[0];
    }
  }

  /** What `strip()` removes is white space: the result is the slice of `s`
      between a blank prefix and a blank suffix. */
  lemma StripSlice(s: string) returns (i: nat)
    ensures i + |Strip(s)| <= |s| && Strip(s) == s[i..i + |Strip(s)|]
    ensures forall k :: 0 <= k < i ==> IsSpace(s[k])
    ensures forall k :: i + |Strip(s)| <= k < |s| ==> IsSpace(s[k])
  {
    i := StripWithSlice(s, IsSpace);
  }

  /** Stripping twice is stripping once. */
  lemma StripIdempotent(s: string)
    ensures Strip(Strip(s)) == Strip(s)
  {
    StripWithIdempotent(s, IsSpace);
  }

  // ------------------------------------------------------ decimal numerals

  predicate IsDigit(c: char) {
    '0' <= c <= '9'
  }

  function DigitValue(c: char): nat
    requires IsDigit(c)
  {
    c as int - '0' as int
  }

  function DigitChar(d: nat): (c: char)
    requires d < 10
    ensures IsDigit(c) && DigitValue(c) == d
  {
    ('0' as int + d) as char
  }

  predicate AllDigits(ds: string) {
    forall k :: 0 <= k < |ds| ==> IsDigit(ds[k])
  }

  /** The number a string of decimal digits spells, most significant first. */
  function DigitsValue(ds: string): nat
    requires AllDigits(ds)
  {
    if ds == [] then 0 else DigitsValue(ds[..|ds| - 1]) * 10 + DigitValue(ds[|ds| - 1])
  }

  /** `str(n)` for a natural number: its digits without leading zeros. */
  function NatText(n: nat): string
    decreases n
  {
    if n < 10 then [DigitChar(n)] else NatText(n / 10) + [DigitChar(n % 10)]
  }

  /** `str(n)` for an integer. */
  function DecimalText(n: int): string {
    if n < 0 then "-" + NatText(-n) else NatText(n)
  }

  /** `int(s)` for a string: the padding `IntSpace` accepts is ignored at
      both ends, then one optional sign and at least one decimal digit;
      `None` where Python raises. */
  function ParseDecimal(s: string): Option<int> {
    ParseNumeral(IntStrip(s))
  }

  /** The signed numeral `t` with no surrounding white space, if it is one. */
  function ParseNumeral(t: string): Option<int> {
    if t == [] then None
    else
      var negative := t[0] == '-';
      var body := if t[0] == '-' || t[0] == '+' then t[1..] else t;
      if body == [] || !AllDigits(body) then None
      else if negative then Some(0 - DigitsValue(body) as int)
      else Some(DigitsValue(body))
  }

  /** `str(n)` is a non-empty string of digits that spells `n`. */
  lemma {:induction false} NatTextSpells(n: nat)
    ensures NatText(n) != [] && AllDigits(NatText(n))
    ensures DigitsValue(NatText(n)) == n
    decreases n
  {
    if n >= 10 {
      NatTextSpells(n / 10);
      var t := NatText(n);
      assert t[..|t| - 1] == NatText(n / 10);
    }
  }

  /** `int(str(n)) == n`: the decimal spelling reads back as the same integer. */
  lemma ParseDecimalRoundTrip(n: int)
    ensures ParseDecimal(DecimalText(n)) == Some(n)
  {
    var t := DecimalText(n);
    NatTextSpells(if n < 0 then -n else n);
    StripWithTrimmed(t, IntSpace);
    if n < 0 {
      assert t[1..] == NatText(-n);
    }
  }

  /** `int()` ignores the padding it skips around the number. */
  lemma ParseDecimalIgnoresPadding(s: string)
    ensures ParseDecimal(s) == ParseDecimal(IntStrip(s))
  {
    StripWithIdempotent(s, IntSpace);
  }

  /** Text that starts or ends with one of the separators U+001C to U+001F,
      which `isspace()` accepts but `int()` does not skip, is not a number. */
  lemma ParseDecimalRejectsSeparator(s: string)
    requires s != []
    requires '\U{1C}' <= s[0] <= '\U{1F}' || '\U{1C}' <= s[|s| - 1] <= '\U{1F}'
    ensures ParseDecimal(s) == None
  {
    var i := StripWithSlice(s, IntSpace);
    var t := IntStrip(s);
    if '\U{1C}' <= s[0] <= '\U{1F}' {
      assert i == 0 && t != [];
      assert t[0] == s[0];
      assert !AllDigits(t) by { assert !IsDigit(t[0]); }
    } else {
      assert i + |t| == |s| && t != [];
      assert t[|t| - 1] == s[|s| - 1];
      assert !IsDigit(t[|t| - 1]);
    }
  }

  /** `str(x)` of a truthy cell value is never the empty string. */
  lemma TruthyTextNonEmpty(c: Cell)
    requires Truthy(c)
    ensures Text(c) != ""
  {
  }
}

/** The JavaScript string built-ins the extension relies on: the `\s` class and
    `trim()`, `toLowerCase()`, `includes` / an alternation regex `test`,
    `endsWith`, `split` on one character, `join`, the decimal rendering of an
    integer and `Number.parseInt(s, 10)`. */
module Text {
  import opened Wrappers

  /** The characters of the regular-expression class `\s`; `String.prototype.trim`
      strips exactly these (WhiteSpace and LineTerminator). */
  predicate IsSpace(c: char) {
    || '\t' <= c <= '\r' || c == ' ' || c == '\U{00A0}' || c == '\U{1680}'
    || '\U{2000}' <= c <= '\U{200A}' || c == '\U{2028}' || c == '\U{2029}'
    || c == '\U{202F}' || c == '\U{205F}' || c == '\U{3000}' || c == '\U{FEFF}'
  }

  /** No printable ASCII character (letters, digits, punctuation) is white space. */
  lemma PrintableIsNotSpace(c: char)
    requires '!' <= c <= '~'
    ensures !IsSpace(c)
  {
  }

  predicate AllSpace(s: string) {
    forall i :: 0 <= i < |s| ==> IsSpace(s[i])
  }

  /** The length of the run of white space at the start of `s`. */
  function LeadingSpaces(s: string): (n: nat)
    ensures n <= |s|
    ensures forall k :: 0 <= k < n ==> IsSpace(s[k])
    ensures n == |s| || !IsSpace(s[n])
  {
    if s != [] && IsSpace(s[0]) then 1 + LeadingSpaces(s[1..]) else 0
  }

  /** The length of the run of white space at the end of `s`. */
  function TrailingSpaces(s: string): (n: nat)
    ensures n <= |s|
    ensures forall k :: |s| - n <= k < |s| ==> IsSpace(s[k])
    ensures n == |s| || !IsSpace(s[|s| - n - 1])
  {
    if s != [] && IsSpace(s[|s| - 1]) then 1 + TrailingSpaces(s[..|s| - 1]) else 0
  }

  /** `s.trimStart()`. */
  function TrimStart(s: string): string {
    s[LeadingSpaces(s)..]
  }

  /** `s.trim()`: the part of `s` that follows its leading white space and
      neither starts nor ends with white space (`TrimCuts`). */
  function Trim(s: string): (r: string)
    ensures r == [] || (!IsSpace(r[0]) && !IsSpace(r[|r| - 1]))
    ensures LeadingSpaces(s) + |r| <= |s| && r == s[LeadingSpaces(s)..LeadingSpaces(s) + |r|]
  {
    var i := LeadingSpaces(s);
    var t := s[i..];
    var n := TrailingSpaces(t);
    var j := |s| - n;
    var r := s[i..j];
    assert r != [] ==> r[0] == s[i] && r[|r| - 1] == t[|t| - n - 1];
    r
  }

  /** What `trim()` cuts off either end is white space. */
  lemma TrimCuts(s: string)
    ensures var i := LeadingSpaces(s); var r := Trim(s);
      AllSpace(s[..i]) && AllSpace(s[i + |r|..])
  {
    var i := LeadingSpaces(s);
    var t := s[i..];
    var n := TrailingSpaces(t);
    var r := Trim(s);
    assert |r| == |t| - n;
    var b := s[i + |r|..];
    assert forall k :: 0 <= k < |b| ==> b[k] == t[|t| - n + k];
  }

  lemma TrimOfTrimmed(s: string)
    requires s == [] || (!IsSpace(s[0]) && !IsSpace(s[|s| - 1]))
    ensures Trim(s) == s
  {
  }

  lemma SplitAt(s: string, n: nat)
    requires n <= |s|
    ensures s == s[..n] + s[n..]
  {
  }

  lemma ConcatAssoc(a: string, b: string, c: string)
    ensures a + (b + c) == (a + b) + c
  {
  }

  /** One more space in front changes nothing that `trim()` keeps. */
  lemma TrimLeadingSpace(s: string)
    ensures Trim([' '] + s) == Trim(s)
  {
    var x := [' '] + s;
    assert x[1..] == s;
    assert LeadingSpaces(x) == 1 + LeadingSpaces(s);
    var i := LeadingSpaces(s);
    assert x[1 + i..] == s[i..];
  }

  /** The white space at the end of `a + b` is that of `b` once `b` starts with something else. */
  lemma {:induction false} TrailingSpacesConcat(a: string, b: string)
    requires b != [] && !IsSpace(b[0])
    ensures TrailingSpaces(a + b) == TrailingSpaces(b)
    decreases |b|
  {
    var x := a + b;
    assert x[|x| - 1] == b[|b| - 1];
    if IsSpace(b[|b| - 1]) {
      var b' := b[..|b| - 1];
      assert x[..|x| - 1] == a + b';
      TrailingSpacesConcat(a, b');
    }
  }

  /** `(a + b).trim()` is `a + b.trim()` when both start with something other than white space. */
  lemma TrimConcat(a: string, b: string)
    requires a != [] && !IsSpace(a[0]) && b != [] && !IsSpace(b[0])
    ensures Trim(a + b) == a + Trim(b)
  {
    var x := a + b;
    assert LeadingSpaces(x) == 0 && LeadingSpaces(b) == 0;
    assert x[0..] == x && b[0..] == b;
    TrailingSpacesConcat(a, b);
    var n := TrailingSpaces(b);
    assert x[0..|x| - n] == a + b[0..|b| - n];
  }

  /** A word followed by at most one space trims to the word. */
  lemma TrimWord(w: string, tail: string)
    requires w != [] && !IsSpace(w[0]) && !IsSpace(w[|w| - 1])
    requires tail == [] || tail == " "
    ensures Trim(w + tail) == w
  {
    var x := w + tail;
    assert LeadingSpaces(x) == 0;
    assert x[0..] == x;
    if tail == " " {
      assert x[..|x| - 1] == w;
      assert TrailingSpaces(x) == 1;
    } else {
      assert x == w;
    }
  }

  const DottedCapitalI: char := '\U{0130}'

  /** The one-character lower-case mapping: the ASCII and Latin-1 capitals, and KELVIN SIGN,
      which lowers to the ASCII letter 'k'. */
  function LowerChar(c: char): (r: char)
    ensures 'a' <= r <= 'z' ==> ('A' <= c <= 'Z' || c == r || (c == '\U{212A}' && r == 'k'))
  {
    if 'A' <= c <= 'Z' || ('\U{00C0}' <= c <= '\U{00DE}' && c != '\U{00D7}') then (c as int + 32) as char
    else if c == '\U{212A}' then 'k'
    else c
  }

  /** `s.toLowerCase()`: each character by `LowerChar`, except that LATIN CAPITAL LETTER I WITH
      DOT ABOVE becomes two characters, 'i' and COMBINING DOT ABOVE. */
  function Lower(s: string): (r: string)
    ensures DottedCapitalI !in s ==> |r| == |s|
  {
    if s == [] then []
    else if s[0] == DottedCapitalI then "i\U{0307}" + Lower(s[1..])
    else [LowerChar(s[0])] + Lower(s[1..])
  }

  /** Lowering a concatenation lowers each part. */
  lemma {:induction false} LowerConcat(a: string, b: string)
    ensures Lower(a + b) == Lower(a) + Lower(b)
  {
    if a == [] {
      assert a + b == b;
    } else {
      assert (a + b)[0] == a[0] && (a + b)[1..] == a[1..] + b;
      LowerConcat(a[1..], b);
    }
  }

  /** Without a dotted capital I, each character is lowered in place. */
  lemma {:induction false} LowerAt(s: string)
    requires DottedCapitalI !in s
    ensures |Lower(s)| == |s|
    ensures forall i :: 0 <= i < |s| ==> Lower(s)[i] == LowerChar(s[i])
  {
    if s != [] {
      LowerAt(s[1..]);
    }
  }

  /** KELVIN SIGN lowers to the ASCII letter 'k'. */
  lemma KelvinSignLowers()
    ensures Lower("BAN\U{212A}") == "bank"
  {
    var s := "BAN\U{212A}";
    LowerAt(s);
    assert LowerChar(s[3]) == 'k';
  }

  /** The dotted capital I lowers to two characters, so the length can grow. */
  lemma DottedCapitalIGrows()
    ensures |Lower([DottedCapitalI])| == 2 && Lower([DottedCapitalI]) == "i\U{0307}"
  {
  }

  /** `s.includes(sub)`, which is what `/(a|b|…)/.test(s)` checks for one alternative. */
  predicate Contains(s: string, sub: string) {
    exists i :: 0 <= i <= |s| - |sub| && OccursAt(s, sub, i)
  }

  predicate OccursAt(s: string, sub: string, i: nat)
    requires i + |sub| <= |s|
  {
    s[i..i + |sub|] == sub
  }

  predicate EndsWith(s: string, suffix: string) {
    |suffix| <= |s| && s[|s| - |suffix|..] == suffix
  }

  /** `xs.join(sep)`. */
  function Join(xs: seq<string>, sep: string): string {
    if |xs| == 0 then "" else if |xs| == 1 then xs[0] else xs[0] + sep + Join(xs[1..], sep)
  }

  function CountChar(s: string, c: char): nat {
    if s == [] then 0 else (if s[0] == c then 1 else 0) + CountChar(s[1..], c)
  }

  /** `s.split(sep)` for a one-character separator: one piece more than there
      are separators, and no piece contains the separator. */
  function Split(s: string, sep: char): (r: seq<string>)
    ensures |r| == CountChar(s, sep) + 1
    ensures forall k :: 0 <= k < |r| ==> sep !in r[k]
  {
    if s == [] then [""]
    else
      var rest := Split(s[1..], sep);
      if s[0] == sep then [""] + rest else [[s[0]] + rest[0]] + rest[1..]
  }

  lemma {:induction false} SplitWithoutSeparator(s: string, sep: char)
    requires sep !in s
    ensures Split(s, sep) == [s]
  {
    if s != [] {
      SplitWithoutSeparator(s[1..], sep);
      assert [s[0]] + s[1..] == s;
    }
  }

  lemma SplitHead(s: string, sep: char)
    requires s != []
    ensures Split(s, sep) ==
      if s[0] == sep then [""] + Split(s[1..], sep)
      else [[s[0]] + Split(s[1..], sep)[0]] + Split(s[1..], sep)[1..]
  {
  }

  /** Changing the first element of the left operand of a concatenation. */
  lemma ReplaceFirst<T>(x: T, left: seq<T>, right: seq<T>)
    requires left != []
    ensures [x] + (left + right)[1..] == ([x] + left[1..]) + right
  {
    assert (left + right)[1..] == left[1..] + right;
  }

  lemma {:induction false} SplitAround(a: string, sep: char, b: string)
    ensures Split(a + [sep] + b, sep) == Split(a, sep) + Split(b, sep)
  {
    var s := a + [sep] + b;
    SplitHead(s, sep);
    if a == [] {
      assert s[1..] == b;
    } else {
      SplitHead(a, sep);
      assert s[0] == a[0];
      assert s[1..] == a[1..] + [sep] + b;
      SplitAround(a[1..], sep, b);
      var left := Split(a[1..], sep);
      if a[0] != sep {
        assert (left + Split(b, sep))[0] == left[0];
        ReplaceFirst([a[0]] + left[0], left, Split(b, sep));
      }
    }
  }

  /** Joining pieces that do not contain the separator and splitting again gives the pieces back. */
  lemma {:induction false} SplitJoin(xs: seq<string>, sep: char)
    requires |xs| >= 1
    requires forall k :: 0 <= k < |xs| ==> sep !in xs[k]
    ensures Split(Join(xs, [sep]), sep) == xs
  {
    if |xs| == 1 {
      SplitWithoutSeparator(xs[0], sep);
    } else {
      SplitJoin(xs[1..], sep);
      SplitAround(xs[0], sep, Join(xs[1..], [sep]));
      SplitWithoutSeparator(xs[0], sep);
      assert [xs[0]] + xs[1..] == xs;
    }
  }

  predicate IsDigit(c: char) {
    '0' <= c <= '9'
  }

  predicate AllDigits(s: string) {
    forall i :: 0 <= i < |s| ==> IsDigit(s[i])
  }

  function DigitChar(d: nat): (c: char)
    requires d < 10
    ensures IsDigit(c)
  {
    ('0' as int + d) as char
  }

  function DigitValue(c: char): nat
    requires IsDigit(c)
  {
    c as int - '0' as int
  }

  /** The decimal numeral of `n`, as `String(n)` writes it. */
  function NatToString(n: nat): (r: string)
    ensures |r| >= 1 && AllDigits(r)
  {
    if n < 10 then [DigitChar(n)] else NatToString(n / 10) + [DigitChar(n % 10)]
  }

  /** `String(n)` for an integer. */
  function IntToString(n: int): string {
    if n < 0 then "-" + NatToString(-n) else NatToString(n)
  }

  /** The value of a string of decimal digits, most significant first. */
  function DigitsValue(d: string): nat
    requires AllDigits(d)
  {
    if d == [] then 0 else DigitsValue(d[..|d| - 1]) * 10 + DigitValue(d[|d| - 1])
  }

  lemma {:induction false} DigitsValueOfNatToString(n: nat)
    ensures DigitsValue(NatToString(n)) == n
  {
    var s := NatToString(n);
    if n < 10 {
      assert s[..|s| - 1] == [];
    } else {
      assert s[..|s| - 1] == NatToString(n / 10);
      DigitsValueOfNatToString(n / 10);
    }
  }

  /** Decimal numerals of different numbers differ. */
  lemma NatToStringInjective(m: nat, n: nat)
    requires NatToString(m) == NatToString(n)
    ensures m == n
  {
    DigitsValueOfNatToString(m);
    DigitsValueOfNatToString(n);
  }

  /** The longest run of decimal digits at the start of `s`. */
  function DigitPrefix(s: string): (r: string)
    ensures |r| <= |s| && r == s[..|r|] && AllDigits(r)
    ensures |r| == |s| || !IsDigit(s[|r|])
  {
    if s != [] && IsDigit(s[0]) then [s[0]] + DigitPrefix(s[1..]) else []
  }

  lemma {:induction false} DigitPrefixOfDigits(s: string)
    requires AllDigits(s)
    ensures DigitPrefix(s) == s
  {
    if s != [] {
      DigitPrefixOfDigits(s[1..]);
      assert [s[0]] + s[1..] == s;
    }
  }

  /** `Number.parseInt(s, 10)`: leading white space, an optional sign, then the
      longest run of digits; `None` stands for `NaN` (no digit at all). */
  function ParseInt(s: string): Option<int> {
    var t := TrimStart(s);
    var negative := t != [] && t[0] == '-';
    var body := if t != [] && (t[0] == '-' || t[0] == '+') then t[1..] else t;
    var digits := DigitPrefix(body);
    if digits == [] then None
    else if negative then Some(-(DigitsValue(digits) as int))
    else Some(DigitsValue(digits))
  }

  /** Rendering an integer and parsing it again gives the integer back. */
  lemma ParseIntOfNatToString(m: nat)
    ensures ParseInt(NatToString(m)) == Some(m)
  {
    var digits := NatToString(m);
    DigitPrefixOfDigits(digits);
    DigitsValueOfNatToString(m);
    PrintableIsNotSpace(digits[0]);
    assert TrimStart(digits) == digits;
  }

  lemma ParseIntOfNegative(m: nat)
    requires m > 0
    ensures ParseInt("-" + NatToString(m)) == Some(-(m as int))
  {
    var digits := NatToString(m);
    var s := "-" + digits;
    DigitPrefixOfDigits(digits);
    DigitsValueOfNatToString(m);
    assert s[0] == '-';
    PrintableIsNotSpace(s[0]);
    assert LeadingSpaces(s) == 0;
    assert TrimStart(s) == s;
    assert s[1..] == digits;
  }

  /** Rendering an integer and parsing it again gives the integer back. */
  lemma ParseIntOfIntToString(n: int)
    ensures ParseInt(IntToString(n)) == Some(n)
  {
    if n < 0 {
      ParseIntOfNegative(-n);
    } else {
      ParseIntOfNatToString(n);
    }
  }
}

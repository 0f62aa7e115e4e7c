/**
  Python string operations the services rely on, on `string == seq<char>`:
  `str.split(sep)`, `sep.join(parts)`, `str.strip()`, ASCII `lower()`/`upper()`,
  `str(int)`, `int(str)` and the substring test `sub in s`.
 */
module Text {
  import opened Wrappers

  /** Characters `str.strip()` and `int()` treat as whitespace (ASCII whitespace,
      the information separators, NEL and NO-BREAK SPACE). */
  predicate IsSpace(c: char) {
    c == ' ' || c == '\t' || c == '\n' || c == '\r' || c == '\U{0B}' || c == '\U{0C}'
    || ('\U{1C}' <= c <= '\U{1F}') || c == '\U{85}' || c == '\U{A0}'
  }

  predicate IsDigit(c: char) { '0' <= c <= '9' }

  predicate IsAsciiUpper(c: char) { 'A' <= c <= 'Z' }

  predicate IsAsciiLower(c: char) { 'a' <= c <= 'z' }

  predicate AllDigits(s: string) { forall i :: 0 <= i < |s| ==> IsDigit(s[i]) }

  function LowerChar(c: char): (r: char)
    ensures !IsAsciiUpper(r)
    ensures IsAsciiUpper(c) ==> IsAsciiLower(r)
    ensures !IsAsciiUpper(c) ==> r == c
  {
    if IsAsciiUpper(c) then (c as int + 32) as char else c
  }

  function UpperChar(c: char): (r: char)
    ensures !IsAsciiLower(r)
    ensures !IsAsciiLower(c) ==> r == c
  {
    if IsAsciiLower(c) then (c as int - 32) as char else c
  }

  /** `s.lower()`, for ASCII letters. */
  function Lower(s: string): string {
    seq(|s|, i requires 0 <= i < |s| => LowerChar(s[i]))
  }

  /** Text without upper-case ASCII letters is its own lower-case form. */
  lemma LowerOfLowercase(s: string)
    requires forall i :: 0 <= i < |s| ==> !IsAsciiUpper(s[i])
    ensures Lower(s) == s
  {
  }

  /** `s.upper()`, for ASCII letters. */
  function Upper(s: string): string {
    seq(|s|, i requires 0 <= i < |s| => UpperChar(s[i]))
  }

  /** `s` without its longest prefix of characters satisfying `drop`. */
  function TrimStart(s: string, drop: char -> bool): (r: string)
    ensures |r| <= |s| && r == s[|s| - |r|..]
    ensures r == [] || !drop(r[0])
    ensures forall i :: 0 <= i < |s| - |r| ==> drop(s[i])
    decreases |s|
  {
    if s != [] && drop(s[0]) then TrimStart(s[1..], drop) else s
  }

  /** `s` without its longest suffix of characters satisfying `drop`. */
  function TrimEnd(s: string, drop: char -> bool): (r: string)
    ensures |r| <= |s| && r == s[..|r|]
    ensures r == [] || !drop(r[|r| - 1])
    ensures forall i :: |r| <= i < |s| ==> drop(s[i])
    decreases |s|
  {
    if s != [] && drop(s[|s| - 1]) then TrimEnd(s[..|s| - 1], drop) else s
  }

  /** `s.strip()` */
  function Strip(s: string): string {
    TrimEnd(TrimStart(s, IsSpace), IsSpace)
  }

  /** Stripping `drop` keeps the first character when it is not dropped. */
  lemma TrimsKeepFirst(s: string, drop: char -> bool)
    requires s != [] && !drop(s[0])
    ensures TrimStart(s, drop) == s
    ensures var r := TrimEnd(s, drop); r != [] && r[0] == s[0]
  {
  }

  /** Stripping never touches text whose ends are not dropped. */
  lemma TrimsKeepEnds(s: string, drop: char -> bool)
    requires s != [] && !drop(s[0]) && !drop(s[|s| - 1])
    ensures TrimEnd(TrimStart(s, drop), drop) == s
  {
    TrimsKeepFirst(s, drop);
  }

  predicate IsUnderscore(c: char) { c == '_' }

  /** `s.strip("_")` */
  function StripUnderscores(s: string): string {
    TrimEnd(TrimStart(s, IsUnderscore), IsUnderscore)
  }

  /** `s.split(sep)`: the pieces between occurrences of `sep`, always at least one. */
  function Split(s: string, sep: char): (r: seq<string>)
    ensures |r| >= 1
    ensures forall i :: 0 <= i < |r| ==> sep !in r[i]
    decreases |s|
  {
    if s == [] then [""]
    else
      var rest := Split(s[1..], sep);
      if s[0] == sep then [""] + rest
      else [[s[0]] + rest[0]] + rest[1..]
  }

  /** `sep.join(parts)` */
  function Join(parts: seq<string>, sep: string): string
    decreases |parts|
  {
    if parts == [] then ""
    else if |parts| == 1 then parts[0]
    else parts[0] + sep + Join(parts[1..], sep)
  }

  /** `[p for p in parts if p]` */
  function NonEmptyParts(parts: seq<string>): (r: seq<string>)
    ensures |r| <= |parts|
    ensures forall i :: 0 <= i < |r| ==> r[i] != [] && r[i] in parts
    decreases |parts|
  {
    if parts == [] then []
    else (if parts[0] == [] then [] else [parts[0]]) + NonEmptyParts(parts[1..])
  }

  lemma {:induction false} NonEmptyPartsKeepsNonEmpty(parts: seq<string>)
    requires forall i :: 0 <= i < |parts| ==> parts[i] != []
    ensures NonEmptyParts(parts) == parts
    decreases |parts|
  {
    if parts != [] {
      NonEmptyPartsKeepsNonEmpty(parts[1..]);
    }
  }

  /** Splitting then joining with the same separator gives the original string back. */
  lemma {:induction false} JoinSplit(s: string, sep: char)
    ensures Join(Split(s, sep), [sep]) == s
    decreases |s|
  {
    if s != [] {
      var rest := Split(s[1..], sep);
      JoinSplit(s[1..], sep);
      assert s == [s[0]] + s[1..];
      if s[0] == sep {
        assert ([""] + rest)[1..] == rest;
      } else if |rest| > 1 {
        var head := [s[0]] + rest[0];
        assert ([head] + rest[1..])[1..] == rest[1..];
        assert Join(rest, [sep]) == rest[0] + [sep] + Join(rest[1..], [sep]);
      }
    }
  }

  lemma {:induction false} SplitWithoutSeparator(s: string, sep: char)
    requires sep !in s
    ensures Split(s, sep) == [s]
    decreases |s|
  {
    if s != [] {
      SplitWithoutSeparator(s[1..], sep);
      assert s == [s[0]] + s[1..];
    }
  }

  /** The first piece ends at the first separator. */
  lemma {:induction false} SplitAtFirstSeparator(a: string, sep: char, b: string)
    requires sep !in a
    ensures Split(a + [sep] + b, sep) == [a] + Split(b, sep)
    decreases |a|
  {
    var s := a + [sep] + b;
    if a == [] {
      assert s[1..] == b;
    } else {
      assert s[1..] == a[1..] + [sep] + b;
      SplitAtFirstSeparator(a[1..], sep, b);
      assert [a[0]] + a[1..] == a;
    }
  }

  /** Joining pieces that do not contain the separator and splitting again gives the pieces back. */
  lemma {:induction false} SplitJoin(parts: seq<string>, sep: char)
    requires |parts| >= 1
    requires forall i :: 0 <= i < |parts| ==> sep !in parts[i]
    ensures Split(Join(parts, [sep]), sep) == parts
    decreases |parts|
  {
    if |parts| == 1 {
      SplitWithoutSeparator(parts[0], sep);
    } else {
      SplitJoin(parts[1..], sep);
      SplitAtFirstSeparator(parts[0], sep, Join(parts[1..], [sep]));
      assert parts == [parts[0]] + parts[1..];
    }
  }

  function DigitChar(d: nat): (c: char)
    requires d < 10
    ensures IsDigit(c)
  {
    ('0' as int + d) as char
  }

  function DigitValue(c: char): (d: nat)
    requires IsDigit(c)
    ensures d < 10 && DigitChar(d) == c
  {
    c as int - '0' as int
  }

  /** `str(n)` for a natural number: its decimal digits, most significant first. */
  function NatToString(n: nat): (r: string)
    ensures |r| >= 1 && AllDigits(r)
    decreases n
  {
    if n < 10 then [DigitChar(n)] else NatToString(n / 10) + [DigitChar(n % 10)]
  }

  /** `str(i)` */
  function IntToString(i: int): (r: string)
    ensures |r| >= 1
    ensures forall k :: 0 <= k < |r| ==> IsDigit(r[k]) || (k == 0 && r[k] == '-')
  {
    if i < 0 then "-" + NatToString(-i) else NatToString(i)
  }

  /** The number a string of decimal digits denotes. */
  function DigitsValue(s: string): nat
    requires AllDigits(s)
    decreases |s|
  {
    if s == [] then 0 else 10 * DigitsValue(s[..|s| - 1]) + DigitValue(s[|s| - 1])
  }

  lemma {:induction false} DigitsValueOfNatToString(n: nat)
    ensures DigitsValue(NatToString(n)) == n
    decreases n
  {
    if n >= 10 {
      var s := NatToString(n);
      assert s[..|s| - 1] == NatToString(n / 10);
      DigitsValueOfNatToString(n / 10);
    }
  }

  /** The body of an integer literal `int()` accepts: digits, with single underscores between digits. */
  predicate IsDigitRun(s: string) {
    && |s| >= 1 && IsDigit(s[0]) && IsDigit(s[|s| - 1])
    && (forall i :: 0 <= i < |s| ==> IsDigit(s[i]) || s[i] == '_')
    && (forall i :: 0 <= i < |s| - 1 ==> !(s[i] == '_' && s[i + 1] == '_'))
  }

  function RemoveUnderscores(s: string): (r: string)
    ensures forall i :: 0 <= i < |r| ==> r[i] in s && r[i] != '_'
    ensures '_' !in s ==> r == s
    decreases |s|
  {
    if s == [] then []
    else (if s[0] == '_' then [] else [s[0]]) + RemoveUnderscores(s[1..])
  }

  /** The digits of a run are digits once the underscores are gone. */
  lemma DigitRunDigits(body: string)
    requires IsDigitRun(body)
    ensures AllDigits(RemoveUnderscores(body))
  {
    var digits := RemoveUnderscores(body);
    forall i | 0 <= i < |digits| ensures IsDigit(digits[i]) {
      var j :| 0 <= j < |body| && body[j] == digits[i];
    }
  }

  /** The value of a digit run, underscores ignored. */
  function DigitRunValue(body: string): nat
    requires IsDigitRun(body)
  {
    DigitRunDigits(body);
    DigitsValue(RemoveUnderscores(body))
  }

  /** `int(s)` on a string: `None` where Python raises `ValueError`. Surrounding
      whitespace, an optional sign and underscores between digits are accepted. */
  function ParseInt(s: string): Option<int> {
    ParseStripped(Strip(s))
  }

  /** `int()` of text without surrounding whitespace. */
  function ParseStripped(t: string): Option<int> {
    if t == [] then None
    else
      var body := if t[0] == '-' || t[0] == '+' then t[1..] else t;
      if !IsDigitRun(body) then None
      else
        var magnitude: int := DigitRunValue(body);
        Some(if t[0] == '-' then -magnitude else magnitude)
  }

  /** The decimal digits of a natural number are an integer literal without underscores or sign. */
  lemma NatToStringIsDigitRun(n: nat)
    ensures IsDigitRun(NatToString(n)) && '_' !in NatToString(n)
    ensures NatToString(n)[0] != '-' && NatToString(n)[0] != '+' && !IsSpace(NatToString(n)[0])
  {
    var s := NatToString(n);
    assert AllDigits(s);
  }

  /** `int()` of stripped text: an optional sign, then a digit run without underscores. */
  lemma ParseIntOfDigits(t: string, digits: string, negative: bool)
    requires IsDigitRun(digits) && '_' !in digits && digits[0] != '-' && digits[0] != '+'
    requires t == (if negative then "-" else "") + digits
    ensures ParseStripped(t) == Some(if negative then -(DigitRunValue(digits) as int) else DigitRunValue(digits))
  {
    if negative {
      assert t[0] == '-' && t[1..] == digits;
    } else {
      assert t == digits;
    }
  }

  /** `str(i)` has no surrounding whitespace. */
  lemma StripIntToString(i: int)
    ensures Strip(IntToString(i)) == IntToString(i)
  {
    var s := IntToString(i);
    assert !IsSpace(s[0]) && !IsSpace(s[|s| - 1]);
    TrimsKeepEnds(s, IsSpace);
  }

  /** Without underscores, the value of a digit run is the value of its digits. */
  lemma DigitRunValueOfDigits(digits: string)
    requires IsDigitRun(digits) && '_' !in digits
    ensures AllDigits(digits) && DigitRunValue(digits) == DigitsValue(digits)
  {
    assert RemoveUnderscores(digits) == digits;
  }

  /** On text without surrounding whitespace, `int()` parses the text itself. */
  lemma ParseIntOfStripped(s: string)
    requires Strip(s) == s
    ensures ParseInt(s) == ParseStripped(s)
  {
  }

  /** `int()` of a rendered integer: an optional minus sign, then the digits of its magnitude. */
  lemma ParseRendered(i: int, s: string, digits: string, n: nat)
    requires n == (if i < 0 then -i else i)
    requires s == (if i < 0 then "-" + digits else digits)
    requires IsDigitRun(digits) && '_' !in digits && digits[0] != '-' && digits[0] != '+'
    requires AllDigits(digits) && DigitsValue(digits) == n
    ensures ParseStripped(s) == Some(i)
  {
    DigitRunValueOfDigits(digits);
    if i < 0 {
      ParseIntOfDigits(s, digits, true);
      assert -(n as int) == i;
    } else {
      assert s == digits;
      ParseIntOfDigits(s, digits, false);
    }
  }

  /** `int(str(i)) == i` */
  lemma ParseIntToString(i: int)
    ensures ParseInt(IntToString(i)) == Some(i)
  {
    var n: nat := if i < 0 then -i else i;
    NatToStringIsDigitRun(n);
    DigitsValueOfNatToString(n);
    StripIntToString(i);
    var s, digits := IntToString(i), NatToString(n);
    ParseIntOfStripped(s);
    if i < 0 {
      assert s == "-" + digits;
    } else {
      assert s == digits;
    }
    ParseRendered(i, s, digits, n);
  }

  /** `str(i)` is one-to-one. */
  lemma IntToStringInjective(i: int, j: int)
    requires IntToString(i) == IntToString(j)
    ensures i == j
  {
    ParseIntToString(i);
    ParseIntToString(j);
  }

  predicate StartsWith(s: string, prefix: string) {
    |prefix| <= |s| && s[..|prefix|] == prefix
  }

  predicate OccursAt(s: string, sub: string, i: int) {
    0 <= i <= |s| - |sub| && s[i..i + |sub|] == sub
  }

  /** `sub in s` */
  predicate Contains(s: string, sub: string)
    decreases |s|
  {
    StartsWith(s, sub) || (s != [] && Contains(s[1..], sub))
  }

  /** `sub in s` holds exactly when `sub` occurs at some position of `s`. */
  lemma {:induction false} ContainsIffOccurs(s: string, sub: string)
    ensures Contains(s, sub) <==> exists i :: OccursAt(s, sub, i)
    decreases |s|
  {
    if s != [] {
      ContainsIffOccurs(s[1..], sub);
      if StartsWith(s, sub) {
        assert OccursAt(s, sub, 0);
      }
      if Contains(s[1..], sub) {
        var j :| OccursAt(s[1..], sub, j);
        assert s[1..][j..j + |sub|] == s[j + 1..j + 1 + |sub|];
        assert OccursAt(s, sub, j + 1);
      }
      if i :| OccursAt(s, sub, i) {
        if i > 0 {
          assert s[1..][i - 1..i - 1 + |sub|] == s[i..i + |sub|];
          assert OccursAt(s[1..], sub, i - 1);
        }
      }
    } else {
      if Contains(s, sub) {
        assert OccursAt(s, sub, 0);
      }
      if i :| OccursAt(s, sub, i) {
        assert i == 0 && sub == [];
        assert StartsWith(s, sub);
      }
    }
  }

  lemma ContainsItself(s: string)
    ensures Contains(s, s)
  {
  }
}

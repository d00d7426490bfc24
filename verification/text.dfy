/** Decimal text, and reading it back the way std::istream and std::stol do. */
module Text {
  import opened Wire

  predicate IsSpace(c: char) {
    c == ' ' || c == '\t' || c == '\n' || c == '\r' || c as int == 11 || c as int == 12
  }

  predicate NoSpace(s: string) {
    forall i :: 0 <= i < |s| ==> !IsSpace(s[i])
  }

  predicate IsDigit(c: char) { '0' <= c <= '9' }

  predicate AllDigits(s: string) {
    forall i :: 0 <= i < |s| ==> IsDigit(s[i])
  }

  function Digit(d: nat): (c: char)
    requires d < 10
    ensures IsDigit(c) && DigitValue(c) == d
  {
    ('0' as int + d) as char
  }

  function DigitValue(c: char): nat
    requires IsDigit(c)
  {
    c as int - '0' as int
  }

  function Digits(n: nat): (s: string)
    ensures |s| > 0 && AllDigits(s)
  {
    if n < 10 then [Digit(n)] else Digits(n / 10) + [Digit(n % 10)]
  }

  function Value(s: string): nat
    requires AllDigits(s)
  {
    if s == "" then 0 else Value(s[..|s| - 1]) * 10 + DigitValue(s[|s| - 1])
  }

  lemma {:induction false} DigitsValue(n: nat)
    ensures Value(Digits(n)) == n
  {
    if n >= 10 {
      DigitsValue(n / 10);
      assert Digits(n)[..|Digits(n)| - 1] == Digits(n / 10);
    } else {
      assert Digits(n)[..0] == "";
    }
  }

  /** {:d} of fmt, std::to_string. */
  function IntText(n: int): (s: string)
    ensures |s| > 0
  {
    if n < 0 then "-" + Digits(-n) else Digits(n)
  }

  lemma IntTextNoSpace(n: int)
    ensures NoSpace(IntText(n))
  {
  }

  /** s without its leading whitespace. */
  function SkipSpaces(s: string): (r: string)
    ensures r == "" || !IsSpace(r[0])
    ensures |r| <= |s|
  {
    if s != "" && IsSpace(s[0]) then SkipSpaces(s[1..]) else s
  }

  /** The length of the longest prefix of digits. */
  function DigitRun(s: string): (k: nat)
    ensures k <= |s| && AllDigits(s[..k])
    ensures k < |s| ==> !IsDigit(s[k])
  {
    if s != "" && IsDigit(s[0]) then
      var k := DigitRun(s[1..]);
      assert s[..1 + k] == [s[0]] + s[1..][..k];
      1 + k
    else 0
  }

  lemma {:induction false} DigitRunOf(d: string, rest: string)
    requires AllDigits(d) && (rest == "" || !IsDigit(rest[0]))
    ensures DigitRun(d + rest) == |d|
    decreases |d|
  {
    if d == "" {
      assert d + rest == rest;
    } else {
      assert (d + rest)[1..] == d[1..] + rest;
      DigitRunOf(d[1..], rest);
    }
  }

  /** A signed width: the bounds outside of which an integer does not fit. */
  datatype Width = Width(bits: nat, low: int, high: int)

  const INT32 := Width(32, -0x8000_0000, 0x7FFF_FFFF)
  const INT64 := Width(64, -0x8000_0000_0000_0000, 0x7FFF_FFFF_FFFF_FFFF)

  predicate Fits(n: int, w: Width) { w.low <= n <= w.high }

  /** A 64-bit integer assigned to an int: the lower 32 bits. */
  function Narrow(n: int): (r: int)
    ensures Fits(r, INT32) && (r - n) % 0x1_0000_0000 == 0
    ensures Fits(n, INT32) ==> r == n
  {
    (n - INT32.low) % 0x1_0000_0000 + INT32.low
  }

  /** stream >> n for an int of width w: the value, and what is left of the input.
      None: the stream fails (no digits, or out of range). std::stol stops at the
      same place and throws in the same cases. */
  function ReadInt(s: string, w: Width): (Option<int>, string) {
    var t := SkipSpaces(s);
    if t != "" && t[0] == '-' then ReadDigits(t[1..], true, w)
    else if t != "" && t[0] == '+' then ReadDigits(t[1..], false, w)
    else ReadDigits(t, false, w)
  }

  function ReadDigits(s: string, negative: bool, w: Width): (Option<int>, string) {
    var k := DigitRun(s);
    var magnitude: int := Value(s[..k]);
    var n := if negative then -magnitude else magnitude;
    if k > 0 && Fits(n, w) then (Some(n), s[k..]) else (None, s[k..])
  }

  lemma ReadDigitsOf(magnitude: nat, negative: bool, rest: string, w: Width)
    requires rest == "" || !IsDigit(rest[0])
    ensures var n := if negative then -(magnitude as int) else magnitude;
            ReadDigits(Digits(magnitude) + rest, negative, w) == (if Fits(n, w) then Some(n) else None, rest)
  {
    var d := Digits(magnitude);
    DigitRunOf(d, rest);
    DigitsValue(magnitude);
    assert (d + rest)[..|d|] == d && (d + rest)[|d|..] == rest;
  }

  lemma ReadNegative(d: string, rest: string, w: Width)
    ensures ReadInt("-" + d + rest, w) == ReadDigits(d + rest, true, w)
  {
    var s := "-" + d + rest;
    assert SkipSpaces(s) == s && s[1..] == d + rest;
  }

  lemma ReadPositive(s: string, w: Width)
    requires s != "" && IsDigit(s[0])
    ensures ReadInt(s, w) == ReadDigits(s, false, w)
  {
  }

  lemma ReadNegativeText(n: int, rest: string, w: Width)
    requires n < 0 && (rest == "" || !IsDigit(rest[0]))
    ensures ReadInt(IntText(n) + rest, w) == (if Fits(n, w) then Some(n) else None, rest)
  {
    var d := Digits(-n);
    ReadNegative(d, rest, w);
    ReadDigitsOf(-n, true, rest, w);
    assert IntText(n) == "-" + d;
  }

  lemma ReadPositiveText(n: nat, rest: string, w: Width)
    requires rest == "" || !IsDigit(rest[0])
    ensures ReadInt(IntText(n) + rest, w) == (if Fits(n, w) then Some(n) else None, rest)
  {
    ReadPositive(Digits(n) + rest, w);
    ReadDigitsOf(n, false, rest, w);
  }

  /** Printed integers are read back, up to the first character that is no digit,
      exactly when they fit. */
  lemma ReadIntText(n: int, rest: string, w: Width)
    requires rest == "" || !IsDigit(rest[0])
    ensures ReadInt(IntText(n) + rest, w) == (if Fits(n, w) then Some(n) else None, rest)
  {
    if n < 0 {
      ReadNegativeText(n, rest, w);
    } else {
      ReadPositiveText(n, rest, w);
    }
  }

  /** std::stol of std::to_string */
  lemma ReadWholeInt(n: int, w: Width)
    ensures ReadInt(IntText(n), w).0 == if Fits(n, w) then Some(n) else None
  {
    ReadIntText(n, "", w);
    assert IntText(n) + "" == IntText(n);
  }

  lemma ReadNothing(w: Width)
    ensures ReadInt("", w).0 == None
  {
    assert SkipSpaces("") == "";
  }

  /** stream >> ch */
  function ReadChar(s: string): (Option<char>, string) {
    var t := SkipSpaces(s);
    if t == "" then (None, t) else (Some(t[0]), t[1..])
  }

  /** The length of the longest prefix without whitespace. */
  function WordRun(s: string): (k: nat)
    ensures k <= |s| && NoSpace(s[..k])
    ensures k < |s| ==> IsSpace(s[k])
  {
    if s != "" && !IsSpace(s[0]) then
      var k := WordRun(s[1..]);
      assert s[..1 + k] == [s[0]] + s[1..][..k];
      1 + k
    else 0
  }

  /** stream >> word: empty if nothing but whitespace is left. */
  function ReadWord(s: string): (r: (string, string))
    ensures NoSpace(r.0)
    ensures r.0 == "" ==> r.1 == ""
  {
    var t := SkipSpaces(s);
    var k := WordRun(t);
    (t[..k], t[k..])
  }

  lemma {:induction false} WordRunOf(word: string, rest: string)
    requires NoSpace(word) && (rest == "" || IsSpace(rest[0]))
    ensures WordRun(word + rest) == |word|
    decreases |word|
  {
    if word == "" {
      assert word + rest == rest;
    } else {
      assert (word + rest)[1..] == word[1..] + rest;
      WordRunOf(word[1..], rest);
    }
  }

  lemma ReadWordOf(word: string, rest: string)
    requires NoSpace(word) && word != "" && (rest == "" || IsSpace(rest[0]))
    ensures ReadWord(word + rest) == (word, rest)
  {
    var s := word + rest;
    WordRunOf(word, rest);
    assert s[..|word|] == word && s[|word|..] == rest;
  }
}

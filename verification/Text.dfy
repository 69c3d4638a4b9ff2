/** Strings as the prompts measure them, and the small string functions the notes use. */
module Text {

  /** `text` somewhere inside `whole`. */
  predicate Contains(whole: string, text: string) {
    exists at: nat :: at <= |whole| && IsAt(whole, text, at)
  }

  predicate IsAt(whole: string, text: string, at: nat) {
    at + |text| <= |whole| && whole[at..at + |text|] == text
  }

  lemma ContainsWithin(before: string, whole: string, after: string, text: string)
    requires Contains(whole, text)
    ensures Contains(before + whole + after, text)
  {
    var at: nat :| at <= |whole| && IsAt(whole, text, at);
    assert text == whole[at..at + |text|];
    assert (before + whole + after)[|before| + at..|before| + at + |text|] == whole[at..at + |text|];
    assert IsAt(before + whole + after, text, |before| + at);
  }

  lemma ContainsSelf(text: string)
    ensures Contains(text, text)
  {
    assert IsAt(text, text, 0);
  }

  // ---------------------------------------------------------------------------------------------------------------
  // Sizes
  // ---------------------------------------------------------------------------------------------------------------

  /** The characters `json.dumps` writes for one of a string's, or the one there is when the text is sent as it is. */
  function CharSize(c: char, json: bool): (size: nat)
    ensures size >= 1
  {
    if !json then 1
    else if c == '"' || c == '\\' || c == '\n' || c == '\r' || c == '\t' || c == '\U{8}' || c == '\U{c}' then 2
    else if ' ' <= c <= '~' then 1
    else if c as int >= 0x1_0000 then 12
    else 6
  }

  function Hex(n: nat): char {
    var digit := n % 16;
    if digit < 10 then ('0' as int + digit) as char else ('a' as int + digit - 10) as char
  }

  /** One UTF-16 unit as `json.dumps` writes it. */
  function Unit(n: nat): (written: string)
    ensures |written| == 6
  {
    ['\\', 'u', Hex(n / 0x1000), Hex(n / 0x100), Hex(n / 0x10), Hex(n)]
  }

  /**
   One character as `json.dumps` writes it: what has a short escape, what is printable ASCII, and the rest in units.
   */
  function Escaped(c: char): string {
    if c == '"' then ['\\', '"']
    else if c == '\\' then ['\\', '\\']
    else if c == '\n' then ['\\', 'n']
    else if c == '\r' then ['\\', 'r']
    else if c == '\t' then ['\\', 't']
    else if c == '\U{8}' then ['\\', 'b']
    else if c == '\U{c}' then ['\\', 'f']
    else if 0x20 <= c as int < 0x7f then [c]
    else if c as int < 0x1_0000 then Unit(c as int)
    else Unit(0xd800 + (c as int - 0x1_0000) / 0x400) + Unit(0xdc00 + (c as int - 0x1_0000) % 0x400)
  }

  function Dumped(text: string): string {
    if text == [] then "" else Escaped(text[0]) + Dumped(text[1..])
  }

  function Size(text: string, json: bool): (size: nat)
    ensures size >= |text|
  {
    if text == [] then 0 else CharSize(text[0], json) + Size(text[1..], json)
  }

  const HEX_DIGITS := "0123456789abcdef"

  /** A unit is written as its four hexadecimal digits. */
  lemma UnitIsHex(n: nat)
    requires n < 0x1_0000
    ensures Unit(n) == "\\u" + [HEX_DIGITS[n / 0x1000 % 16], HEX_DIGITS[n / 0x100 % 16], HEX_DIGITS[n / 0x10 % 16],
                                HEX_DIGITS[n % 16]]
  {
    forall k: nat ensures Hex(k) == HEX_DIGITS[k % 16] {
    }
  }

  /** The high and the low surrogate of a character. */
  predicate Surrogates(c: char, high: nat, low: nat) {
    0xd800 <= high < 0xdc00 <= low < 0xe000 && c as int == 0x1_0000 + (high - 0xd800) * 0x400 + (low - 0xdc00)
  }

  /** What is beyond sixteen bits is written as its two surrogates. */
  lemma PairIsWritten(c: char, high: nat, low: nat)
    requires Surrogates(c, high, low)
    ensures Escaped(c) == Unit(high) + Unit(low)
  {
    var over := c as int - 0x1_0000;
    assert over / 0x400 == high - 0xd800 && over % 0x400 == low - 0xdc00;
  }

  lemma {:induction false} SizeAppend(a: string, b: string, json: bool)
    ensures Size(a + b, json) == Size(a, json) + Size(b, json)
  {
    if a == [] {
      assert a + b == b;
    } else {
      assert (a + b)[1..] == a[1..] + b;
      SizeAppend(a[1..], b, json);
    }
  }

  /** The size is the length of what is sent: the text itself, or what `json.dumps` writes between its quotes. */
  lemma {:induction false} SizeIsLength(text: string, json: bool)
    ensures Size(text, json) == if json then |Dumped(text)| else |text|
  {
    if text != [] {
      SizeIsLength(text[1..], json);
    }
  }

  /** A text of printable ASCII without quotes or backslashes is as large in JSON as it is plain. */
  lemma {:induction false} SizePlain(text: string, json: bool)
    requires forall i :: 0 <= i < |text| ==> CharSize(text[i], true) == 1
    ensures Size(text, json) == |text|
  {
    if text != [] {
      SizePlain(text[1..], json);
    }
  }

  // ---------------------------------------------------------------------------------------------------------------
  // Decimal numbers
  // ---------------------------------------------------------------------------------------------------------------

  function Decimal(n: nat): (digits: string)
    ensures |digits| >= 1
    ensures forall i :: 0 <= i < |digits| ==> '0' <= digits[i] <= '9'
  {
    if n < 10 then [('0' as int + n) as char] else Decimal(n / 10) + [('0' as int + n % 10) as char]
  }

  /** Counting up by one adds at most a digit and never takes one away. */
  lemma {:induction false} DecimalStep(n: nat)
    ensures |Decimal(n)| <= |Decimal(n + 1)| <= |Decimal(n)| + 1
  {
    if n >= 10 {
      if n % 10 == 9 {
        DecimalStep(n / 10);
        assert (n + 1) / 10 == n / 10 + 1;
      } else {
        assert (n + 1) / 10 == n / 10;
      }
    }
  }

  /** The number that digits are read as. */
  function Value(digits: string): int {
    if digits == "" then 0 else Value(digits[..|digits| - 1]) * 10 + (digits[|digits| - 1] as int - '0' as int)
  }

  /** A number's digits are read back as it, and start with a zero only for zero. */
  lemma {:induction false} DecimalIsRead(n: nat)
    ensures Value(Decimal(n)) == n && (Decimal(n)[0] == '0' ==> n == 0)
  {
    var last := [('0' as int + n % 10) as char];
    if n >= 10 {
      DecimalIsRead(n / 10);
      assert Decimal(n)[..|Decimal(n)| - 1] == Decimal(n / 10);
    } else {
      assert Decimal(n)[..0] == "";
    }
  }

  lemma DecimalOnce(a: nat, b: nat)
    requires Decimal(a) == Decimal(b)
    ensures a == b
  {
    DecimalIsRead(a);
    DecimalIsRead(b);
  }

  lemma DecimalSize(n: nat, json: bool)
    ensures Size(Decimal(n), json) == |Decimal(n)|
  {
    SizePlain(Decimal(n), json);
  }
}

/** The C library's text conversions as the config files use them: printf of a decimal number,
    sscanf of %i and %u, and strtoll. */
module CText {
  import opened TextLines

  type I64 = n: int | -0x8000_0000_0000_0000 <= n < 0x8000_0000_0000_0000

  /** std::string::c_str printed with %s ends at the first NUL. */
  function CStr(s: string): string { s[..IndexOf(s, '\0')] }

  lemma CStrOfPlain(s: string)
    requires '\0' !in s
    ensures CStr(s) == s
  {
  }

  // ---- numbers -------------------------------------------------------------------------

  /** The value of a digit, or 99. */
  function DigitValue(ch: char): nat {
    if '0' <= ch <= '9' then (ch - '0') as nat
    else if 'a' <= ch <= 'f' then (ch - 'a') as nat + 10
    else if 'A' <= ch <= 'F' then (ch - 'A') as nat + 10
    else 99
  }

  function Digit(d: nat): (ch: char)
    requires d < 10
    ensures DigitValue(ch) == d && '0' <= ch <= '9'
  {
    '0' + d as char
  }

  function Digits(n: nat): (s: string)
    ensures |s| > 0 && forall j :: 0 <= j < |s| ==> '0' <= s[j] <= '9'
    ensures n > 0 ==> s[0] != '0'
    ensures n == 0 ==> s == "0"
  {
    if n < 10 then [Digit(n)] else Digits(n / 10) + [Digit(n % 10)]
  }

  function PrintInt(n: int): string { if n < 0 then ['-'] + Digits(-n) else Digits(n) }

  datatype Scan = NoScan | Scanned(value: int, rest: string)

  /** Reads digits of the given base as far as they go. */
  function ReadDigits(s: string, base: nat, acc: nat): Scan
    decreases |s|
  {
    if s == [] || DigitValue(s[0]) >= base then Scanned(acc, s)
    else ReadDigits(s[1..], base, acc * base + DigitValue(s[0]))
  }

  lemma {:induction false} ReadPrinted(n: nat, rest: string)
    ensures ReadDigits(Digits(n) + rest, 10, 0) == ReadDigits(rest, 10, n)
  {
    if n >= 10 {
      ReadPrinted(n / 10, [Digit(n % 10)] + rest);
      assert Digits(n) + rest == Digits(n / 10) + ([Digit(n % 10)] + rest);
      assert ([Digit(n % 10)] + rest)[1..] == rest;
    } else {
      assert (Digits(n) + rest)[1..] == rest;
    }
  }

  predicate IsSpace(ch: char) {
    ch == ' ' || ch == '\t' || ch == '\n' || ch == '\r' || ch == '\U{000B}' || ch == '\U{000C}'
  }

  function SkipSpace(s: string): string {
    if s != [] && IsSpace(s[0]) then SkipSpace(s[1..]) else s
  }

  function Unsigned(s: string): string { if s != [] && (s[0] == '-' || s[0] == '+') then s[1..] else s }

  function Negated(s: string, scan: Scan): Scan {
    if scan.Scanned? && s != [] && s[0] == '-' then Scanned(-scan.value, scan.rest) else scan
  }

  /** 0x starts a hexadecimal number, 0 an octal one. */
  function PrefixedNumber(q: string): Scan {
    if q == [] || DigitValue(q[0]) >= 10 then NoScan
    else if q[0] == '0' && |q| >= 2 && (q[1] == 'x' || q[1] == 'X') then
      if |q| >= 3 && DigitValue(q[2]) < 16 then ReadDigits(q[2..], 16, 0) else NoScan
    else ReadDigits(q, if q[0] == '0' then 8 else 10, 0)
  }

  function DecimalNumber(q: string): Scan {
    if q == [] || DigitValue(q[0]) >= 10 then NoScan else ReadDigits(q, 10, 0)
  }

  /** sscanf of %i. */
  function ScanI(s: string): Scan { Negated(SkipSpace(s), PrefixedNumber(Unsigned(SkipSpace(s)))) }

  /** sscanf of %u. */
  function ScanU(s: string): Scan { Negated(SkipSpace(s), DecimalNumber(Unsigned(SkipSpace(s)))) }

  lemma ScanDigits(m: nat, rest: string)
    requires rest == [] || rest[0] == ' '
    ensures ReadDigits(Digits(m) + rest, 10, 0) == Scanned(m, rest)
    ensures m == 0 ==> ReadDigits(Digits(m) + rest, 8, 0) == Scanned(m, rest)
  {
    ReadPrinted(m, rest);
    if m == 0 { assert (Digits(0) + rest)[1..] == rest; }
  }

  lemma ScanUnsigned(m: nat, rest: string)
    requires rest == [] || rest[0] == ' '
    ensures var q := Digits(m) + rest;
      && SkipSpace(q) == q && Unsigned(q) == q && q[0] != '-'
      && PrefixedNumber(q) == Scanned(m, rest) == DecimalNumber(q)
  {
    var q := Digits(m) + rest;
    ScanDigits(m, rest);
    assert q[0] == Digits(m)[0];
    hide ReadDigits;
    if m == 0 && rest != [] { assert q[1] == rest[0]; }
  }

  lemma Minus(q: string)
    ensures SkipSpace(['-'] + q) == ['-'] + q && Unsigned(['-'] + q) == q
  {
  }

  /** A printed number is read back, whatever follows it that cannot continue it. */
  lemma ScanPrinted(n: int, rest: string)
    requires rest == [] || rest[0] == ' '
    ensures ScanI(PrintInt(n) + rest) == Scanned(n, rest)
    ensures ScanU(PrintInt(n) + rest) == Scanned(n, rest)
  {
    var m: nat := if n < 0 then -n else n;
    var q := Digits(m) + rest;
    ScanUnsigned(m, rest);
    Minus(q);
    assert PrintInt(n) + rest == if n < 0 then ['-'] + q else q;
    hide Digits, SkipSpace, Unsigned, PrintInt, PrefixedNumber, DecimalNumber;
  }

  // ---- other bases ----------------------------------------------------------------------------------

  predicate AllBelow(digits: string, base: nat) { forall i :: 0 <= i < |digits| ==> DigitValue(digits[i]) < base }

  function Positional(digits: string, base: nat): nat {
    if digits == [] then 0
    else Positional(digits[..|digits| - 1], base) * base + DigitValue(digits[|digits| - 1])
  }

  lemma {:induction false} ReadsThrough(a: string, b: string, base: nat, acc: nat)
    requires AllBelow(a, base)
    ensures ReadDigits(a, base, acc).Scanned? && ReadDigits(a, base, acc).value >= 0
    ensures ReadDigits(a + b, base, acc) == ReadDigits(b, base, ReadDigits(a, base, acc).value)
    decreases |a|
  {
    if a == [] {
      assert a + b == b;
    } else {
      assert (a + b)[1..] == a[1..] + b;
      ReadsThrough(a[1..], b, base, acc * base + DigitValue(a[0]));
    }
  }

  lemma {:induction false} ReadsPositional(digits: string, base: nat)
    requires AllBelow(digits, base)
    ensures ReadDigits(digits, base, 0) == Scanned(Positional(digits, base), [])
    decreases |digits|
  {
    if digits != [] {
      var init, last := digits[..|digits| - 1], digits[|digits| - 1];
      assert digits == init + [last];
      hide ReadDigits, DigitValue;
      ReadsPositional(init, base);
      ReadsThrough(init, [last], base, 0);
      ReadsOne(last, base, Positional(init, base));
    }
  }

  lemma ReadsOne(ch: char, base: nat, acc: nat)
    requires DigitValue(ch) < base
    ensures ReadDigits([ch], base, acc) == Scanned(acc * base + DigitValue(ch), [])
  {
    hide DigitValue;
    assert [ch][1..] == [];
  }

  /** %i reads a number behind 0x in base 16, also in capitals, and one behind 0 in base 8. */
  lemma PrefixesAreRead(digits: string)
    ensures digits != [] && AllBelow(digits, 16) ==>
              ScanI("0x" + digits) == ScanI("0X" + digits) == Scanned(Positional(digits, 16), [])
    ensures AllBelow(digits, 8) ==> ScanI("0" + digits) == Scanned(Positional(digits, 8), [])
  {
    hide ReadDigits, Positional;
    if digits != [] && AllBelow(digits, 16) {
      ReadsPositional(digits, 16);
      assert ("0x" + digits)[2..] == digits && ("0X" + digits)[2..] == digits;
    }
    if AllBelow(digits, 8) {
      ReadsPositional(digits, 8);
      OctalIsRead(digits);
    }
  }

  lemma OctalIsRead(digits: string)
    requires AllBelow(digits, 8)
    ensures PrefixedNumber("0" + digits) == ReadDigits(digits, 8, 0)
    ensures ScanI("0" + digits) == PrefixedNumber("0" + digits)
  {
    assert ("0" + digits)[1..] == digits;
    assert digits != [] ==> ("0" + digits)[1] == digits[0] && DigitValue(digits[0]) < 8;
    hide AllBelow;
    assert ReadDigits("0" + digits, 8, 0) == ReadDigits(digits, 8, 0);
    hide ReadDigits;
  }

  /** The digits of base 16 and what they count, and no other character. */
  lemma DigitsOfSixteen(ch: char)
    ensures DigitValue('0') == 0 && DigitValue('9') == 9 && DigitValue('a') == DigitValue('A') == 10
    ensures DigitValue('f') == DigitValue('F') == 15
    ensures DigitValue(ch) < 16 <==> '0' <= ch <= '9' || 'a' <= ch <= 'f' || 'A' <= ch <= 'F'
  {
  }
}

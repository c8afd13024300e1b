/** Decimal, octal and hexadecimal numbers in text, as the C library reads them. */
module Numbers {

  const INT_MAX := 0x7fff_ffff
  const LONG_MAX := 0x7fff_ffff_ffff_ffff

  predicate IsSpace(c: char) { c == ' ' || '\t' <= c <= '\r' }

  /** The value of a digit; 36 for what is none in any base. */
  function Digit(c: char): nat {
    if '0' <= c <= '9' then (c - '0') as nat
    else if 'a' <= c <= 'z' then (c - 'a') as nat + 10
    else if 'A' <= c <= 'Z' then (c - 'A') as nat + 10
    else 36
  }

  /** Reads digits; the number they continue and how many there were. */
  function Digits(s: string, base: nat, n: nat): (r: (nat, nat))
    ensures r.1 <= |s|
    decreases |s|
  {
    if s == "" || Digit(s[0]) >= base then (n, 0)
    else var r := Digits(s[1..], base, n * base + Digit(s[0])); (r.0, r.1 + 1)
  }

  /** Reads an unsigned number in base 16, 8 or 10, as its beginning tells. */
  function Unsigned(s: string): (r: (nat, nat))
    ensures r.1 <= |s|
  {
    if |s| > 2 && s[0] == '0' && (s[1] == 'x' || s[1] == 'X') && Digit(s[2]) < 16 then
      var r := Digits(s[2..], 16, 0); (r.0, r.1 + 2)
    else Digits(s, if s != "" && s[0] == '0' then 8 else 10, 0)
  }

  function Blanks(s: string): (n: nat)
    ensures n <= |s|
  {
    if s != "" && IsSpace(s[0]) then 1 + Blanks(s[1..]) else 0
  }

  /** A number kept in the range of a long. */
  function ToLong(n: int): int {
    if n > LONG_MAX then LONG_MAX else if n < -LONG_MAX - 1 then -LONG_MAX - 1 else n
  }

  /** A long cut to an int. */
  function ToInt(n: int): int {
    (n + INT_MAX + 1) % (2 * (INT_MAX + 1)) - (INT_MAX + 1)
  }

  /** What `strtol` reads, in base 10 or in the base the text tells, and what follows it. */
  function Long(s: string, tens: bool): (r: (int, string))
    ensures |r.1| <= |s|
  {
    var t := s[Blanks(s)..];
    var signed := t != "" && (t[0] == '-' || t[0] == '+');
    var u := if signed then t[1..] else t;
    var r := if tens then Digits(u, 10, 0) else Unsigned(u);
    if r.1 == 0 then (0, s)
    else (ToLong(if signed && t[0] == '-' then -(r.0 as int) else r.0), u[r.1..])
  }

  /** `strtol` with base 0, its result stored in an int. */
  function Number(s: string): (r: (int, string))
    ensures |r.1| <= |s|
  {
    var r := Long(s, false);
    (ToInt(r.0), r.1)
  }

  function Decimal(n: nat): (s: string)
    ensures s != ""
  {
    if n < 10 then [('0' as int + n) as char] else Decimal(n / 10) + [('0' as int + n % 10) as char]
  }

  function IntText(n: int): string { if n < 0 then "-" + Decimal(-n) else Decimal(n) }

  lemma {:induction false} DigitsConcat(a: string, b: string, m: nat)
    requires Digits(a, 10, m).1 == |a|
    ensures var r := Digits(b, 10, Digits(a, 10, m).0);
      Digits(a + b, 10, m) == (r.0, |a| + r.1)
    decreases |a|
  {
    if a == "" {
      assert a + b == b;
    } else {
      assert (a + b)[1..] == a[1..] + b;
      DigitsConcat(a[1..], b, m * 10 + Digit(a[0]));
    }
  }

  lemma DigitOf(d: nat)
    requires d < 10
    ensures Digit(('0' as int + d) as char) == d && !IsSpace(('0' as int + d) as char)
  {
  }

  lemma {:induction false} DecimalDigits(n: nat)
    ensures Digits(Decimal(n), 10, 0) == (n, |Decimal(n)|)
    ensures n > 0 ==> '1' <= Decimal(n)[0] <= '9'
    decreases n
  {
    DigitOf(n % 10);
    if n >= 10 {
      DecimalDigits(n / 10);
      DigitsConcat(Decimal(n / 10), [('0' as int + n % 10) as char], 0);
    }
  }

  /** What is not a digit ends a written number. */
  predicate Ends(tail: string) { tail == "" || Digit(tail[0]) >= 10 }

  lemma UnsignedOfDecimal(n: nat, tail: string)
    requires n > 0 && Ends(tail)
    ensures Unsigned(Decimal(n) + tail) == (n, |Decimal(n)|)
    ensures '1' <= (Decimal(n) + tail)[0] <= '9'
  {
    hide Decimal;
    DecimalDigits(n);
    DigitsConcat(Decimal(n), tail, 0);
    assert (Decimal(n) + tail)[0] == Decimal(n)[0];
  }

  /** A written number is read again. */
  lemma NumberOfDecimal(n: nat, tail: string)
    requires 0 < n <= INT_MAX && Ends(tail)
    ensures Number(Decimal(n) + tail) == (n, tail)
  {
    hide Decimal, Unsigned;
    var s := Decimal(n) + tail;
    UnsignedOfDecimal(n, tail);
    assert Blanks(s) == 0 && s[0..] == s;
    assert s[|Decimal(n)|..] == tail;
  }

  /** A text that begins with a digit. */
  lemma PlainLong(s: string, tens: bool)
    requires s != "" && '0' <= s[0] <= '9'
    ensures var r := if tens then Digits(s, 10, 0) else Unsigned(s);
      Long(s, tens) == if r.1 == 0 then (0, s) else (ToLong(r.0), s[r.1..])
  {
    hide Unsigned, Digits;
    assert Blanks(s) == 0 && s[0..] == s;
  }

  /** So is any long, in the base its text tells. */
  lemma LongOfDecimal(n: nat)
    requires n <= LONG_MAX
    ensures Long(Decimal(n), false) == (n, "")
  {
    var s := Decimal(n);
    FirstDigit(n);
    PlainLong(s, false);
    if n == 0 {
      UnsignedZero();
    } else {
      UnsignedOfDecimal(n, "");
      assert s + "" == s;
    }
    hide Decimal, Unsigned, Long;
    assert s[|s|..] == "";
  }

  lemma UnsignedZero()
    ensures Decimal(0) == "0" && Unsigned("0") == (0, 1)
  {
    assert "0"[1..] == "" && Digits("", 8, 0) == (0, 0);
  }

  lemma {:induction false} FirstDigit(n: nat)
    ensures '0' <= Decimal(n)[0] <= '9'
  {
    if n >= 10 { FirstDigit(n / 10); }
  }

  /** So is a written negative one. */
  lemma NumberOfIntText(n: int)
    requires n != 0 && -INT_MAX <= n <= INT_MAX
    ensures Number(IntText(n)) == (n, "")
  {
    hide Decimal, Unsigned;
    var d := Decimal(if n < 0 then -n else n);
    assert d + "" == d;
    if n > 0 {
      NumberOfDecimal(n, "");
    } else {
      UnsignedOfDecimal(-n, "");
      var s := "-" + d;
      assert Blanks(s) == 0 && s[0..] == s && s[1..] == d;
      assert d[|d|..] == "";
    }
  }

  /** Any written int is read in base 10 as well. */
  lemma TensOfIntText(n: int)
    requires -INT_MAX <= n <= INT_MAX
    ensures Long(IntText(n), true) == (n, "")
  {
    hide Decimal, Unsigned;
    var m := if n < 0 then -n else n;
    var d := Decimal(m);
    DecimalDigits(m);
    FirstDigit(m);
    if n >= 0 {
      assert Blanks(d) == 0 && d[0..] == d && d[|d|..] == "";
    } else {
      var s := "-" + d;
      assert Blanks(s) == 0 && s[0..] == s && s[1..] == d && d[|d|..] == "";
    }
  }

  /** The beginning of a text tells its base. */
  lemma HexBase()
    ensures Number("0x1F") == (31, "")
  {
    PlainLong("0x1F", false);
    assert Unsigned("0x1F") == (31, 4) by { HexDigits(); }
    hide Unsigned, Long;
    assert "0x1F"[4..] == "";
  }

  lemma HexDigits()
    ensures Unsigned("0x1F") == (31, 4)
  {
    assert "0x1F"[2..] == "1F" && "1F"[1..] == "F" && "F"[1..] == "";
    assert Digits("F", 16, 1) == (31, 1) && Digits("1F", 16, 0) == (31, 2);
  }

  lemma OctalBase()
    ensures Number("017") == (15, "")
  {
    PlainLong("017", false);
    assert Unsigned("017") == (15, 3) by { OctalDigits(); }
    hide Unsigned, Long;
    assert "017"[3..] == "";
  }

  lemma OctalDigits()
    ensures Unsigned("017") == (15, 3)
  {
    assert "017"[1..] == "17" && "17"[1..] == "7" && "7"[1..] == "";
    assert Digits("7", 8, 1) == (15, 1) && Digits("17", 8, 0) == (15, 2) && Digits("017", 8, 0) == (15, 3);
  }

  lemma NumberOfZero()
    ensures Number(IntText(0)) == (0, "")
  {
    LongOfDecimal(0);
    hide Long;
  }
}

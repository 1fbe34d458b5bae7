/**
 Numbers as they are written, and that the parser's conversions read exactly these.
 */
module HttpNumbers {
  import opened Options
  import opened HttpMessage

  /** `b` is the digit `d`, in either case. */
  predicate IsDigitOf(b: Byte, d: nat) {
    d < 16 && (b == Ascii("0123456789abcdef")[d] || b == Ascii("0123456789ABCDEF")[d])
  }

  /** `text` writes `n` in the base, digits of either case, leading zeros allowed: the last digit is the remainder, what
      stands before it writes the quotient. */
  predicate Spells(text: seq<Byte>, n: nat, base: nat)
    requires 2 <= base <= 16
    decreases |text|
  {
    && text != [] && IsDigitOf(text[|text| - 1], n % base)
    && if |text| == 1 then n < base else Spells(text[..|text| - 1], n / base, base)
  }

  // ---------- base 16 ----------

  lemma HexDigitIs(b: Byte, d: nat)
    ensures HexDigit(b) == Some(d) <==> IsDigitOf(b, d)
  {
    var lower, upper := Ascii("0123456789abcdef"), Ascii("0123456789ABCDEF");
    assert d < 10 ==> lower[d] == upper[d] == '0' as int + d;
    assert 10 <= d < 16 ==> lower[d] == 'a' as int + d - 10 && upper[d] == 'A' as int + d - 10;
  }

  predicate IsHexDigit(b: Byte) {
    exists d: nat :: d < 16 && IsDigitOf(b, d)
  }

  lemma HexDigitExactly(b: Byte)
    ensures HexDigit(b).Some? <==> IsHexDigit(b)
  {
    if HexDigit(b).Some? { HexDigitIs(b, HexDigit(b).value); }
    if d: nat :| d < 16 && IsDigitOf(b, d) { HexDigitIs(b, d); }
  }

  lemma {:induction false} HexMore(text: seq<Byte>, b: Byte, acc: nat)
    ensures HexFrom(text + [b], acc)
         == if HexFrom(text, acc).Some? && HexDigit(b).Some? then Some(16 * HexFrom(text, acc).value + HexDigit(b).value)
            else None
    decreases |text|
  {
    var all := text + [b];
    if text == [] {
      assert all == [b] && all[1..] == [];
    } else {
      assert all[1..] == text[1..] + [b];
      if HexDigit(text[0]).Some? { HexMore(text[1..], b, acc * 16 + HexDigit(text[0]).value); }
    }
  }

  lemma Remainder16(q: nat, d: nat, n: nat)
    requires d < 16
    ensures 16 * q + d == n <==> q == n / 16 && d == n % 16
  {
  }

  /** One more digit, last. */
  lemma LastHexDigit(t: seq<Byte>, b: Byte, n: nat)
    ensures HexFrom(t + [b], 0) == Some(n) <==> HexFrom(t, 0) == Some(n / 16) && IsDigitOf(b, n % 16)
  {
    HexMore(t, b, 0);
    HexDigitIs(b, n % 16);
    if HexDigit(b).Some? && HexFrom(t, 0).Some? {
      HexDigitIs(b, HexDigit(b).value);
      Remainder16(HexFrom(t, 0).value, HexDigit(b).value, n);
    }
  }

  /** `htoi` reads as `n` exactly the spellings of `n` in base 16. */
  lemma {:induction false} HexExactly(text: seq<Byte>, n: nat)
    requires text != []
    ensures HexFrom(text, 0) == Some(n) <==> Spells(text, n, 16)
    decreases |text|
  {
    var t, b := text[..|text| - 1], text[|text| - 1];
    assert text == t + [b];
    LastHexDigit(t, b, n);
    if t == [] {
      assert HexFrom([], 0) == Some(0);
    } else {
      HexExactly(t, n / 16);
    }
  }

  // ---------- base 10 ----------

  lemma DigitIs(b: Byte, d: nat)
    requires d < 10
    ensures IsDigit(b) && b - '0' as int == d <==> IsDigitOf(b, d)
  {
    HexDigitIs(b, d);
  }

  lemma DigitsMore(text: seq<Byte>, b: Byte)
    ensures AllDigits(text + [b]) <==> AllDigits(text) && IsDigit(b)
  {
    assert (text + [b])[|text|] == b;
    if AllDigits(text + [b]) {
      forall i | 0 <= i < |text| ensures IsDigit(text[i]) { assert (text + [b])[i] == text[i]; }
    }
  }

  /** Digits are read as `n` exactly if they spell `n` in base 10. */
  lemma {:induction false} DecimalExactly(text: seq<Byte>, n: nat)
    requires text != []
    ensures AllDigits(text) && Decimal(text) == n <==> Spells(text, n, 10)
    decreases |text|
  {
    var t, b := text[..|text| - 1], text[|text| - 1];
    assert text == t + [b];
    DigitsMore(t, b);
    DigitIs(b, n % 10);
    if IsDigit(b) { DigitIs(b, b - '0' as int); }
    if t != [] { DecimalExactly(t, n / 10); }
  }

  /** The number in a word: an optional minus and a decimal spelling; nothing at all is 0. */
  predicate NumberIn(word: seq<Byte>, n: int) {
    var minus := word != [] && word[0] == '-' as int;
    var digits := if minus then word[1..] else word;
    if digits == [] then n == 0
    else if minus then n <= 0 && Spells(digits, -n, 10) else n >= 0 && Spells(digits, n, 10)
  }

  /** `atoi` reads exactly that number. */
  lemma AtoiExactly(word: seq<Byte>, n: int)
    ensures ParseDigits(word) == Some(n) <==> NumberIn(word, n)
  {
    var digits := if word != [] && word[0] == '-' as int then word[1..] else word;
    if digits != [] { DecimalExactly(digits, if n < 0 then -n else n); }
    if digits != [] && AllDigits(digits) { DecimalExactly(digits, Decimal(digits)); }
  }

  predicate IsBlank(b: Byte) {
    b == 32 || 9 <= b <= 13
  }

  /** `text` is white space, a sign or none, and a decimal spelling: it writes `n`. */
  predicate WritesAs(text: seq<Byte>, n: int, blanks: seq<Byte>, sign: seq<Byte>, digits: seq<Byte>) {
    && text == blanks + sign + digits && (forall i :: 0 <= i < |blanks| ==> IsBlank(blanks[i]))
    && (sign == [] || sign == Ascii("-") || sign == Ascii("+"))
    && if sign == Ascii("-") then n <= 0 && Spells(digits, -n, 10) else n >= 0 && Spells(digits, n, 10)
  }

  ghost predicate Writes(text: seq<Byte>, n: int) {
    exists blanks, sign, digits :: WritesAs(text, n, blanks, sign, digits)
  }

  lemma {:induction false} SkipSpacesIs(text: seq<Byte>, blanks: seq<Byte>, rest: seq<Byte>)
    requires text == blanks + rest && (forall i :: 0 <= i < |blanks| ==> IsBlank(blanks[i]))
    requires rest != [] && !IsBlank(rest[0])
    ensures SkipSpaces(text) == rest
    decreases |blanks|
  {
    if blanks == [] {
      assert text == rest;
    } else {
      assert text[0] == blanks[0] && text[1..] == blanks[1..] + rest;
      SkipSpacesIs(text[1..], blanks[1..], rest);
    }
  }

  lemma {:induction false} SpacesSkipped(text: seq<Byte>) returns (blanks: seq<Byte>)
    ensures text == blanks + SkipSpaces(text) && forall i :: 0 <= i < |blanks| ==> IsBlank(blanks[i])
    decreases |text|
  {
    blanks := [];
    if text != [] && IsBlank(text[0]) {
      blanks := SpacesSkipped(text[1..]);
      blanks := [text[0]] + blanks;
      assert text == [text[0]] + text[1..];
    }
  }

  lemma {:induction false} DigitsOnly(digits: seq<Byte>, n: nat)
    requires Spells(digits, n, 10)
    ensures IsDigit(digits[0]) && AllDigits(digits) && Decimal(digits) == n
  {
    DecimalExactly(digits, n);
  }

  lemma ReadsWritten(text: seq<Byte>, n: int, blanks: seq<Byte>, sign: seq<Byte>, digits: seq<Byte>)
    requires WritesAs(text, n, blanks, sign, digits) && -0x8000_0000 <= n < 0x8000_0000
    ensures ParseInt(text) == Some(n)
  {
    DigitsOnly(digits, if n < 0 then -n else n);
    var rest := sign + digits;
    assert text == blanks + rest;
    assert rest[0] == (if sign == [] then digits[0] else sign[0]);
    SkipSpacesIs(text, blanks, rest);
    assert sign != [] ==> rest[1..] == digits;
    assert sign == [] ==> rest == digits;
  }

  /** The sign, if the text begins with one. */
  function SignOf(t: seq<Byte>): seq<Byte> {
    if t != [] && t[0] == '-' as int then Ascii("-")
    else if t != [] && t[0] == '+' as int then Ascii("+")
    else []
  }

  lemma AfterSign(t: seq<Byte>)
    ensures |SignOf(t)| <= |t| && t == SignOf(t) + t[|SignOf(t)|..]
    ensures SignOf(t) == Ascii("-") <==> t != [] && t[0] == '-' as int
  {
    assert Ascii("-")[0] == '-' as int && Ascii("+")[0] == '+' as int;
    assert |Ascii("-")| == |Ascii("+")| == 1;
  }

  /** What `stoi` reads: a sign and digits. */
  lemma ParsedParts(text: seq<Byte>, n: int, sign: seq<Byte>, digits: seq<Byte>)
    requires ParseInt(text) == Some(n)
    requires var t := SkipSpaces(text); sign == SignOf(t) && |sign| <= |t| && digits == t[|sign|..]
    ensures AllDigits(digits) && digits != []
    ensures n == if sign == Ascii("-") then -(Decimal(digits) as int) else Decimal(digits)
  {
    var t := SkipSpaces(text);
    AfterSign(t);
    assert digits == if t[0] == '-' as int || t[0] == '+' as int then t[1..] else t;
  }

  lemma WrittenIfRead(text: seq<Byte>, n: int)
    requires ParseInt(text) == Some(n)
    ensures Writes(text, n)
  {
    var blanks := SpacesSkipped(text);
    var t := SkipSpaces(text);
    AfterSign(t);
    var sign := SignOf(t);
    var digits := t[|sign|..];
    ParsedParts(text, n, sign, digits);
    DecimalExactly(digits, Decimal(digits));
    assert text == blanks + sign + digits;
    assert WritesAs(text, n, blanks, sign, digits);
  }

  /** `stoi` reads as `n` exactly the texts that write `n`, while it fits 32 bits. */
  lemma IntExactly(text: seq<Byte>, n: int)
    ensures ParseInt(text) == Some(n) <==> Writes(text, n) && -0x8000_0000 <= n < 0x8000_0000
  {
    if ParseInt(text) == Some(n) { WrittenIfRead(text, n); }
    if Writes(text, n) && -0x8000_0000 <= n < 0x8000_0000 {
      var blanks, sign, digits :| WritesAs(text, n, blanks, sign, digits);
      ReadsWritten(text, n, blanks, sign, digits);
    }
  }
}

/**
 * Byte slices as base64 strings and 64-bit integers as decimal numbers, written as encoding/json writes
 * them and read back as it reads them.
 */
module JsonScalars {
  import opened JsonBytes
  import opened JsonText
  import opened JsonMeaning
  import opened Integers

  datatype Option<T> = Some(value: T) | None

  // ---------------------------------------------------------------------------------------------
  // Base64, section 4 of RFC 4648.

  const PAD: Byte := 0x3D

  function Sextet(n: nat): Byte
    requires n < 64
  {
    if n < 26 then 0x41 + n
    else if n < 52 then 0x61 + (n - 26)
    else if n < 62 then 0x30 + (n - 52)
    else if n == 62 then 0x2B
    else 0x2F
  }

  function SextetValue(b: Byte): Option<nat>
    ensures SextetValue(b).Some? ==> SextetValue(b).value < 64
  {
    if 0x41 <= b <= 0x5A then Some(b - 0x41)
    else if 0x61 <= b <= 0x7A then Some(b - 0x61 + 26)
    else if 0x30 <= b <= 0x39 then Some(b - 0x30 + 52)
    else if b == 0x2B then Some(62)
    else if b == 0x2F then Some(63)
    else None
  }

  lemma SextetReadsBack(n: nat)
    requires n < 64
    ensures SextetValue(Sextet(n)) == Some(n)
    ensures Sextet(n) != PAD && 0x20 <= Sextet(n) < 0x80 && Sextet(n) != QUOTE && Sextet(n) != BACKSLASH
  {
  }

  // Three bytes as four numbers of six bits; missing bytes count as zero.
  function Bits1(x: Byte): (n: nat)
    ensures n < 64
  {
    x / 4
  }

  function Bits2(x: Byte, y: Byte): (n: nat)
    ensures n < 64
  {
    x % 4 * 16 + y / 16
  }

  function Bits3(y: Byte, z: Byte): (n: nat)
    ensures n < 64
  {
    y % 16 * 4 + z / 64
  }

  function Bits4(z: Byte): (n: nat)
    ensures n < 64
  {
    z % 64
  }

  function Base64(bytes: Bytes): Bytes
  {
    if bytes == [] then []
    else if |bytes| == 1 then [Sextet(Bits1(bytes[0])), Sextet(Bits2(bytes[0], 0)), PAD, PAD]
    else if |bytes| == 2 then
      [Sextet(Bits1(bytes[0])), Sextet(Bits2(bytes[0], bytes[1])), Sextet(Bits3(bytes[1], 0)), PAD]
    else
      [Sextet(Bits1(bytes[0])), Sextet(Bits2(bytes[0], bytes[1])),
       Sextet(Bits3(bytes[1], bytes[2])), Sextet(Bits4(bytes[2]))] + Base64(bytes[3..])
  }

  const CAPITALS := "ABCDEFGHIJKLMNOPQRSTUVWXYZ"
  const SMALLS := "abcdefghijklmnopqrstuvwxyz"
  const NUMERALS := "0123456789"

  // The alphabet of the encoding, table 1 of RFC 4648.
  lemma SextetIsLetter(n: nat)
    requires n < 64
    ensures n < 26 ==> Sextet(n) == CAPITALS[n] as int
    ensures 26 <= n < 52 ==> Sextet(n) == SMALLS[n - 26] as int
    ensures 52 <= n < 62 ==> Sextet(n) == NUMERALS[n - 52] as int
    ensures n == 62 ==> Sextet(n) == '+' as int
    ensures n == 63 ==> Sextet(n) == '/' as int
  {
  }

  function ByteOrZero(bytes: Bytes, i: nat): nat
  {
    if i < |bytes| then bytes[i] else 0
  }

  /**
   * Three bytes are the 24 bits of four letters, the first byte highest; with one or two bytes at the end, the bits
   * that are missing are zero and padding stands for the letters that would have none.
   */
  lemma QuantumIsWritten(bytes: Bytes) returns (a: nat, b: nat, c: nat, d: nat)
    requires bytes != []
    ensures a < 64 && b < 64 && c < 64 && d < 64
    ensures 262144 * a + 4096 * b + 64 * c + d ==
            65536 * ByteOrZero(bytes, 0) + 256 * ByteOrZero(bytes, 1) + ByteOrZero(bytes, 2)
    ensures Base64(bytes) ==
            if |bytes| == 1 then [Sextet(a), Sextet(b), '=' as int, '=' as int]
            else if |bytes| == 2 then [Sextet(a), Sextet(b), Sextet(c), '=' as int]
            else [Sextet(a), Sextet(b), Sextet(c), Sextet(d)] + Base64(bytes[3..])
  {
    var x, y, z := ByteOrZero(bytes, 0), ByteOrZero(bytes, 1), ByteOrZero(bytes, 2);
    a, b, c, d := Bits1(x), Bits2(x, y), Bits3(y, z), Bits4(z);
    assert x == 4 * (x / 4) + x % 4 && y == 16 * (y / 16) + y % 16 && z == 64 * (z / 64) + z % 64;
  }

  function First8(a: nat, b: nat): Byte
    requires a < 64 && b < 64
  {
    a * 4 + b / 16
  }

  function Second8(b: nat, c: nat): Byte
    requires b < 64 && c < 64
  {
    b % 16 * 16 + c / 4
  }

  function Third8(c: nat, d: nat): Byte
    requires c < 64 && d < 64
  {
    c % 4 * 64 + d
  }

  // The quantum of four letters that ends the text: padding may stand for the third byte or the last two.
  function LastQuantum(a: nat, b: nat, third: Byte, fourth: Byte): Option<Bytes>
    requires a < 64 && b < 64
  {
    var c, d := SextetValue(third), SextetValue(fourth);
    if third == PAD && fourth == PAD then Some([First8(a, b)])
    else if c.Some? && fourth == PAD then Some([First8(a, b), Second8(b, c.value)])
    else if c.Some? && d.Some? then Some([First8(a, b), Second8(b, c.value), Third8(c.value, d.value)])
    else None
  }

  function Quanta(text: Bytes): Option<Bytes>
  {
    if text == [] then Some([])
    else if |text| < 4 || SextetValue(text[0]).None? || SextetValue(text[1]).None? then None
    else
      var a, b := SextetValue(text[0]).value, SextetValue(text[1]).value;
      var c, d, rest := SextetValue(text[2]), SextetValue(text[3]), Quanta(text[4..]);
      if |text| == 4 then LastQuantum(a, b, text[2], text[3])
      else if c.None? || d.None? || rest.None? then None
      else Some([First8(a, b), Second8(b, c.value), Third8(c.value, d.value)] + rest.value)
  }

  // The decoder skips line breaks wherever they are.
  function WithoutBreaks(text: Bytes): Bytes
  {
    if text == [] then []
    else if text[0] == NEWLINE || text[0] == RETURN then WithoutBreaks(text[1..])
    else [text[0]] + WithoutBreaks(text[1..])
  }

  function FromBase64(text: Bytes): Option<Bytes>
  {
    Quanta(WithoutBreaks(text))
  }

  // A quotient and a remainder put together and taken apart again.
  lemma Apart4(high: nat, low: nat)
    requires low < 4
    ensures (high * 4 + low) / 4 == high && (high * 4 + low) % 4 == low
  {
  }

  lemma Apart16(high: nat, low: nat)
    requires low < 16
    ensures (high * 16 + low) / 16 == high && (high * 16 + low) % 16 == low
  {
  }

  lemma QuantumReadsBack(x: Byte, y: Byte, z: Byte)
    ensures First8(Bits1(x), Bits2(x, y)) == x
    ensures Second8(Bits2(x, y), Bits3(y, z)) == y
    ensures Third8(Bits3(y, z), Bits4(z)) == z
  {
    Apart16(x % 4, y / 16);
    Apart4(y % 16, z / 64);
  }

  // A full quantum in front of a text that is read.
  lemma QuantumIsRead(a: nat, b: nat, c: nat, d: nat, tail: Bytes, bytes: Bytes)
    requires a < 64 && b < 64 && c < 64 && d < 64 && Quanta(tail) == Some(bytes)
    ensures Quanta([Sextet(a), Sextet(b), Sextet(c), Sextet(d)] + tail) ==
            Some([First8(a, b), Second8(b, c), Third8(c, d)] + bytes)
  {
    SextetReadsBack(a);
    SextetReadsBack(b);
    SextetReadsBack(c);
    SextetReadsBack(d);
    var text := [Sextet(a), Sextet(b), Sextet(c), Sextet(d)] + tail;
    assert text[4..] == tail;
    var three := [First8(a, b), Second8(b, c), Third8(c, d)];
    assert tail == [] ==> three + bytes == three;
  }

  lemma QuantumIsPlain(a: nat, b: nat, c: nat, d: nat, tail: Bytes)
    requires a < 64 && b < 64 && c < 64 && d < 64 && PlainBytes(tail) && Ascii(tail)
    ensures PlainBytes([Sextet(a), Sextet(b), Sextet(c), Sextet(d)] + tail)
    ensures Ascii([Sextet(a), Sextet(b), Sextet(c), Sextet(d)] + tail)
  {
    SextetReadsBack(a);
    SextetReadsBack(b);
    SextetReadsBack(c);
    SextetReadsBack(d);
  }

  lemma OnePaddedIsRead(a: nat, b: nat)
    requires a < 64 && b < 64
    ensures Quanta([Sextet(a), Sextet(b), PAD, PAD]) == Some([First8(a, b)])
  {
    hide First8;
    SextetReadsBack(a);
    SextetReadsBack(b);
  }

  lemma TwoPaddedAreRead(a: nat, b: nat, c: nat)
    requires a < 64 && b < 64 && c < 64
    ensures Quanta([Sextet(a), Sextet(b), Sextet(c), PAD]) == Some([First8(a, b), Second8(b, c)])
  {
    hide First8, Second8;
    SextetReadsBack(a);
    SextetReadsBack(b);
    SextetReadsBack(c);
  }

  lemma {:induction false} QuantaReadBack(bytes: Bytes)
    ensures Quanta(Base64(bytes)) == Some(bytes)
    decreases |bytes|
  {
    hide Quanta, Sextet, SextetValue, First8, Second8, Third8, Bits1, Bits2, Bits3, Bits4;
    if bytes == [] {
      NoQuanta();
    } else if |bytes| == 1 {
      OnePaddedIsRead(Bits1(bytes[0]), Bits2(bytes[0], 0));
      QuantumReadsBack(bytes[0], 0, 0);
      assert bytes == [bytes[0]];
    } else if |bytes| == 2 {
      TwoPaddedAreRead(Bits1(bytes[0]), Bits2(bytes[0], bytes[1]), Bits3(bytes[1], 0));
      QuantumReadsBack(bytes[0], bytes[1], 0);
      assert bytes == [bytes[0], bytes[1]];
    } else {
      var x, y, z := bytes[0], bytes[1], bytes[2];
      QuantaReadBack(bytes[3..]);
      QuantumReadsBack(x, y, z);
      QuantumIsRead(Bits1(x), Bits2(x, y), Bits3(y, z), Bits4(z), Base64(bytes[3..]), bytes[3..]);
      assert bytes == [x, y, z] + bytes[3..];
    }
  }

  lemma NoQuanta()
    ensures Quanta([]) == Some([])
  {
  }

  lemma {:induction false} Base64IsPlain(bytes: Bytes)
    ensures PlainBytes(Base64(bytes)) && Ascii(Base64(bytes))
    decreases |bytes|
  {
    hide Sextet, SextetValue, Bits1, Bits2, Bits3, Bits4;
    if |bytes| == 1 {
      SextetReadsBack(Bits1(bytes[0]));
      SextetReadsBack(Bits2(bytes[0], 0));
    } else if |bytes| == 2 {
      SextetReadsBack(Bits1(bytes[0]));
      SextetReadsBack(Bits2(bytes[0], bytes[1]));
      SextetReadsBack(Bits3(bytes[1], 0));
    } else if bytes != [] {
      var x, y, z := bytes[0], bytes[1], bytes[2];
      Base64IsPlain(bytes[3..]);
      QuantumIsPlain(Bits1(x), Bits2(x, y), Bits3(y, z), Bits4(z), Base64(bytes[3..]));
    }
  }

  lemma {:induction false} PlainHasNoBreaks(text: Bytes)
    requires PlainBytes(text)
    ensures WithoutBreaks(text) == text
  {
    if text != [] {
      assert text[0] in text && forall b <- text[1..] :: b in text;
      PlainHasNoBreaks(text[1..]);
      assert text == [text[0]] + text[1..];
    }
  }

  lemma AsciiIsUtf8(text: Bytes)
    requires Ascii(text)
    ensures Utf8(text)
  {
    AsciiPrefix(text, []);
    assert text + [] == text;
  }

  /**
   * A byte slice survives being written and read, and what is written is a literal.
   */
  lemma Base64ReadsBack(bytes: Bytes)
    ensures Literal(Base64(bytes)) && FromBase64(Decoded(Base64(bytes))) == Some(bytes)
  {
    QuantaReadBack(bytes);
    Base64IsPlain(bytes);
    AsciiIsUtf8(Base64(bytes));
    PlainDenotesItself(Base64(bytes));
    PlainHasNoBreaks(Base64(bytes));
  }

  lemma {:induction false} BreaksGo(front: Bytes, b: Byte, tail: Bytes)
    requires b == 0x0A || b == 0x0D
    ensures WithoutBreaks(front + ([b] + tail)) == WithoutBreaks(front + tail)
  {
    var s, t := front + ([b] + tail), front + tail;
    if front == [] {
      assert s == [b] + tail && t == tail && s[1..] == tail;
    } else {
      assert s[0] == front[0] == t[0] && s[1..] == front[1..] + ([b] + tail) && t[1..] == front[1..] + tail;
      BreaksGo(front[1..], b, tail);
    }
  }

  /**
   * A line break anywhere in base64 text does not change what is read.
   */
  lemma BreaksAreSkipped(front: Bytes, b: Byte, tail: Bytes)
    requires b == 0x0A || b == 0x0D
    ensures FromBase64(front + ([b] + tail)) == FromBase64(front + tail)
  {
    hide Quanta, WithoutBreaks;
    BreaksGo(front, b, tail);
  }

  // ---------------------------------------------------------------------------------------------
  // Decimal integers.

  const MINUS: Byte := 0x2D

  function Decimal(n: nat): Bytes
  {
    if n < 10 then [0x30 + n] else Decimal(n / 10) + [0x30 + n % 10]
  }

  function DigitsValue(digits: Bytes): nat
    requires Digits(digits)
  {
    if digits == [] then 0
    else
      assert digits[|digits| - 1] in digits && forall b <- digits[..|digits| - 1] :: b in digits;
      10 * DigitsValue(digits[..|digits| - 1]) + (digits[|digits| - 1] - 0x30)
  }

  // A number is read as a 64-bit integer when it has no fraction and no exponent and is in range.
  function FromDecimal(text: Bytes): Option<Int64>
  {
    var negative := text != [] && text[0] == MINUS;
    var digits := if negative then text[1..] else text;
    if !IsInteger(digits) then None
    else
      var size: int := DigitsValue(digits);
      var value := if negative then -size else size;
      if -MAX_INT64 - 1 <= value <= MAX_INT64 then Some(value) else None
  }

  lemma {:induction false} DecimalReadsBack(n: nat)
    ensures IsInteger(Decimal(n)) && DigitsValue(Decimal(n)) == n && (Decimal(n)[0] == 0x30 ==> n == 0)
  {
    if n >= 10 {
      DecimalReadsBack(n / 10);
      var shorter := Decimal(n / 10);
      assert Decimal(n)[..|shorter|] == shorter;
      assert Digits(Decimal(n));
    } else {
      assert [0x30 + n][..0] == [];
    }
  }

  /**
   * A non-negative 64-bit integer survives being written and read, and what is written is a number.
   */
  lemma IntegerReadsBack(n: nat)
    requires n <= MAX_INT64
    ensures IsScalar(Decimal(n)) && FromDecimal(Decimal(n)) == Some(n)
  {
    DecimalReadsBack(n);
    var text := Decimal(n);
    assert text[0] in text;
    assert text[..|text|] == text && text[|text|..|text|] == [] && text[|text|..] == [];
    assert IsInteger(text[..|text|]) && IsFraction(text[|text|..|text|]) && IsExponent(text[|text|..]);
  }

  /**
   * A negative integer is read down to the least there is, and one beyond the range is not read.
   */
  lemma NegativeIsRead(n: nat)
    ensures var value: int := n;
            FromDecimal([0x2D] + Decimal(n)) == if value <= MAX_INT64 + 1 then Some(-value) else None
    ensures n > MAX_INT64 ==> FromDecimal(Decimal(n)) == None
  {
    DecimalReadsBack(n);
    assert ([0x2D] + Decimal(n))[1..] == Decimal(n);
    assert Decimal(n)[0] in Decimal(n);
  }
}

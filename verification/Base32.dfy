/** Base32 without padding (section 6 of RFC 4648) through a wrapping 16-bit buffer, and
    the recovery codes shown and typed in it. */
module Base32 {
  newtype Byte = b: int | 0 <= b < 256

  const ALPHABET: string := "ABCDEFGHIJKLMNOPQRSTUVWXYZ234567"

  function Pow2(n: nat): (r: nat)
    ensures r > 0
  {
    if n == 0 then 1 else 2 * Pow2(n - 1)
  }

  /** `value >> n`. */
  function ShiftRight(value: nat, n: nat): nat {
    if n == 0 then value else ShiftRight(value / 2, n - 1)
  }

  /** `value << n`, unbounded. */
  function ShiftLeft(value: nat, n: nat): nat {
    if n == 0 then value else 2 * ShiftLeft(value, n - 1)
  }

  /** The low `width` bits of `value`, most significant first. */
  function Bits(value: nat, width: nat): (r: seq<bool>)
    ensures |r| == width
  {
    if width == 0 then [] else Bits(value / 2, width - 1) + [value % 2 == 1]
  }

  function Value(bits: seq<bool>): nat {
    if bits == [] then 0 else 2 * Value(bits[..|bits| - 1]) + (if bits[|bits| - 1] then 1 else 0)
  }

  /** All bits of a byte string. */
  function BitString(bytes: seq<Byte>): (r: seq<bool>)
    ensures |r| == 8 * |bytes|
  {
    if bytes == [] then [] else BitString(bytes[..|bytes| - 1]) + Bits(bytes[|bytes| - 1] as int, 8)
  }

  predicate IsDigit(c: char) {
    'A' <= c <= 'Z' || '2' <= c <= '7'
  }

  /** The five bits a digit stands for. */
  function DigitValue(c: char): nat {
    if 'A' <= c <= 'Z' then (c - 'A') as int else if '2' <= c <= '7' then (c - '2') as int + 26 else 0
  }

  function TextBits(text: string): (r: seq<bool>)
    ensures |r| == 5 * |text|
  {
    if text == [] then [] else TextBits(text[..|text| - 1]) + Bits(DigitValue(text[|text| - 1]), 5)
  }

  function Zeros(n: nat): seq<bool> {
    seq(n, _ => false)
  }

  /** What base32 is: the bits of `bytes` in groups of five, the last one filled up with
      zeros, each group one digit. */
  ghost predicate Encodes(text: string, bytes: seq<Byte>) {
    && (forall i :: 0 <= i < |text| ==> IsDigit(text[i]))
    && |text| == (8 * |bytes| + 4) / 5
    && TextBits(text) == BitString(bytes) + Zeros(5 * |text| - 8 * |bytes|)
  }

  // ----- bits of sums, products and remainders -----

  lemma {:induction false} BitsSplit(value: nat, high: nat, low: nat)
    ensures Bits(value, high + low) == Bits(ShiftRight(value, low), high) + Bits(value, low)
    decreases low
  {
    if low > 0 {
      BitsSplit(value / 2, high, low - 1);
      assert high + low - 1 == high + (low - 1);
    }
  }

  lemma {:induction false} BitsAppend(high: nat, low: nat, k: nat, w: nat)
    requires low < Pow2(w)
    ensures Bits(ShiftLeft(high, w) + low, k + w) == Bits(high, k) + Bits(low, w)
    decreases w
  {
    if w > 0 {
      var v := ShiftLeft(high, w) + low;
      assert v / 2 == ShiftLeft(high, w - 1) + low / 2 && v % 2 == low % 2;
      BitsAppend(high, low / 2, k, w - 1);
      assert Bits(v, k + w) == Bits(v / 2, k + (w - 1)) + [v % 2 == 1];
    }
  }

  lemma ShiftByEight(value: nat)
    ensures ShiftLeft(value, 8) == value * 256
  {
    assert ShiftLeft(value, 1) == value * 2;
    assert ShiftLeft(value, 2) == value * 4;
    assert ShiftLeft(value, 3) == value * 8;
    assert ShiftLeft(value, 4) == value * 16;
    assert ShiftLeft(value, 5) == value * 32;
    assert ShiftLeft(value, 6) == value * 64;
    assert ShiftLeft(value, 7) == value * 128;
  }

  lemma {:induction false} BitsOfRemainder(value: nat, m: nat, width: nat)
    requires width <= m
    ensures Bits(value % Pow2(m), width) == Bits(value, width)
    decreases width
  {
    if width > 0 {
      HalfOfRemainder(value, Pow2(m - 1));
      BitsOfRemainder(value / 2, m - 1, width - 1);
    }
  }

  lemma HalfOfRemainder(value: nat, p: nat)
    requires p > 0
    ensures value % (2 * p) / 2 == value / 2 % p
    ensures value % (2 * p) % 2 == value % 2
  {
    var q, r, bit := value / 2 / p, value / 2 % p, value % 2;
    assert value == 2 * (p * q + r) + bit;
    assert value == (2 * p) * q + (2 * r + bit);
    RemainderIs(value, 2 * p, q, 2 * r + bit);
  }

  lemma {:induction false} Multiples(d: nat, x: nat, y: nat)
    requires x < y
    ensures d * x + d <= d * y
    decreases y
  {
    assert d * y == d * (y - 1) + d;
    if x < y - 1 {
      Multiples(d, x, y - 1);
    }
  }

  lemma RemainderIs(value: nat, d: nat, q: nat, r: nat)
    requires d > 0 && value == d * q + r && r < d
    ensures value % d == r
  {
    var q', r' := value / d, value % d;
    assert value == d * q' + r';
    if q < q' {
      Multiples(d, q, q');
      assert false;
    } else if q' < q {
      Multiples(d, q', q);
      assert false;
    }
  }

  lemma DigitOfAlphabet(v: nat)
    requires v < 32
    ensures IsDigit(ALPHABET[v]) && DigitValue(ALPHABET[v]) == v
  {
  }

  // ----- the encoder -----

  /** The text and the bits still in the buffer are the bits read so far. */
  ghost predicate Holds(text: string, buffer: nat, bits: nat, bytes: seq<Byte>) {
    && (forall i :: 0 <= i < |text| ==> IsDigit(text[i]))
    && TextBits(text) + Bits(buffer, bits) == BitString(bytes)
  }

  lemma Associative(a: seq<bool>, b: seq<bool>, c: seq<bool>)
    ensures a + (b + c) == (a + b) + c
  {
  }

  lemma BitsWithByte(buffer: nat, bits: nat, byte: nat)
    requires bits <= 8 && byte < 256
    ensures Bits((buffer * 256 + byte) % 65536, bits + 8) == Bits(buffer, bits) + Bits(byte, 8)
  {
    Powers();
    ShiftByEight(buffer);
    BitsOfRemainder(buffer * 256 + byte, 16, bits + 8);
    BitsAppend(buffer, byte, bits, 8);
  }

  lemma {:induction false} BitsShifted(value: nat, k: nat, n: nat)
    ensures Bits(ShiftLeft(value, n), k + n) == Bits(value, k) + Zeros(n)
    decreases n
  {
    if n > 0 {
      BitsShifted(value, k, n - 1);
      var v := ShiftLeft(value, n);
      assert Bits(v, k + n) == Bits(v / 2, k + (n - 1)) + [v % 2 == 1];
    }
  }

  lemma BitsOfLast(buffer: nat, bits: nat)
    requires bits < 5
    ensures Bits(ShiftLeft(buffer, 5 - bits) % 65536 % 32, 5) == Bits(buffer, bits) + Zeros(5 - bits)
  {
    Powers();
    var v := ShiftLeft(buffer, 5 - bits);
    BitsOfRemainder(v % 65536, 5, 5);
    BitsOfRemainder(v, 16, 5);
    BitsShifted(buffer, bits, 5 - bits);
  }

  lemma HoldsByte(text: string, buffer: nat, bits: nat, bytes: seq<Byte>, byte: Byte)
    requires bits <= 4 && Holds(text, buffer, bits, bytes)
    ensures Holds(text, (buffer * 256 + byte as int) % 65536, bits + 8, bytes + [byte])
  {
    BitsWithByte(buffer, bits, byte as int);
    assert (bytes + [byte])[..|bytes|] == bytes;
    Associative(TextBits(text), Bits(buffer, bits), Bits(byte as int, 8));
  }

  lemma Powers()
    ensures Pow2(5) == 32 && Pow2(8) == 256 && Pow2(16) == 65536
  {
  }

  lemma DigitBits(buffer: nat, bits: nat)
    ensures Bits(buffer, bits + 5) == Bits(ShiftRight(buffer, bits) % 32, 5) + Bits(buffer, bits)
  {
    Powers();
    BitsSplit(buffer, 5, bits);
    assert 5 + bits == bits + 5;
    BitsOfRemainder(ShiftRight(buffer, bits), 5, 5);
  }

  lemma HoldsDigit(text: string, buffer: nat, bits: nat, bytes: seq<Byte>, digit: nat)
    requires Holds(text, buffer, bits + 5, bytes) && digit == ShiftRight(buffer, bits) % 32
    ensures Holds(text + [ALPHABET[digit]], buffer, bits, bytes)
  {
    DigitBits(buffer, bits);
    DigitOfAlphabet(digit);
    assert (text + [ALPHABET[digit]])[..|text|] == text;
    Associative(TextBits(text), Bits(digit, 5), Bits(buffer, bits));
  }

  lemma HoldsLast(text: string, buffer: nat, bits: nat, bytes: seq<Byte>, digit: nat)
    requires 0 < bits < 5 && Holds(text, buffer, bits, bytes) && digit == ShiftLeft(buffer, 5 - bits) % 65536 % 32
    ensures Encodes(text + [ALPHABET[digit]], bytes)
  {
    DigitOfAlphabet(digit);
    BitsOfLast(buffer, bits);
    assert (text + [ALPHABET[digit]])[..|text|] == text;
    Associative(TextBits(text), Bits(buffer, bits), Zeros(5 - bits));
  }

  lemma HoldsAll(text: string, buffer: nat, bytes: seq<Byte>)
    requires Holds(text, buffer, 0, bytes)
    ensures Encodes(text, bytes)
  {
  }

  /** Emits digits while the buffer holds five bits. */
  method EmitDigits(prefix: string, buffer: nat, held: nat, ghost bytes: seq<Byte>) returns (text: string, bits: nat)
    requires Holds(prefix, buffer, held, bytes)
    ensures bits < 5 && Holds(text, buffer, bits, bytes)
  {
    text, bits := prefix, held;
    while bits >= 5
      invariant Holds(text, buffer, bits, bytes)
    {
      bits := bits - 5;
      var digit := ShiftRight(buffer, bits) % 32;
      HoldsDigit(text, buffer, bits, bytes, digit);
      text := text + [ALPHABET[digit]];
    }
  }

  /** Takes one byte into the buffer and emits what digits it completes. */
  method EncodeByte(prefix: string, before: nat, held: nat, byte: Byte, ghost bytes: seq<Byte>)
    returns (text: string, buffer: nat, bits: nat)
    requires held < 5 && Holds(prefix, before, held, bytes)
    ensures bits < 5 && Holds(text, buffer, bits, bytes + [byte])
  {
    HoldsByte(prefix, before, held, bytes, byte);
    buffer := (before * 256 + byte as int) % 65536;
    text, bits := EmitDigits(prefix, buffer, held + 8, bytes + [byte]);
  }

  /** Emits the bits left over, filled up with zeros. */
  method EncodeLast(prefix: string, buffer: nat, bits: nat, ghost bytes: seq<Byte>) returns (text: string)
    requires bits < 5 && Holds(prefix, buffer, bits, bytes)
    ensures Encodes(text, bytes)
  {
    if bits > 0 {
      var digit := ShiftLeft(buffer, 5 - bits) % 65536 % 32;
      HoldsLast(prefix, buffer, bits, bytes, digit);
      text := prefix + [ALPHABET[digit]];
    } else {
      HoldsAll(prefix, buffer, bytes);
      text := prefix;
    }
  }

  method Encode(bytes: seq<Byte>) returns (text: string)
    ensures Encodes(text, bytes)
  {
    text := "";
    var buffer, bits := 0, 0;
    for i := 0 to |bytes|
      invariant 0 <= buffer && 0 <= bits < 5
      invariant Holds(text, buffer, bits, bytes[..i])
    {
      text, buffer, bits := EncodeByte(text, buffer, bits, bytes[i], bytes[..i]);
      assert bytes[..i + 1] == bytes[..i] + [bytes[i]];
    }
    assert bytes[..|bytes|] == bytes;
    text := EncodeLast(text, buffer, bits, bytes);
  }

  // ----- the decoder -----

  lemma {:induction false} ValueBelow(bits: seq<bool>)
    ensures Value(bits) < Pow2(|bits|)
  {
    if bits != [] {
      ValueBelow(bits[..|bits| - 1]);
    }
  }

  /** Groups of eight bits as bytes, an incomplete one dropped. */
  function Bytes(bits: seq<bool>): seq<Byte> {
    if |bits| < 8 then []
    else
      ValueBelow(bits[..8]);
      Powers();
      [Value(bits[..8]) as Byte] + Bytes(bits[8..])
  }

  function Decode(text: string): seq<Byte> {
    Bytes(TextBits(text))
  }

  lemma {:induction false} ValueOfBits(value: nat, width: nat)
    requires value < Pow2(width)
    ensures Value(Bits(value, width)) == value
  {
    if width > 0 {
      assert Bits(value, width)[..width - 1] == Bits(value / 2, width - 1);
      ValueOfBits(value / 2, width - 1);
    }
  }

  lemma {:induction false} BitStringCons(byte: Byte, bytes: seq<Byte>)
    ensures BitString([byte] + bytes) == Bits(byte as int, 8) + BitString(bytes)
    decreases |bytes|
  {
    var all := [byte] + bytes;
    if bytes == [] {
      assert all[..0] == [];
    } else {
      BitStringCons(byte, bytes[..|bytes| - 1]);
      assert all[..|all| - 1] == [byte] + bytes[..|bytes| - 1];
    }
  }

  lemma {:induction false} BytesOfBitString(bytes: seq<Byte>, rest: seq<bool>)
    requires |rest| < 8
    ensures Bytes(BitString(bytes) + rest) == bytes
  {
    if bytes != [] {
      assert bytes == [bytes[0]] + bytes[1..];
      BitStringCons(bytes[0], bytes[1..]);
      Associative(Bits(bytes[0] as int, 8), BitString(bytes[1..]), rest);
      BytesCons(bytes[0], BitString(bytes[1..]) + rest);
      BytesOfBitString(bytes[1..], rest);
    }
  }

  lemma BytesCons(byte: Byte, bits: seq<bool>)
    ensures Bytes(Bits(byte as int, 8) + bits) == [byte] + Bytes(bits)
  {
    var all := Bits(byte as int, 8) + bits;
    assert all[..8] == Bits(byte as int, 8) && all[8..] == bits;
    Powers();
    ValueOfBits(byte as int, 8);
  }

  /** Decoding undoes encoding, for every byte string. */
  lemma DecodeUndoesEncode(text: string, bytes: seq<Byte>)
    requires Encodes(text, bytes)
    ensures Decode(text) == bytes
  {
    BytesOfBitString(bytes, Zeros(5 * |text| - 8 * |bytes|));
  }

  lemma {:induction false} TextBitsInjective(a: string, b: string)
    requires |a| == |b| && TextBits(a) == TextBits(b)
    requires forall i :: 0 <= i < |a| ==> IsDigit(a[i]) && IsDigit(b[i])
    ensures a == b
  {
    if a != [] {
      var n := |a| - 1;
      TextBitsParts(a);
      TextBitsParts(b);
      SameDigit(a[n], b[n]);
      TextBitsInjective(a[..n], b[..n]);
      assert a == a[..n] + [a[n]] && b == b[..n] + [b[n]];
    }
  }

  lemma TextBitsParts(text: string)
    requires text != []
    ensures var n := |text| - 1;
            TextBits(text)[..5 * n] == TextBits(text[..n]) && TextBits(text)[5 * n..] == Bits(DigitValue(text[n]), 5)
  {
  }

  lemma SameDigit(c: char, d: char)
    requires IsDigit(c) && IsDigit(d) && Bits(DigitValue(c), 5) == Bits(DigitValue(d), 5)
    ensures c == d
  {
    Powers();
    ValueOfBits(DigitValue(c), 5);
    ValueOfBits(DigitValue(d), 5);
  }

  /** There is only one encoding of a byte string. */
  lemma EncodingIsUnique(a: string, b: string, bytes: seq<Byte>)
    requires Encodes(a, bytes) && Encodes(b, bytes)
    ensures a == b
  {
    TextBitsInjective(a, b);
  }
}

module RecoveryCodes {
  import opened Options
  import opened Base32

  const LENGTH := 16

  /** Four groups of four characters with hyphens between them. */
  function Display(code: string): string
    requires |code| == LENGTH
  {
    code[0..4] + "-" + code[4..8] + "-" + code[8..12] + "-" + code[12..16]
  }

  function Uppercase(c: char): char {
    if 'a' <= c <= 'z' then c - 'a' + 'A' else c
  }

  /** Separators dropped, letters uppercased. */
  function Stripped(input: string): string {
    if input == [] then []
    else if input[0] == '-' || input[0] == ' ' then Stripped(input[1..])
    else [Uppercase(input[0])] + Stripped(input[1..])
  }

  predicate IsRecoveryCode(code: string) {
    |code| == LENGTH && forall i :: 0 <= i < |code| ==> IsDigit(code[i])
  }

  /** What the input stands for, if it is a code at all. */
  function Normalize(input: string): Option<string> {
    var code := Stripped(input);
    if IsRecoveryCode(code) then Some(code) else None
  }

  /** `input` is `code` in any case with separators anywhere. */
  predicate Types(input: string, code: string) {
    if input == [] then code == []
    else if input[0] == '-' || input[0] == ' ' then Types(input[1..], code)
    else code != [] && SameLetter(input[0], code[0]) && Types(input[1..], code[1..])
  }

  predicate SameLetter(c: char, d: char) {
    c == d || ('A' <= d <= 'Z' && c == d - 'A' + 'a')
  }

  lemma {:induction false} TypesIsStripped(input: string, code: string)
    requires forall i :: 0 <= i < |code| ==> IsDigit(code[i])
    ensures Types(input, code) <==> Stripped(input) == code
  {
    if input != [] {
      if input[0] == '-' || input[0] == ' ' {
        TypesIsStripped(input[1..], code);
      } else if code != [] {
        TypesIsStripped(input[1..], code[1..]);
        assert code == [code[0]] + code[1..];
      }
    }
  }

  /** Typed input is read as exactly the code it types, in any case and spacing. */
  lemma NormalizeReadsTyped(input: string, code: string)
    requires IsRecoveryCode(code)
    ensures Normalize(input) == Some(code) <==> Types(input, code)
  {
    TypesIsStripped(input, code);
  }

  lemma {:induction false} StrippedConcat(a: string, b: string)
    ensures Stripped(a + b) == Stripped(a) + Stripped(b)
  {
    if a == [] {
      assert a + b == b;
    } else {
      assert (a + b)[1..] == a[1..] + b;
      StrippedConcat(a[1..], b);
    }
  }

  lemma {:induction false} StrippedDigits(a: string)
    requires forall i :: 0 <= i < |a| ==> IsDigit(a[i])
    ensures Stripped(a) == a
  {
    if a != [] {
      StrippedDigits(a[1..]);
      assert a == [a[0]] + a[1..];
    }
  }

  /** A shown code reads back as itself. */
  lemma DisplayReadsBack(code: string)
    requires IsRecoveryCode(code)
    ensures Normalize(Display(code)) == Some(code)
  {
    var a, b, c, d := code[0..4], code[4..8], code[8..12], code[12..16];
    StrippedGroups(a, b, c, d);
    assert Display(code) == a + "-" + (b + "-" + (c + "-" + d));
    assert code == a + (b + (c + d));
  }

  lemma StrippedGroups(a: string, b: string, c: string, d: string)
    requires forall i :: 0 <= i < |a| ==> IsDigit(a[i])
    requires forall i :: 0 <= i < |b| ==> IsDigit(b[i])
    requires forall i :: 0 <= i < |c| ==> IsDigit(c[i])
    requires forall i :: 0 <= i < |d| ==> IsDigit(d[i])
    ensures Stripped(a + "-" + (b + "-" + (c + "-" + d))) == a + (b + (c + d))
  {
    StrippedGroup(a, b + "-" + (c + "-" + d));
    StrippedGroup(b, c + "-" + d);
    StrippedGroup(c, d);
    StrippedDigits(d);
  }

  lemma StrippedGroup(group: string, rest: string)
    requires forall i :: 0 <= i < |group| ==> IsDigit(group[i])
    ensures Stripped(group + "-" + rest) == group + Stripped(rest)
  {
    StrippedDigits(group);
    StrippedConcat(group, "-" + rest);
    assert group + "-" + rest == group + ("-" + rest);
    assert ("-" + rest)[1..] == rest;
  }

  /** Ten random bytes give a code that, shown and typed back in any case and spacing, is
      read as itself and still holds all eighty bits. */
  lemma CodeOfTenBytes(bytes: seq<Byte>, code: string, input: string)
    requires |bytes| == 10 && Encodes(code, bytes)
    ensures IsRecoveryCode(code) && Normalize(Display(code)) == Some(code) && Decode(code) == bytes
    ensures Types(input, code) ==> Normalize(input) == Some(code)
  {
    DisplayReadsBack(code);
    NormalizeReadsTyped(input, code);
    DecodeUndoesEncode(code, bytes);
  }
}

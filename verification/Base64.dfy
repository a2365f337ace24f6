/** Unpadded base64url (RFC 4648, sections 5 and 3.2) as Go's RawURLEncoding reads and
    writes it: the decoder skips CR and LF and ignores unused trailing bits. */
module Base64 {
  import opened Text
  import opened Seqs

  type Sextet = n: nat | n < 64

  predicate IsSymbol(c: char)
  {
    'A' <= c <= 'Z' || 'a' <= c <= 'z' || '0' <= c <= '9' || c == '-' || c == '_'
  }

  function Value(c: char): Sextet
    requires IsSymbol(c)
  {
    if 'A' <= c <= 'Z' then c as int - 'A' as int
    else if 'a' <= c <= 'z' then c as int - 'a' as int + 26
    else if '0' <= c <= '9' then c as int - '0' as int + 52
    else if c == '-' then 62
    else 63
  }

  function Symbol(n: Sextet): (c: Byte)
    ensures IsSymbol(c) && Value(c) == n
  {
    if n < 26 then (n + 'A' as int) as char
    else if n < 52 then (n - 26 + 'a' as int) as char
    else if n < 62 then (n - 52 + '0' as int) as char
    else if n == 62 then '-'
    else '_'
  }

  function Code(b: Byte): nat { b as int }

  function FirstSymbol(a: Byte): Byte { Symbol(Code(a) / 4) }

  function SecondSymbol(a: Byte, high: nat): Byte
    requires high < 256
  {
    Symbol(Code(a) % 4 * 16 + high / 16)
  }

  function ThirdSymbol(b: Byte, high: nat): Byte
    requires high < 256
  {
    Symbol(Code(b) % 16 * 4 + high / 64)
  }

  function Encode(b: Bytes): Bytes
  {
    if |b| == 0 then []
    else if |b| == 1 then [FirstSymbol(b[0]), SecondSymbol(b[0], 0)]
    else if |b| == 2 then
      [FirstSymbol(b[0]), SecondSymbol(b[0], Code(b[1])), ThirdSymbol(b[1], 0)]
    else
      [FirstSymbol(b[0]), SecondSymbol(b[0], Code(b[1])), ThirdSymbol(b[1], Code(b[2])),
       Symbol(Code(b[2]) % 64)] + Encode(b[3..])
  }

  /** The decoder drops CR and LF wherever they stand. */
  function StripNewlines(s: Bytes): Bytes
  {
    if s == [] then []
    else if s[0] == '\r' || s[0] == '\n' then StripNewlines(s[1..])
    else [s[0]] + StripNewlines(s[1..])
  }

  predicate AllSymbols(s: string) { forall i :: 0 <= i < |s| ==> IsSymbol(s[i]) }

  function FirstByte(a: char, b: char): Byte
    requires IsSymbol(a) && IsSymbol(b)
  {
    (Value(a) * 4 + Value(b) / 16) as char
  }

  function SecondByte(b: char, c: char): Byte
    requires IsSymbol(b) && IsSymbol(c)
  {
    (Value(b) % 16 * 16 + Value(c) / 4) as char
  }

  function ThirdByte(c: char, d: char): Byte
    requires IsSymbol(c) && IsSymbol(d)
  {
    (Value(c) % 4 * 64 + Value(d)) as char
  }

  function DecodeSymbols(s: Bytes): Option<Bytes>
    requires AllSymbols(s)
  {
    if |s| == 0 then Some([])
    else if |s| == 1 then None
    else if |s| == 2 then Some([FirstByte(s[0], s[1])])
    else if |s| == 3 then Some([FirstByte(s[0], s[1]), SecondByte(s[1], s[2])])
    else
      match DecodeSymbols(s[4..])
      case None => None
      case Some(rest) =>
        Some([FirstByte(s[0], s[1]), SecondByte(s[1], s[2]), ThirdByte(s[2], s[3])] + rest)
  }

  function Decode(s: Bytes): Option<Bytes>
  {
    var t := StripNewlines(s);
    if AllSymbols(t) then DecodeSymbols(t) else None
  }

  lemma {:induction false} EncodeSymbols(b: Bytes)
    ensures AllSymbols(Encode(b))
  {
    if |b| > 2 {
      EncodeSymbols(b[3..]);
    }
  }

  /** The first byte is recovered from its six high and two low bits. */
  lemma FirstRoundTrip(x: Byte, high: nat)
    requires high < 256
    ensures FirstByte(FirstSymbol(x), SecondSymbol(x, high)) == x
  {
  }

  lemma SecondBits(x: nat, y: nat, high: nat)
    requires x < 256 && y < 256 && high < 256
    ensures (x % 4 * 16 + y / 16) % 16 == y / 16
    ensures (y % 16 * 4 + high / 64) / 4 == y % 16
    ensures (y % 16 * 4 + high / 64) % 4 == high / 64
  {
  }

  lemma SecondRoundTrip(x: Byte, y: Byte, high: nat)
    requires high < 256
    ensures SecondByte(SecondSymbol(x, Code(y)), ThirdSymbol(y, high)) == y
  {
    var n, m := Code(x) % 4 * 16 + Code(y) / 16, Code(y) % 16 * 4 + high / 64;
    SecondBits(Code(x), Code(y), high);
    assert n % 16 * 16 + m / 4 == Code(y);
  }

  lemma ThirdRoundTrip(y: Byte, z: Byte)
    ensures ThirdByte(ThirdSymbol(y, Code(z)), Symbol(Code(z) % 64)) == z
  {
    var m := Code(y) % 16 * 4 + Code(z) / 64;
    SecondBits(0, Code(y), Code(z));
    assert m % 4 * 64 + Code(z) % 64 == Code(z);
  }

  lemma DecodeGroup(a: Byte, b: Byte, c: Byte, d: Byte, rest: Bytes)
    requires IsSymbol(a) && IsSymbol(b) && IsSymbol(c) && IsSymbol(d) && AllSymbols(rest)
    requires DecodeSymbols(rest).Some?
    ensures AllSymbols([a, b, c, d] + rest)
    ensures DecodeSymbols([a, b, c, d] + rest)
         == Some([FirstByte(a, b), SecondByte(b, c), ThirdByte(c, d)] + DecodeSymbols(rest).value)
  {
    assert ([a, b, c, d] + rest)[4..] == rest;
  }

  lemma OneByte(x: Byte)
    ensures AllSymbols(Encode([x])) && DecodeSymbols(Encode([x])) == Some([x])
  {
    FirstRoundTrip(x, 0);
  }

  lemma TwoBytes(x: Byte, y: Byte)
    ensures AllSymbols(Encode([x, y])) && DecodeSymbols(Encode([x, y])) == Some([x, y])
  {
    FirstRoundTrip(x, Code(y));
    SecondRoundTrip(x, y, 0);
  }

  lemma {:induction false} DecodeSymbolsEncode(b: Bytes)
    ensures AllSymbols(Encode(b)) && DecodeSymbols(Encode(b)) == Some(b)
    decreases |b|, 1
  {
    if |b| == 1 {
      OneByte(b[0]);
      assert b == [b[0]];
    } else if |b| == 2 {
      TwoBytes(b[0], b[1]);
      assert b == [b[0], b[1]];
    } else if |b| > 2 {
      EncodedGroup(b[0], b[1], b[2], b[3..]);
      assert b == [b[0], b[1], b[2]] + b[3..];
    }
  }

  lemma EncodedGroup(x: Byte, y: Byte, z: Byte, rest: Bytes)
    ensures AllSymbols(Encode([x, y, z] + rest))
    ensures DecodeSymbols(Encode([x, y, z] + rest)) == Some([x, y, z] + rest)
    decreases |rest| + 3, 0
  {
    DecodeSymbolsEncode(rest);
    FirstRoundTrip(x, Code(y));
    SecondRoundTrip(x, y, Code(z));
    ThirdRoundTrip(y, z);
    var a, b := FirstSymbol(x), SecondSymbol(x, Code(y));
    var c, d := ThirdSymbol(y, Code(z)), Symbol(Code(z) % 64);
    assert ([x, y, z] + rest)[3..] == rest;
    assert Encode([x, y, z] + rest) == [a, b, c, d] + Encode(rest);
    DecodeGroup(a, b, c, d, Encode(rest));
  }

  lemma {:induction false} StripNothing(s: Bytes)
    requires AllSymbols(s)
    ensures StripNewlines(s) == s
  {
    if s != [] {
      StripNothing(s[1..]);
    }
  }

  /** Decoding undoes encoding on every byte string. */
  lemma RoundTrip(b: Bytes)
    ensures Decode(Encode(b)) == Some(b)
  {
    DecodeSymbolsEncode(b);
    StripNothing(Encode(b));
  }

  /** The encoder never emits a separator, so "." can join two encodings. */
  lemma NoDot(b: Bytes)
    ensures '.' !in Encode(b)
  {
    EncodeSymbols(b);
  }

  // ---- what exactly is read --------------------------------------------------------

  /** The ends of the four runs of the table of section 5, and the runs between them. */
  lemma Alphabet(n: Sextet)
    ensures Symbol(0) == 'A' && Symbol(25) == 'Z' && Symbol(26) == 'a' && Symbol(51) == 'z'
    ensures Symbol(52) == '0' && Symbol(61) == '9' && Symbol(62) == '-' && Symbol(63) == '_'
    ensures n !in {25, 51, 61, 62, 63} ==> Symbol(n + 1) as int == Symbol(n) as int + 1
  {
  }

  lemma ShortVectors()
    ensures Encode("f") == "Zg" && Encode("fo") == "Zm8"
    ensures Encode("b") == "Yg" && Encode("ba") == "YmE"
  {
  }

  lemma GroupThen(x: Byte, y: Byte, z: Byte, rest: Bytes)
    ensures Encode([x, y, z] + rest)
         == [FirstSymbol(x), SecondSymbol(x, Code(y)), ThirdSymbol(y, Code(z)),
             Symbol(Code(z) % 64)] + Encode(rest)
  {
    assert ([x, y, z] + rest)[3..] == rest;
  }

  lemma FooThen(rest: Bytes)
    ensures Encode("foo" + rest) == "Zm9v" + Encode(rest)
  {
    GroupThen('f', 'o', 'o', rest);
    assert FirstSymbol('f') == 'Z' && SecondSymbol('f', Code('o')) == 'm';
    assert ThirdSymbol('o', Code('o')) == '9' && Symbol(Code('o') % 64) == 'v';
  }

  lemma Bar()
    ensures Encode("bar") == "YmFy"
  {
    GroupThen('b', 'a', 'r', []);
    var bar: Bytes := "bar";
    assert ['b', 'a', 'r'] + [] == bar;
    assert FirstSymbol('b') == 'Y' && SecondSymbol('b', Code('a')) == 'm';
    assert ThirdSymbol('a', Code('r')) == 'F' && Symbol(Code('r') % 64) == 'y';
  }

  /** The test vectors of section 10, without their padding. */
  lemma TestVectors()
    ensures Encode("f") == "Zg" && Encode("fo") == "Zm8" && Encode("foo") == "Zm9v"
    ensures Encode("foob") == "Zm9vYg" && Encode("fooba") == "Zm9vYmE"
    ensures Encode("foobar") == "Zm9vYmFy"
  {
    ShortVectors();
    Bar();
    FooThen([]);
    FooThen("b");
    FooThen("ba");
    FooThen("bar");
    assert "foo" + [] == "foo" && "Zm9v" + [] == "Zm9v";
    assert "foo" + "b" == "foob" && "foo" + "ba" == "fooba" && "foo" + "bar" == "foobar";
    assert "Zm9v" + "Yg" == "Zm9vYg" && "Zm9v" + "YmE" == "Zm9vYmE";
    assert "Zm9v" + "YmFy" == "Zm9vYmFy";
  }

  lemma SymbolOfValue(c: Byte)
    requires IsSymbol(c)
    ensures Symbol(Value(c)) == c
  {
  }

  lemma Bits(x: Sextet, y: Sextet)
    ensures (x * 4 + y / 16) / 4 == x && (x * 4 + y / 16) % 4 == y / 16
    ensures (x % 16 * 16 + y / 4) / 16 == x % 16 && (x % 16 * 16 + y / 4) % 16 == y / 4
    ensures (x % 4 * 64 + y) / 64 == x % 4 && (x % 4 * 64 + y) % 64 == y
    ensures x / 16 * 16 + x % 16 == x && x / 4 * 4 + x % 4 == x
  {
  }

  lemma CodeOfFirst(a: Byte, b: Byte)
    requires IsSymbol(a) && IsSymbol(b)
    ensures Code(FirstByte(a, b)) / 4 == Value(a) && Code(FirstByte(a, b)) % 4 == Value(b) / 16
  {
    Bits(Value(a), Value(b));
  }

  lemma CodeOfSecond(b: Byte, c: Byte)
    requires IsSymbol(b) && IsSymbol(c)
    ensures Code(SecondByte(b, c)) / 16 == Value(b) % 16
    ensures Code(SecondByte(b, c)) % 16 == Value(c) / 4
  {
    Bits(Value(b), Value(c));
  }

  lemma CodeOfThird(c: Byte, d: Byte)
    requires IsSymbol(c) && IsSymbol(d)
    ensures Code(ThirdByte(c, d)) / 64 == Value(c) % 4 && Code(ThirdByte(c, d)) % 64 == Value(d)
  {
    Bits(Value(c), Value(d));
  }

  /** s with the bits of its last symbol cleared that no byte uses. */
  function Canonical(s: Bytes): Bytes
    requires AllSymbols(s)
  {
    if |s| >= 4 then s[..4] + Canonical(s[4..])
    else if |s| == 3 then [s[0], s[1], Symbol(Value(s[2]) / 4 * 4)]
    else if |s| == 2 then [s[0], Symbol(Value(s[1]) / 16 * 16)]
    else s
  }

  lemma FirstBack(a: Byte, b: Byte)
    requires IsSymbol(a) && IsSymbol(b)
    ensures FirstSymbol(FirstByte(a, b)) == a
    ensures SecondSymbol(FirstByte(a, b), 0) == Symbol(Value(b) / 16 * 16)
  {
    SymbolOfValue(a);
    CodeOfFirst(a, b);
  }

  lemma SecondBack(a: Byte, b: Byte, c: Byte)
    requires IsSymbol(a) && IsSymbol(b) && IsSymbol(c)
    ensures SecondSymbol(FirstByte(a, b), Code(SecondByte(b, c))) == b
    ensures ThirdSymbol(SecondByte(b, c), 0) == Symbol(Value(c) / 4 * 4)
  {
    SymbolOfValue(b);
    CodeOfFirst(a, b);
    CodeOfSecond(b, c);
    Bits(Value(b), 0);
  }

  lemma ThirdBack(b: Byte, c: Byte, d: Byte)
    requires IsSymbol(b) && IsSymbol(c) && IsSymbol(d)
    ensures ThirdSymbol(SecondByte(b, c), Code(ThirdByte(c, d))) == c
    ensures Symbol(Code(ThirdByte(c, d)) % 64) == d
  {
    SymbolOfValue(c);
    SymbolOfValue(d);
    CodeOfSecond(b, c);
    CodeOfThird(c, d);
    Bits(Value(c), 0);
  }

  lemma GroupBack(a: Byte, b: Byte, c: Byte, d: Byte, rest: Bytes)
    requires IsSymbol(a) && IsSymbol(b) && IsSymbol(c) && IsSymbol(d)
    ensures Encode([FirstByte(a, b), SecondByte(b, c), ThirdByte(c, d)] + rest)
         == [a, b, c, d] + Encode(rest)
  {
    GroupThen(FirstByte(a, b), SecondByte(b, c), ThirdByte(c, d), rest);
    FirstBack(a, b);
    SecondBack(a, b, c);
    ThirdBack(b, c, d);
  }

  lemma ShortBack(s: Bytes)
    requires AllSymbols(s) && |s| <= 3 && |s| != 1
    ensures DecodeSymbols(s).Some? && Encode(DecodeSymbols(s).value) == Canonical(s)
  {
    if |s| >= 2 {
      FirstBack(s[0], s[1]);
    }
    if |s| == 3 {
      SecondBack(s[0], s[1], s[2]);
    }
  }

  lemma {:induction false} DecodeLength(s: Bytes)
    requires AllSymbols(s)
    ensures DecodeSymbols(s).Some? <==> |s| % 4 != 1
    decreases |s|
  {
    if |s| >= 4 {
      DecodeLength(s[4..]);
    }
  }

  lemma FourBack(s: Bytes, rest: Bytes)
    requires AllSymbols(s) && |s| >= 4
    requires DecodeSymbols(s[4..]) == Some(rest) && Encode(rest) == Canonical(s[4..])
    ensures DecodeSymbols(s).Some? && Encode(DecodeSymbols(s).value) == Canonical(s)
  {
    GroupBack(s[0], s[1], s[2], s[3], rest);
    assert s[..4] == [s[0], s[1], s[2], s[3]];
  }

  /** Encoding again gives the canonical form. */
  lemma {:induction false} DecodedBack(s: Bytes, b: Bytes)
    requires AllSymbols(s) && DecodeSymbols(s) == Some(b)
    ensures Encode(b) == Canonical(s)
    decreases |s|
  {
    if |s| >= 4 {
      var rest := DecodeSymbols(s[4..]).value;
      DecodedBack(s[4..], rest);
      FourBack(s, rest);
    } else {
      ShortBack(s);
    }
  }

  /** A text decodes to b exactly if, line breaks apart, it is the encoding of b up to the
      unused bits of its last symbol. */
  lemma DecodeExactly(s: Bytes, b: Bytes)
    ensures var t := StripNewlines(s);
            Decode(s) == Some(b) <==>
              AllSymbols(t) && |t| % 4 != 1 && Canonical(t) == Encode(b)
  {
    var t := StripNewlines(s);
    if AllSymbols(t) {
      DecodeLength(t);
      DecodeSymbolsEncode(b);
      if |t| % 4 != 1 {
        DecodedBack(t, DecodeSymbols(t).value);
        DecodeSymbolsEncode(DecodeSymbols(t).value);
      }
    }
  }

  lemma {:induction false} StripIsFilter(s: Bytes)
    ensures StripNewlines(s) == Filter(s, (c: Byte) => c != '\r' && c != '\n')
  {
    var keep := (c: Byte) => c != '\r' && c != '\n';
    if s != [] {
      StripIsFilter(s[1..]);
      FilterConcat([s[0]], s[1..], keep);
      FilterAppend([], s[0], keep);
      assert [] + [s[0]] == [s[0]] && [s[0]] + s[1..] == s;
    }
  }
}

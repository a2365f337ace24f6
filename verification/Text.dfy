/** The pieces of Go's `strings` and `strconv` packages that the modelled code leans on.
    A Go string is a sequence of bytes; where that matters (the session cookie) the
    model uses `Bytes`, elsewhere plain Dafny strings. */
module Text {

  datatype Option<+T> = None | Some(value: T)

  type Byte = c: char | c as int < 256 witness 'a'
  type Bytes = seq<Byte>

  /** `strings.SplitN(s, sep, 2)`: cut at the first separator, if there is one. */
  function Cut<T(==)>(s: seq<T>, sep: T): (r: Option<(seq<T>, seq<T>)>)
    ensures r.None? <==> sep !in s
    ensures r.Some? ==> s == r.value.0 + [sep] + r.value.1 && sep !in r.value.0
  {
    if s == [] then None
    else if s[0] == sep then Some(([], s[1..]))
    else
      match Cut(s[1..], sep)
      case None => None
      case Some((left, right)) =>
        assert s == [s[0]] + s[1..];
        Some(([s[0]] + left, right))
  }

  /** The first separator decides the cut, whatever follows it. */
  lemma {:induction false} CutAt<T>(left: seq<T>, sep: T, right: seq<T>)
    requires sep !in left
    ensures Cut(left + [sep] + right, sep) == Some((left, right))
  {
    var s := left + [sep] + right;
    if left == [] {
      assert s[1..] == right;
    } else {
      assert s[1..] == left[1..] + [sep] + right;
      CutAt(left[1..], sep, right);
      assert left == [left[0]] + left[1..];
    }
  }

  lemma CutJoined<T>(left: seq<T>, sep: T, right: seq<T>, tail: seq<T>)
    requires sep !in left
    ensures Cut(left + [sep] + right + tail, sep) == Some((left, right + tail))
  {
    CutAt(left, sep, right + tail);
    assert left + [sep] + right + tail == left + [sep] + (right + tail);
  }

  /** Whatever is appended behind a separator ends up in the right part. */
  lemma CutExtended<T>(s: seq<T>, sep: T, tail: seq<T>)
    requires sep in s
    ensures Cut(s + tail, sep) == Some((Cut(s, sep).value.0, Cut(s, sep).value.1 + tail))
  {
    CutJoined(Cut(s, sep).value.0, sep, Cut(s, sep).value.1, tail);
  }

  /** `strings.Split(s, sep)` for a one-element separator: never empty. */
  function Split<T(==)>(s: seq<T>, sep: T): (parts: seq<seq<T>>)
    ensures parts != []
    ensures forall p :: p in parts ==> sep !in p
    decreases |s|
  {
    match Cut(s, sep)
    case None => [s]
    case Some((left, right)) => [left] + Split(right, sep)
  }

  /** `strings.Join(parts, sep)`. */
  function Join<T>(parts: seq<seq<T>>, sep: seq<T>): seq<T>
  {
    if parts == [] then []
    else if |parts| == 1 then parts[0]
    else parts[0] + sep + Join(parts[1..], sep)
  }

  /** Splitting loses nothing: with its ensures this leaves one result only. */
  lemma {:induction false} SplitJoins<T>(s: seq<T>, sep: T)
    ensures Join(Split(s, sep), [sep]) == s
    decreases |s|
  {
    match Cut(s, sep)
    case None =>
    case Some((left, right)) =>
      SplitJoins(right, sep);
      assert ([left] + Split(right, sep))[1..] == Split(right, sep);
  }

  /** `strings.TrimRight(s, "\n")`. */
  function TrimNewlines(s: string): (t: string)
    ensures t <= s
    ensures t != [] ==> t[|t| - 1] != '\n'
    ensures forall i :: |t| <= i < |s| ==> s[i] == '\n'
  {
    if s != [] && s[|s| - 1] == '\n' then TrimNewlines(s[..|s| - 1]) else s
  }

  /** `strings.TrimSuffix(s, c)` for a one-character suffix. */
  function TrimSuffix(s: string, c: char): (t: string)
    ensures t == s || t + [c] == s
    ensures t == s ==> s == [] || s[|s| - 1] != c
  {
    if s != [] && s[|s| - 1] == c then s[..|s| - 1] else s
  }

  /** `unicode.IsSpace`: the characters with the White_Space property. */
  predicate IsSpace(c: char)
  {
    || c == ' ' || '\t' <= c <= '\r'
    || c as int in {0x85, 0xA0, 0x1680, 0x2028, 0x2029, 0x202F, 0x205F, 0x3000}
    || 0x2000 <= c as int <= 0x200A
  }

  /** The 25 code points with that property, one by one. */
  lemma SpacesExactly(c: char)
    ensures IsSpace(c) <==>
              c as int in {0x9, 0xA, 0xB, 0xC, 0xD, 0x20, 0x85, 0xA0, 0x1680, 0x2000, 0x2001, 0x2002,
                           0x2003, 0x2004, 0x2005, 0x2006, 0x2007, 0x2008, 0x2009, 0x200A, 0x2028,
                           0x2029, 0x202F, 0x205F, 0x3000}
  {
  }

  /** Length of the longest prefix of s on which IsSpace is constantly `space`. */
  function SpanLength(s: string, space: bool): (n: nat)
    ensures n <= |s|
    ensures forall i :: 0 <= i < n ==> IsSpace(s[i]) == space
    ensures n < |s| ==> IsSpace(s[n]) != space
  {
    if s == [] || IsSpace(s[0]) != space then 0 else 1 + SpanLength(s[1..], space)
  }

  /** `strings.Fields(s)`: the maximal runs of non-space characters. */
  function Fields(s: string): seq<string>
    decreases |s|
  {
    var k := SpanLength(s, true);
    if k == |s| then []
    else
      assert !IsSpace(s[k]);
      var t := s[k..];
      assert !IsSpace(t[0]);
      var n := SpanLength(t, false);
      [t[..n]] + Fields(t[n..])
  }

  predicate IsDigit(c: char) { '0' <= c <= '9' }

  predicate AllDigits(s: string) { forall i :: 0 <= i < |s| ==> IsDigit(s[i]) }

  function DigitValue(c: char): nat
    requires IsDigit(c)
  {
    c as int - '0' as int
  }

  const MAX_INT64: int := 0x7FFF_FFFF_FFFF_FFFF
  const MIN_INT64: int := -0x8000_0000_0000_0000

  predicate IsInt64(n: int) { MIN_INT64 <= n <= MAX_INT64 }

  function DigitsValue(s: string): nat
    requires AllDigits(s)
  {
    if s == [] then 0
    else 10 * DigitsValue(s[..|s| - 1]) + DigitValue(s[|s| - 1])
  }

  /** `strconv.ParseInt(s, 10, 64)` (and `Atoi` on a 64-bit platform): an optional sign,
      at least one digit, nothing else, and a value that fits. Every error is None. */
  function ParseInt(s: string): (r: Option<int>)
    ensures r.Some? ==> IsInt64(r.value)
  {
    if s == [] then None
    else
      var signed := s[0] == '-' || s[0] == '+';
      var digits := if signed then s[1..] else s;
      if digits == [] || !AllDigits(digits) then None
      else
        var magnitude: int := DigitsValue(digits);
        var n := if s[0] == '-' then -magnitude else magnitude;
        if IsInt64(n) then Some(n) else None
  }

  predicate IsSign(s: string) { s == "" || s == "-" || s == "+" }

  function Signed(sign: string, digits: string): int
    requires AllDigits(digits)
  {
    var n: int := DigitsValue(digits);
    if sign == "-" then -n else n
  }

  /** s is an optional sign and digits that come to n. */
  ghost predicate Spells(s: string, n: int)
  {
    exists sign: string, digits: string ::
      && s == sign + digits && IsSign(sign) && digits != "" && AllDigits(digits)
      && n == Signed(sign, digits)
  }

  lemma SpelledIsRead(sign: string, digits: string)
    requires IsSign(sign) && digits != "" && AllDigits(digits)
    requires IsInt64(Signed(sign, digits))
    ensures ParseInt(sign + digits) == Some(Signed(sign, digits))
  {
    var s := sign + digits;
    assert IsDigit(digits[0]);
    if sign == "" {
      assert s == digits;
    } else {
      assert s[0] == sign[0] && s[1..] == digits;
    }
  }

  lemma ReadIsSpelled(s: string)
    requires ParseInt(s).Some?
    ensures Spells(s, ParseInt(s).value)
  {
    var sign, digits := s[..1], s[1..];
    if s[0] != '-' && s[0] != '+' {
      sign, digits := "", s;
    } else {
      assert sign == [s[0]];
    }
    assert s == sign + digits && ParseInt(s).value == Signed(sign, digits);
  }

  /** Exactly the spellings of 64-bit integers are read. */
  lemma ParseIntExactly(s: string, n: int)
    ensures ParseInt(s) == Some(n) <==>
              Spells(s, n) && -9223372036854775808 <= n <= 9223372036854775807
  {
    if ParseInt(s).Some? {
      ReadIsSpelled(s);
    }
    if Spells(s, n) && IsInt64(n) {
      var sign: string, digits: string :|
        && s == sign + digits && IsSign(sign) && digits != "" && AllDigits(digits)
        && n == Signed(sign, digits);
      SpelledIsRead(sign, digits);
    }
  }

  function DigitChar(d: nat): (c: Byte)
    requires d < 10
    ensures IsDigit(c) && DigitValue(c) == d
  {
    ('0' as int + d) as char
  }

  function FormatNat(n: nat): (s: Bytes)
    ensures s != [] && AllDigits(s) && (n > 0 ==> s[0] != '0')
  {
    if n < 10 then [DigitChar(n)] else FormatNat(n / 10) + [DigitChar(n % 10)]
  }

  /** `fmt.Sprintf("%d", n)`. */
  function FormatInt(n: int): Bytes
  {
    if n < 0 then ['-'] + FormatNat(-n) else FormatNat(n)
  }

  lemma {:induction false} FormatNatValue(n: nat)
    ensures DigitsValue(FormatNat(n)) == n
  {
    if n >= 10 {
      FormatNatValue(n / 10);
      var s := FormatNat(n);
      assert s[..|s| - 1] == FormatNat(n / 10);
    } else {
      assert FormatNat(n)[..0] == [];
    }
  }

  /** Printing an int64 and reading it back is the identity. */
  lemma ParseFormat(n: int)
    requires IsInt64(n)
    ensures ParseInt(FormatInt(n)) == Some(n)
  {
    if n < 0 {
      FormatNatValue(-n);
      var s := FormatInt(n);
      assert s[0] == '-';
      assert s[1..] == FormatNat(-n);
      assert AllDigits(s[1..]) && DigitsValue(s[1..]) == -n;
    } else {
      FormatNatValue(n);
      assert IsDigit(FormatInt(n)[0]);
    }
  }

  /** Go's `<` on strings: lexicographic by character. */
  predicate LexLess(a: string, b: string)
  {
    b != [] && (a == [] || a[0] < b[0] || (a[0] == b[0] && LexLess(a[1..], b[1..])))
  }

  /** The first difference is at k, and there a is smaller. */
  predicate DiffersAt(a: string, b: string, k: nat)
  {
    k < |a| && k < |b| && a[..k] == b[..k] && a[k] < b[k]
  }

  lemma {:induction false} LexLessMeans(a: string, b: string) returns (k: nat)
    requires LexLess(a, b)
    ensures (a <= b && a != b) || DiffersAt(a, b, k)
    decreases |a|
  {
    k := 0;
    if a != [] && a[0] == b[0] {
      var n := LexLessMeans(a[1..], b[1..]);
      k := n + 1;
      assert a == [a[0]] + a[1..] && b == [b[0]] + b[1..];
      if DiffersAt(a[1..], b[1..], n) {
        assert a[..k] == [a[0]] + a[1..][..n] && b[..k] == [b[0]] + b[1..][..n];
      }
    }
  }

  lemma {:induction false} MeansLexLess(a: string, b: string, k: nat)
    requires (a <= b && a != b) || DiffersAt(a, b, k)
    ensures LexLess(a, b)
    decreases |a|
  {
    if DiffersAt(a, b, k) {
      if k > 0 {
        assert a[0] == a[..k][0] && b[0] == b[..k][0];
        assert a[1..][..k - 1] == a[..k][1..] && b[1..][..k - 1] == b[..k][1..];
        MeansLexLess(a[1..], b[1..], k - 1);
      }
    } else if a != [] {
      assert b[..|a|] == a && b[1..][..|a| - 1] == a[1..];
      MeansLexLess(a[1..], b[1..], k);
    }
  }

  /** A proper prefix comes first, and otherwise the first difference decides. */
  lemma LexLessExactly(a: string, b: string)
    ensures LexLess(a, b) <==> (a <= b && a != b) || exists k :: DiffersAt(a, b, k)
  {
    if LexLess(a, b) {
      var k := LexLessMeans(a, b);
    } else {
      if a <= b && a != b {
        MeansLexLess(a, b, 0);
      }
      if k: nat :| DiffersAt(a, b, k) {
        MeansLexLess(a, b, k);
      }
    }
  }

  lemma {:induction false} LexTotal(a: string, b: string)
    ensures LexLess(a, b) || a == b || LexLess(b, a)
    decreases |a|
  {
    if a != [] && b != [] && a[0] == b[0] {
      LexTotal(a[1..], b[1..]);
      assert a == [a[0]] + a[1..] && b == [b[0]] + b[1..];
    }
  }

  lemma {:induction false} LexAsymmetric(a: string, b: string)
    requires LexLess(a, b)
    ensures !LexLess(b, a) && a != b
    decreases |a|
  {
    if a != [] && b != [] && a[0] == b[0] {
      LexAsymmetric(a[1..], b[1..]);
    }
  }

  lemma {:induction false} LexTransitive(a: string, b: string, c: string)
    requires LexLess(a, b) && LexLess(b, c)
    ensures LexLess(a, c)
    decreases |a|
  {
    if a != [] && a[0] == b[0] == c[0] {
      LexTransitive(a[1..], b[1..], c[1..]);
    }
  }
}

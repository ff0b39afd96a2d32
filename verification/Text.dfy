// Text as the bytes of its encoding: what a string slice may hold, and the few byte-level text
// operations the codecs use.
module Text {

  type byte = x: int | 0 <= x < 256

  function Code(c: char): byte {
    if c as int < 256 then c as int else 0
  }

  // The bytes of ASCII text.
  function Ascii(s: string): seq<byte> {
    seq(|s|, i requires 0 <= i < |s| => Code(s[i]))
  }

  // ---------------------------------------------------------------- UTF-8 (section 4 of RFC 3629)

  predicate Tail(b: byte) {
    0x80 <= b <= 0xBF
  }

  // Length of the well-formed sequence at the start of s, or 0 when there is none.
  function Leading(s: seq<byte>): (n: nat)
    ensures n <= |s|
  {
    if |s| == 0 then 0
    else if s[0] <= 0x7F then 1
    else if |s| >= 2 && 0xC2 <= s[0] <= 0xDF && Tail(s[1]) then 2
    else if |s| >= 3 && Tail(s[2])
            && ((s[0] == 0xE0 && 0xA0 <= s[1] <= 0xBF)
                || (((0xE1 <= s[0] <= 0xEC) || (0xEE <= s[0] <= 0xEF)) && Tail(s[1]))
                || (s[0] == 0xED && 0x80 <= s[1] <= 0x9F)) then 3
    else if |s| >= 4 && Tail(s[2]) && Tail(s[3])
            && ((s[0] == 0xF0 && 0x90 <= s[1] <= 0xBF)
                || ((0xF1 <= s[0] <= 0xF3) && Tail(s[1]))
                || (s[0] == 0xF4 && 0x80 <= s[1] <= 0x8F)) then 4
    else 0
  }

  predicate Utf8(s: seq<byte>) {
    s == [] || (Leading(s) > 0 && Utf8(s[Leading(s)..]))
  }

  // A Unicode scalar value: any code point but the surrogates.
  type Scalar = c: int | 0 <= c < 0x11_0000 && !(0xD800 <= c < 0xE000)

  // Section 3 of RFC 3629: a lead byte that tells the length, then six bits a byte.
  function Utf8Of(c: Scalar): (r: seq<byte>)
    ensures 1 <= |r| <= 4
  {
    if c < 0x80 then [c]
    else if c < 0x800 then [0xC0 + c / 64, 0x80 + c % 64]
    else if c < 0x1_0000 then [0xE0 + c / 4096, 0x80 + c / 64 % 64, 0x80 + c % 64]
    else [0xF0 + c / 262144, 0x80 + c / 4096 % 64, 0x80 + c / 64 % 64, 0x80 + c % 64]
  }

  function TextOf(scalars: seq<Scalar>): seq<byte> {
    if scalars == [] then [] else Utf8Of(scalars[0]) + TextOf(scalars[1..])
  }

  lemma ScalarLeads(c: Scalar, rest: seq<byte>)
    ensures Leading(Utf8Of(c) + rest) == |Utf8Of(c)|
  {
    var s := Utf8Of(c) + rest;
    assert forall i :: 0 <= i < |Utf8Of(c)| ==> s[i] == Utf8Of(c)[i];
  }

  lemma SixBitsApart(x: nat, y: nat)
    requires y < 64
    ensures (x * 64 + y) / 64 == x && (x * 64 + y) % 64 == y
  {
  }

  lemma TwoByteScalar(x: nat, y: nat)
    requires 2 <= x < 32 && y < 64
    ensures x * 64 + y < 0x800 && Utf8Of(x * 64 + y) == [0xC0 + x, 0x80 + y]
  {
    SixBitsApart(x, y);
  }

  lemma ThreeByteScalar(x: nat, y: nat, z: nat)
    requires x < 16 && y < 64 && z < 64 && (x == 0 ==> y >= 32) && (x == 13 ==> y < 32)
    ensures var c := (x * 64 + y) * 64 + z;
      0x800 <= c < 0x1_0000 && !(0xD800 <= c < 0xE000) && Utf8Of(c) == [0xE0 + x, 0x80 + y, 0x80 + z]
  {
    SixBitsApart(x, y);
    SixBitsApart(x * 64 + y, z);
    assert ((x * 64 + y) * 64 + z) / 4096 == x;
  }

  lemma FourByteScalar(x: nat, y: nat, z: nat, w: nat)
    requires x < 5 && y < 64 && z < 64 && w < 64 && (x == 0 ==> y >= 16) && (x == 4 ==> y < 16)
    ensures var c := ((x * 64 + y) * 64 + z) * 64 + w;
      0x1_0000 <= c < 0x11_0000 && Utf8Of(c) == [0xF0 + x, 0x80 + y, 0x80 + z, 0x80 + w]
  {
    var c := ((x * 64 + y) * 64 + z) * 64 + w;
    SixBitsApart(x, y);
    SixBitsApart(x * 64 + y, z);
    SixBitsApart((x * 64 + y) * 64 + z, w);
    assert c / 4096 == x * 64 + y && c / 262144 == x;
  }

  // The scalar value whose encoding stands at the start of s.
  lemma LeadingScalar(s: seq<byte>) returns (c: Scalar)
    requires Leading(s) > 0
    ensures Utf8Of(c) == s[..Leading(s)]
  {
    var n := Leading(s);
    if n == 1 {
      c := s[0];
      assert s[..1] == [s[0]];
    } else if n == 2 {
      var x: nat, y: nat := s[0] - 0xC0, s[1] - 0x80;
      TwoByteScalar(x, y);
      c := x * 64 + y;
      assert s[..2] == [s[0], s[1]];
    } else if n == 3 {
      var x: nat, y: nat, z: nat := s[0] - 0xE0, s[1] - 0x80, s[2] - 0x80;
      ThreeByteScalar(x, y, z);
      c := (x * 64 + y) * 64 + z;
      assert s[..3] == [s[0], s[1], s[2]];
    } else {
      var x: nat, y: nat, z: nat, w: nat := s[0] - 0xF0, s[1] - 0x80, s[2] - 0x80, s[3] - 0x80;
      FourByteScalar(x, y, z, w);
      c := ((x * 64 + y) * 64 + z) * 64 + w;
      assert s[..4] == [s[0], s[1], s[2], s[3]];
    }
  }

  // The accepted byte strings are exactly the encodings of sequences of scalar values.
  lemma {:induction false} TextIsUtf8(scalars: seq<Scalar>)
    ensures Utf8(TextOf(scalars))
  {
    if scalars != [] {
      TextIsUtf8(scalars[1..]);
      ScalarLeads(scalars[0], TextOf(scalars[1..]));
      var s := TextOf(scalars);
      assert s[Leading(s)..] == TextOf(scalars[1..]);
    }
  }

  lemma {:induction false} Utf8IsText(s: seq<byte>) returns (scalars: seq<Scalar>)
    requires Utf8(s)
    ensures TextOf(scalars) == s
    decreases |s|
  {
    if s == [] {
      scalars := [];
    } else {
      var c := LeadingScalar(s);
      var rest := Utf8IsText(s[Leading(s)..]);
      scalars := [c] + rest;
      assert scalars[1..] == rest && s == s[..Leading(s)] + s[Leading(s)..];
    }
  }

  lemma {:induction false} AsciiIsUtf8(s: seq<byte>)
    requires forall b <- s :: b < 0x80
    ensures Utf8(s)
  {
    if s != [] {
      assert s[0] in s && forall b <- s[1..] :: b in s;
      AsciiIsUtf8(s[1..]);
    }
  }

  // ---------------------------------------------------------------- characters and segments

  predicate Digit(b: byte) { 48 <= b <= 57 }
  predicate Lower(b: byte) { 97 <= b <= 122 }
  predicate Upper(b: byte) { 65 <= b <= 90 }
  predicate Alphanumeric(b: byte) { Digit(b) || Lower(b) || Upper(b) }

  const UPPERCASE: string := "ABCDEFGHIJKLMNOPQRSTUVWXYZ"
  const LOWERCASE: string := "abcdefghijklmnopqrstuvwxyz"
  const DIGITS: string := "0123456789"

  lemma UppercaseRow(i: nat)
    ensures |UPPERCASE| == 26 && (i < 26 ==> Code(UPPERCASE[i]) == 65 + i)
  {
  }

  lemma LowercaseRow(i: nat)
    ensures |LOWERCASE| == 26 && (i < 26 ==> Code(LOWERCASE[i]) == 97 + i)
  {
  }

  lemma DigitRow(i: nat)
    ensures |DIGITS| == 10 && (i < 10 ==> Code(DIGITS[i]) == 48 + i)
  {
  }

  // The character classes are the characters one would write down for them.
  lemma ClassesAreCharacters(b: byte)
    ensures Upper(b) <==> b in Ascii(UPPERCASE)
    ensures Lower(b) <==> b in Ascii(LOWERCASE)
    ensures Digit(b) <==> b in Ascii(DIGITS)
    ensures Alphanumeric(b) <==> b in Ascii(UPPERCASE) || b in Ascii(LOWERCASE) || b in Ascii(DIGITS)
  {
    hide Ascii;
    UppercaseClass(b);
    LowercaseClass(b);
    DigitClass(b);
  }

  lemma UppercaseClass(b: byte)
    ensures Upper(b) <==> b in Ascii(UPPERCASE)
  {
    forall i: nat | i < 26 ensures |UPPERCASE| == 26 && Code(UPPERCASE[i]) == 65 + i { UppercaseRow(i); }
    if Upper(b) { assert Ascii(UPPERCASE)[b - 65] == b; }
  }

  lemma LowercaseClass(b: byte)
    ensures Lower(b) <==> b in Ascii(LOWERCASE)
  {
    forall i: nat | i < 26 ensures |LOWERCASE| == 26 && Code(LOWERCASE[i]) == 97 + i { LowercaseRow(i); }
    if Lower(b) { assert Ascii(LOWERCASE)[b - 97] == b; }
  }

  lemma DigitClass(b: byte)
    ensures Digit(b) <==> b in Ascii(DIGITS)
  {
    forall i: nat | i < 10 ensures |DIGITS| == 10 && Code(DIGITS[i]) == 48 + i { DigitRow(i); }
    if Digit(b) { assert Ascii(DIGITS)[b - 48] == b; }
  }

  function Fold(b: byte): byte {
    if Upper(b) then b + 32 else b
  }

  // Equality of ASCII text up to the case of letters.
  predicate SameIgnoringCase(a: seq<byte>, b: seq<byte>) {
    |a| == |b| && forall i :: 0 <= i < |a| ==> Fold(a[i]) == Fold(b[i])
  }

  // One letter in both cases: the i-th of the alphabet.
  predicate Paired(a: byte, b: byte, i: int) {
    && 0 <= i < |UPPERCASE| && i < |LOWERCASE|
    && ((a == Code(UPPERCASE[i]) && b == Code(LOWERCASE[i])) || (b == Code(UPPERCASE[i]) && a == Code(LOWERCASE[i])))
  }

  lemma PairedIs(a: byte, b: byte, i: int)
    ensures Paired(a, b, i) <==> 0 <= i < 26 && ((a == 65 + i && b == 97 + i) || (b == 65 + i && a == 97 + i))
  {
    if 0 <= i < 26 {
      UppercaseRow(i);
      LowercaseRow(i);
    }
  }

  // Two characters count as the same exactly when they are equal or one letter in both cases.
  lemma FoldPairsLetters(a: byte, b: byte)
    ensures Fold(a) == Fold(b) <==> a == b || exists i :: Paired(a, b, i)
  {
    hide Paired;
    var i := if Upper(a) then a - 65 else b - 65;
    PairedIs(a, b, i);
    if j :| Paired(a, b, j) { PairedIs(a, b, j); }
  }

  // The segments between separators: always at least one, possibly empty ones.
  function Split(s: seq<byte>, separator: byte): (r: seq<seq<byte>>)
    ensures |r| > 0
  {
    if s == [] then [[]]
    else
      var rest := Split(s[1..], separator);
      if s[0] == separator then [[]] + rest else [[s[0]] + rest[0]] + rest[1..]
  }

  function Join(parts: seq<seq<byte>>, separator: byte): seq<byte>
    requires parts != []
  {
    if |parts| == 1 then parts[0] else parts[0] + [separator] + Join(parts[1..], separator)
  }

  lemma JoinPrefixed(c: byte, parts: seq<seq<byte>>, separator: byte)
    requires parts != []
    ensures Join([[c] + parts[0]] + parts[1..], separator) == [c] + Join(parts, separator)
    ensures Join([[]] + parts, separator) == [separator] + Join(parts, separator)
  {
    assert ([[c] + parts[0]] + parts[1..])[1..] == parts[1..] && ([[]] + parts)[1..] == parts;
    assert [] + [separator] == [separator];
  }

  // Splitting is the one way to cut the text at every separator: the segments hold none and give
  // the text back.
  lemma {:induction false} SplitIsUndone(s: seq<byte>, separator: byte)
    ensures Join(Split(s, separator), separator) == s
    ensures forall part <- Split(s, separator) :: separator !in part
  {
    if s != [] {
      SplitIsUndone(s[1..], separator);
      JoinPrefixed(s[0], Split(s[1..], separator), separator);
      assert s == [s[0]] + s[1..];
    }
  }

  lemma {:induction false} SplitOfPart(part: seq<byte>, rest: seq<byte>, separator: byte)
    requires separator !in part
    ensures Split(part + [separator] + rest, separator) == [part] + Split(rest, separator)
    ensures Split(part, separator) == [part]
    decreases |part|
  {
    var s := part + [separator] + rest;
    if part == [] {
      assert s[1..] == rest;
    } else {
      SplitOfPart(part[1..], rest, separator);
      assert s[0] == part[0] && s[1..] == part[1..] + [separator] + rest;
      assert [part[0]] + part[1..] == part;
      var tail := Split(s[1..], separator);
      assert tail[0] == part[1..] && tail[1..] == Split(rest, separator);
    }
  }

  lemma {:induction false} SplitOfJoin(parts: seq<seq<byte>>, separator: byte)
    requires parts != [] && forall part <- parts :: separator !in part
    ensures Split(Join(parts, separator), separator) == parts
    decreases |parts|
  {
    if |parts| == 1 {
      SplitOfPart(parts[0], [], separator);
    } else {
      SplitOfJoin(parts[1..], separator);
      SplitOfPart(parts[0], Join(parts[1..], separator), separator);
      assert parts == [parts[0]] + parts[1..];
    }
  }

  // A separator at the end, or two with nothing between them.
  predicate HasGapAfterStart(s: seq<byte>, separator: byte) {
    && s != []
    && (s[|s| - 1] == separator || exists i :: 0 <= i < |s| - 1 && s[i] == separator && s[i + 1] == separator)
  }

  predicate HasGap(s: seq<byte>, separator: byte) {
    s == [] || s[0] == separator || HasGapAfterStart(s, separator)
  }

  lemma GapInTail(s: seq<byte>, separator: byte)
    requires s != []
    ensures HasGapAfterStart(s, separator) <==>
            if s[0] == separator then HasGap(s[1..], separator) else HasGapAfterStart(s[1..], separator)
  {
    var tail := s[1..];
    assert |s| > 1 ==> tail[|tail| - 1] == s[|s| - 1];
    if i :| 0 <= i < |s| - 1 && s[i] == separator && s[i + 1] == separator {
      if i > 0 { assert tail[i - 1] == separator && tail[i - 1 + 1] == separator; }
    }
    if i :| 0 <= i < |tail| - 1 && tail[i] == separator && tail[i + 1] == separator {
      assert s[i + 1] == separator && s[i + 1 + 1] == separator;
    }
  }

  lemma {:induction false} EmptySegments(s: seq<byte>, separator: byte)
    ensures Split(s, separator)[0] == [] <==> s == [] || s[0] == separator
    ensures [] in Split(s, separator)[1..] <==> HasGapAfterStart(s, separator)
    ensures [] in Split(s, separator) <==> HasGap(s, separator)
  {
    hide HasGapAfterStart;
    if s != [] {
      EmptySegments(s[1..], separator);
      GapInTail(s, separator);
      var rest := Split(s[1..], separator);
      assert Split(s, separator)[1..] == if s[0] == separator then rest else rest[1..];
    } else {
      assert !HasGapAfterStart(s, separator) by { NoGapInNothing(separator); }
    }
    assert Split(s, separator) == [Split(s, separator)[0]] + Split(s, separator)[1..];
  }

  lemma NoGapInNothing(separator: byte)
    ensures !HasGapAfterStart([], separator)
  {
  }

  // ---------------------------------------------------------------- decimal numbers

  predicate AllDigits(t: seq<byte>) {
    forall i :: 0 <= i < |t| ==> Digit(t[i])
  }

  function NumberOf(t: seq<byte>): nat
    requires AllDigits(t)
  {
    if t == [] then 0 else NumberOf(t[..|t| - 1]) * 10 + (t[|t| - 1] - 48)
  }

  // The canonical text: no sign, no leading zero.
  function Decimal(n: nat): seq<byte> {
    if n < 10 then [48 + n] else Decimal(n / 10) + [48 + n % 10]
  }

  lemma {:induction false} DecimalIsRead(n: nat)
    ensures Decimal(n) != [] && AllDigits(Decimal(n)) && NumberOf(Decimal(n)) == n
  {
    if n >= 10 {
      DecimalIsRead(n / 10);
      assert Decimal(n)[..|Decimal(n)| - 1] == Decimal(n / 10);
    } else {
      assert Decimal(n)[..0] == [];
    }
  }

  // Canonical text is the shortest text with its value.
  lemma {:induction false} DecimalIsShortest(t: seq<byte>)
    requires t != [] && AllDigits(t)
    ensures |Decimal(NumberOf(t))| <= |t|
  {
    if |t| > 1 {
      DecimalIsShortest(t[..|t| - 1]);
      assert NumberOf(t) / 10 == NumberOf(t[..|t| - 1]);
    } else {
      assert NumberOf(t[..0]) == 0;
    }
  }

  function Zeros(k: nat): seq<byte> {
    seq(k, _ => 48)
  }

  lemma {:induction false} ZerosAreZero(k: nat)
    ensures AllDigits(Zeros(k)) && NumberOf(Zeros(k)) == 0
  {
    if k > 0 {
      ZerosAreZero(k - 1);
      assert Zeros(k)[..k - 1] == Zeros(k - 1);
    }
  }

  // Leading zeros do not change a number.
  lemma {:induction false} PaddedIsRead(k: nat, n: nat)
    ensures AllDigits(Zeros(k) + Decimal(n)) && NumberOf(Zeros(k) + Decimal(n)) == n
  {
    var t := Zeros(k) + Decimal(n);
    if n >= 10 {
      PaddedIsRead(k, n / 10);
      assert t[..|t| - 1] == Zeros(k) + Decimal(n / 10);
    } else {
      ZerosAreZero(k);
      assert t[..|t| - 1] == Zeros(k);
    }
  }

  // Every digit string is the canonical text of its number behind leading zeros.
  lemma {:induction false} DigitsArePadded(t: seq<byte>) returns (k: nat)
    requires t != [] && AllDigits(t)
    ensures t == Zeros(k) + Decimal(NumberOf(t))
  {
    var front, last := t[..|t| - 1], t[|t| - 1];
    assert t == front + [last];
    if front == [] {
      assert NumberOf(t[..0]) == 0;
      k := 0;
    } else {
      k := DigitsArePadded(front);
      var m := NumberOf(front);
      if m == 0 {
        k := k + 1;
        assert Zeros(k) == Zeros(k - 1) + [48];
      } else {
        assert NumberOf(t) / 10 == m && NumberOf(t) >= 10;
      }
    }
  }

  function PowerOfTen(k: nat): nat {
    if k == 0 then 1 else 10 * PowerOfTen(k - 1)
  }

  lemma {:induction false} DecimalLength(n: nat, k: nat)
    requires k > 0 && n < PowerOfTen(k)
    ensures |Decimal(n)| <= k
  {
    if n >= 10 {
      DecimalLength(n / 10, k - 1);
    }
  }
}

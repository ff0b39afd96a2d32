// Unpadded base64 with the URL-safe alphabet: sections 3.2 and 5 of RFC 4648. Decoding accepts only
// canonical text, in which the unused bits of the last character are zero.
module Base64Url {
  import opened Prelude
  import opened Text

  type Sextet = x: int | 0 <= x < 64

  function Symbol(d: Sextet): byte {
    if d < 26 then 65 + d
    else if d < 52 then 97 + (d - 26)
    else if d < 62 then 48 + (d - 52)
    else if d == 62 then 45
    else 95
  }

  predicate IsSymbol(c: byte) {
    Alphanumeric(c) || c == 45 || c == 95
  }

  function Value(c: byte): Sextet
    requires IsSymbol(c)
  {
    if Upper(c) then c - 65
    else if Lower(c) then c - 97 + 26
    else if Digit(c) then c - 48 + 52
    else if c == 45 then 62
    else 63
  }

  // The four sextets of three bytes, and back. A missing byte counts as zero.
  function D0(a: byte): Sextet { a / 4 }
  function D1(a: byte, b: byte): Sextet { a % 4 * 16 + b / 16 }
  function D2(b: byte, c: byte): Sextet { b % 16 * 4 + c / 64 }
  function D3(c: byte): Sextet { c % 64 }

  function B0(x: Sextet, y: Sextet): byte { x * 4 + y / 16 }
  function B1(y: Sextet, z: Sextet): byte { y % 16 * 16 + z / 4 }
  function B2(z: Sextet, w: Sextet): byte { z % 4 * 64 + w }

  function Encode(b: seq<byte>): (t: seq<byte>) {
    if |b| == 0 then []
    else if |b| == 1 then [Symbol(D0(b[0])), Symbol(D1(b[0], 0))]
    else if |b| == 2 then [Symbol(D0(b[0])), Symbol(D1(b[0], b[1])), Symbol(D2(b[1], 0))]
    else [Symbol(D0(b[0])), Symbol(D1(b[0], b[1])), Symbol(D2(b[1], b[2])), Symbol(D3(b[2]))] + Encode(b[3..])
  }

  function Decode(t: seq<byte>): Option<seq<byte>> {
    if |t| == 0 then Some([])
    else if |t| == 1 || !IsSymbol(t[0]) || !IsSymbol(t[1]) then None
    else if |t| == 2 then
      if B1(Value(t[1]), 0) != 0 then None else Some([B0(Value(t[0]), Value(t[1]))])
    else if !IsSymbol(t[2]) then None
    else if |t| == 3 then
      if B2(Value(t[2]), 0) != 0 then None
      else Some([B0(Value(t[0]), Value(t[1])), B1(Value(t[1]), Value(t[2]))])
    else if !IsSymbol(t[3]) then None
    else
      match Decode(t[4..])
      case None => None
      case Some(rest) =>
        Some([B0(Value(t[0]), Value(t[1])), B1(Value(t[1]), Value(t[2])), B2(Value(t[2]), Value(t[3]))] + rest)
  }

  // The two length formulas of the header codec.
  function EncodedLength(n: nat): nat {
    n / 3 * 4 + (if n % 3 == 0 then 0 else if n % 3 == 1 then 2 else 3)
  }

  function DecodedLengthBound(n: nat): nat {
    n * 3 / 4
  }

  // ---------------------------------------------------------------- digits

  lemma ValueOfSymbol(d: Sextet)
    ensures IsSymbol(Symbol(d)) && Value(Symbol(d)) == d
  {
  }

  lemma SymbolOfValue(c: byte)
    requires IsSymbol(c)
    ensures Symbol(Value(c)) == c
  {
  }

  // Two digits written side by side are read back separately.
  lemma Join4(high: nat, low: nat)
    requires low < 4
    ensures (high * 4 + low) / 4 == high && (high * 4 + low) % 4 == low
  {
  }

  lemma Join16(high: nat, low: nat)
    requires low < 16
    ensures (high * 16 + low) / 16 == high && (high * 16 + low) % 16 == low
  {
  }

  lemma Join64(high: nat, low: nat)
    requires low < 64
    ensures (high * 64 + low) / 64 == high && (high * 64 + low) % 64 == low
  {
  }

  lemma FirstByte(a: byte, b: byte)
    ensures B0(D0(a), D1(a, b)) == a
  {
    Join16(a % 4, b / 16);
  }

  lemma SecondByte(a: byte, b: byte, c: byte)
    ensures B1(D1(a, b), D2(b, c)) == b
  {
    Join16(a % 4, b / 16);
    Join4(b % 16, c / 64);
  }

  lemma ThirdByte(b: byte, c: byte)
    ensures B2(D2(b, c), D3(c)) == c
  {
    Join4(b % 16, c / 64);
  }

  lemma TailsAreZero(a: byte, b: byte)
    ensures B1(D1(a, 0), 0) == 0 && B2(D2(b, 0), 0) == 0
  {
    Join16(a % 4, 0);
    Join4(b % 16, 0);
  }

  lemma BytesOfSextets(a: byte, b: byte, c: byte)
    ensures B0(D0(a), D1(a, b)) == a
    ensures B1(D1(a, b), D2(b, c)) == b
    ensures B2(D2(b, c), D3(c)) == c
    ensures B1(D1(a, 0), 0) == 0 && B2(D2(b, 0), 0) == 0
  {
    hide *;
    FirstByte(a, b);
    SecondByte(a, b, c);
    ThirdByte(b, c);
    TailsAreZero(a, b);
  }

  lemma FirstSextets(x: Sextet, y: Sextet, z: Sextet)
    ensures D0(B0(x, y)) == x && D1(B0(x, y), B1(y, z)) == y
    ensures B1(y, 0) == 0 ==> D1(B0(x, y), 0) == y
  {
    Join4(x, y / 16);
    Join16(y % 16, z / 4);
  }

  lemma LastSextets(y: Sextet, z: Sextet, w: Sextet)
    ensures D2(B1(y, z), B2(z, w)) == z && D3(B2(z, w)) == w
    ensures B2(z, 0) == 0 ==> D2(B1(y, z), 0) == z
  {
    Join16(y % 16, z / 4);
    Join64(z % 4, w);
  }

  lemma SextetsOfBytes(x: Sextet, y: Sextet, z: Sextet, w: Sextet)
    ensures D0(B0(x, y)) == x
    ensures D1(B0(x, y), B1(y, z)) == y
    ensures D2(B1(y, z), B2(z, w)) == z
    ensures D3(B2(z, w)) == w
    ensures B1(y, 0) == 0 ==> D1(B0(x, y), 0) == y
    ensures B2(z, 0) == 0 ==> D2(B1(y, z), 0) == z
  {
    hide *;
    FirstSextets(x, y, z);
    LastSextets(y, z, w);
  }

  // ---------------------------------------------------------------- round trips

  lemma {:induction false} EncodeUsesSymbols(b: seq<byte>)
    ensures forall i :: 0 <= i < |Encode(b)| ==> IsSymbol(Encode(b)[i])
  {
    hide D0, D1, D2, D3;
    if |b| >= 3 {
      EncodeUsesSymbols(b[3..]);
    }
  }

  // Decoding undoes encoding.
  lemma {:induction false} DecodeEncode(b: seq<byte>)
    ensures Decode(Encode(b)) == Some(b)
  {
    hide D0, D1, D2, D3, B0, B1, B2, Symbol, Value, IsSymbol;
    var b0, b1, b2 := if |b| > 0 then b[0] else 0, if |b| > 1 then b[1] else 0, if |b| > 2 then b[2] else 0;
    BytesOfSextets(b0, b1, b2);
    ValueOfSymbol(D0(b0));
    ValueOfSymbol(D1(b0, b1));
    ValueOfSymbol(D2(b1, b2));
    ValueOfSymbol(D3(b2));
    if |b| >= 3 {
      DecodeEncode(b[3..]);
      assert Encode(b)[4..] == Encode(b[3..]);
      assert b == [b0, b1, b2] + b[3..];
    } else if |b| == 2 {
      assert b == [b0, b1];
    } else if |b| == 1 {
      assert b == [b0];
    }
  }

  // Encoding undoes decoding: every accepted text is the canonical one for its bytes.
  lemma {:induction false} EncodeDecode(t: seq<byte>)
    requires Decode(t).Some?
    ensures Encode(Decode(t).value) == t
  {
    hide D0, D1, D2, D3, B0, B1, B2, Symbol, Value, IsSymbol;
    if |t| >= 2 {
      SymbolOfValue(t[0]);
      SymbolOfValue(t[1]);
    }
    if |t| == 2 {
      SextetsOfBytes(Value(t[0]), Value(t[1]), 0, 0);
    } else if |t| == 3 {
      SymbolOfValue(t[2]);
      SextetsOfBytes(Value(t[0]), Value(t[1]), Value(t[2]), 0);
    } else if |t| >= 4 {
      SymbolOfValue(t[2]);
      SymbolOfValue(t[3]);
      SextetsOfBytes(Value(t[0]), Value(t[1]), Value(t[2]), Value(t[3]));
      EncodeDecode(t[4..]);
      assert Decode(t).value[3..] == Decode(t[4..]).value;
      assert t == [t[0], t[1], t[2], t[3]] + t[4..];
    }
  }

  // Distinct bytes have distinct texts.
  lemma EncodeIsInjective(a: seq<byte>, b: seq<byte>)
    requires Encode(a) == Encode(b)
    ensures a == b
  {
    DecodeEncode(a);
    DecodeEncode(b);
  }

  // ---------------------------------------------------------------- what the text says

  // The URL-safe alphabet in the order of table 2 of RFC 4648.
  const ALPHABET: string := UPPERCASE + LOWERCASE + DIGITS + "-_"

  lemma AlphabetIsWrittenOut()
    ensures |ALPHABET| == 64
    ensures forall i :: 0 <= i < 26 ==> ALPHABET[i] == UPPERCASE[i]
    ensures forall i :: 26 <= i < 52 ==> ALPHABET[i] == LOWERCASE[i - 26]
    ensures forall i :: 52 <= i < 62 ==> ALPHABET[i] == DIGITS[i - 52]
    ensures ALPHABET[62] == '-' && ALPHABET[63] == '_'
  {
  }

  // The symbol of d is the d-th character of the alphabet.
  lemma SymbolIsInAlphabet(d: Sextet)
    ensures |ALPHABET| == 64 && Symbol(d) == Ascii(ALPHABET)[d]
  {
    AlphabetIsWrittenOut();
    if d < 26 { UppercaseRow(d); }
    else if d < 52 { LowercaseRow(d - 26); }
    else if d < 62 { DigitRow(d - 52); }
  }

  // The number written by the digits that follow what was read so far, most significant first.
  function Read(base: nat, sofar: nat, digits: seq<nat>): nat
    decreases |digits|
  {
    if digits == [] then sofar else Read(base, sofar * base + digits[0], digits[1..])
  }

  // These digits, looked up in the alphabet, are the text.
  ghost predicate Spells(digits: seq<Sextet>, text: seq<byte>) {
    |digits| == |text| && forall i :: 0 <= i < |text| ==> |ALPHABET| == 64 && text[i] == Ascii(ALPHABET)[digits[i]]
  }

  lemma SpellsConcat(a: seq<Sextet>, s: seq<byte>, b: seq<Sextet>, t: seq<byte>)
    requires Spells(a, s) && Spells(b, t)
    ensures Spells(a + b, s + t)
  {
  }

  lemma {:induction false} ReadConcat(base: nat, sofar: nat, a: seq<nat>, b: seq<nat>)
    ensures Read(base, sofar, a + b) == Read(base, Read(base, sofar, a), b)
    decreases |a|
  {
    if a == [] {
      assert a + b == b;
    } else {
      ReadConcat(base, sofar * base + a[0], a[1..], b);
      assert (a + b)[0] == a[0] && (a + b)[1..] == a[1..] + b;
    }
  }

  lemma ReadSextets(sofar: nat, x: nat, y: nat, z: nat, w: nat)
    ensures Read(64, sofar, [x, y]) == (sofar * 64 + x) * 64 + y
    ensures Read(64, sofar, [x, y, z]) == ((sofar * 64 + x) * 64 + y) * 64 + z
    ensures Read(64, sofar, [x, y, z, w]) == (((sofar * 64 + x) * 64 + y) * 64 + z) * 64 + w
  {
    assert [x, y, z, w][1..] == [y, z, w] && [y, z, w][1..] == [z, w] && [z, w][1..] == [w] && [w][1..] == [];
    assert [x, y, z][1..] == [y, z] && [y, z][1..] == [z] && [z][1..] == [] && [x, y][1..] == [y] && [y][1..] == [];
    var one := sofar * 64 + x;
    var two := one * 64 + y;
    assert Read(64, one, [y]) == two;
    assert Read(64, two, [z]) == two * 64 + z;
    assert Read(64, one, [y, z]) == Read(64, two, [z]);
    assert Read(64, two * 64 + z, [w]) == (two * 64 + z) * 64 + w;
    assert Read(64, two, [z, w]) == Read(64, two * 64 + z, [w]);
    assert Read(64, one, [y, z, w]) == Read(64, two, [z, w]);
    assert Read(64, sofar, [x, y, z, w]) == Read(64, one, [y, z, w]);
  }

  lemma ReadBytes(sofar: nat, a: nat, b: nat, c: nat)
    ensures Read(256, sofar, [a]) == sofar * 256 + a
    ensures Read(256, sofar, [a, b]) == (sofar * 256 + a) * 256 + b
    ensures Read(256, sofar, [a, b, c]) == ((sofar * 256 + a) * 256 + b) * 256 + c
  {
    assert [a, b, c][1..] == [b, c] && [b, c][1..] == [c] && [c][1..] == [] && [a, b][1..] == [b];
    assert [b][1..] == [] && [a][1..] == [];
    var one := sofar * 256 + a;
    assert Read(256, one, [b, c]) == Read(256, one * 256 + b, [c]);
    assert Read(256, one, [b]) == Read(256, one * 256 + b, []);
  }

  // Up to three bytes and their sextets are the same number, up to the unused low bits.
  lemma GroupReads(sofar: nat, a: byte, b: byte, c: byte)
    ensures Read(64, sofar, [D0(a), D1(a, b), D2(b, c), D3(c)]) == Read(256, sofar, [a, b, c])
    ensures Read(64, sofar, [D0(a), D1(a, b), D2(b, 0)]) == 4 * Read(256, sofar, [a, b])
    ensures Read(64, sofar, [D0(a), D1(a, 0)]) == 16 * Read(256, sofar, [a])
  {
    hide Read;
    ReadSextets(sofar, D0(a), D1(a, b), D2(b, c), D3(c));
    ReadSextets(sofar, D0(a), D1(a, b), D2(b, 0), 0);
    ReadSextets(sofar, D0(a), D1(a, 0), 0, 0);
    ReadBytes(sofar, a, b, c);
  }

  // The text of b is, in the alphabet, the base-64 writing of the number whose base-256 digits are
  // the bytes of b, shifted by the 0, 4 or 2 bits that fill up the last character.
  lemma {:induction false} EncodingIsTheNumber(b: seq<byte>, sofar: nat) returns (digits: seq<Sextet>)
    ensures Spells(digits, Encode(b))
    ensures Read(64, sofar, digits) ==
      Read(256, sofar, b) * (if |b| % 3 == 0 then 1 else if |b| % 3 == 1 then 16 else 4)
    decreases |b|
  {
    hide D0, D1, D2, D3, Symbol, Spells, Read;
    var b0, b1, b2 := if |b| > 0 then b[0] else 0, if |b| > 1 then b[1] else 0, if |b| > 2 then b[2] else 0;
    GroupReads(sofar, b0, b1, b2);
    SymbolsSpell(b0, b1, b2);
    if |b| == 0 {
      digits := [];
      NothingSpelled(sofar);
    } else if |b| == 1 {
      digits := [D0(b0), D1(b0, 0)];
      assert b == [b0];
    } else if |b| == 2 {
      digits := [D0(b0), D1(b0, b1), D2(b1, 0)];
      assert b == [b0, b1];
    } else {
      var group: seq<Sextet> := [D0(b0), D1(b0, b1), D2(b1, b2), D3(b2)];
      var next := Read(256, sofar, [b0, b1, b2]);
      var rest := EncodingIsTheNumber(b[3..], next);
      digits := group + rest;
      SpellsConcat(group, [Symbol(D0(b0)), Symbol(D1(b0, b1)), Symbol(D2(b1, b2)), Symbol(D3(b2))],
                   rest, Encode(b[3..]));
      ReadConcat(64, sofar, group, rest);
      assert b == [b0, b1, b2] + b[3..];
      ReadConcat(256, sofar, [b0, b1, b2], b[3..]);
    }
  }

  lemma NothingSpelled(sofar: nat)
    ensures Spells([], []) && Read(64, sofar, []) == Read(256, sofar, []) == sofar
  {
  }

  lemma SymbolsSpell(a: byte, b: byte, c: byte)
    ensures Spells([D0(a), D1(a, 0)], [Symbol(D0(a)), Symbol(D1(a, 0))])
    ensures Spells([D0(a), D1(a, b), D2(b, 0)], [Symbol(D0(a)), Symbol(D1(a, b)), Symbol(D2(b, 0))])
    ensures Spells([D0(a), D1(a, b), D2(b, c), D3(c)],
                   [Symbol(D0(a)), Symbol(D1(a, b)), Symbol(D2(b, c)), Symbol(D3(c))])
  {
    hide D0, D1, D2, D3, Symbol, Ascii;
    SymbolIsInAlphabet(D0(a));
    SymbolIsInAlphabet(D1(a, 0));
    SymbolIsInAlphabet(D1(a, b));
    SymbolIsInAlphabet(D2(b, 0));
    SymbolIsInAlphabet(D2(b, c));
    SymbolIsInAlphabet(D3(c));
  }

  // ---------------------------------------------------------------- lengths

  lemma {:induction false} LengthOfEncoding(b: seq<byte>)
    ensures |Encode(b)| == EncodedLength(|b|)
  {
    if |b| >= 3 {
      LengthOfEncoding(b[3..]);
    }
  }

  // The bound computed before decoding is the exact decoded length of every accepted text.
  lemma BoundIsExact(t: seq<byte>)
    requires Decode(t).Some?
    ensures DecodedLengthBound(|t|) == |Decode(t).value|
    ensures |t| == EncodedLength(|Decode(t).value|)
  {
    EncodeDecode(t);
    LengthOfEncoding(Decode(t).value);
  }

  // A text no longer than the encoding of `limit` bytes decodes to at most `limit` bytes.
  lemma LimitsAgree(t: seq<byte>, limit: nat)
    requires Decode(t).Some?
    ensures |t| <= EncodedLength(limit) <==> |Decode(t).value| <= limit
  {
    BoundIsExact(t);
  }
}

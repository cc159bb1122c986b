/** Unpadded URL-safe base64 (section 5 of RFC 4648): decoding is the exact inverse of encoding. */
module Base64 {
  import opened Types

  type Byte = x: int | 0 <= x < 256
  type Bytes = seq<Byte>

  /** The character for six bits. */
  function Symbol(v: int): char
    requires 0 <= v < 64
  {
    if v < 26 then ('A' as int + v) as char
    else if v < 52 then ('a' as int + v - 26) as char
    else if v < 62 then ('0' as int + v - 52) as char
    else if v == 62 then '-' else '_'
  }

  /** The six bits of a character of the alphabet. */
  function Value(c: char): (v: Option<int>)
    ensures v.Some? ==> 0 <= v.value < 64
  {
    if 'A' <= c <= 'Z' then Some(c as int - 'A' as int)
    else if 'a' <= c <= 'z' then Some(c as int - 'a' as int + 26)
    else if '0' <= c <= '9' then Some(c as int - '0' as int + 52)
    else if c == '-' then Some(62) else if c == '_' then Some(63) else None
  }

  lemma SymbolValue(v: int)
    requires 0 <= v < 64
    ensures Value(Symbol(v)) == Some(v) && Symbol(v) != '$'
  {
  }

  lemma ValueSymbol(c: char)
    requires Value(c).Some?
    ensures Symbol(Value(c).value) == c
  {
  }

  /** Three bytes become four characters; one or two left over become two or three, padded with zero bits. */
  function Encode(b: Bytes): string {
    if b == [] then ""
    else if |b| == 1 then [Symbol(b[0] / 4), Symbol(b[0] % 4 * 16)]
    else if |b| == 2 then [Symbol(b[0] / 4), Symbol(b[0] % 4 * 16 + b[1] / 16), Symbol(b[1] % 16 * 4)]
    else [Symbol(b[0] / 4), Symbol(b[0] % 4 * 16 + b[1] / 16), Symbol(b[1] % 16 * 4 + b[2] / 64), Symbol(b[2] % 64)] + Encode(b[3..])
  }

  /** One group of up to four characters; bits that encode nothing must be zero. */
  function DecodeGroup(s: string): Option<Bytes>
    requires |s| <= 4
  {
    if exists i :: 0 <= i < |s| && Value(s[i]).None? then None
    else if s == "" then Some([])
    else if |s| == 1 then None
    else
      var x, y := Value(s[0]).value, Value(s[1]).value;
      if |s| == 2 then (if y % 16 == 0 then Some([x * 4 + y / 16]) else None) else
        var z := Value(s[2]).value;
        if |s| == 3 then (if z % 4 == 0 then Some([x * 4 + y / 16, y % 16 * 16 + z / 4]) else None) else
          Some([x * 4 + y / 16, y % 16 * 16 + z / 4, z % 4 * 64 + Value(s[3]).value])
  }

  function Decode(s: string): Option<Bytes> {
    if |s| <= 4 then DecodeGroup(s) else
      var group, rest := DecodeGroup(s[..4]), Decode(s[4..]);
      if group.Some? && rest.Some? then Some(group.value + rest.value) else None
  }

  /** Three bytes and their four characters are the same number of twenty-four bits. */
  lemma GroupIsNumber(x: Byte, y: Byte, z: Byte)
    ensures var s := Encode([x, y, z]);
            && |s| == 4 && (forall k :: 0 <= k < 4 ==> Value(s[k]).Some?)
            && Value(s[0]).value * 262_144 + Value(s[1]).value * 4_096 + Value(s[2]).value * 64 + Value(s[3]).value
               == x * 65_536 + y * 256 + z
  {
    TwoAndFourBits(x % 4, y / 16);
    FourAndTwoBits(y % 16, z / 64);
    SymbolValue(x / 4);
    SymbolValue(x % 4 * 16 + y / 16);
    SymbolValue(y % 16 * 4 + z / 64);
    SymbolValue(z % 64);
    var b: Bytes := [x, y, z];
    assert b[3..] == [] && Encode([]) == "";
    assert Encode(b) == [Symbol(x / 4), Symbol(x % 4 * 16 + y / 16), Symbol(y % 16 * 4 + z / 64), Symbol(z % 64)];
  }

  // ----- the two are inverse -----

  lemma TwoAndFourBits(a: int, b: int)
    requires 0 <= a < 4 && 0 <= b < 16
    ensures (a * 16 + b) / 16 == a && (a * 16 + b) % 16 == b && a * 16 + b < 64
  {
  }

  lemma FourAndTwoBits(a: int, b: int)
    requires 0 <= a < 16 && 0 <= b < 4
    ensures (a * 4 + b) / 4 == a && (a * 4 + b) % 4 == b && a * 4 + b < 64
  {
  }

  lemma EncodeOne(x: Byte)
    ensures DecodeGroup(Encode([x])) == Some([x])
  {
    SymbolValue(x / 4);
    SymbolValue(x % 4 * 16);
    TwoAndFourBits(x % 4, 0);
  }

  lemma EncodeTwo(x: Byte, y: Byte)
    ensures DecodeGroup(Encode([x, y])) == Some([x, y])
  {
    TwoAndFourBits(x % 4, y / 16);
    FourAndTwoBits(y % 16, 0);
    SymbolValue(x / 4);
    SymbolValue(x % 4 * 16 + y / 16);
    SymbolValue(y % 16 * 4);
  }

  lemma EncodeThree(x: Byte, y: Byte, z: Byte)
    ensures |Encode([x, y, z])| == 4 && DecodeGroup(Encode([x, y, z])) == Some([x, y, z])
  {
    TwoAndFourBits(x % 4, y / 16);
    FourAndTwoBits(y % 16, z / 64);
    SymbolValue(x / 4);
    SymbolValue(x % 4 * 16 + y / 16);
    SymbolValue(y % 16 * 4 + z / 64);
    SymbolValue(z % 64);
    var b: Bytes := [x, y, z];
    assert b[3..] == [] && Encode([]) == "";
    var s := [Symbol(x / 4), Symbol(x % 4 * 16 + y / 16), Symbol(y % 16 * 4 + z / 64), Symbol(z % 64)];
    assert Encode(b) == s;
    hide Encode, Symbol, Value;
  }

  lemma EncodeShort(b: Bytes)
    requires |b| <= 3
    ensures |Encode(b)| <= 4 && DecodeGroup(Encode(b)) == Some(b) && (|b| == 3 ==> |Encode(b)| == 4)
  {
    if |b| == 1 {
      EncodeOne(b[0]);
      assert b == [b[0]];
    } else if |b| == 2 {
      EncodeTwo(b[0], b[1]);
      assert b == [b[0], b[1]];
    } else if |b| == 3 {
      EncodeThree(b[0], b[1], b[2]);
      assert b == [b[0], b[1], b[2]];
    }
  }

  lemma EncodeStep(b: Bytes)
    requires |b| > 3
    ensures Encode(b) == Encode(b[..3]) + Encode(b[3..]) && b == b[..3] + b[3..]
  {
    var group := b[..3];
    assert group[3..] == [] && Encode([]) == "";
    assert group[0] == b[0] && group[1] == b[1] && group[2] == b[2];
    hide Symbol;
  }

  lemma EncodeNonEmpty(b: Bytes)
    ensures b != [] <==> Encode(b) != ""
  {
  }

  lemma {:induction false} DecodeEncode(b: Bytes)
    ensures Decode(Encode(b)) == Some(b)
  {
    if |b| <= 3 {
      EncodeShort(b);
    } else {
      DecodeEncode(b[3..]);
      EncodeStep(b);
      EncodeShort(b[..3]);
      EncodeNonEmpty(b[3..]);
      hide Encode, DecodeGroup;
      var s := Encode(b);
      assert s[..4] == Encode(b[..3]) && s[4..] == Encode(b[3..]);
    }
  }

  lemma TwoEncode(s: string)
    requires |s| == 2 && DecodeGroup(s).Some?
    ensures |DecodeGroup(s).value| == 1 && Encode(DecodeGroup(s).value) == s
  {
    assert Value(s[0]).Some? && Value(s[1]).Some?;
    ValueSymbol(s[0]);
    ValueSymbol(s[1]);
    var x, y := Value(s[0]).value, Value(s[1]).value;
    JoinTwoBits(x, y / 16);
    hide Symbol, Value;
    assert s == [s[0], s[1]];
  }

  lemma ThreeEncode(s: string)
    requires |s| == 3 && DecodeGroup(s).Some?
    ensures |DecodeGroup(s).value| == 2 && Encode(DecodeGroup(s).value) == s
  {
    assert Value(s[0]).Some? && Value(s[1]).Some? && Value(s[2]).Some?;
    ValueSymbol(s[0]);
    ValueSymbol(s[1]);
    ValueSymbol(s[2]);
    var x, y, z := Value(s[0]).value, Value(s[1]).value, Value(s[2]).value;
    JoinTwoBits(x, y / 16);
    JoinFourBits(y % 16, z / 4);
    hide Symbol, Value;
    var b: Bytes := [x * 4 + y / 16, y % 16 * 16 + z / 4];
    assert z % 4 == 0 && DecodeGroup(s) == Some(b);
    hide DecodeGroup;
    assert b[0] / 4 == x && b[0] % 4 * 16 + b[1] / 16 == y && b[1] % 16 * 4 == z;
    assert s == [s[0], s[1], s[2]];
  }

  lemma FourEncode(s: string)
    requires |s| == 4 && DecodeGroup(s).Some?
    ensures |DecodeGroup(s).value| == 3 && Encode(DecodeGroup(s).value) == s
  {
    assert Value(s[0]).Some? && Value(s[1]).Some? && Value(s[2]).Some? && Value(s[3]).Some?;
    ValueSymbol(s[0]);
    ValueSymbol(s[1]);
    ValueSymbol(s[2]);
    ValueSymbol(s[3]);
    var x, y, z := Value(s[0]).value, Value(s[1]).value, Value(s[2]).value;
    JoinTwoBits(x, y / 16);
    JoinFourBits(y % 16, z / 4);
    JoinSixBits(z % 4, Value(s[3]).value);
    hide Symbol, Value;
    assert s == [s[0], s[1], s[2], s[3]];
  }

  lemma GroupEncodes(s: string)
    requires |s| <= 4 && DecodeGroup(s).Some?
    ensures |DecodeGroup(s).value| <= 3 && Encode(DecodeGroup(s).value) == s
    ensures |s| == 4 <==> |DecodeGroup(s).value| == 3
  {
    if s == "" {
    } else if |s| == 2 {
      TwoEncode(s);
    } else if |s| == 3 {
      ThreeEncode(s);
    } else if |s| == 4 {
      FourEncode(s);
    }
  }

  lemma JoinTwoBits(x: int, y: int)
    requires 0 <= x < 64 && 0 <= y < 4
    ensures (x * 4 + y) / 4 == x && (x * 4 + y) % 4 == y
  {
  }

  lemma JoinFourBits(y: int, z: int)
    requires 0 <= y < 16 && 0 <= z < 16
    ensures (y * 16 + z) / 16 == y && (y * 16 + z) % 16 == z
  {
  }

  lemma JoinSixBits(z: int, w: int)
    requires 0 <= z < 4 && 0 <= w < 64
    ensures (z * 64 + w) / 64 == z && (z * 64 + w) % 64 == w
  {
  }

  /** Decoding accepts nothing but what encoding produces. */
  lemma {:induction false} EncodeDecode(s: string)
    requires Decode(s).Some?
    ensures Encode(Decode(s).value) == s
    decreases |s|
  {
    if |s| <= 4 {
      GroupEncodes(s);
    } else {
      GroupEncodes(s[..4]);
      EncodeDecode(s[4..]);
      var b := Decode(s).value;
      var group, rest := DecodeGroup(s[..4]).value, Decode(s[4..]).value;
      hide Encode, DecodeGroup;
      assert b[..3] == group && b[3..] == rest;
      EncodeNonEmpty(rest);
      EncodeStep(b);
      assert s == s[..4] + s[4..];
    }
  }

  lemma {:induction false} NoDollar(b: Bytes)
    ensures '$' !in Encode(b)
  {
    if |b| > 3 {
      NoDollar(b[3..]);
    }
  }
}

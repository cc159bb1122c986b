/** The text of a password record, and the check of a password against it. */
module Records {
  import opened Types
  import opened Base64
  import opened Password

  // ----- numerals -----

  predicate IsDigit(c: char) { '0' <= c <= '9' }

  function DigitOf(n: nat): char
    requires n < 10
  {
    ('0' as int + n) as char
  }

  function Decimal(n: nat): string {
    if n < 10 then [DigitOf(n)] else Decimal(n / 10) + [DigitOf(n % 10)]
  }

  function Digits(s: string): Option<nat> {
    if s == "" then Some(0) else
      var rest, last := Digits(s[..|s| - 1]), s[|s| - 1];
      if rest.Some? && IsDigit(last) then Some(rest.value * 10 + (last as int - '0' as int)) else None
  }

  /** str::parse::<u32>: an optional plus sign, then at least one digit, and no overflow. */
  function ParseU32(s: string): Option<U32> {
    var digits := if s != "" && s[0] == '+' then s[1..] else s;
    if digits == "" || Digits(digits).None? || Digits(digits).value > 0xFFFF_FFFF then None else Some(Digits(digits).value)
  }

  lemma {:induction false} DecimalDigits(n: nat)
    ensures Decimal(n) != "" && Digits(Decimal(n)) == Some(n) && forall c :: c in Decimal(n) ==> IsDigit(c)
  {
    if n < 10 {
      assert Decimal(n)[..0] == "";
    } else {
      DecimalDigits(n / 10);
      assert Decimal(n)[..|Decimal(n)| - 1] == Decimal(n / 10);
    }
  }

  lemma ParseDecimal(n: U32)
    ensures ParseU32(Decimal(n)) == Some(n) && '$' !in Decimal(n)
  {
    DecimalDigits(n);
    assert Decimal(n)[0] in Decimal(n);
  }

  // ----- fields -----

  /** str::split: there is always at least one field. */
  function Split(s: string): (fields: seq<string>)
    ensures fields != []
  {
    if s == "" then [""] else
      var rest := Split(s[1..]);
      if s[0] == '$' then [""] + rest else [[s[0]] + rest[0]] + rest[1..]
  }

  function Joined(fields: seq<string>): string
    requires fields != []
  {
    if |fields| == 1 then fields[0] else fields[0] + "$" + Joined(fields[1..])
  }

  lemma {:induction false} SplitOne(s: string)
    requires '$' !in s
    ensures Split(s) == [s]
  {
    if s == "" {
    } else {
      assert s[0] in s;
      SplitOne(s[1..]);
      assert [s[0]] + s[1..] == s;
    }
  }

  lemma {:induction false} SplitFirst(s: string, rest: string)
    requires '$' !in s
    ensures Split(s + "$" + rest) == [s] + Split(rest)
  {
    var t := s + "$" + rest;
    if s == "" {
      assert t[0] == '$' && t[1..] == rest;
    } else {
      assert s[0] in s;
      assert t[0] == s[0] && t[1..] == s[1..] + "$" + rest;
      SplitFirst(s[1..], rest);
      assert [s[0]] + s[1..] == s;
    }
  }

  lemma {:induction false} JoinSplit(s: string)
    ensures Joined(Split(s)) == s
  {
    if s == "" {
    } else {
      JoinSplit(s[1..]);
      var rest := Split(s[1..]);
      assert s == [s[0]] + s[1..];
      if s[0] == '$' {
        assert ([""] + rest)[1..] == rest;
      } else {
        var fields := [[s[0]] + rest[0]] + rest[1..];
        assert fields[1..] == rest[1..];
      }
    }
  }

  // ----- records -----

  const TAG := "pbkdf2-sha256"
  const KDF_ITERATIONS: U32 := 600_000

  datatype Record = Record(iterations: U32, salt: Bytes, derived: Bytes) {
    predicate Acceptable() {
      100_000 <= iterations <= 1_000_000 && 8 <= |salt| && |derived| == HASH_BYTES
    }
  }

  function Printed(r: Record): string {
    TAG + "$" + Decimal(r.iterations) + "$" + Encode(r.salt) + "$" + Encode(r.derived)
  }

  function Parsed(encoded: string): Option<Record> {
    var fields := Split(encoded);
    if |fields| != 4 || fields[0] != TAG then None else
      var iterations, salt, derived := ParseU32(fields[1]), Decode(fields[2]), Decode(fields[3]);
      if iterations.None? || salt.None? || derived.None? then None
      else
        var r := Record(iterations.value, salt.value, derived.value);
        if r.Acceptable() then Some(r) else None
  }

  lemma Tagless()
    ensures '$' !in TAG
  {
  }

  lemma PrintedFields(r: Record)
    ensures Split(Printed(r)) == [TAG, Decimal(r.iterations), Encode(r.salt), Encode(r.derived)]
  {
    Tagless();
    ParseDecimal(r.iterations);
    NoDollar(r.salt);
    NoDollar(r.derived);
    hide *;
    var last := Encode(r.derived);
    var third := Encode(r.salt) + "$" + last;
    var second := Decimal(r.iterations) + "$" + third;
    SplitOne(last);
    SplitFirst(Encode(r.salt), last);
    SplitFirst(Decimal(r.iterations), third);
    SplitFirst(TAG, second);
    PrintedIs(r);
  }

  lemma PrintedIs(r: Record)
    ensures Printed(r) == TAG + "$" + (Decimal(r.iterations) + "$" + (Encode(r.salt) + "$" + Encode(r.derived)))
  {
  }

  /** Printing and parsing a record gives it back, if it is acceptable. */
  lemma ParsePrinted(r: Record)
    ensures Parsed(Printed(r)) == if r.Acceptable() then Some(r) else None
  {
    hide Split, Encode, Decode, Decimal, ParseU32, Printed;
    PrintedFields(r);
    ParseDecimal(r.iterations);
    DecodeEncode(r.salt);
    DecodeEncode(r.derived);
  }

  /** Whatever parses is a printed record, but for the way its numeral is written. */
  lemma ParsedIsPrinted(encoded: string)
    requires Parsed(encoded).Some?
    ensures var r := Parsed(encoded).value;
            exists numeral :: ParseU32(numeral) == Some(r.iterations)
              && encoded == TAG + "$" + (numeral + "$" + (Encode(r.salt) + "$" + Encode(r.derived)))
  {
    var fields := Split(encoded);
    JoinSplit(encoded);
    EncodeDecode(fields[2]);
    EncodeDecode(fields[3]);
    hide Encode, Decode, ParseU32, Split;
    assert fields == [fields[0], fields[1], fields[2], fields[3]];
    JoinedFour(fields[0], fields[1], fields[2], fields[3]);
  }

  lemma JoinedFour(a: string, b: string, c: string, d: string)
    ensures Joined([a, b, c, d]) == a + "$" + (b + "$" + (c + "$" + d))
  {
    assert [a, b, c, d][1..] == [b, c, d];
    assert [b, c, d][1..] == [c, d];
    assert [c, d][1..] == [d];
    assert Joined([c, d]) == c + "$" + d;
    assert Joined([b, c, d]) == b + "$" + Joined([c, d]);
  }

  /** What the check accepts: a record whose key is derived from the password. */
  predicate Accepts(sha: Sha, password: Bytes, encoded: string) {
    Parsed(encoded).Some? &&
    var r := Parsed(encoded).value;
    FirstOutput(sha, password, r.salt, r.iterations) == r.derived
  }

  /** `salt` is drawn at random. */
  method HashPassword(sha: Sha, password: Bytes, salt: Bytes) returns (encoded: string)
    requires |salt| == 16
    ensures encoded == Printed(Record(600_000, salt, FirstOutput(sha, password, salt, 600_000)))
  {
    hide FirstOutput, Decimal, Encode;
    var derived := Pbkdf2Sha256(sha, password, salt, KDF_ITERATIONS);
    PrintedIs(Record(KDF_ITERATIONS, salt, derived));
    encoded := TAG + "$" + (Decimal(KDF_ITERATIONS) + "$" + (Encode(salt) + "$" + Encode(derived)));
  }

  method VerifyPassword(sha: Sha, password: Bytes, encoded: string) returns (ok: bool)
    ensures ok <==> Accepts(sha, password, encoded)
  {
    hide FirstOutput, Split, ParseU32, Decode;
    var parts := Split(encoded);
    if parts[0] != TAG {
      return false;
    }
    if |parts| < 2 || ParseU32(parts[1]).None? {
      return false;
    }
    var iterations := ParseU32(parts[1]).value;
    if !(100_000 <= iterations <= 1_000_000) {
      return false;
    }
    if |parts| < 3 || Decode(parts[2]).None? {
      return false;
    }
    var salt := Decode(parts[2]).value;
    if |parts| < 4 || Decode(parts[3]).None? {
      return false;
    }
    var expected := Decode(parts[3]).value;
    if |parts| > 4 || |salt| < 8 || |expected| != HASH_BYTES {
      return false;
    }
    var actual := Pbkdf2Sha256(sha, password, salt, iterations);
    ok := actual == expected;
  }

  /**
   The record made for a password accepts that password, and any other exactly if the same key is derived from it:
   for every password, salt and number of iterations in range.
   */
  lemma RecordAccepts(sha: Sha, password: Bytes, other: Bytes, salt: Bytes, iterations: U32)
    requires 8 <= |salt| && 100_000 <= iterations <= 1_000_000
    ensures var encoded := Printed(Record(iterations, salt, FirstOutput(sha, password, salt, iterations)));
            && Accepts(sha, password, encoded)
            && (Accepts(sha, other, encoded) <==>
                FirstOutput(sha, other, salt, iterations) == FirstOutput(sha, password, salt, iterations))
  {
    hide FirstOutput, Printed, Parsed;
    ParsePrinted(Record(iterations, salt, FirstOutput(sha, password, salt, iterations)));
  }

  /** Every text that accepts a password is, but for the way its numeral is written, the record made for it. */
  lemma AcceptedIsRecord(sha: Sha, password: Bytes, encoded: string)
    requires Accepts(sha, password, encoded)
    ensures exists numeral, salt, iterations: U32 ::
              && ParseU32(numeral) == Some(iterations) && 8 <= |salt| && 100_000 <= iterations <= 1_000_000
              && encoded == TAG + "$" + (numeral + "$" + (Encode(salt) + "$" + Encode(FirstOutput(sha, password, salt, iterations))))
  {
    hide FirstOutput, Encode, ParseU32;
    ParsedIsPrinted(encoded);
  }
}

/** Hashed secrets and password records. SHA-256 is an arbitrary function that returns 32 bytes. */
module Password {
  import opened Types
  import opened Base64

  const HASH_BYTES := 32
  const BLOCK_BYTES := 64

  type Digest = s: Bytes | |s| == HASH_BYTES witness seq(HASH_BYTES, _ => 0)

  type Sha = Bytes -> Digest

  // ----- HMAC (section 2 of RFC 2104) and PBKDF2 (section 5.2 of RFC 8018) -----

  function XorByte(x: Byte, y: Byte): Byte { ((x as bv8) ^ (y as bv8)) as int }

  function Xor(a: Bytes, b: Bytes): (r: Bytes)
    requires |a| == |b|
    ensures |r| == |a|
  {
    seq(|a|, i requires 0 <= i < |a| => XorByte(a[i], b[i]))
  }

  function Repeated(x: Byte, n: nat): (r: Bytes)
    ensures |r| == n
  {
    seq(n, _ => x)
  }

  /** The key filled up with zeros to a block; a key longer than a block is hashed first. */
  function BlockKey(sha: Sha, key: Bytes): (k: Bytes)
    ensures |k| == BLOCK_BYTES
  {
    if |key| > BLOCK_BYTES then sha(key) + Repeated(0, BLOCK_BYTES - HASH_BYTES)
    else key + Repeated(0, BLOCK_BYTES - |key|)
  }

  /** H(K XOR opad, H(K XOR ipad, text)) */
  function Hmac(sha: Sha, key: Bytes, text: Bytes): Digest {
    var k := BlockKey(sha, key);
    sha(Xor(k, Repeated(0x5c, BLOCK_BYTES)) + sha(Xor(k, Repeated(0x36, BLOCK_BYTES)) + text))
  }

  /** U_i */
  function Iterate(sha: Sha, password: Bytes, salt: Bytes, i: nat): Digest
    requires 1 <= i
  {
    if i == 1 then Hmac(sha, password, salt + [0, 0, 0, 1]) else Hmac(sha, password, Iterate(sha, password, salt, i - 1))
  }

  /** T_1 = U_1 XOR U_2 XOR … XOR U_c */
  function FirstOutput(sha: Sha, password: Bytes, salt: Bytes, c: nat): Digest
    requires 1 <= c
  {
    if c == 1 then Iterate(sha, password, salt, 1)
    else Xor(FirstOutput(sha, password, salt, c - 1), Iterate(sha, password, salt, c))
  }

  lemma XorCommutes(a: Bytes, b: Bytes)
    requires |a| == |b|
    ensures Xor(a, b) == Xor(b, a)
  {
    forall i | 0 <= i < |a| ensures XorByte(a[i], b[i]) == XorByte(b[i], a[i]) {
      XorByteCommutes(a[i], b[i]);
    }
  }

  lemma XorByteCommutes(x: Byte, y: Byte)
    ensures XorByte(x, y) == XorByte(y, x)
  {
  }

  method HmacSha256(sha: Sha, key: Bytes, message: Bytes) returns (mac: Digest)
    ensures mac == Hmac(sha, key, message)
  {
    var keyBlock := new Byte[BLOCK_BYTES](_ => 0);
    if |key| > BLOCK_BYTES {
      var digest := sha(key);
      CopyInto(keyBlock, digest);
    } else {
      CopyInto(keyBlock, key);
    }
    assert keyBlock[..] == BlockKey(sha, key);
    var innerPad := new Byte[BLOCK_BYTES](_ => 0x36);
    var outerPad := new Byte[BLOCK_BYTES](_ => 0x5c);
    assert innerPad[..] == Repeated(0x36, BLOCK_BYTES) && outerPad[..] == Repeated(0x5c, BLOCK_BYTES);
    XorInto(innerPad, keyBlock[..]);
    XorInto(outerPad, keyBlock[..]);
    XorCommutes(Repeated(0x36, BLOCK_BYTES), keyBlock[..]);
    XorCommutes(Repeated(0x5c, BLOCK_BYTES), keyBlock[..]);
    mac := sha(outerPad[..] + sha(innerPad[..] + message));
  }

  method CopyInto(target: array<Byte>, source: Bytes)
    requires |source| <= target.Length
    modifies target
    ensures target[..] == source + old(target[..])[|source|..]
  {
    for i := 0 to |source|
      invariant forall k :: 0 <= k < i ==> target[k] == source[k]
      invariant forall k :: i <= k < target.Length ==> target[k] == old(target[k])
    {
      target[i] := source[i];
    }
  }

  method XorInto(target: array<Byte>, source: Bytes)
    requires |source| == target.Length
    modifies target
    ensures target[..] == Xor(old(target[..]), source)
  {
    for i := 0 to target.Length
      invariant forall k :: 0 <= k < i ==> target[k] == XorByte(old(target[k]), source[k])
      invariant forall k :: i <= k < target.Length ==> target[k] == old(target[k])
    {
      target[i] := XorByte(target[i], source[i]);
    }
  }

  /** One block of output: as many iterations as asked for, but at least one. */
  method Pbkdf2Sha256(sha: Sha, password: Bytes, salt: Bytes, iterations: U32) returns (derived: Digest)
    ensures derived == FirstOutput(sha, password, salt, Max(1, iterations))
  {
    hide Hmac, Xor;
    var u := HmacSha256(sha, password, salt + [0, 0, 0, 1]);
    var target := new Byte[HASH_BYTES](i requires 0 <= i < |u| => u[i]);
    assert target[..] == u;
    var i := 1;
    while i < iterations
      invariant 1 <= i <= Max(1, iterations)
      invariant u == Iterate(sha, password, salt, i)
      invariant target[..] == FirstOutput(sha, password, salt, i)
    {
      u := HmacSha256(sha, password, u);
      XorInto(target, u);
      i := i + 1;
    }
    derived := target[..];
  }

  // ----- secrets -----

  function HexDigit(v: int): char
    requires 0 <= v < 16
  {
    "0123456789abcdef"[v]
  }

  function Hex(bytes: Bytes): string {
    if bytes == [] then "" else Hex(bytes[..|bytes| - 1]) + [HexDigit(bytes[|bytes| - 1] / 16), HexDigit(bytes[|bytes| - 1] % 16)]
  }

  method HexDigest(bytes: Bytes) returns (out: string)
    ensures out == Hex(bytes)
  {
    out := "";
    for i := 0 to |bytes|
      invariant out == Hex(bytes[..i])
    {
      assert bytes[..i + 1][..i] == bytes[..i];
      out := out + [HexDigit(bytes[i] / 16)];
      out := out + [HexDigit(bytes[i] % 16)];
    }
    assert bytes[..|bytes|] == bytes;
  }

  /** Every byte prints as its high and its low four bits, in lower case. */
  lemma {:induction false} HexAt(bytes: Bytes, i: nat)
    requires i < |bytes|
    ensures |Hex(bytes)| == 2 * |bytes|
    ensures Hex(bytes)[2 * i] == "0123456789abcdef"[bytes[i] / 16] && Hex(bytes)[2 * i + 1] == "0123456789abcdef"[bytes[i] % 16]
  {
    HexLength(bytes);
    HexLength(bytes[..|bytes| - 1]);
    if i < |bytes| - 1 {
      HexAt(bytes[..|bytes| - 1], i);
    }
  }

  lemma HexDigitInjective(v: int, w: int)
    requires 0 <= v < 16 && 0 <= w < 16 && HexDigit(v) == HexDigit(w)
    ensures v == w
  {
  }

  lemma {:induction false} HexLength(a: Bytes)
    ensures |Hex(a)| == 2 * |a|
  {
    if a == [] {
    } else {
      HexLength(a[..|a| - 1]);
    }
  }

  lemma HexInjective(a: Bytes, b: Bytes)
    requires Hex(a) == Hex(b)
    ensures a == b
  {
    HexLength(a);
    HexLength(b);
    forall i | 0 <= i < |a| ensures a[i] == b[i] {
      HexAt(a, i);
      HexAt(b, i);
      hide Hex;
      HexDigitInjective(a[i] / 16, b[i] / 16);
      HexDigitInjective(a[i] % 16, b[i] % 16);
    }
  }

  method HashSecret(sha: Sha, secret: Bytes) returns (hash: string)
    ensures hash == Hex(sha(secret))
  {
    hash := HexDigest(sha(secret));
  }

  method VerifySecret(sha: Sha, secret: Bytes, expected: string) returns (ok: bool)
    ensures ok <==> Hex(sha(secret)) == expected
  {
    var actual := HashSecret(sha, secret);
    ok := actual == expected;
  }

  /** A stored hash accepts exactly the secrets with the digest it was made from. */
  lemma StoredHashAccepts(sha: Sha, secret: Bytes, other: Bytes)
    ensures Hex(sha(other)) == Hex(sha(secret)) <==> sha(other) == sha(secret)
  {
    if Hex(sha(other)) == Hex(sha(secret)) {
      HexInjective(sha(other), sha(secret));
    }
  }
}

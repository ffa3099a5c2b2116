/** The hand-written base64url encoder of refresh tokens (internal/token/token.go),
    compared with the exact bit string and with section 5 of RFC 4648. */
module Base64Url {
  import opened Options

  type Byte = x: int | 0 <= x < 256
  type Sextet = x: int | 0 <= x < 64

  // The 64 letters: A-Z, a-z, 0-9, minus and underscore.
  const ALPHABET: string := From('A', 26) + From('a', 26) + From('0', 10) + "-_"

  function From(first: char, n: nat): string
    requires first as int + n <= 128
  {
    seq(n, i requires 0 <= i < n => (first as int + i) as char)
  }

  // ----- the exact bit string: the bytes as one big number -----

  function Number(b: seq<Byte>): nat {
    if b == [] then 0 else Number(b[..|b| - 1]) * 256 + b[|b| - 1]
  }

  function Pow2(n: nat): (r: nat)
    ensures r >= 1
  {
    if n == 0 then 1 else 2 * Pow2(n - 1)
  }

  // The j-th group of six bits, counted from the front.
  function SextetAt(b: seq<Byte>, j: nat): Sextet
    requires 6 * (j + 1) <= 8 * |b|
  {
    Number(b) / Pow2(8 * |b| - 6 * (j + 1)) % 64
  }

  // As many whole groups of six bits as the bytes hold.
  function Sextets(b: seq<Byte>): seq<Sextet> {
    seq(8 * |b| / 6, j requires 0 <= j < 8 * |b| / 6 => SextetAt(b, j))
  }

  function Letters(s: seq<Sextet>): string {
    seq(|s|, i requires 0 <= i < |s| => Letter(s[i]))
  }

  function Letter(x: Sextet): char {
    ALPHABET[x]
  }

  // ----- 64-bit wrap-around -----

  // A Go int after overflow: two's complement in 64 bits.
  function Wrap(x: int): int {
    (x + 0x8000_0000_0000_0000) % 0x1_0000_0000_0000_0000 - 0x8000_0000_0000_0000
  }

  lemma WrapForm(x: int) returns (q: int)
    ensures Wrap(x) == x - q * 0x1_0000_0000_0000_0000
  {
    q := (x + 0x8000_0000_0000_0000) / 0x1_0000_0000_0000_0000;
  }

  lemma WrapShift(x: int, q: int)
    ensures Wrap(x + q * 0x1_0000_0000_0000_0000) == Wrap(x)
  {
  }

  // Shifting a byte into the wrapped accumulator is shifting it into the exact one.
  lemma WrapAppend(x: int, v: Byte)
    ensures Wrap(Wrap(x) * 256 + v) == Wrap(x * 256 + v)
  {
    var q := WrapForm(x);
    WrapShift(x * 256 + v, -256 * q);
  }

  // The low bits survive: six bits above a small shift are those of the exact number.
  lemma LowBits(x: int, y: int, m: int)
    requires y == x - 4096 * m
    ensures y % 64 == x % 64 && y / 4 % 64 == x / 4 % 64 && y / 16 % 64 == x / 16 % 64 && y / 64 % 64 == x / 64 % 64
  {
    Shift4(x, 1024 * m);
    Shift16(x, 256 * m);
    Shift64(x, 64 * m);
    Cycle(x, 64 * m);
    Cycle(x / 4, 16 * m);
    Cycle(x / 16, 4 * m);
    Cycle(x / 64, m);
  }

  lemma Shift4(x: int, m: int)
    ensures (x - 4 * m) / 4 == x / 4 - m
  {
  }

  lemma Shift16(x: int, m: int)
    ensures (x - 16 * m) / 16 == x / 16 - m
  {
  }

  lemma Shift64(x: int, m: int)
    ensures (x - 64 * m) / 64 == x / 64 - m
  {
  }

  lemma Cycle(x: int, m: int)
    ensures (x - 64 * m) % 64 == x % 64
  {
  }

  lemma WrapBits(x: int, bits: nat)
    requires bits == 0 || bits == 2 || bits == 4 || bits == 6
    ensures Wrap(x) / Pow2(bits) % 64 == x / Pow2(bits) % 64
  {
    var q := WrapForm(x);
    LowBits(x, Wrap(x), q * 0x10_0000_0000_0000);
    SmallPowers();
  }

  lemma SmallPowers()
    ensures Pow2(0) == 1 && Pow2(2) == 4 && Pow2(4) == 16 && Pow2(6) == 64 && Pow2(8) == 256
  {
    assert Pow2(1) == 2 && Pow2(3) == 8 && Pow2(5) == 32 && Pow2(7) == 128;
  }

  // ----- one more byte keeps the groups already complete -----

  lemma {:induction false} Pow2Plus8(n: nat)
    ensures Pow2(n + 8) == 256 * Pow2(n)
  {
    assert Pow2(n + 8) == 2 * Pow2(n + 7) == 4 * Pow2(n + 6) == 8 * Pow2(n + 5) == 16 * Pow2(n + 4);
    assert Pow2(n + 4) == 2 * Pow2(n + 3) == 4 * Pow2(n + 2) == 8 * Pow2(n + 1) == 16 * Pow2(n);
  }

  lemma DropByte(x: nat, v: Byte, p: nat)
    requires p >= 1
    ensures (x * 256 + v) / (256 * p) == x / p
  {
    var q, r := x / p, x % p;
    assert x == q * p + r;
    assert x * 256 + v == q * (256 * p) + (r * 256 + v);
    assert 0 <= r * 256 + v < 256 * p;
    Quotient(x * 256 + v, 256 * p, q, r * 256 + v);
  }

  lemma Quotient(x: nat, d: nat, q: nat, r: nat)
    requires d >= 1 && x == q * d + r && r < d
    ensures x / d == q
  {
    var q', r' := x / d, x % d;
    assert (q' - q) * d == r - r' by {
      assert x == q' * d + r';
    }
    if q' > q {
      AtLeast(q' - q, d);
    } else if q' < q {
      assert (q - q') * d == r' - r;
      AtLeast(q - q', d);
    }
  }

  lemma AtLeast(k: nat, d: nat)
    requires k >= 1
    ensures k * d >= d
  {
    assert k * d == (k - 1) * d + d;
  }

  lemma SextetKept(b: seq<Byte>, v: Byte, j: nat)
    requires 6 * (j + 1) <= 8 * |b|
    ensures SextetAt(b + [v], j) == SextetAt(b, j)
  {
    var n := 8 * |b| - 6 * (j + 1);
    assert (b + [v])[..|b|] == b;
    Pow2Plus8(n);
    DropByte(Number(b), v, Pow2(n));
  }

  // ----- the encoder -----

  // The letters of the first groups of six bits.
  predicate Emitted(b: seq<Byte>, out: string) {
    6 * |out| <= 8 * |b| && forall j :: 0 <= j < |out| ==> out[j] == Letter(SextetAt(b, j))
  }

  lemma EmittedKept(b: seq<Byte>, v: Byte, out: string)
    requires Emitted(b, out)
    ensures Emitted(b + [v], out)
  {
    forall j | 0 <= j < |out|
      ensures out[j] == Letter(SextetAt(b + [v], j))
    {
      SextetKept(b, v, j);
    }
  }

  lemma EmittedNext(b: seq<Byte>, out: string, bits: nat)
    requires Emitted(b, out) && 8 * |b| == 6 * (|out| + 1) + bits && (bits == 0 || bits == 2 || bits == 4 || bits == 6)
    ensures 0 <= Wrap(Number(b)) / Pow2(bits) % 64 < 64
    ensures Emitted(b, out + [ALPHABET[Wrap(Number(b)) / Pow2(bits) % 64]])
  {
    WrapBits(Number(b), bits);
    assert SextetAt(b, |out|) == Wrap(Number(b)) / Pow2(bits) % 64;
  }

  // Each byte is shifted into an accumulator that is never masked and wraps at 64 bits;
  // whole groups of six bits leave it from the top. The output is exactly the letters
  // of the bit string's whole groups.
  method Encode(b: seq<Byte>) returns (out: string)
    ensures out == Letters(Sextets(b))
  {
    out := [];
    var acc, bits := 0, 0;
    for i := 0 to |b|
      invariant bits == 8 * i - 6 * |out| && (bits == 0 || bits == 2 || bits == 4)
      invariant acc == Wrap(Number(b[..i])) && Emitted(b[..i], out)
    {
      ghost var before := b[..i];
      assert b[..i + 1] == before + [b[i]] && (before + [b[i]])[..i] == before;
      WrapAppend(Number(before), b[i]);
      EmittedKept(before, b[i], out);
      acc := Wrap(acc * 256 + b[i]);
      bits := bits + 8;
      while bits >= 6
        invariant bits == 8 * (i + 1) - 6 * |out| && Even(bits) && Emitted(b[..i + 1], out)
      {
        bits := bits - 6;
        EmittedNext(b[..i + 1], out, bits);
        out := out + [ALPHABET[acc / Pow2(bits) % 64]];
      }
    }
    assert b[..|b|] == b;
  }

  predicate Even(bits: int) {
    bits == 0 || bits == 2 || bits == 4 || bits == 6 || bits == 8 || bits == 10 || bits == 12
  }

  // ----- section 5 of RFC 4648 -----

  // Three bytes as four groups of six bits, and back.
  function Split(x: Byte, y: Byte, z: Byte): (s: seq<Sextet>)
    ensures |s| == 4
  {
    var a: int, b: int, c: int := x, y, z;
    [a / 4, a % 4 * 16 + b / 16, b % 16 * 4 + c / 64, c % 64]
  }

  function Join(p: Sextet, q: Sextet, r: Sextet, s: Sextet): (b: seq<Byte>)
    ensures |b| == 3
  {
    var a: int, b: int, c: int, d: int := p, q, r, s;
    [a * 4 + b / 16, b % 16 * 16 + c / 4, c % 4 * 64 + d]
  }

  // One or two bytes left over become two or three groups, the last filled up with
  // zero bits. No padding.
  function Rfc(b: seq<Byte>): (s: seq<Sextet>)
    ensures |s| == (8 * |b| + 5) / 6
  {
    if |b| == 0 then []
    else if |b| == 1 then Split(b[0], 0, 0)[..2]
    else if |b| == 2 then Split(b[0], b[1], 0)[..3]
    else Split(b[0], b[1], b[2]) + Rfc(b[3..])
  }

  // The decoder of whole groups of four letters.
  function Decoded(s: seq<Sextet>): (b: seq<Byte>)
    requires |s| % 4 == 0
    ensures |b| == |s| / 4 * 3
  {
    if s == [] then [] else Join(s[0], s[1], s[2], s[3]) + Decoded(s[4..])
  }

  lemma JoinSplit(x: Byte, y: Byte, z: Byte)
    ensures var s := Split(x, y, z); Join(s[0], s[1], s[2], s[3]) == [x, y, z]
  {
    var a: int, b: int, c: int := x, y, z;
    assert a / 4 * 4 + (a % 4 * 16 + b / 16) / 16 == a;
    assert (a % 4 * 16 + b / 16) % 16 * 16 + (b % 16 * 4 + c / 64) / 4 == b;
    assert (b % 16 * 4 + c / 64) % 4 * 64 + c % 64 == c;
  }

  lemma {:induction false} DecodedRfc(b: seq<Byte>)
    requires |b| % 3 == 0
    ensures |Rfc(b)| % 4 == 0 && Decoded(Rfc(b)) == b
  {
    if b != [] {
      DecodedRfc(b[3..]);
      JoinSplit(b[0], b[1], b[2]);
      assert Rfc(b)[4..] == Rfc(b[3..]);
      assert b == [b[0], b[1], b[2]] + b[3..];
    }
  }

  // ----- the bit string against the RFC -----

  lemma Number3(b: seq<Byte>, x: Byte, y: Byte, z: Byte)
    ensures Number(b + [x]) == Number(b) * 256 + x
    ensures Number(b + [x, y]) == Number(b) * 65536 + x * 256 + y
    ensures Number(b + [x, y, z]) == Number(b) * 16777216 + x * 65536 + y * 256 + z
  {
    assert (b + [x])[..|b|] == b;
    assert (b + [x, y])[..|b| + 1] == b + [x];
    assert (b + [x, y, z])[..|b| + 2] == b + [x, y];
  }

  lemma Powers()
    ensures Pow2(0) == 1 && Pow2(2) == 4 && Pow2(4) == 16 && Pow2(6) == 64 && Pow2(10) == 1024 && Pow2(12) == 4096
    ensures Pow2(18) == 262144
  {
    SmallPowers();
    Pow2Plus8(2);
    Pow2Plus8(4);
    Pow2Plus8(10);
  }

  lemma Remainder64(k: nat, r: nat)
    requires r < 64
    ensures (64 * k + r) % 64 == r
  {
  }

  // The groups that the last one, two or three bytes complete, as digits of the number.
  lemma OneByteGroup(n: nat, x: Byte)
    ensures (n * 256 + x) / 4 % 64 == x / 4
  {
    Quotient(n * 256 + x, 4, 64 * n + x / 4, x % 4);
    Remainder64(n, x / 4);
  }

  lemma TwoByteGroups(n: nat, x: Byte, y: Byte)
    ensures (n * 65536 + x * 256 + y) / 1024 % 64 == x / 4
    ensures (n * 65536 + x * 256 + y) / 16 % 64 == x % 4 * 16 + y / 16
  {
    Quotient(n * 65536 + x * 256 + y, 1024, 64 * n + x / 4, x % 4 * 256 + y);
    Remainder64(n, x / 4);
    Quotient(n * 65536 + x * 256 + y, 16, 64 * (n * 64 + x / 4) + (x % 4 * 16 + y / 16), y % 16);
    Remainder64(n * 64 + x / 4, x % 4 * 16 + y / 16);
  }

  lemma FirstGroup(n: nat, x: Byte, y: Byte, z: Byte)
    ensures (n * 16777216 + x * 65536 + y * 256 + z) / 262144 % 64 == x / 4
  {
    Quotient(n * 16777216 + x * 65536 + y * 256 + z, 262144, 64 * n + x / 4, x % 4 * 65536 + y * 256 + z);
    Remainder64(n, x / 4);
  }

  lemma SecondGroup(n: nat, x: Byte, y: Byte, z: Byte)
    ensures (n * 16777216 + x * 65536 + y * 256 + z) / 4096 % 64 == x % 4 * 16 + y / 16
  {
    Quotient(n * 16777216 + x * 65536 + y * 256 + z, 4096,
             64 * (n * 64 + x / 4) + (x % 4 * 16 + y / 16), y % 16 * 256 + z);
    Remainder64(n * 64 + x / 4, x % 4 * 16 + y / 16);
  }

  lemma ThirdGroup(n: nat, x: Byte, y: Byte, z: Byte)
    ensures (n * 16777216 + x * 65536 + y * 256 + z) / 64 % 64 == y % 16 * 4 + z / 64
  {
    Quotient(n * 16777216 + x * 65536 + y * 256 + z, 64,
             64 * (n * 4096 + x * 16 + y / 16) + (y % 16 * 4 + z / 64), z % 64);
    Remainder64(n * 4096 + x * 16 + y / 16, y % 16 * 4 + z / 64);
  }

  lemma FourthGroup(n: nat, x: Byte, y: Byte, z: Byte)
    ensures (n * 16777216 + x * 65536 + y * 256 + z) % 64 == z % 64
  {
    Remainder64(n * 262144 + x * 1024 + y * 4 + z / 64, z % 64);
  }

  lemma LastSextets(a: seq<Byte>, x: Byte, y: Byte, z: Byte)
    requires |a| % 3 == 0
    ensures var k := |a| / 3 * 4; var s := Split(x, y, z);
      && SextetAt(a + [x], k) == s[0]
      && SextetAt(a + [x, y], k) == s[0] && SextetAt(a + [x, y], k + 1) == s[1]
      && SextetAt(a + [x, y, z], k) == s[0] && SextetAt(a + [x, y, z], k + 1) == s[1]
      && SextetAt(a + [x, y, z], k + 2) == s[2] && SextetAt(a + [x, y, z], k + 3) == s[3]
  {
    Number3(a, x, y, z);
    OneByteGroup(Number(a), x);
    TwoByteGroups(Number(a), x, y);
    FirstGroup(Number(a), x, y, z);
    SecondGroup(Number(a), x, y, z);
    ThirdGroup(Number(a), x, y, z);
    FourthGroup(Number(a), x, y, z);
    Powers();
  }

  lemma {:induction false} SextetsKept(a: seq<Byte>, t: seq<Byte>, j: nat)
    requires 6 * (j + 1) <= 8 * |a|
    ensures SextetAt(a + t, j) == SextetAt(a, j)
    decreases |t|
  {
    if t == [] {
      assert a + t == a;
    } else {
      var front := t[..|t| - 1];
      SextetsKept(a, front, j);
      SextetKept(a + front, t[|t| - 1], j);
      assert a + front + [t[|t| - 1]] == a + t;
    }
  }

  lemma {:induction false} RfcAppend(a: seq<Byte>, t: seq<Byte>)
    requires |a| % 3 == 0
    ensures Rfc(a + t) == Rfc(a) + Rfc(t)
  {
    if a == [] {
      assert a + t == t && Rfc(a) + Rfc(t) == Rfc(t);
    } else {
      var first := Split(a[0], a[1], a[2]);
      assert Rfc(a + t) == first + Rfc(a[3..] + t) by {
        assert (a + t)[3..] == a[3..] + t;
      }
      RfcAppend(a[3..], t);
      assert first + (Rfc(a[3..]) + Rfc(t)) == first + Rfc(a[3..]) + Rfc(t);
    }
  }

  // The groups of the last one to three bytes after k whole groups of three.
  lemma LastGroups(a: seq<Byte>, t: seq<Byte>, j: nat, k: nat)
    requires |a| == 3 * k && 1 <= |t| <= 3 && 4 * k <= j && 6 * (j + 1) <= 8 * |a + t|
    ensures j - 4 * k < |Rfc(t)| && SextetAt(a + t, j) == Rfc(t)[j - 4 * k]
  {
    var x, y, z := t[0], if |t| > 1 then t[1] else 0, if |t| > 2 then t[2] else 0;
    LastSextets(a, x, y, z);
    if |t| == 1 {
      assert t == [x];
    } else if |t| == 2 {
      assert t == [x, y];
    } else {
      assert t == [x, y, z] && t[3..] == [] && Rfc(t) == Split(x, y, z) + [];
    }
  }

  predicate GroupIsRfc(b: seq<Byte>, j: nat)
    requires 6 * (j + 1) <= 8 * |b|
  {
    SextetAt(b, j) == Rfc(b)[j]
  }

  lemma SextetIsRfc(a: seq<Byte>, t: seq<Byte>, j: nat, k: nat)
    requires |a| == 3 * k && 1 <= |t| <= 3 && 6 * (j + 1) <= 8 * |a + t|
    requires j < 4 * k ==> GroupIsRfc(a, j)
    ensures GroupIsRfc(a + t, j)
  {
    RfcAppend(a, t);
    assert |Rfc(a)| == 4 * k;
    if j < 4 * k {
      SextetsKept(a, t, j);
    } else {
      LastGroups(a, t, j, k);
    }
  }

  lemma {:induction false} GroupsAreRfc(b: seq<Byte>, j: nat)
    requires 6 * (j + 1) <= 8 * |b|
    ensures GroupIsRfc(b, j)
    decreases |b|
  {
    var k := (|b| - 1) / 3;
    var a, t := b[..3 * k], b[3 * k..];
    assert a + t == b;
    if j < 4 * k {
      GroupsAreRfc(a, j);
    }
    SextetIsRfc(a, t, j, k);
  }

  // For every length the encoder's groups are those of the unpadded RFC 4648 encoding,
  // without the last, partly filled group when the length is not divisible by 3.
  lemma SextetsAreRfc(b: seq<Byte>)
    ensures Sextets(b) <= Rfc(b)
  {
    forall j | 0 <= j < |Sextets(b)|
      ensures j < |Rfc(b)| && Sextets(b)[j] == Rfc(b)[j]
    {
      GroupsAreRfc(b, j);
      assert GroupIsRfc(b, j);
    }
  }

  // When the length is divisible by 3 the output is the RFC 4648 encoding, and a
  // decoder gives the bytes back.
  lemma EncodingRoundTrip(b: seq<Byte>)
    requires |b| % 3 == 0
    ensures Sextets(b) == Rfc(b) && |Sextets(b)| % 4 == 0 && Decoded(Sextets(b)) == b
  {
    SextetsAreRfc(b);
    DecodedRfc(b);
    assert |Sextets(b)| == |Rfc(b)|;
  }

  // ----- lengths not divisible by 3 lose their last bits -----

  ghost predicate Injective(n: nat) {
    forall b: seq<Byte>, c: seq<Byte> :: |b| == n && |c| == n && Sextets(b) == Sextets(c) ==> b == c
  }

  // Two byte strings that differ only in the lowest bit of the last byte.
  lemma LastBitLost(a: seq<Byte>)
    requires |a| % 3 != 2
    ensures Sextets(a + [0]) == Sextets(a + [1])
  {
    forall j | 0 <= j < 8 * |a + [0]| / 6
      ensures SextetAt(a + [0], j) == SextetAt(a + [1], j)
    {
      if 6 * (j + 1) <= 8 * |a| {
        SextetKept(a, 0, j);
        SextetKept(a, 1, j);
      } else {
        LastBitsSame(a, j);
      }
    }
  }

  lemma LastBitsSame(a: seq<Byte>, j: nat)
    requires |a| % 3 != 2 && 8 * |a| < 6 * (j + 1) <= 8 * (|a| + 1)
    ensures SextetAt(a + [0], j) == SextetAt(a + [1], j)
  {
    Powers();
    assert (a + [0])[..|a|] == a && (a + [1])[..|a|] == a;
    var n, bits := Number(a), 8 * (|a| + 1) - 6 * (j + 1);
    assert bits == 2 || bits == 4;
    assert (n * 256) / 4 == n * 64 == (n * 256 + 1) / 4;
    assert (n * 256) / 16 == n * 16 == (n * 256 + 1) / 16;
  }

  // Different byte strings of one length always get different encodings exactly when
  // the length is divisible by 3 (refresh tokens have 48 bytes).
  lemma InjectiveIff(n: nat)
    ensures Injective(n) <==> n % 3 == 0
  {
    if n % 3 == 0 {
      forall b: seq<Byte>, c: seq<Byte> | |b| == n && |c| == n && Sextets(b) == Sextets(c)
        ensures b == c
      {
        EncodingRoundTrip(b);
        EncodingRoundTrip(c);
      }
    } else {
      var a: seq<Byte> := seq(n - 1, i => 0);
      LastBitLost(a);
      var b, c := a + [0], a + [1];
      assert b[n - 1] != c[n - 1];
    }
  }

  // ----- letters -----

  function Index(c: char): Option<Sextet> {
    if 'A' <= c <= 'Z' then Some(c as int - 'A' as int)
    else if 'a' <= c <= 'z' then Some(c as int - 'a' as int + 26)
    else if '0' <= c <= '9' then Some(c as int - '0' as int + 52)
    else if c == '-' then Some(62)
    else if c == '_' then Some(63)
    else None
  }

  function Values(text: string): Option<seq<Sextet>> {
    if text == "" then Some([])
    else
      match (Index(text[0]), Values(text[1..]))
      case (Some(x), Some(xs)) => Some([x] + xs)
      case _ => None
  }

  // The decoder of a text; None when a letter or the length is wrong.
  function DecodeText(text: string): Option<seq<Byte>> {
    match Values(text)
    case None => None
    case Some(s) => if |s| % 4 == 0 then Some(Decoded(s)) else None
  }

  lemma LetterIndex(x: Sextet)
    ensures Index(Letter(x)) == Some(x)
  {
  }

  lemma {:induction false} ValuesOfLetters(s: seq<Sextet>)
    ensures Values(Letters(s)) == Some(s)
  {
    if s == [] {
      assert Letters(s) == "";
    } else {
      assert Letters(s)[1..] == Letters(s[1..]);
      LetterIndex(s[0]);
      ValuesOfLetters(s[1..]);
      assert s == [s[0]] + s[1..];
    }
  }

  // The text of a byte string decodes to it exactly when the length is divisible by 3.
  lemma TextRoundTripIff(b: seq<Byte>)
    ensures DecodeText(Letters(Sextets(b))) == Some(b) <==> |b| % 3 == 0
  {
    ValuesOfLetters(Sextets(b));
    if |b| % 3 == 0 {
      EncodingRoundTrip(b);
    } else {
      LengthLost(|b|);
    }
  }

  lemma LengthLost(n: nat)
    requires n % 3 != 0
    ensures 8 * n / 6 % 4 == 0 ==> 8 * n / 6 / 4 * 3 != n
  {
  }
}

/** SHA-256: the definition of FIPS 180-4, and the loop over arrays that computes it. */
module Sha256 {

  type Byte = n: int | 0 <= n < 256
  type Word = bv32

  const TWO_32: int := 0x1_0000_0000
  const TWO_53: int := 0x20_0000_0000_0000

  // ----- The definition (FIPS 180-4, sections 4.1.2, 4.2.2, 5.1.1, 5.3.3 and 6.2) -----

  function InitialHash(): (r: seq<Word>)
    ensures |r| == 8
  {
    [0x6a09e667, 0xbb67ae85, 0x3c6ef372, 0xa54ff53a, 0x510e527f, 0x9b05688c, 0x1f83d9ab, 0x5be0cd19]
  }

  function RoundConstants(): (r: seq<Word>)
    ensures |r| == 64
  {
    [ 0x428a2f98, 0x71374491, 0xb5c0fbcf, 0xe9b5dba5, 0x3956c25b, 0x59f111f1, 0x923f82a4, 0xab1c5ed5,
      0xd807aa98, 0x12835b01, 0x243185be, 0x550c7dc3, 0x72be5d74, 0x80deb1fe, 0x9bdc06a7, 0xc19bf174,
      0xe49b69c1, 0xefbe4786, 0x0fc19dc6, 0x240ca1cc, 0x2de92c6f, 0x4a7484aa, 0x5cb0a9dc, 0x76f988da,
      0x983e5152, 0xa831c66d, 0xb00327c8, 0xbf597fc7, 0xc6e00bf3, 0xd5a79147, 0x06ca6351, 0x14292967,
      0x27b70a85, 0x2e1b2138, 0x4d2c6dfc, 0x53380d13, 0x650a7354, 0x766a0abb, 0x81c2c92e, 0x92722c85,
      0xa2bfe8a1, 0xa81a664b, 0xc24b8b70, 0xc76c51a3, 0xd192e819, 0xd6990624, 0xf40e3585, 0x106aa070,
      0x19a4c116, 0x1e376c08, 0x2748774c, 0x34b0bcb5, 0x391c0cb3, 0x4ed8aa4a, 0x5b9cca4f, 0x682e6ff3,
      0x748f82ee, 0x78a5636f, 0x84c87814, 0x8cc70208, 0x90befffa, 0xa4506ceb, 0xbef9a3f7, 0xc67178f2]
  }

  /** Addition modulo 2^32, of a sum already taken over the whole numbers. */
  function Wrap(n: nat): Word {
    (n % TWO_32) as Word
  }

  /** The rotation of section 3.2, which is also how the source computes it. */
  function RotateRight(x: Word, n: Word): Word
    requires 0 < n < 32
  {
    (x >> n) | (x << (32 - n))
  }

  function BigSigma0(x: Word): Word { RotateRight(x, 2) ^ RotateRight(x, 13) ^ RotateRight(x, 22) }

  function BigSigma1(x: Word): Word { RotateRight(x, 6) ^ RotateRight(x, 11) ^ RotateRight(x, 25) }

  function SmallSigma0(x: Word): Word { RotateRight(x, 7) ^ RotateRight(x, 18) ^ (x >> 3) }

  function SmallSigma1(x: Word): Word { RotateRight(x, 17) ^ RotateRight(x, 19) ^ (x >> 10) }

  function Ch(x: Word, y: Word, z: Word): Word { (x & y) ^ (!x & z) }

  function Maj(x: Word, y: Word, z: Word): Word { (x & y) ^ (x & z) ^ (y & z) }

  function Zeros(n: nat): (r: seq<Byte>)
    ensures |r| == n
  {
    seq(n, _ => 0)
  }

  /** The low `8 * n` bits of a length, most significant byte first. */
  function LengthBytes(length: nat, n: nat): (r: seq<Byte>)
    ensures |r| == n
  {
    if n == 0 then [] else LengthBytes(length / 256, n - 1) + [length % 256]
  }

  /** Zero bytes between the end marker and the length: the fewest that fill the last block. */
  function ZeroCount(n: nat): nat {
    (64 - (n + 9) % 64) % 64
  }

  function Pad(message: seq<Byte>): seq<Byte> {
    message + [0x80] + Zeros(ZeroCount(|message|)) + LengthBytes(8 * |message|, 8)
  }

  function WordAt(bytes: seq<Byte>, start: nat): Word
    requires start + 4 <= |bytes|
  {
    ((bytes[start] as Word) << 24) | ((bytes[start + 1] as Word) << 16) | ((bytes[start
      + 2] as Word) << 8) | (bytes[start + 3] as Word)
  }

  /** The first `n` words of the message schedule of the block that starts at `offset`. */
  function Schedule(bytes: seq<Byte>, offset: nat, n: nat): (w: seq<Word>)
    requires offset + 64 <= |bytes|
    ensures |w| == n
  {
    if n == 0 then []
    else
      var w := Schedule(bytes, offset, n - 1);
      var t := n - 1;
      if t < 16 then w + [WordAt(bytes, offset + 4 * t)]
      else
        w + [Wrap((SmallSigma1(w[t - 2]) as int) + (w[t - 7] as int) + (SmallSigma0(w[t - 15]) as int)
        + (w[t - 16] as int))]
  }

  /** The eight working variables. */
  datatype Registers = Registers(a: Word, b: Word, c: Word, d: Word, e: Word, f: Word, g: Word, h: Word)

  function Round(r: Registers, k: Word, w: Word): Registers {
    var t1 := Wrap((r.h as int) + (BigSigma1(r.e) as int) + (Ch(r.e, r.f, r.g) as int) + (k as int) + (w as int));
    var t2 := Wrap((BigSigma0(r.a) as int) + (Maj(r.a, r.b, r.c) as int));
    Registers(Wrap((t1 as int) + (t2 as int)), r.a, r.b, r.c, Wrap((r.d as int) + (t1 as int)), r.e, r.f, r.g)
  }

  function Rounds(r: Registers, w: seq<Word>, n: nat): Registers
    requires n <= 64 && n <= |w|
  {
    if n == 0 then r else Round(Rounds(r, w, n - 1), RoundConstants()[n - 1], w[n - 1])
  }

  function Load(h: seq<Word>): Registers
    requires |h| == 8
  {
    Registers(h[0], h[1], h[2], h[3], h[4], h[5], h[6], h[7])
  }

  function Add(x: Word, y: Word): Word { Wrap((x as int) + (y as int)) }

  function Mix(h: seq<Word>, r: Registers): (s: seq<Word>)
    requires |h| == 8
    ensures |s| == 8
  {
    [Add(h[0], r.a), Add(h[1], r.b), Add(h[2], r.c), Add(h[3], r.d), Add(h[4], r.e), Add(h[5], r.f), Add(h[6], r.g),
      Add(h[7], r.h)]
  }

  function Compress(h: seq<Word>, bytes: seq<Byte>, offset: nat): (s: seq<Word>)
    requires |h| == 8 && offset + 64 <= |bytes|
    ensures |s| == 8
  {
    Mix(h, Rounds(Load(h), Schedule(bytes, offset, 64), 64))
  }

  /** The hash value after the first `n` blocks. */
  function HashBlocks(bytes: seq<Byte>, n: nat): (h: seq<Word>)
    requires 64 * n <= |bytes|
    ensures |h| == 8
  {
    if n == 0 then InitialHash() else Compress(HashBlocks(bytes, n - 1), bytes, 64 * (n - 1))
  }

  function Digest(message: seq<Byte>): (h: seq<Word>)
    ensures |h| == 8
  {
    HashBlocks(Pad(message), |Pad(message)| / 64)
  }

  function HexDigit(d: int): char
    requires 0 <= d < 16
  {
    "0123456789abcdef"[d]
  }

  /** The `n` low hexadecimal digits of a number. */
  function Nibbles(x: nat, n: nat): string {
    if n == 0 then "" else Nibbles(x / 16, n - 1) + [HexDigit(x % 16)]
  }

  function HexWords(h: seq<Word>): string {
    if h == [] then "" else HexWords(h[..|h| - 1]) + Nibbles(h[|h| - 1] as int, 8)
  }

  // ----- Padding -----

  lemma PaddedLengthArithmetic(n: nat)
    ensures n + 1 + ZeroCount(n) + 8 == (n + 9 + 63) / 64 * 64
    ensures n + 9 <= n + 1 + ZeroCount(n) + 8 < n + 73
  {
    var q, r := (n + 9) / 64, (n + 9) % 64;
    assert n + 9 == 64 * q + r;
    if r == 0 {
      assert (n + 9 + 63) / 64 == q;
    } else {
      assert (n + 9 + 63) / 64 == q + 1;
    }
  }

  /** Padding fills whole blocks, adds at least nine bytes and never nine bytes and a block. */
  lemma PadFillsBlocks(message: seq<Byte>)
    ensures |Pad(message)| % 64 == 0
    ensures |message| + 9 <= |Pad(message)| < |message| + 73
    ensures |Pad(message)| == (|message| + 9 + 63) / 64 * 64
  {
    hide ZeroCount;
    PaddedLengthArithmetic(|message|);
  }

  lemma LengthBytesTell(x: nat, y: nat)
    requires LengthBytes(x, 8) == LengthBytes(y, 8)
    requires -65536 < x - y < 65536
    ensures x == y
  {
    var s, t := LengthBytes(x, 8), LengthBytes(y, 8);
    assert s[7] == x % 256 && t[7] == y % 256;
    var s', t' := LengthBytes(x / 256, 7), LengthBytes(y / 256, 7);
    assert s[6] == s'[6] && t[6] == t'[6];
    assert s'[6] == x / 256 % 256 && t'[6] == y / 256 % 256;
    LowBytesTell(x, y);
  }

  lemma LowBytesTell(x: nat, y: nat)
    requires x % 256 == y % 256 && x / 256 % 256 == y / 256 % 256
    requires -65536 < x - y < 65536
    ensures x == y
  {}

  /** Different messages are padded differently, whatever their lengths. */
  lemma PadIsInjective(m: seq<Byte>, n: seq<Byte>)
    requires Pad(m) == Pad(n)
    ensures m == n
  {
    hide ZeroCount, LengthBytes;
    PadFillsBlocks(m);
    PadFillsBlocks(n);
    var p, q := Pad(m), Pad(n);
    assert p[|p| - 8..] == LengthBytes(8 * |m|, 8);
    assert q[|q| - 8..] == LengthBytes(8 * |n|, 8);
    LengthBytesTell(8 * |m|, 8 * |n|);
    assert m == p[..|m|] && n == q[..|n|];
  }

  // ----- The numbers of the source -----

  /** The signed reading `n` of the 32-bit number `u`. */
  predicate SignedOf(n: int, u: int) {
    0 <= u < TWO_32 && (n == u || n == u - TWO_32)
  }

  /** How the source reads the result of a bitwise operation: as a signed 32-bit number. */
  function Signed(x: Word): (n: int)
    ensures SignedOf(n, x as int)
  {
    if x >= 0x8000_0000 then (x as int) - TWO_32 else x as int
  }

  /** `>>> 0`, which is exact only on sums that a double represents exactly. */
  function ToUint32(sum: int): Word
    requires -TWO_53 < sum < TWO_53
  {
    (sum % TWO_32) as Word
  }

  // Each sum is taken over exact numbers before `>>> 0` reduces it.

  function NextWord(word16: Word, sigma0: Word, word7: Word, sigma1: Word): Word {
    ToUint32((word16 as int) + Signed(sigma0) + (word7 as int) + Signed(sigma1))
  }

  function Temporary1(h: Word, sum1: Word, choice: Word, k: Word, w: Word): Word {
    ToUint32((h as int) + Signed(sum1) + Signed(choice) + (k as int) + (w as int))
  }

  function Temporary2(sum0: Word, majority: Word): Word {
    ToUint32(Signed(sum0) + Signed(majority))
  }

  function Plus(x: Word, y: Word): Word {
    ToUint32((x as int) + (y as int))
  }

  /** Reading terms of a sum as signed numbers moves it by whole multiples of 2^32 only. */
  lemma SignedSum(u: int, k: int)
    requires 0 <= u < 5 * TWO_32 && 0 <= k <= 2
    ensures ToUint32(u - k * TWO_32) == Wrap(u)
  {
    var q, r := u / TWO_32, u % TWO_32;
    RemainderIs(u, q, r);
    RemainderIs(u - k * TWO_32, q - k, r);
  }

  lemma RemainderIs(n: int, q: int, r: int)
    requires n == q * TWO_32 + r && 0 <= r < TWO_32
    ensures n % TWO_32 == r
  {}

  // ----- The loop over arrays -----

  /** `length >> (8 * index)`. */
  function ShiftBytes(length: nat, index: nat): nat {
    if index == 0 then length else ShiftBytes(length, index - 1) / 256
  }

  lemma {:induction false} LengthByteAt(length: nat, n: nat, index: nat)
    requires index < n
    ensures LengthBytes(length, n)[n - 1 - index] == ShiftBytes(length, index) % 256
  {
    if index > 0 {
      LengthByteAt(length / 256, n - 1, index - 1);
      ShiftInside(length, index - 1);
    }
  }

  lemma {:induction false} ShiftInside(length: nat, index: nat)
    ensures ShiftBytes(length / 256, index) == ShiftBytes(length, index + 1)
  {
    if index > 0 {
      ShiftInside(length, index - 1);
    }
  }

  method PadBytes(bytes: seq<Byte>) returns (padded: array<Byte>)
    ensures fresh(padded) && padded[..] == Pad(bytes)
  {
    hide ZeroCount, LengthBytes, ShiftBytes;
    var n := |bytes|;
    var bitLength := n * 8;
    var paddedLength := (n + 9 + 63) / 64 * 64;
    PadFillsBlocks(bytes);
    padded := new Byte[paddedLength](_ => 0);
    for i := 0 to n
      invariant forall k :: 0 <= k < i ==> padded[k] == bytes[k]
      invariant forall k :: n <= k < paddedLength ==> padded[k] == 0
    {
      padded[i] := bytes[i];
    }
    padded[n] := 0x80;
    for index := 0 to 8
      invariant forall k :: 0 <= k < n ==> padded[k] == bytes[k]
      invariant padded[n] == 0x80
      invariant forall k :: n < k < paddedLength - 8 ==> padded[k] == 0
      invariant forall k :: paddedLength - index <= k < paddedLength ==>
                padded[k] == LengthBytes(bitLength, 8)[k - (paddedLength - 8)]
    {
      LengthByteAt(bitLength, 8, index);
      padded[paddedLength - 1 - index] := ShiftBytes(bitLength, index) % 256;
    }
    PadByParts(bytes, padded[..]);
  }

  lemma PadByParts(bytes: seq<Byte>, padded: seq<Byte>)
    requires |padded| == |Pad(bytes)|
    requires forall k :: 0 <= k < |bytes| ==> padded[k] == bytes[k]
    requires padded[|bytes|] == 0x80
    requires forall k :: |bytes| < k < |padded| - 8 ==> padded[k] == 0
    requires forall k :: |padded| - 8 <= k < |padded| ==> padded[k] == LengthBytes(8 * |bytes|, 8)[k - (|padded| - 8)]
    ensures padded == Pad(bytes)
  {
    hide ZeroCount, LengthBytes;
  }

  /** The first schedule loop copies the block, four bytes to a word. */
  method CopyWords(padded: array<Byte>, offset: nat, words: array<Word>)
    requires offset + 64 <= padded.Length && words.Length == 64
    requires padded as object != words as object
    modifies words
    ensures padded[..] == old(padded[..])
    ensures words[..16] == Schedule(padded[..], offset, 16)
  {
    hide WordAt;
    ghost var bytes := padded[..];
    for index := 0 to 16
      invariant padded[..] == bytes
      invariant words[..index] == Schedule(bytes, offset, index)
    {
      var start := offset + index * 4;
      ghost var before := words[..index];
      WordIs(bytes, start);
      words[index] := ((padded[start] as Word) << 24) | ((padded[start + 1] as Word) << 16) | ((padded[start
        + 2] as Word) << 8) | (padded[start + 3] as Word);
      assert words[..index + 1] == before + [WordAt(bytes, start)];
      assert Schedule(bytes, offset, index + 1) == before + [WordAt(bytes, start)];
    }
  }

  lemma WordIs(bytes: seq<Byte>, start: nat)
    requires start + 4 <= |bytes|
    ensures WordAt(bytes, start) ==
            ((bytes[start] as Word) << 24) | ((bytes[start + 1] as Word) << 16) | ((bytes[start
              + 2] as Word) << 8) | (bytes[start + 3] as Word)
  {}

  /** The second schedule loop derives every further word from four earlier ones. */
  method ExtendWords(ghost bytes: seq<Byte>, ghost offset: nat, words: array<Word>)
    requires offset + 64 <= |bytes| && words.Length == 64
    requires words[..16] == Schedule(bytes, offset, 16)
    modifies words
    ensures words[..] == Schedule(bytes, offset, 64)
  {
    hide NextWord, SmallSigma0, SmallSigma1, Schedule;
    for index := 16 to 64
      invariant words[..index] == Schedule(bytes, offset, index)
    {
      ghost var before := words[..index];
      var sigma0 := SmallSigma0(words[index - 15]);
      var sigma1 := SmallSigma1(words[index - 2]);
      words[index] := NextWord(words[index - 16], sigma0, words[index - 7], sigma1);
      ScheduleStep(bytes, offset, index, before);
      assert words[..index + 1] == before + [words[index]];
    }
    assert words[..] == words[..64];
  }

  lemma ScheduleStep(bytes: seq<Byte>, offset: nat, t: nat, w: seq<Word>)
    requires offset + 64 <= |bytes| && 16 <= t < 64 && w == Schedule(bytes, offset, t)
    ensures Schedule(bytes, offset, t + 1) == w + [NextWord(w[t - 16], SmallSigma0(w[t - 15]), w[t - 7],
            SmallSigma1(w[t - 2]))]
  {
    hide NextWord, Wrap, SmallSigma0, SmallSigma1, WordAt;
    NextWordAgrees(w[t - 16], SmallSigma0(w[t - 15]), w[t - 7], SmallSigma1(w[t - 2]));
  }

  lemma NextWordAgrees(x: Word, s0: Word, y: Word, s1: Word)
    ensures NextWord(x, s0, y, s1) == Wrap((s1 as int) + (y as int) + (s0 as int) + (x as int))
  {
    hide ToUint32, Wrap, Signed;
    FourTerms(x as int, Signed(s0), s0 as int, y as int, Signed(s1), s1 as int);
  }

  lemma FourTerms(x: int, s0: int, u0: int, y: int, s1: int, u1: int)
    requires 0 <= x < TWO_32 && 0 <= y < TWO_32 && SignedOf(s0, u0) && SignedOf(s1, u1)
    ensures ToUint32(x + s0 + y + s1) == Wrap(u1 + y + u0 + x)
  {
    hide ToUint32, Wrap;
    SignedSum(u1 + y + u0 + x, (if s0 == u0 then 0 else 1) + (if s1 == u1 then 0 else 1));
  }

  lemma FiveTerms(h: int, s: int, us: int, c: int, uc: int, k: int, w: int)
    requires 0 <= h < TWO_32 && 0 <= k < TWO_32 && 0 <= w < TWO_32 && SignedOf(s, us) && SignedOf(c, uc)
    ensures ToUint32(h + s + c + k + w) == Wrap(h + us + uc + k + w)
  {
    hide ToUint32, Wrap;
    SignedSum(h + us + uc + k + w, (if s == us then 0 else 1) + (if c == uc then 0 else 1));
  }

  lemma TwoTerms(s: int, us: int, m: int, um: int)
    requires SignedOf(s, us) && SignedOf(m, um)
    ensures ToUint32(s + m) == Wrap(us + um)
  {
    hide ToUint32, Wrap;
    SignedSum(us + um, (if s == us then 0 else 1) + (if m == um then 0 else 1));
  }

  lemma Temporary1Agrees(h: Word, s: Word, c: Word, k: Word, w: Word)
    ensures Temporary1(h, s, c, k, w) == Wrap((h as int) + (s as int) + (c as int) + (k as int) + (w as int))
  {
    hide ToUint32, Wrap, Signed;
    FiveTerms(h as int, Signed(s), s as int, Signed(c), c as int, k as int, w as int);
  }

  lemma Temporary2Agrees(s: Word, m: Word)
    ensures Temporary2(s, m) == Wrap((s as int) + (m as int))
  {
    hide ToUint32, Wrap, Signed;
    TwoTerms(Signed(s), s as int, Signed(m), m as int);
  }

  lemma PlusAgrees(x: Word, y: Word)
    ensures Plus(x, y) == Wrap((x as int) + (y as int))
  {}

  lemma RoundStep(r: Registers, k: Word, w: Word)
    ensures var t1 := Temporary1(r.h, BigSigma1(r.e), Ch(r.e, r.f, r.g), k, w);
            var t2 := Temporary2(BigSigma0(r.a), Maj(r.a, r.b, r.c));
            Round(r, k, w) == Registers(Plus(t1, t2), r.a, r.b, r.c, Plus(r.d, t1), r.e, r.f, r.g)
  {
    hide Ch, Maj, BigSigma0, BigSigma1, Temporary1, Temporary2, Plus, Wrap;
    var s1, c, s0, m := BigSigma1(r.e), Ch(r.e, r.f, r.g), BigSigma0(r.a), Maj(r.a, r.b, r.c);
    Temporary1Agrees(r.h, s1, c, k, w);
    Temporary2Agrees(s0, m);
    var t1, t2 := Temporary1(r.h, s1, c, k, w), Temporary2(s0, m);
    PlusAgrees(t1, t2);
    PlusAgrees(r.d, t1);
  }

  /** The round loop. */
  method RunRounds(start: Registers, words: array<Word>) returns (r: Registers)
    requires words.Length == 64
    ensures r == Rounds(start, words[..], 64)
  {
    hide Round, Temporary1, Temporary2, Plus, BigSigma0, BigSigma1, Ch, Maj, RoundConstants;
    var Registers(a, b, c, d, e, f, g, h) := start;
    for index := 0 to 64
      invariant Registers(a, b, c, d, e, f, g, h) == Rounds(start, words[..], index)
    {
      RoundStep(Registers(a, b, c, d, e, f, g, h), RoundConstants()[index], words[index]);
      var temporary1 := Temporary1(h, BigSigma1(e), Ch(e, f, g), RoundConstants()[index], words[index]);
      var temporary2 := Temporary2(BigSigma0(a), Maj(a, b, c));
      h := g;
      g := f;
      f := e;
      e := Plus(d, temporary1);
      d := c;
      c := b;
      b := a;
      a := Plus(temporary1, temporary2);
    }
    r := Registers(a, b, c, d, e, f, g, h);
  }

  /** The rounds over one block and the update of the hash. */
  method CompressBlock(hash: array<Word>, words: array<Word>)
    requires hash.Length == 8 && words.Length == 64 && hash != words
    modifies hash
    ensures hash[..] == Mix(old(hash[..]), Rounds(Load(old(hash[..])), old(words[..]), 64))
  {
    hide Plus, Rounds, Mix;
    var r := RunRounds(Registers(hash[0], hash[1], hash[2], hash[3], hash[4], hash[5], hash[6], hash[7]), words);
    ghost var before := hash[..];
    MixStep(before, r);
    hash[0], hash[1], hash[2], hash[3] := Plus(hash[0], r.a), Plus(hash[1], r.b), Plus(hash[2], r.c),
      Plus(hash[3], r.d);
    hash[4], hash[5], hash[6], hash[7] := Plus(hash[4], r.e), Plus(hash[5], r.f), Plus(hash[6], r.g),
      Plus(hash[7], r.h);
    assert hash[..] == [Plus(before[0], r.a), Plus(before[1], r.b), Plus(before[2], r.c), Plus(before[3], r.d),
                        Plus(before[4], r.e), Plus(before[5], r.f), Plus(before[6], r.g), Plus(before[7], r.h)];
  }

  lemma MixStep(h: seq<Word>, r: Registers)
    requires |h| == 8
    ensures Mix(h, r) == [Plus(h[0], r.a), Plus(h[1], r.b), Plus(h[2], r.c), Plus(h[3], r.d),
                          Plus(h[4], r.e), Plus(h[5], r.f), Plus(h[6], r.g), Plus(h[7], r.h)]
  {
    hide Plus, Wrap;
    PlusAgrees(h[0], r.a);
    PlusAgrees(h[1], r.b);
    PlusAgrees(h[2], r.c);
    PlusAgrees(h[3], r.d);
    PlusAgrees(h[4], r.e);
    PlusAgrees(h[5], r.f);
    PlusAgrees(h[6], r.g);
    PlusAgrees(h[7], r.h);
  }

  /** `word.toString(16)`. */
  function ToString16(n: nat): (s: string)
    ensures |s| > 0
  {
    if n < 16 then [HexDigit(n)] else ToString16(n / 16) + [HexDigit(n % 16)]
  }

  function PadStart(s: string, width: nat): string
    decreases width - |s|
  {
    if |s| >= width then s else PadStart("0" + s, width)
  }

  lemma {:induction false} PadStartSnoc(s: string, c: char, width: nat)
    ensures PadStart(s + [c], width + 1) == PadStart(s, width) + [c]
    decreases width - |s|
  {
    if |s| < width {
      assert "0" + (s + [c]) == ("0" + s) + [c];
      PadStartSnoc("0" + s, c, width);
    }
  }

  lemma {:induction false} HexIsNibbles(n: nat, bound: nat, width: nat)
    requires n < bound && bound == Power16(width) && width > 0
    ensures PadStart(ToString16(n), width) == Nibbles(n, width)
  {
    if width == 1 {
      assert Nibbles(n / 16, 0) == "" && bound == 16 * Power16(0);
    } else {
      HexIsNibbles(n / 16, Power16(width - 1), width - 1);
      PadStartSnoc(ToString16(n / 16), HexDigit(n % 16), width - 1);
      if n < 16 {
        PadStartZero(HexDigit(n), width);
        assert ToString16(n / 16) == "0";
        assert "0" + [HexDigit(n)] == ToString16(n / 16) + [HexDigit(n % 16)];
      }
    }
  }

  lemma PadStartZero(c: char, width: nat)
    requires width > 1
    ensures PadStart([c], width) == PadStart("0" + [c], width)
  {}

  function Power16(n: nat): nat { if n == 0 then 1 else 16 * Power16(n - 1) }

  lemma HexWord(word: Word)
    ensures PadStart(ToString16(word as int), 8) == Nibbles(word as int, 8)
  {
    assert Power16(8) == TWO_32 by {
      assert Power16(4) == 0x1_0000;
      assert Power16(8) == 0x1_0000 * Power16(4);
    }
    HexIsNibbles(word as int, TWO_32, 8);
  }

  method HexOf(hash: array<Word>) returns (hex: string)
    ensures hex == HexWords(hash[..])
  {
    hide Nibbles, PadStart, ToString16;
    hex := "";
    for i := 0 to hash.Length
      invariant hex == HexWords(hash[..i])
    {
      HexWord(hash[i]);
      hex := hex + PadStart(ToString16(hash[i] as int), 8);
      assert hash[..i + 1][..i] == hash[..i];
    }
    assert hash[..hash.Length] == hash[..];
  }

  lemma BlockStep(bytes: seq<Byte>, n: nat)
    requires 64 * (n + 1) <= |bytes|
    ensures HashBlocks(bytes, n + 1) ==
            Mix(HashBlocks(bytes, n), Rounds(Load(HashBlocks(bytes, n)), Schedule(bytes, 64 * n, 64), 64))
  {
    hide Mix, Rounds, Load, Schedule;
  }

  /** The loops over arrays compute the digest of the standard, for every message. */
  method Sha256Hex(bytes: seq<Byte>) returns (hex: string)
    ensures hex == HexWords(Digest(bytes))
  {
    hide HashBlocks, Pad, InitialHash, Schedule, Mix, Rounds, Load, HexWords;
    PadFillsBlocks(bytes);
    var padded := PadBytes(bytes);
    ghost var message := padded[..];
    var initial := InitialHash();
    var hash := new Word[8](i requires 0 <= i < 8 => initial[i]);
    assert hash[..] == initial;
    FirstHash(message);
    var words := new Word[64](_ => 0);
    var offset := 0;
    ghost var n: nat := 0;
    while offset < padded.Length
      invariant offset == 64 * n && 64 * n <= padded.Length
      invariant padded[..] == message && hash[..] == HashBlocks(message, n)
    {
      CopyWords(padded, offset, words);
      ExtendWords(message, offset, words);
      BlockStep(message, n);
      CompressBlock(hash, words);
      n := n + 1;
      offset := offset + 64;
    }
    assert n == |Pad(bytes)| / 64;
    hex := HexOf(hash);
  }

  lemma FirstHash(bytes: seq<Byte>)
    ensures HashBlocks(bytes, 0) == InitialHash()
  {}
}

/** SHA-256 as FIPS 180-4 defines it, on byte strings. This module is the reference the streaming
    implementation in `FileSha256` is proved against; it follows the standard's sections, not the code. */
module Fips180 {
  import opened Bytes

  // Section 4.2.2: the 64 constant words.

  const K0: seq<bv32> := [
    0x428a2f98, 0x71374491, 0xb5c0fbcf, 0xe9b5dba5, 0x3956c25b, 0x59f111f1, 0x923f82a4, 0xab1c5ed5,
    0xd807aa98, 0x12835b01, 0x243185be, 0x550c7dc3, 0x72be5d74, 0x80deb1fe, 0x9bdc06a7, 0xc19bf174]

  const K1: seq<bv32> := [
    0xe49b69c1, 0xefbe4786, 0x0fc19dc6, 0x240ca1cc, 0x2de92c6f, 0x4a7484aa, 0x5cb0a9dc, 0x76f988da,
    0x983e5152, 0xa831c66d, 0xb00327c8, 0xbf597fc7, 0xc6e00bf3, 0xd5a79147, 0x06ca6351, 0x14292967]

  const K2: seq<bv32> := [
    0x27b70a85, 0x2e1b2138, 0x4d2c6dfc, 0x53380d13, 0x650a7354, 0x766a0abb, 0x81c2c92e, 0x92722c85,
    0xa2bfe8a1, 0xa81a664b, 0xc24b8b70, 0xc76c51a3, 0xd192e819, 0xd6990624, 0xf40e3585, 0x106aa070]

  const K3: seq<bv32> := [
    0x19a4c116, 0x1e376c08, 0x2748774c, 0x34b0bcb5, 0x391c0cb3, 0x4ed8aa4a, 0x5b9cca4f, 0x682e6ff3,
    0x748f82ee, 0x78a5636f, 0x84c87814, 0x8cc70208, 0x90befffa, 0xa4506ceb, 0xbef9a3f7, 0xc67178f2]

  function K(): (k: seq<bv32>)
    ensures |k| == 64
  {
    K0 + K1 + K2 + K3
  }

  // Section 5.3.3: the initial hash value.
  const H0: seq<bv32> := [
    0x6a09e667, 0xbb67ae85, 0x3c6ef372, 0xa54ff53a, 0x510e527f, 0x9b05688c, 0x1f83d9ab, 0x5be0cd19]

  // Section 3.2: the operations on words. Each has a name, so that the implementation and the standard
  // are compared term by term and no carry chain or bit vector enters a proof.

  function Add(x: bv32, y: bv32): bv32 { x + y }

  function Xor(x: bv32, y: bv32): bv32 { x ^ y }

  function And(x: bv32, y: bv32): bv32 { x & y }

  function Not(x: bv32): bv32 { !x }

  function Shr(n: bv32, x: bv32): bv32
    requires n < 32
  {
    x >> n
  }

  function RotR(n: bv32, x: bv32): bv32
    requires 0 < n < 32
  {
    (x >> n) | (x << (32 - n))
  }

  // Section 4.1.2: the six logical functions.

  function Ch(x: bv32, y: bv32, z: bv32): bv32 { Xor(And(x, y), And(Not(x), z)) }

  function Maj(x: bv32, y: bv32, z: bv32): bv32 { Xor(Xor(And(x, y), And(x, z)), And(y, z)) }

  function BigSigma0(x: bv32): bv32 { Xor(Xor(RotR(2, x), RotR(13, x)), RotR(22, x)) }

  function BigSigma1(x: bv32): bv32 { Xor(Xor(RotR(6, x), RotR(11, x)), RotR(25, x)) }

  function SmallSigma0(x: bv32): bv32 { Xor(Xor(RotR(7, x), RotR(18, x)), Shr(3, x)) }

  function SmallSigma1(x: bv32): bv32 { Xor(Xor(RotR(17, x), RotR(19, x)), Shr(10, x)) }

  /** The shifts of RotR are a circular rotation, for every amount SHA-256 uses. */
  lemma RotRIsRotation(x: bv32)
    ensures RotR(2, x) == x.RotateRight(2)
    ensures RotR(6, x) == x.RotateRight(6)
    ensures RotR(7, x) == x.RotateRight(7)
    ensures RotR(11, x) == x.RotateRight(11)
    ensures RotR(13, x) == x.RotateRight(13)
    ensures RotR(17, x) == x.RotateRight(17)
    ensures RotR(18, x) == x.RotateRight(18)
    ensures RotR(19, x) == x.RotateRight(19)
    ensures RotR(22, x) == x.RotateRight(22)
    ensures RotR(25, x) == x.RotateRight(25)
  {
  }

  /** Four bytes as one big-endian word (section 3.1). */
  function Word(b0: bv8, b1: bv8, b2: bv8, b3: bv8): bv32 {
    ((b0 as bv32) << 24) | ((b1 as bv32) << 16) | ((b2 as bv32) << 8) | (b3 as bv32)
  }

  /** Section 5.2.1: word t of a 512-bit block. */
  function BlockWord(block: seq<bv8>, t: nat): bv32
    requires |block| == 64 && t < 16
  {
    Word(block[4 * t], block[4 * t + 1], block[4 * t + 2], block[4 * t + 3])
  }

  /** Section 6.2.2, step 1: one word of the schedule from the words 16, 15, 7 and 2 places before it.
      The standard lists the same four terms in the opposite order. */
  function NextWord(w16: bv32, w15: bv32, w7: bv32, w2: bv32): bv32 {
    Add(Add(Add(w16, SmallSigma0(w15)), w7), SmallSigma1(w2))
  }

  /** Section 6.2.2, step 1: the first t words of the message schedule. */
  function Schedule(block: seq<bv8>, t: nat): (w: seq<bv32>)
    requires |block| == 64 && t <= 64
    ensures |w| == t
  {
    if t == 0 then []
    else
      var w := Schedule(block, t - 1);
      w + [if t <= 16 then BlockWord(block, t - 1)
           else NextWord(w[t - 17], w[t - 16], w[t - 8], w[t - 3])]
  }

  /** The eight working variables. */
  datatype Vars = Vars(a: bv32, b: bv32, c: bv32, d: bv32, e: bv32, f: bv32, g: bv32, h: bv32) {
    function Words(): (w: seq<bv32>)
      ensures |w| == 8
    {
      [a, b, c, d, e, f, g, h]
    }
  }

  /** Section 6.2.2, step 3: one round. */
  function Round(v: Vars, k: bv32, w: bv32): Vars {
    var t1 := Add(Add(Add(Add(v.h, BigSigma1(v.e)), Ch(v.e, v.f, v.g)), k), w);
    var t2 := Add(BigSigma0(v.a), Maj(v.a, v.b, v.c));
    Vars(Add(t1, t2), v.a, v.b, v.c, Add(v.d, t1), v.e, v.f, v.g)
  }

  function Rounds(v: Vars, k: seq<bv32>, words: seq<bv32>, t: nat): Vars
    requires |k| == |words| == 64 && t <= 64
  {
    if t == 0 then v else Round(Rounds(v, k, words, t - 1), k[t - 1], words[t - 1])
  }

  function Unpack(h: seq<bv32>): Vars
    requires |h| == 8
  {
    Vars(h[0], h[1], h[2], h[3], h[4], h[5], h[6], h[7])
  }

  /** Section 6.2.2, step 4. */
  function AddVars(h: seq<bv32>, v: Vars): (r: seq<bv32>)
    requires |h| == 8
    ensures |r| == 8
  {
    seq(8, i requires 0 <= i < 8 => Add(h[i], v.Words()[i]))
  }

  /** Section 6.2.2: one block turns one hash value into the next; k is the table of constants. */
  function Compress(h: seq<bv32>, k: seq<bv32>, block: seq<bv8>): (r: seq<bv32>)
    requires |h| == 8 && |k| == |block| == 64
    ensures |r| == 8
  {
    AddVars(h, Rounds(Unpack(h), k, Schedule(block, 64), 64))
  }

  /** The hash value after all the blocks of a padded message. */
  function HashBlocks(bytes: seq<bv8>): (h: seq<bv32>)
    requires |bytes| % 64 == 0
    ensures |h| == 8
  {
    if |bytes| == 0 then H0
    else Compress(HashBlocks(bytes[..|bytes| - 64]), K(), bytes[|bytes| - 64..])
  }

  /** The number of zero bytes of the padding: the standard's k is 8 * ZeroBytes + 7. */
  function ZeroBytes(length: nat): nat { (55 - length) % 64 }

  function Zeros(n: nat): seq<bv8> { seq(n, _ => 0) }

  /** Byte number i of a 64-bit big-endian length. */
  function LengthByte(bits: nat, i: nat): bv8
    requires i < 8
  {
    (bits / Pow256(7 - i) % 256) as bv8
  }

  function LengthBytes(bits: nat): seq<bv8> { seq(8, i requires 0 <= i < 8 => LengthByte(bits, i)) }

  /** The standard defines SHA-256 on messages of fewer than 2^64 bits. */
  const MESSAGE_LIMIT: nat := 0x2000_0000_0000_0000

  /** Section 5.1.1: padding. */
  function Pad(message: seq<bv8>): seq<bv8>
    requires |message| < MESSAGE_LIMIT
  {
    message + [0x80] + Zeros(ZeroBytes(|message|)) + LengthBytes(8 * |message|)
  }

  /** Section 5.1.1 asks for the smallest k with l + 1 + k = 448 (mod 512); that is the padding used. */
  lemma PaddingIsTheLeast(length: nat, k: nat)
    ensures (8 * length + 1 + (8 * ZeroBytes(length) + 7)) % 512 == 448
    ensures (8 * length + 1 + k) % 512 == 448 ==> 8 * ZeroBytes(length) + 7 <= k
  {
    var padding := 8 * ZeroBytes(length) + 7;
    var q := (55 - length) / 64;
    assert 8 * length + 1 + padding == 512 * (-q) + 448;
    if (8 * length + 1 + k) % 512 == 448 {
      var p := (8 * length + 1 + k) / 512;
      assert k - padding == 512 * (p + q);
    }
  }

  lemma PadLength(message: seq<bv8>)
    requires |message| < MESSAGE_LIMIT
    ensures |Pad(message)| % 64 == 0
  {
    var z := ZeroBytes(|message|);
    var q := (55 - |message|) / 64;
    assert |Pad(message)| == 64 * (1 - q);
  }

  function WordBytes(w: bv32): seq<bv8> {
    [((w >> 24) & 0xff) as bv8, ((w >> 16) & 0xff) as bv8, ((w >> 8) & 0xff) as bv8, (w & 0xff) as bv8]
  }

  function WordsBytes(words: seq<bv32>): (b: seq<bv8>)
    ensures |b| == 4 * |words|
  {
    if words == [] then [] else WordsBytes(words[..|words| - 1]) + WordBytes(words[|words| - 1])
  }

  /** Section 6.2: the SHA-256 digest. */
  function Digest(message: seq<bv8>): (d: seq<bv8>)
    requires |message| < MESSAGE_LIMIT
    ensures |d| == 32
  {
    PadLength(message);
    WordsBytes(HashBlocks(Pad(message)))
  }

  // ---------------------------------------------------------------------------------------------
  // The definitions above in other words: by the operators of 32-bit words, by values, and by the steps of the
  // example "abc" that is published with the standard.

  /** Section 4.1.2: Ch takes a bit of y or z as the bit of x says. */
  lemma ChIsChoice(x: bv32, y: bv32, z: bv32)
    ensures Ch(x, y, z) == (x & y) | (!x & z)
  {
  }

  /** Maj is the majority of three bits. */
  lemma MajIsMajority(x: bv32, y: bv32, z: bv32)
    ensures Maj(x, y, z) == (x & y) | (x & z) | (y & z)
  {
  }

  /** Section 6.2.2, step 3: the first rounds of the example, from the initial hash value. */
  lemma FirstRoundsOfAbc()
    ensures Unpack(H0)
      == Vars(0x6a09e667, 0xbb67ae85, 0x3c6ef372, 0xa54ff53a, 0x510e527f, 0x9b05688c, 0x1f83d9ab, 0x5be0cd19)
    ensures Round(Vars(0x6a09e667, 0xbb67ae85, 0x3c6ef372, 0xa54ff53a, 0x510e527f, 0x9b05688c, 0x1f83d9ab, 0x5be0cd19),
                  0x428a2f98, 0x61626380)
      == Vars(0x5d6aebcd, 0x6a09e667, 0xbb67ae85, 0x3c6ef372, 0xfa2a4622, 0x510e527f, 0x9b05688c, 0x1f83d9ab)
    ensures Round(Vars(0x5d6aebcd, 0x6a09e667, 0xbb67ae85, 0x3c6ef372, 0xfa2a4622, 0x510e527f, 0x9b05688c, 0x1f83d9ab),
                  0x71374491, 0x00000000)
      == Vars(0x5a6ad9ad, 0x5d6aebcd, 0x6a09e667, 0xbb67ae85, 0x78ce7989, 0xfa2a4622, 0x510e527f, 0x9b05688c)
    ensures Round(Vars(0x5a6ad9ad, 0x5d6aebcd, 0x6a09e667, 0xbb67ae85, 0x78ce7989, 0xfa2a4622, 0x510e527f, 0x9b05688c),
                  0xb5c0fbcf, 0x00000000)
      == Vars(0xc8c347a7, 0x5a6ad9ad, 0x5d6aebcd, 0x6a09e667, 0xf92939eb, 0x78ce7989, 0xfa2a4622, 0x510e527f)
    ensures Round(Vars(0xc8c347a7, 0x5a6ad9ad, 0x5d6aebcd, 0x6a09e667, 0xf92939eb, 0x78ce7989, 0xfa2a4622, 0x510e527f),
                  0xe9b5dba5, 0x00000000)
      == Vars(0xd550f666, 0xc8c347a7, 0x5a6ad9ad, 0x5d6aebcd, 0x24e00850, 0xf92939eb, 0x78ce7989, 0xfa2a4622)
  {
  }

  /** Step 1: words of its schedule. */
  lemma FirstWordsOfAbc()
    ensures Word(0x61, 0x62, 0x63, 0x80) == 0x61626380
    ensures NextWord(0x61626380, 0x00000000, 0x00000000, 0x00000000) == 0x61626380
    ensures NextWord(0x00000000, 0x00000000, 0x00000000, 0x00000018) == 0x000f0000
    ensures NextWord(0x00000000, 0x00000000, 0x00000000, 0x61626380) == 0x7da86405
    ensures NextWord(0x00000000, 0x00000018, 0xe2e2c38e, 0x9d209d67) == 0x702138a4
    ensures NextWord(0x00000018, 0x61626380, 0xc8215c1a, 0xec8726cb) == 0xd3b7973b
    ensures NextWord(0x61626380, 0x000f0000, 0xb73679a2, 0x702138a4) == 0x93f5997f
  {
  }

  /** Every word of a schedule. */
  lemma {:induction false} ScheduleAt(block: seq<bv8>, n: nat, t: nat)
    requires |block| == 64 && t < n <= 64
    ensures var w := Schedule(block, n);
      w[t] == if t < 16 then Word(block[4 * t], block[4 * t + 1], block[4 * t + 2], block[4 * t + 3])
              else NextWord(w[t - 16], w[t - 15], w[t - 7], w[t - 2])
  {
    hide Word, NextWord;
    if t < n - 1 {
      ScheduleAt(block, n - 1, t);
    }
  }

  /** Section 3.1: a word is read and written with its most significant byte first. */
  lemma WordsAreBigEndian(w: bv32, b0: bv8, b1: bv8, b2: bv8, b3: bv8)
    ensures var s := WordBytes(w); |s| == 4 && Word(s[0], s[1], s[2], s[3]) == w
    ensures WordBytes(Word(b0, b1, b2, b3)) == [b0, b1, b2, b3]
    ensures w < 0x100 ==> WordBytes(w) == [0, 0, 0, w as bv8]
  {
  }

  lemma PowersOf256()
    ensures Pow256(0) == 1 && Pow256(1) == 0x100 && Pow256(2) == 0x1_0000 && Pow256(3) == 0x100_0000
    ensures Pow256(4) == 0x1_0000_0000 && Pow256(5) == 0x100_0000_0000 && Pow256(6) == 0x1_0000_0000_0000
    ensures Pow256(7) == 0x100_0000_0000_0000
  {
  }

  lemma {:induction false} WordsInOrder(words: seq<bv32>, i: nat)
    requires i < |words|
    ensures WordsBytes(words)[4 * i..4 * i + 4] == WordBytes(words[i])
  {
    hide WordBytes;
    assert |WordBytes(words[|words| - 1])| == 4 by {
      WordHasFour(words[|words| - 1]);
    }
    if i < |words| - 1 {
      WordsInOrder(words[..|words| - 1], i);
      assert WordsBytes(words)[4 * i..4 * i + 4] == WordsBytes(words[..|words| - 1])[4 * i..4 * i + 4];
    }
  }

  lemma WordHasFour(w: bv32)
    ensures |WordBytes(w)| == 4
  {
  }

  /** Section 6.2.2, step 4: the working variables are added to the old hash value, word by word. */
  lemma AddedInOrder(h: seq<bv32>, v: Vars)
    requires |h| == 8
    ensures AddVars(h, v) == [Add(h[0], v.a), Add(h[1], v.b), Add(h[2], v.c), Add(h[3], v.d),
                              Add(h[4], v.e), Add(h[5], v.f), Add(h[6], v.g), Add(h[7], v.h)]
  {
    hide Add;
  }

  lemma LengthByteIs(bits: nat)
    ensures LengthByte(bits, 0) == (bits / 0x100_0000_0000_0000 % 256) as bv8
    ensures LengthByte(bits, 1) == (bits / 0x1_0000_0000_0000 % 256) as bv8
    ensures LengthByte(bits, 2) == (bits / 0x100_0000_0000 % 256) as bv8
    ensures LengthByte(bits, 3) == (bits / 0x1_0000_0000 % 256) as bv8
    ensures LengthByte(bits, 4) == (bits / 0x100_0000 % 256) as bv8
    ensures LengthByte(bits, 5) == (bits / 0x1_0000 % 256) as bv8
    ensures LengthByte(bits, 6) == (bits / 0x100 % 256) as bv8
    ensures LengthByte(bits, 7) == (bits % 256) as bv8
  {
    PowersOf256();
    hide Pow256;
  }

  /** Section 5.1.1: a padded message begins with the message and a one bit, and ends with its length in bits. */
  lemma PaddingIs(message: seq<bv8>)
    requires |message| < MESSAGE_LIMIT
    ensures var padded, n := Pad(message), |message|;
      && |padded| >= n + 9 && padded[..n] == message && padded[n] == 0x80
      && (forall k | n < k < |padded| - 8 :: padded[k] == 0)
      && forall i | 0 <= i < 8 :: padded[|padded| - 8 + i] == LengthByte(8 * n, i)
  {
    hide LengthByte;
  }

  // ---------------------------------------------------------------------------------------------
  // Sections 4.2.2 and 5.3.3 define the constants as the first 32 bits of the fractional parts of
  // the cube (square) roots of the first primes; the tables are checked against that definition.

  /** w is the fractional part, scaled by 2^32, of the cube root of p; n is that root scaled by 2^32. */
  predicate IsCubeRootWord(w: bv32, p: nat, n: nat) {
    && n * n * n <= p * 0x1_0000_0000_0000_0000_0000_0000 < (n + 1) * (n + 1) * (n + 1)
    && n % 0x1_0000_0000 == w as nat
  }

  predicate IsSquareRootWord(w: bv32, p: nat, n: nat) {
    && n * n <= p * 0x1_0000_0000_0000_0000 < (n + 1) * (n + 1)
    && n % 0x1_0000_0000 == w as nat
  }

  // The first 64 primes, and their roots.

  const P0: seq<nat> := [2, 3, 5, 7, 11, 13, 17, 19, 23, 29, 31, 37, 41, 43, 47, 53]
  const P1: seq<nat> := [59, 61, 67, 71, 73, 79, 83, 89, 97, 101, 103, 107, 109, 113, 127, 131]
  const P2: seq<nat> := [137, 139, 149, 151, 157, 163, 167, 173, 179, 181, 191, 193, 197, 199, 211, 223]
  const P3: seq<nat> := [227, 229, 233, 239, 241, 251, 257, 263, 269, 271, 277, 281, 283, 293, 307, 311]

  const R0: seq<nat> := [
    0x1428a2f98, 0x171374491, 0x1b5c0fbcf, 0x1e9b5dba5, 0x23956c25b, 0x259f111f1, 0x2923f82a4, 0x2ab1c5ed5,
    0x2d807aa98, 0x312835b01, 0x3243185be, 0x3550c7dc3, 0x372be5d74, 0x380deb1fe, 0x39bdc06a7, 0x3c19bf174]

  const R1: seq<nat> := [
    0x3e49b69c1, 0x3efbe4786, 0x40fc19dc6, 0x4240ca1cc, 0x42de92c6f, 0x44a7484aa, 0x45cb0a9dc, 0x476f988da,
    0x4983e5152, 0x4a831c66d, 0x4b00327c8, 0x4bf597fc7, 0x4c6e00bf3, 0x4d5a79147, 0x506ca6351, 0x514292967]

  const R2: seq<nat> := [
    0x527b70a85, 0x52e1b2138, 0x54d2c6dfc, 0x553380d13, 0x5650a7354, 0x5766a0abb, 0x581c2c92e, 0x592722c85,
    0x5a2bfe8a1, 0x5a81a664b, 0x5c24b8b70, 0x5c76c51a3, 0x5d192e819, 0x5d6990624, 0x5f40e3585, 0x6106aa070]

  const R3: seq<nat> := [
    0x619a4c116, 0x61e376c08, 0x62748774c, 0x634b0bcb5, 0x6391c0cb3, 0x64ed8aa4a, 0x65b9cca4f, 0x6682e6ff3,
    0x6748f82ee, 0x678a5636f, 0x684c87814, 0x68cc70208, 0x690befffa, 0x6a4506ceb, 0x6bef9a3f7, 0x6c67178f2]

  const S0: seq<nat> := [
    0x16a09e667, 0x1bb67ae85, 0x23c6ef372, 0x2a54ff53a, 0x3510e527f, 0x39b05688c, 0x41f83d9ab, 0x45be0cd19]

  lemma Checked0()
    ensures IsCubeRootWord(0x428a2f98, 2, 0x1428a2f98)
    ensures IsCubeRootWord(0x71374491, 3, 0x171374491)
    ensures IsCubeRootWord(0xb5c0fbcf, 5, 0x1b5c0fbcf)
    ensures IsCubeRootWord(0xe9b5dba5, 7, 0x1e9b5dba5)
    ensures IsCubeRootWord(0x3956c25b, 11, 0x23956c25b)
    ensures IsCubeRootWord(0x59f111f1, 13, 0x259f111f1)
    ensures IsCubeRootWord(0x923f82a4, 17, 0x2923f82a4)
    ensures IsCubeRootWord(0xab1c5ed5, 19, 0x2ab1c5ed5)
  {
  }

  lemma Checked1()
    ensures IsCubeRootWord(0xd807aa98, 23, 0x2d807aa98)
    ensures IsCubeRootWord(0x12835b01, 29, 0x312835b01)
    ensures IsCubeRootWord(0x243185be, 31, 0x3243185be)
    ensures IsCubeRootWord(0x550c7dc3, 37, 0x3550c7dc3)
    ensures IsCubeRootWord(0x72be5d74, 41, 0x372be5d74)
    ensures IsCubeRootWord(0x80deb1fe, 43, 0x380deb1fe)
    ensures IsCubeRootWord(0x9bdc06a7, 47, 0x39bdc06a7)
    ensures IsCubeRootWord(0xc19bf174, 53, 0x3c19bf174)
  {
  }

  lemma CubeRoots0(i: nat)
    requires i < 16
    ensures IsCubeRootWord(K0[i], P0[i], R0[i])
  {
    hide IsCubeRootWord;
    Checked0();
    Checked1();
    match i {
      case 0 => case 1 => case 2 => case 3 => case 4 => case 5 => case 6 => case 7 =>
      case 8 => case 9 => case 10 => case 11 => case 12 => case 13 => case 14 => case 15 =>
    }
  }

  lemma Checked2()
    ensures IsCubeRootWord(0xe49b69c1, 59, 0x3e49b69c1)
    ensures IsCubeRootWord(0xefbe4786, 61, 0x3efbe4786)
    ensures IsCubeRootWord(0x0fc19dc6, 67, 0x40fc19dc6)
    ensures IsCubeRootWord(0x240ca1cc, 71, 0x4240ca1cc)
    ensures IsCubeRootWord(0x2de92c6f, 73, 0x42de92c6f)
    ensures IsCubeRootWord(0x4a7484aa, 79, 0x44a7484aa)
    ensures IsCubeRootWord(0x5cb0a9dc, 83, 0x45cb0a9dc)
    ensures IsCubeRootWord(0x76f988da, 89, 0x476f988da)
  {
  }

  lemma Checked3()
    ensures IsCubeRootWord(0x983e5152, 97, 0x4983e5152)
    ensures IsCubeRootWord(0xa831c66d, 101, 0x4a831c66d)
    ensures IsCubeRootWord(0xb00327c8, 103, 0x4b00327c8)
    ensures IsCubeRootWord(0xbf597fc7, 107, 0x4bf597fc7)
    ensures IsCubeRootWord(0xc6e00bf3, 109, 0x4c6e00bf3)
    ensures IsCubeRootWord(0xd5a79147, 113, 0x4d5a79147)
    ensures IsCubeRootWord(0x06ca6351, 127, 0x506ca6351)
    ensures IsCubeRootWord(0x14292967, 131, 0x514292967)
  {
  }

  lemma CubeRoots1(i: nat)
    requires i < 16
    ensures IsCubeRootWord(K1[i], P1[i], R1[i])
  {
    hide IsCubeRootWord;
    Checked2();
    Checked3();
    match i {
      case 0 => case 1 => case 2 => case 3 => case 4 => case 5 => case 6 => case 7 =>
      case 8 => case 9 => case 10 => case 11 => case 12 => case 13 => case 14 => case 15 =>
    }
  }

  lemma Checked4()
    ensures IsCubeRootWord(0x27b70a85, 137, 0x527b70a85)
    ensures IsCubeRootWord(0x2e1b2138, 139, 0x52e1b2138)
    ensures IsCubeRootWord(0x4d2c6dfc, 149, 0x54d2c6dfc)
    ensures IsCubeRootWord(0x53380d13, 151, 0x553380d13)
    ensures IsCubeRootWord(0x650a7354, 157, 0x5650a7354)
    ensures IsCubeRootWord(0x766a0abb, 163, 0x5766a0abb)
    ensures IsCubeRootWord(0x81c2c92e, 167, 0x581c2c92e)
    ensures IsCubeRootWord(0x92722c85, 173, 0x592722c85)
  {
  }

  lemma Checked5()
    ensures IsCubeRootWord(0xa2bfe8a1, 179, 0x5a2bfe8a1)
    ensures IsCubeRootWord(0xa81a664b, 181, 0x5a81a664b)
    ensures IsCubeRootWord(0xc24b8b70, 191, 0x5c24b8b70)
    ensures IsCubeRootWord(0xc76c51a3, 193, 0x5c76c51a3)
    ensures IsCubeRootWord(0xd192e819, 197, 0x5d192e819)
    ensures IsCubeRootWord(0xd6990624, 199, 0x5d6990624)
    ensures IsCubeRootWord(0xf40e3585, 211, 0x5f40e3585)
    ensures IsCubeRootWord(0x106aa070, 223, 0x6106aa070)
  {
  }

  lemma CubeRoots2(i: nat)
    requires i < 16
    ensures IsCubeRootWord(K2[i], P2[i], R2[i])
  {
    hide IsCubeRootWord;
    Checked4();
    Checked5();
    match i {
      case 0 => case 1 => case 2 => case 3 => case 4 => case 5 => case 6 => case 7 =>
      case 8 => case 9 => case 10 => case 11 => case 12 => case 13 => case 14 => case 15 =>
    }
  }

  lemma Checked6()
    ensures IsCubeRootWord(0x19a4c116, 227, 0x619a4c116)
    ensures IsCubeRootWord(0x1e376c08, 229, 0x61e376c08)
    ensures IsCubeRootWord(0x2748774c, 233, 0x62748774c)
    ensures IsCubeRootWord(0x34b0bcb5, 239, 0x634b0bcb5)
    ensures IsCubeRootWord(0x391c0cb3, 241, 0x6391c0cb3)
    ensures IsCubeRootWord(0x4ed8aa4a, 251, 0x64ed8aa4a)
    ensures IsCubeRootWord(0x5b9cca4f, 257, 0x65b9cca4f)
    ensures IsCubeRootWord(0x682e6ff3, 263, 0x6682e6ff3)
  {
  }

  lemma Checked7()
    ensures IsCubeRootWord(0x748f82ee, 269, 0x6748f82ee)
    ensures IsCubeRootWord(0x78a5636f, 271, 0x678a5636f)
    ensures IsCubeRootWord(0x84c87814, 277, 0x684c87814)
    ensures IsCubeRootWord(0x8cc70208, 281, 0x68cc70208)
    ensures IsCubeRootWord(0x90befffa, 283, 0x690befffa)
    ensures IsCubeRootWord(0xa4506ceb, 293, 0x6a4506ceb)
    ensures IsCubeRootWord(0xbef9a3f7, 307, 0x6bef9a3f7)
    ensures IsCubeRootWord(0xc67178f2, 311, 0x6c67178f2)
  {
  }

  lemma CubeRoots3(i: nat)
    requires i < 16
    ensures IsCubeRootWord(K3[i], P3[i], R3[i])
  {
    hide IsCubeRootWord;
    Checked6();
    Checked7();
    match i {
      case 0 => case 1 => case 2 => case 3 => case 4 => case 5 => case 6 => case 7 =>
      case 8 => case 9 => case 10 => case 11 => case 12 => case 13 => case 14 => case 15 =>
    }
  }

  /** Every constant word is the one the standard defines: of the cube root of the prime with its number. */
  lemma ConstantsAreCubeRoots(i: nat)
    requires i < 64
    ensures |K()| == |P0 + P1 + P2 + P3| == |R0 + R1 + R2 + R3| == 64
    ensures IsCubeRootWord(K()[i], (P0 + P1 + P2 + P3)[i], (R0 + R1 + R2 + R3)[i])
  {
    hide IsCubeRootWord;
    forall j: nat | j < 16
      ensures IsCubeRootWord(K0[j], P0[j], R0[j]) && IsCubeRootWord(K1[j], P1[j], R1[j])
      ensures IsCubeRootWord(K2[j], P2[j], R2[j]) && IsCubeRootWord(K3[j], P3[j], R3[j])
    {
      CubeRoots0(j);
      CubeRoots1(j);
      CubeRoots2(j);
      CubeRoots3(j);
    }
    RowAt(K0, K1, K2, K3, i);
    RowAt(P0, P1, P2, P3, i);
    RowAt(R0, R1, R2, R3, i);
  }

  lemma RowAt<T>(a: seq<T>, b: seq<T>, c: seq<T>, d: seq<T>, i: nat)
    requires |a| == |b| == |c| == |d| == 16 && i < 64
    ensures (a + b + c + d)[i]
      == if i < 16 then a[i] else if i < 32 then b[i - 16] else if i < 48 then c[i - 32] else d[i - 48]
  {
  }

  /** Every word of the initial hash value is the one the standard defines. */
  lemma InitialValueIsSquareRoots(i: nat)
    requires i < 8
    ensures IsSquareRootWord(H0[i], P0[i], S0[i])
  {
    match i {
      case 0 => assert IsSquareRootWord(H0[0], 2, 0x16a09e667);
      case 1 => assert IsSquareRootWord(H0[1], 3, 0x1bb67ae85);
      case 2 => assert IsSquareRootWord(H0[2], 5, 0x23c6ef372);
      case 3 => assert IsSquareRootWord(H0[3], 7, 0x2a54ff53a);
      case 4 => assert IsSquareRootWord(H0[4], 11, 0x3510e527f);
      case 5 => assert IsSquareRootWord(H0[5], 13, 0x39b05688c);
      case 6 => assert IsSquareRootWord(H0[6], 17, 0x41f83d9ab);
      case 7 => assert IsSquareRootWord(H0[7], 19, 0x45be0cd19);
    }
  }
}

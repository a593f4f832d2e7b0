/** The streaming SHA-256 of src/utils/file_sha256.cpp: a 64-byte block filled byte by byte, and the
    read loop and hexadecimal output around it. */
module FileSha256 {
  import opened Bytes
  import opened Fips180

  const TWO_64: nat := 0x1_0000_0000_0000_0000

  method ExtendSchedule(w16: bv32, w15: bv32, w7: bv32, w2: bv32) returns (w: bv32)
    ensures w == NextWord(w16, w15, w7, w2)
  {
    var s0 := Xor(Xor(RotR(7, w15), RotR(18, w15)), Shr(3, w15));
    var s1 := Xor(Xor(RotR(17, w2), RotR(19, w2)), Shr(10, w2));
    w := Add(Add(Add(w16, s0), w7), s1);
  }

  method OneRound(a: bv32, b: bv32, c: bv32, d: bv32, e: bv32, f: bv32, g: bv32, h: bv32, k: bv32, w: bv32)
    returns (a': bv32, b': bv32, c': bv32, d': bv32, e': bv32, f': bv32, g': bv32, h': bv32)
    ensures Vars(a', b', c', d', e', f', g', h') == Round(Vars(a, b, c, d, e, f, g, h), k, w)
  {
    var choice := Xor(And(e, f), And(Not(e), g));
    var majority := Xor(Xor(And(a, b), And(a, c)), And(b, c));
    var sum0 := Xor(Xor(RotR(2, a), RotR(13, a)), RotR(22, a));
    var sum1 := Xor(Xor(RotR(6, e), RotR(11, e)), RotR(25, e));
    var temporary1 := Add(Add(Add(Add(h, sum1), choice), k), w);
    var temporary2 := Add(sum0, majority);
    h' := g;
    g' := f;
    f' := e;
    e' := Add(d, temporary1);
    d' := c;
    c' := b;
    b' := a;
    a' := Add(temporary1, temporary2);
  }

  /** The second half of transform: the 64 rounds. */
  method RunRounds(a0: bv32, b0: bv32, c0: bv32, d0: bv32, e0: bv32, f0: bv32, g0: bv32, h0: bv32,
                   constants: seq<bv32>, words: array<bv32>)
    returns (a: bv32, b: bv32, c: bv32, d: bv32, e: bv32, f: bv32, g: bv32, h: bv32)
    requires |constants| == words.Length == 64
    ensures Vars(a, b, c, d, e, f, g, h)
         == Rounds(Vars(a0, b0, c0, d0, e0, f0, g0, h0), constants, words[..], 64)
  {
    a, b, c, d, e, f, g, h := a0, b0, c0, d0, e0, f0, g0, h0;
    for index := 0 to words.Length
      invariant Vars(a, b, c, d, e, f, g, h)
             == Rounds(Vars(a0, b0, c0, d0, e0, f0, g0, h0), constants, words[..], index)
    {
      a, b, c, d, e, f, g, h := OneRound(a, b, c, d, e, f, g, h, constants[index], words[index]);
    }
  }

  class Sha256 {
    const block: array<bv8>
    var blockSize: nat
    var bitLength: nat
    const state: array<bv32>
    /** Everything passed to Update so far. */
    ghost var message: seq<bv8>

    ghost predicate Shape()
    {
      block.Length == 64 && state.Length == 8
    }

    /** The bytes already compressed: whole blocks only. */
    ghost function Consumed(): seq<bv8>
      requires blockSize <= |message|
      reads this
    {
      message[..|message| - blockSize]
    }

    ghost predicate Valid()
      reads this, block, state
    {
      && Shape()
      && blockSize < 64 && blockSize <= |message|
      && |Consumed()| % 64 == 0
      && message == Consumed() + block[..blockSize]
      && state[..] == HashBlocks(Consumed())
      && bitLength == 8 * |Consumed()| % TWO_64
    }

    constructor ()
      ensures Valid() && message == []
      ensures fresh(block) && fresh(state)
    {
      block := new bv8[64];
      state := new bv32[8] [0x6a09e667, 0xbb67ae85, 0x3c6ef372, 0xa54ff53a,
                            0x510e527f, 0x9b05688c, 0x1f83d9ab, 0x5be0cd19];
      blockSize := 0;
      bitLength := 0;
      message := [];
      new;
      assert state[..] == H0;
    }

    /** The first half of transform: the 64 words of the message schedule. */
    method PrepareWords(words: array<bv32>)
      requires Shape() && words.Length == 64 && words != state
      modifies words
      ensures words[..] == Schedule(block[..], 64)
    {
      for index := 0 to 16
        invariant words[..index] == Schedule(block[..], index)
      {
        var offset := index * 4;
        words[index] := ((block[offset] as bv32) << 24) | ((block[offset + 1] as bv32) << 16)
                        | ((block[offset + 2] as bv32) << 8) | (block[offset + 3] as bv32);
        assert words[index] == BlockWord(block[..], index);
        assert words[..index + 1] == words[..index] + [words[index]];
      }
      for index := 16 to 64
        invariant words[..index] == Schedule(block[..], index)
      {
        ghost var w := words[..index];
        words[index] := ExtendSchedule(words[index - 16], words[index - 15], words[index - 7], words[index - 2]);
        assert words[..index + 1] == w + [words[index]];
      }
      assert words[..64] == words[..];
    }

    /** Compresses the full block into the state. */
    method Transform()
      requires Shape()
      modifies state
      ensures state[..] == Compress(old(state[..]), K(), block[..])
    {
      TransformWith(K());
    }

    /** The eight closing additions. */
    method AddToState(v: Vars)
      requires Shape()
      modifies state
      ensures state[..] == AddVars(old(state[..]), v)
    {
      ghost var before := state[..];
      var words := v.Words();
      for i := 0 to 8
        invariant forall j | 0 <= j < 8 :: state[j] == if j < i then Add(before[j], words[j]) else before[j]
      {
        state[i] := Add(state[i], words[i]);
      }
    }

    method TransformWith(constants: seq<bv32>)
      requires Shape() && |constants| == 64
      modifies state
      ensures state[..] == Compress(old(state[..]), constants, block[..])
    {
      var words := new bv32[64];
      PrepareWords(words);
      var a, b, c, d := state[0], state[1], state[2], state[3];
      var e, f, g, h := state[4], state[5], state[6], state[7];
      a, b, c, d, e, f, g, h := RunRounds(a, b, c, d, e, f, g, h, constants, words);
      AddToState(Vars(a, b, c, d, e, f, g, h));
    }

    /** One turn of update's loop. */
    method PutByte(byte: bv8)
      requires Valid()
      modifies this, block, state
      ensures Valid() && message == old(message) + [byte]
    {
      hide Compress, HashBlocks;
      ghost var consumed := Consumed();
      block[blockSize] := byte;
      blockSize := blockSize + 1;
      message := message + [byte];
      assert block[..blockSize] == old(block[..blockSize]) + [byte];
      assert message == consumed + block[..blockSize];
      assert Consumed() == consumed;
      if blockSize == block.Length {
        Transform();
        OneMoreBlock(consumed, block[..]);
        assert message == consumed + block[..];
        LengthGrows(|consumed|);
        bitLength := (bitLength + 512) % TWO_64;
        blockSize := 0;
        assert Consumed() == message;
      }
    }

    method Update(bytes: seq<bv8>)
      requires Valid()
      modifies this, block, state
      ensures Valid() && message == old(message) + bytes
    {
      for index := 0 to |bytes|
        invariant Valid() && message == old(message) + bytes[..index]
      {
        PutByte(bytes[index]);
        assert bytes[..index + 1] == bytes[..index] + [bytes[index]];
      }
      assert bytes[..|bytes|] == bytes;
    }

    /** Overwrites block[from..to] with zeros; returns to. */
    method FillZeros(from: nat, to: nat)
      requires Shape() && from <= to <= 64
      modifies block
      ensures block[..] == old(block[..from]) + Zeros(to - from) + old(block[to..])
    {
      var index := from;
      while index < to
        invariant from <= index <= to
        invariant block[..from] == old(block[..from]) && block[to..] == old(block[to..])
        invariant forall i | from <= i < index :: block[i] == 0
      {
        block[index] := 0;
        index := index + 1;
      }
    }

    /** Writes the 64-bit big-endian bit length at the end of the block. */
    method PutLength(bits: nat)
      requires Shape()
      modifies block
      ensures block[..] == old(block[..56]) + LengthBytes(bits)
    {
      var index, shift := 56, 7;
      while index < 64
        invariant 56 <= index <= 64 && shift == 63 - index
        invariant block[..56] == old(block[..56])
        invariant forall i | 56 <= i < index :: block[i] == LengthByte(bits, i - 56)
      {
        block[index] := (bits / Pow256(shift) % 256) as bv8;
        index := index + 1;
        shift := shift - 1;
      }
    }

    /** The terminating bit and, when the length no longer fits, a first closing block. */
    method PadFirst() returns (index: nat, ghost first: seq<bv8>)
      requires Valid()
      modifies block, state
      ensures index == |Opening(old(block[..blockSize]), first)| <= 56
      ensures block[..index] == Opening(old(block[..blockSize]), first)
      ensures first == FirstClosing(old(block[..blockSize]))
      ensures |Consumed() + first| % 64 == 0 && state[..] == HashBlocks(Consumed() + first)
    {
      hide Compress, HashBlocks;
      block[blockSize] := 0x80;
      index := blockSize + 1;
      first := [];
      assert Consumed() + first == Consumed();
      if index > 56 {
        FillZeros(index, 64);
        first := block[..];
        Transform();
        OneMoreBlock(Consumed(), first);
        index := 0;
      }
    }

    /** The rest of the padding: zeros, the length and the last block. */
    method PadAndTransform()
      requires Valid()
      modifies this`bitLength, block, state
      ensures |message| < MESSAGE_LIMIT ==> |Pad(message)| % 64 == 0 && state[..] == HashBlocks(Pad(message))
    {
      hide Compress, HashBlocks, Pad, LengthBytes, ZeroBytes;
      ghost var consumed, tail := Consumed(), block[..blockSize];
      var index, first := PadFirst();
      ghost var opening := block[..index];
      FillZeros(index, 56);
      assert block[..56] == opening + Zeros(56 - index);
      bitLength := (bitLength + blockSize * 8) % TWO_64;
      PutLength(bitLength);
      ghost var last := block[..];
      Transform();
      OneMoreBlock(consumed + first, last);
      if |message| < MESSAGE_LIMIT {
        LengthFits(|consumed|, |tail|);
        assert message == consumed + tail;
        PaddedBlocks(consumed, tail);
        PadLength(message);
        assert consumed + first + last == Pad(message);
      }
    }

    /** finish: the digest is the final state, each word as four bytes, most significant first. */
    method Finish() returns (result: seq<bv8>)
      requires Valid()
      modifies this`bitLength, block, state
      ensures |message| < MESSAGE_LIMIT ==> result == Digest(message)
    {
      hide Compress, HashBlocks, Pad;
      PadAndTransform();
      result := [];
      for word := 0 to 8
        invariant result == WordsBytes(state[..word])
      {
        assert state[..word + 1][..word] == state[..word];
        result := result + WordBytes(state[word]);
      }
      assert state[..8] == state[..];
    }
  }

  /** The 64-bit counter after one more block of 512 bits. */
  lemma LengthGrows(consumed: nat)
    ensures (8 * consumed % TWO_64 + 512) % TWO_64 == 8 * (consumed + 64) % TWO_64
  {
  }

  /** Below the standard's limit the 64-bit counter has not wrapped. */
  lemma LengthFits(consumed: nat, tail: nat)
    requires consumed + tail < MESSAGE_LIMIT
    ensures (8 * consumed % TWO_64 + tail * 8) % TWO_64 == 8 * (consumed + tail)
  {
    assert 8 * consumed % TWO_64 == 8 * consumed;
  }

  /** The extra closing block, needed when the terminating bit leaves no room for the length. */
  ghost function FirstClosing(tail: seq<bv8>): seq<bv8>
    requires |tail| < 64
  {
    if |tail| + 1 > 56 then tail + [0x80] + Zeros(63 - |tail|) else []
  }

  /** What the last block starts with. */
  ghost function Opening(tail: seq<bv8>, first: seq<bv8>): seq<bv8> {
    if first == [] then tail + [0x80] else []
  }

  /** The padded message is the consumed blocks followed by the one or two blocks finish builds. */
  lemma PaddedBlocks(consumed: seq<bv8>, tail: seq<bv8>)
    requires |consumed| % 64 == 0 && |tail| < 64 && |consumed + tail| < MESSAGE_LIMIT
    ensures var first := FirstClosing(tail);
            var opening := Opening(tail, first);
            && |opening| <= 56
            && consumed + first + (opening + Zeros(56 - |opening|) + LengthBytes(8 * |consumed + tail|))
               == Pad(consumed + tail)
  {
    var length := LengthBytes(8 * |consumed + tail|);
    ZerosForTail(|consumed|, |tail|);
    assert |consumed + tail| == |consumed| + |tail|;
    hide Zeros, ZeroBytes, LengthBytes;
    if |tail| + 1 > 56 {
      ZerosConcat(63 - |tail|, 56);
      TwoBlocks(consumed, tail, [0x80], Zeros(63 - |tail|), Zeros(56), length);
    } else {
      OneBlock(consumed, tail, [0x80], Zeros(55 - |tail|), length);
    }
  }

  lemma ZerosForTail(consumed: nat, tail: nat)
    requires consumed % 64 == 0 && tail < 64
    ensures ZeroBytes(consumed + tail) == if tail + 1 > 56 then 119 - tail else 55 - tail
  {
    var q := consumed / 64;
    assert 55 - (consumed + tail) == 64 * -q + (55 - tail);
  }

  lemma ZerosConcat(a: nat, b: nat)
    ensures Zeros(a) + Zeros(b) == Zeros(a + b)
  {
  }

  lemma TwoBlocks(consumed: seq<bv8>, tail: seq<bv8>, bit: seq<bv8>, zeros: seq<bv8>, more: seq<bv8>, length: seq<bv8>)
    ensures consumed + (tail + bit + zeros) + ([] + more + length) == consumed + tail + bit + (zeros + more) + length
  {
  }

  lemma OneBlock(consumed: seq<bv8>, tail: seq<bv8>, bit: seq<bv8>, zeros: seq<bv8>, length: seq<bv8>)
    ensures consumed + [] + (tail + bit + zeros + length) == consumed + tail + bit + zeros + length
  {
  }

  lemma OneMoreBlock(consumed: seq<bv8>, block: seq<bv8>)
    requires |consumed| % 64 == 0 && |block| == 64
    ensures |consumed + block| % 64 == 0
    ensures HashBlocks(consumed + block) == Compress(HashBlocks(consumed), K(), block)
  {
    var all := consumed + block;
    assert all[..|all| - 64] == consumed && all[|all| - 64..] == block;
  }

  function Flatten(chunks: seq<seq<bv8>>): seq<bv8> {
    if chunks == [] then [] else Flatten(chunks[..|chunks| - 1]) + chunks[|chunks| - 1]
  }

  /** However a message is cut into update calls, the digest is the standard's digest of the whole. */
  method DigestOfChunks(chunks: seq<seq<bv8>>) returns (digest: seq<bv8>)
    requires |Flatten(chunks)| < MESSAGE_LIMIT
    ensures digest == Digest(Flatten(chunks))
  {
    hide Digest, HashBlocks, Compress, Pad;
    var calculator := new Sha256();
    for i := 0 to |chunks|
      invariant calculator.Valid() && calculator.message == Flatten(chunks[..i])
      invariant fresh(calculator) && fresh(calculator.block) && fresh(calculator.state)
    {
      calculator.Update(chunks[i]);
      assert chunks[..i + 1][..i] == chunks[..i];
    }
    assert chunks[..|chunks|] == chunks;
    digest := calculator.Finish();
  }

  /** What the operating system offers under a path: nothing that opens, a whole file, or a file whose
      reads fail after some bytes. */
  datatype File = Missing | Whole(bytes: seq<bv8>) | Broken(bytes: seq<bv8>)

  datatype Result = Ok(digest: string) | Err(error: string)

  const HEX_DIGITS: string := "0123456789abcdef"

  function HexByte(b: bv8): (s: string)
    ensures |s| == 2
  {
    [HEX_DIGITS[(b >> 4) as nat], HEX_DIGITS[(b & 15) as nat]]
  }

  function Hex(bytes: seq<bv8>): (s: string)
    ensures |s| == 2 * |bytes|
  {
    if bytes == [] then [] else Hex(bytes[..|bytes| - 1]) + HexByte(bytes[|bytes| - 1])
  }

  /** What a lower-case hexadecimal digit stands for. */
  ghost function DigitValue(c: char): int {
    if '0' <= c <= '9' then c as int - '0' as int
    else if 'a' <= c <= 'f' then 10 + (c as int - 'a' as int)
    else -1
  }

  /** Two digits for each byte, the upper half of the byte first. */
  ghost predicate IsHexOf(text: string, bytes: seq<bv8>) {
    && |text| == 2 * |bytes|
    && forall k | 0 <= k < |bytes| ::
         DigitValue(text[2 * k]) == bytes[k] as int / 16 && DigitValue(text[2 * k + 1]) == bytes[k] as int % 16
  }

  lemma HalvesOf(b: bv8)
    ensures (b >> 4) as int == b as int / 16 && (b & 15) as int == b as int % 16
  {
  }

  lemma DigitOf(i: nat)
    requires i < 16
    ensures DigitValue(HEX_DIGITS[i]) == i
  {
  }

  lemma DigitsOf(b: bv8)
    ensures DigitValue(HexByte(b)[0]) == b as int / 16 && DigitValue(HexByte(b)[1]) == b as int % 16
  {
    HalvesOf(b);
    DigitOf((b >> 4) as nat);
    DigitOf((b & 15) as nat);
  }

  lemma {:induction false} HexIsHex(bytes: seq<bv8>)
    ensures IsHexOf(Hex(bytes), bytes)
  {
    if bytes != [] {
      var n := |bytes| - 1;
      HexIsHex(bytes[..n]);
      DigitsOf(bytes[n]);
      HexMore(bytes);
      hide DigitValue, HexByte, Hex;
    }
  }

  lemma HexMore(bytes: seq<bv8>)
    requires bytes != []
    ensures var n, text := |bytes| - 1, Hex(bytes);
      && text[2 * n] == HexByte(bytes[n])[0] && text[2 * n + 1] == HexByte(bytes[n])[1]
      && forall k | 0 <= k < 2 * n :: text[k] == Hex(bytes[..n])[k]
  {
    hide HexByte;
  }

  lemma HexDigitsDiffer(i: nat, j: nat)
    requires i < 16 && j < 16 && HEX_DIGITS[i] == HEX_DIGITS[j]
    ensures i == j
  {
  }

  lemma HexByteInjective(a: bv8, b: bv8)
    requires HexByte(a) == HexByte(b)
    ensures a == b
  {
    assert HexByte(a)[0] == HexByte(b)[0] && HexByte(a)[1] == HexByte(b)[1];
    HexDigitsDiffer((a >> 4) as nat, (b >> 4) as nat);
    HexDigitsDiffer((a & 15) as nat, (b & 15) as nat);
    assert a >> 4 == b >> 4 && a & 15 == b & 15;
  }

  /** The hexadecimal text determines the bytes: two files with the same digest text have the same digest. */
  lemma {:induction false} HexInjective(a: seq<bv8>, b: seq<bv8>)
    requires Hex(a) == Hex(b)
    ensures a == b
  {
    assert |a| == |b|;
    if a != [] {
      var n := |a| - 1;
      assert Hex(a)[2 * n..] == HexByte(a[n]) && Hex(b)[2 * n..] == HexByte(b[n]);
      assert Hex(a)[..2 * n] == Hex(a[..n]) && Hex(b)[..2 * n] == Hex(b[..n]);
      HexByteInjective(a[n], b[n]);
      HexInjective(a[..n], b[..n]);
      assert a == a[..n] + [a[n]] && b == b[..n] + [b[n]];
    }
  }

  const BUFFER_SIZE: nat := 64 * 1024

  /** The read loop: full buffers until a read comes back short. */
  method ReadThrough(bytes: seq<bv8>) returns (calculator: Sha256)
    ensures fresh(calculator) && fresh(calculator.block) && fresh(calculator.state)
    ensures calculator.Valid() && calculator.message == bytes
  {
    hide Digest, HashBlocks, Compress, Pad;
    calculator := new Sha256();
    var offset := 0;
    while true
      invariant offset <= |bytes|
      invariant calculator.Valid() && calculator.message == bytes[..offset]
      invariant fresh(calculator) && fresh(calculator.block) && fresh(calculator.state)
      decreases |bytes| - offset
    {
      var count := if |bytes| - offset < BUFFER_SIZE then |bytes| - offset else BUFFER_SIZE;
      if count > 0 {
        calculator.Update(bytes[offset..offset + count]);
        assert bytes[..offset] + bytes[offset..offset + count] == bytes[..offset + count];
      }
      offset := offset + count;
      if count < BUFFER_SIZE {
        break;
      }
    }
    assert bytes[..offset] == bytes;
  }

  method FileDigest(file: File) returns (r: Result)
    ensures file.Missing? ==> r == Err("open file for sha256 failed")
    ensures file.Broken? ==> r == Err("read file for sha256 failed")
    ensures file.Whole? ==> r.Ok?
    ensures file.Whole? && |file.bytes| < MESSAGE_LIMIT ==>
      r == Ok(Hex(Digest(file.bytes))) && IsHexOf(r.digest, Digest(file.bytes))
  {
    hide Digest, HashBlocks, Compress, Pad, IsHexOf;
    if file.Missing? {
      return Err("open file for sha256 failed");
    }
    var calculator := ReadThrough(file.bytes);
    if file.Broken? {
      return Err("read file for sha256 failed");
    }
    var bytes := calculator.Finish();
    var value := HexText(bytes);
    r := Ok(value);
  }

  method HexText(bytes: seq<bv8>) returns (value: string)
    ensures value == Hex(bytes) && IsHexOf(value, bytes)
  {
    value := "";
    for i := 0 to |bytes|
      invariant value == Hex(bytes[..i])
    {
      assert bytes[..i + 1][..i] == bytes[..i];
      value := value + HexByte(bytes[i]);
    }
    assert bytes[..|bytes|] == bytes;
    HexIsHex(bytes);
  }
}

/**
 * The streaming side of MD5: counting bits, buffering a partial block and
 * padding, around a compression function that stays a parameter.
 *
 * However a message is cut into `Append` calls, `Finish` gives the digest of
 * the whole message padded as sections 3.1 and 3.2 of RFC 1321 prescribe.
 */
module Md5 {
  import opened Arithmetic
  import opened Bytes

  type Word = x: int | 0 <= x < 0x1_0000_0000

  datatype Registers = Registers(a: Word, b: Word, c: Word, d: Word)

  type Compression = (Registers, seq<Byte>) -> Registers

  const INITIAL := Registers(0x67452301, 0xefcdab89, 0x98badcfe, 0x10325476)

  // ----- The specification: RFC 1321 on a whole message -----

  function Fold(f: Compression, r: Registers, s: seq<Byte>): Registers
    requires |s| % 64 == 0
    decreases |s|
  {
    if s == [] then r else Fold(f, f(r, s[..64]), s[64..])
  }

  /** A 1 bit, then as many 0 bits as bring the length to 448 modulo 512. */
  function Padding(length: nat): seq<Byte> {
    [0x80] + Zeros((55 - length) % 64)
  }

  /** The length in bits, modulo 2^64, low-order byte first. */
  function LengthField(length: nat): seq<Byte> {
    LittleEndian(8 * length % TWO_64, 8)
  }

  function Padded(s: seq<Byte>): seq<Byte> {
    s + Padding(|s|) + LengthField(|s|)
  }

  function Output(r: Registers): seq<Byte> {
    LittleEndian(r.a, 4) + LittleEndian(r.b, 4) + LittleEndian(r.c, 4) + LittleEndian(r.d, 4)
  }

  /** The registers after the last block. */
  function Folded(f: Compression, s: seq<Byte>): Registers {
    PaddedIsWhole(s);
    Fold(f, INITIAL, Padded(s))
  }

  function Digest(f: Compression, s: seq<Byte>): seq<Byte> {
    Output(Folded(f, s))
  }

  /** Section 3.5: the bytes of a, b, c and d, each low-order byte first. */
  predicate Spells(s: seq<Byte>, r: Registers) {
    |s| == 16 && forall i | 0 <= i < 16 :: s[i] == [r.a, r.b, r.c, r.d][i / 4] / Pow256(i % 4) % 256
  }

  lemma OutputSpells(r: Registers)
    ensures Spells(Output(r), r)
  {
    hide LittleEndian, Pow256;
    forall i | 0 <= i < 16
      ensures Output(r)[i] == LittleEndian([r.a, r.b, r.c, r.d][i / 4], 4)[i % 4]
    {
    }
    forall i | 0 <= i < 16
      ensures Output(r)[i] == [r.a, r.b, r.c, r.d][i / 4] / Pow256(i % 4) % 256
    {
      DigitAt([r.a, r.b, r.c, r.d][i / 4], 4, i % 4);
    }
  }

  lemma FourBytes(x: nat, a: Byte, b: Byte, c: Byte, d: Byte)
    requires x == a + 0x100 * b + 0x1_0000 * c + 0x100_0000 * d
    ensures LittleEndian(x, 4) == [a, b, c, d]
  {
    var x1: nat := b + 0x100 * c + 0x1_0000 * d;
    var x2: nat := c + 0x100 * d;
    assert x % 256 == a && x / 256 == x1 && x1 % 256 == b && x1 / 256 == x2 && x2 % 256 == c && x2 / 256 == d;
    assert LittleEndian(d, 1) == [d];
    assert LittleEndian(x2, 2) == [c, d];
    assert LittleEndian(x1, 3) == [b, c, d];
  }

  /** Section 3.3: the registers start as these bytes in memory. */
  lemma InitialBytes()
    ensures Spells([0x01, 0x23, 0x45, 0x67, 0x89, 0xab, 0xcd, 0xef,
                    0xfe, 0xdc, 0xba, 0x98, 0x76, 0x54, 0x32, 0x10], INITIAL)
  {
    hide LittleEndian, Spells;
    OutputSpells(INITIAL);
    FourBytes(INITIAL.a, 0x01, 0x23, 0x45, 0x67);
    FourBytes(INITIAL.b, 0x89, 0xab, 0xcd, 0xef);
    FourBytes(INITIAL.c, 0xfe, 0xdc, 0xba, 0x98);
    FourBytes(INITIAL.d, 0x76, 0x54, 0x32, 0x10);
    assert Output(INITIAL) == [0x01, 0x23, 0x45, 0x67, 0x89, 0xab, 0xcd, 0xef,
                               0xfe, 0xdc, 0xba, 0x98, 0x76, 0x54, 0x32, 0x10];
  }

  /**
   * Sections 3.1 and 3.2: the message, the byte 0x80, zeros, and in the last
   * eight bytes the length in bits modulo 2^64, low-order byte first.
   */
  lemma PaddedBytes(s: seq<Byte>)
    ensures var p := Padded(s);
      && |p| % 64 == 0 && |s| + 9 <= |p| <= |s| + 72
      && p[..|s|] == s && p[|s|] == 0x80
      && (forall i | |s| < i < |p| - 8 :: p[i] == 0)
      && (forall i | 0 <= i < 8 :: p[|p| - 8 + i] == 8 * |s| % 0x1_0000_0000_0000_0000 / Pow256(i) % 256)
  {
    hide LittleEndian, Pow256;
    PaddedIsWhole(s);
    forall i | 0 <= i < 8
      ensures LengthField(|s|)[i] == 8 * |s| % 0x1_0000_0000_0000_0000 / Pow256(i) % 256
    {
      DigitAt(8 * |s| % TWO_64, 8, i);
    }
  }

  /** The padding is at most one block and leaves room for exactly the length field. */
  lemma PaddedIsWhole(s: seq<Byte>)
    ensures 1 <= |Padding(|s|)| <= 64
    ensures (|s| + |Padding(|s|)|) % 64 == 56
    ensures |Padded(s)| % 64 == 0
  {
    PadTo56(|s|);
    assert |Padding(|s|)| == 1 + (55 - |s|) % 64 && |LengthField(|s|)| == 8;
    hide Padding, LengthField;
    var n := |s| + |Padding(|s|)|;
    assert |Padded(s)| == n + 8;
    EightMore(n);
  }

  lemma PadTo56(n: nat)
    ensures (n + 1 + (55 - n) % 64) % 64 == 56
  {
    var q := (55 - n) / 64;
    var k := n / 64;
    assert n + 1 + (55 - n) % 64 == 56 + 64 * -q;
  }

  lemma EightMore(n: nat)
    requires n % 64 == 56
    ensures (n + 8) % 64 == 0
  {
  }

  // ----- Facts about folding -----

  lemma {:induction false} FoldAppend(f: Compression, r: Registers, s: seq<Byte>, t: seq<Byte>)
    requires |s| % 64 == 0 && |t| % 64 == 0
    ensures Fold(f, r, s + t) == Fold(f, Fold(f, r, s), t)
    decreases |s|
  {
    if s == [] {
      assert s + t == t;
    } else {
      assert (s + t)[..64] == s[..64] && (s + t)[64..] == s[64..] + t;
      FoldAppend(f, f(r, s[..64]), s[64..], t);
    }
  }

  /** One more block at the end is one more compression. */
  lemma FoldOneMore(f: Compression, r: Registers, s: seq<Byte>, block: seq<Byte>)
    requires |s| % 64 == 0 && |block| == 64
    ensures Fold(f, r, s + block) == f(Fold(f, r, s), block) && Fold(f, r, []) == r
  {
    FoldAppend(f, r, s, block);
    assert block[..64] == block && block[64..] == [];
  }

  // ----- Facts about the two count words -----

  predicate Counts(count0: Word, count1: Word, length: nat) {
    count1 * TWO_32 + count0 == 8 * length % TWO_64
  }

  lemma CountsOffset(count0: Word, count1: Word, length: nat)
    requires Counts(count0, count1, length)
    ensures count0 / 8 % 64 == length % 64
    ensures (55 - count0 / 8) % 64 == (55 - length) % 64
  {
    var q := 8 * length / TWO_64;
    var k := q * 0x80_0000 * TWO_32 + count1 * 0x80_0000;
    assert count0 == 8 * (length - 64 * k);
    Plus64(length - 64 * k, k);
    Plus64(55 - length, k);
  }

  lemma Plus64(x: int, k: int)
    ensures (x + 64 * k) % 64 == x % 64
  {
  }

  /** Adding the two halves of 8n with a carry adds 8n modulo 2^64. */
  lemma CountsAdvance(count0: Word, count1: Word, length: nat, n: nat, new0: Word, new1: Word)
    requires Counts(count0, count1, length)
    requires var nbits := 8 * n % TWO_32;
      && new0 == (count0 + nbits) % TWO_32
      && new1 == ((count1 + n / 0x2000_0000) % TWO_32 + if new0 < nbits then 1 else 0) % TWO_32
    ensures Counts(new0, new1, length + n)
  {
    var nbits, high := 8 * n % TWO_32, n / 0x2000_0000;
    var carry := if new0 < nbits then 1 else 0;
    Carry(count0, nbits);
    HighBits(n);
    var k := Overflow(count1, high, carry, new1);
    var q := 8 * length / TWO_64;
    SumOfHalves(8 * length, 8 * n, count0, count1, nbits, high, new0, new1, q, carry, k);
    ModUnique(8 * (length + n), q + k, new1 * TWO_32 + new0);
  }

  lemma HighBits(n: nat)
    ensures 8 * n == n / 0x2000_0000 * TWO_32 + 8 * n % TWO_32
  {
  }

  lemma Overflow(count1: Word, high: nat, carry: nat, new1: Word) returns (k: nat)
    requires new1 == ((count1 + high) % TWO_32 + carry) % TWO_32
    ensures count1 + high + carry == new1 + k * TWO_32
  {
    k := (count1 + high) / TWO_32 + ((count1 + high) % TWO_32 + carry) / TWO_32;
  }

  lemma SumOfHalves(
    x: nat, y: nat, x0: nat, x1: nat, y0: nat, y1: nat, sum0: nat, sum1: nat, q: nat, carry: nat, k: nat)
    requires x == q * TWO_64 + x1 * TWO_32 + x0 && y == y1 * TWO_32 + y0
    requires x0 + y0 == sum0 + carry * TWO_32 && x1 + y1 + carry == sum1 + k * TWO_32
    ensures x + y == (q + k) * TWO_64 + (sum1 * TWO_32 + sum0)
  {
  }

  lemma Carry(a: Word, b: Word)
    ensures var sum := (a + b) % TWO_32; a + b == sum + (if sum < b then 1 else 0) * TWO_32
  {
  }

  lemma ModUnique(x: nat, q: int, r: nat)
    requires x == q * TWO_64 + r && r < TWO_64
    ensures x % TWO_64 == r
  {
  }

  // ----- The streaming state -----

  function Full(m: seq<Byte>): (s: seq<Byte>)
    ensures |s| % 64 == 0
  {
    m[..|m| - |m| % 64]
  }

  function Rest(m: seq<Byte>): (s: seq<Byte>)
    ensures |s| == |m| % 64
  {
    m[|m| - |m| % 64..]
  }

  class State {
    const process: Compression
    const buf: array<Byte>  // accumulated block
    var count0: Word        // message length in bits, low word
    var count1: Word
    var abcd: Registers

    /** The state after the message m: full blocks folded, the remainder buffered, the bits counted. */
    ghost predicate Holds(m: seq<Byte>)
      reads this, buf
    {
      && buf.Length == 64
      && Counts(count0, count1, |m|)
      && abcd == Fold(process, INITIAL, Full(m))
      && buf[..|m| % 64] == Rest(m)
    }

    constructor (process: Compression)
      ensures Holds([]) && this.process == process && fresh(buf)
    {
      this.process := process;
      buf := new Byte[64](_ => 0);
      count0, count1 := 0, 0;
      abcd := INITIAL;
    }

    method Copy(at: nat, src: seq<Byte>)
      requires at + |src| <= buf.Length
      modifies buf
      ensures buf[..] == old(buf[..at]) + src + old(buf[at + |src|..])
    {
      forall i | 0 <= i < |src| {
        buf[at + i] := src[i];
      }
    }

    method Count(ghost m: seq<Byte>, n: nat)
      requires Counts(count0, count1, |m|)
      modifies `count0, `count1
      ensures Counts(count0, count1, |m| + n)
    {
      ghost var old0, old1 := count0, count1;
      var nbits := 8 * n % TWO_32;
      count1 := (count1 + n / 0x2000_0000) % TWO_32;
      count0 := (count0 + nbits) % TWO_32;
      if count0 < nbits {
        count1 := (count1 + 1) % TWO_32;
      }
      CountsAdvance(old0, old1, |m|, n, count0, count1);
    }

    method Append(ghost m: seq<Byte>, data: seq<Byte>)
      requires Holds(m)
      modifies this, buf
      ensures Holds(m + data)
    {
      CountsOffset(count0, count1, |m|);
      var offset := count0 / 8 % 64;
      if |data| == 0 {
        assert m + data == m;
        return;
      }
      Count(m, |data|);

      // Bytes that top up a block already begun
      var p := 0;
      if offset != 0 {
        p := if offset + |data| > 64 then 64 - offset else |data|;
        FillBlock(m, data, offset, p);
        if offset + p < 64 {
          ShortAppend(m, data);
          return;
        }
      } else {
        assert Full(m) == m && m + data[..p] == m;
      }
      ProcessBlocks(m, data, p);
    }

    /** Top up the buffered block with `copy` bytes; compress it if that fills it. */
    method FillBlock(ghost m: seq<Byte>, data: seq<Byte>, offset: nat, copy: nat)
      requires buf.Length == 64 && buf[..|m| % 64] == Rest(m) && abcd == Fold(process, INITIAL, Full(m))
      requires offset == |m| % 64 && offset + copy <= 64 && copy <= |data| && (offset + copy < 64 ==> copy == |data|)
      modifies `abcd, buf
      ensures offset + copy < 64 ==> abcd == old(abcd) && buf[..offset + copy] == Rest(m) + data
      ensures offset + copy == 64 ==> |m + data[..copy]| % 64 == 0 && abcd == Fold(process, INITIAL, m + data[..copy])
    {
      Copy(offset, data[..copy]);
      assert buf[..offset + copy] == Rest(m) + data[..copy];
      if offset + copy < 64 {
        assert data[..copy] == data;
        return;
      }
      assert buf[..] == Rest(m) + data[..copy];
      FoldOneMore(process, INITIAL, Full(m), Rest(m) + data[..copy]);
      assert Full(m) + (Rest(m) + data[..copy]) == m + data[..copy];
      abcd := process(abcd, buf[..]);
    }

    /** Compress full blocks straight from the data and keep what is left over. */
    method ProcessBlocks(ghost m: seq<Byte>, data: seq<Byte>, start: nat)
      requires buf.Length == 64 && start <= |data| && Counts(count0, count1, |m + data|)
      requires |m + data[..start]| % 64 == 0 && abcd == Fold(process, INITIAL, m + data[..start])
      modifies `abcd, buf
      ensures Holds(m + data)
    {
      hide Fold, Counts;
      var p := start;
      while |data| - p >= 64
        invariant p <= |data| && |m + data[..p]| % 64 == 0
        invariant abcd == Fold(process, INITIAL, m + data[..p])
      {
        NextBlock(process, m, data, p);
        abcd := process(abcd, data[p..p + 64]);
        p := p + 64;
      }
      // Less than a block is left
      if p < |data| {
        Copy(0, data[p..]);
      }
      LongAppend(m, data, p);
      assert buf[..|data| - p] == data[p..];
    }

    static lemma NextBlock(f: Compression, m: seq<Byte>, data: seq<Byte>, p: nat)
      requires p + 64 <= |data| && |m + data[..p]| % 64 == 0
      ensures |m + data[..p + 64]| % 64 == 0
      ensures Fold(f, INITIAL, m + data[..p + 64]) == f(Fold(f, INITIAL, m + data[..p]), data[p..p + 64])
    {
      FoldOneMore(f, INITIAL, m + data[..p], data[p..p + 64]);
      assert m + data[..p] + data[p..p + 64] == m + data[..p + 64];
    }

    static lemma ShortAppend(m: seq<Byte>, data: seq<Byte>)
      requires |m| % 64 + |data| < 64
      ensures Full(m + data) == Full(m) && Rest(m + data) == Rest(m) + data
    {
      assert |m + data| % 64 == |m| % 64 + |data|;
    }

    static lemma LongAppend(m: seq<Byte>, data: seq<Byte>, p: nat)
      requires p <= |data| && |data| - p < 64 && (|m| + p) % 64 == 0
      ensures Full(m + data) == m + data[..p] && Rest(m + data) == data[p..]
    {
      assert |m + data| == |m| + p + (|data| - p);
      assert |m + data| % 64 == |data| - p;
    }

    method LengthBytes(ghost m: seq<Byte>) returns (data: seq<Byte>)
      requires Counts(count0, count1, |m|)
      ensures data == LengthField(|m|)
    {
      data := LittleEndian(count0, 4) + LittleEndian(count1, 4);
      SplitLittleEndian(count0, count1);
    }

    method Finish(ghost m: seq<Byte>) returns (digest: seq<Byte>)
      requires Holds(m)
      modifies this, buf
      ensures digest == Digest(process, m) && Spells(digest, Folded(process, m))
    {
      PaddedIsWhole(m);
      CountsOffset(count0, count1, |m|);
      var data := LengthBytes(m);
      var pad: seq<Byte> := [0x80] + Zeros(63);
      var n := (55 - count0 / 8) % TWO_32 % 64 + 1;
      assert n == (55 - |m|) % 64 + 1 by { Mask(55 - count0 / 8); }
      assert pad[..n] == Padding(|m|);
      Append(m, pad[..n]);
      Append(m + Padding(|m|), data);
      assert m + Padding(|m|) + data == Padded(m);
      assert Full(Padded(m)) == Padded(m);
      digest := Output(abcd);
      OutputSpells(abcd);
    }
  }

  lemma Mask(x: int)
    ensures x % TWO_32 % 64 == x % 64
  {
    assert TWO_32 == 64 * 0x400_0000;
    var q := x / TWO_32;
    assert x == 64 * (0x400_0000 * q) + x % TWO_32;
  }

  lemma SplitLittleEndian(low: Word, high: Word)
    ensures LittleEndian(high * TWO_32 + low, 8) == LittleEndian(low, 4) + LittleEndian(high, 4)
  {
    LittleEndianStep(low, high, 4);
  }

  lemma {:induction false} LittleEndianStep(low: nat, high: nat, n: nat)
    requires low < Pow256(n)
    ensures LittleEndian(high * Pow256(n) + low, n + 4) == LittleEndian(low, n) + LittleEndian(high, 4)
  {
    hide LittleEndian;
    if n == 0 {
      assert LittleEndian(low, 0) == [];
      assert [] + LittleEndian(high, 4) == LittleEndian(high, 4);
    } else {
      var y := high * Pow256(n - 1);
      Carried(high, Pow256(n - 1));
      LowByte(y, low);
      BelowPower(low, Pow256(n - 1));
      LittleEndianStep(low / 256, high, n - 1);
      FirstByte(256 * y + low, n + 4);
      FirstByte(low, n);
      var b := [low % 256];
      assert b + (LittleEndian(low / 256, n - 1) + LittleEndian(high, 4))
          == b + LittleEndian(low / 256, n - 1) + LittleEndian(high, 4);
    }
  }

  lemma FirstByte(x: nat, n: nat)
    requires n > 0
    ensures LittleEndian(x, n) == [x % 256] + LittleEndian(x / 256, n - 1)
  {
  }

  lemma Carried(high: nat, p: nat)
    ensures high * (256 * p) == 256 * (high * p)
  {
  }

  lemma LowByte(y: nat, low: nat)
    ensures (256 * y + low) % 256 == low % 256 && (256 * y + low) / 256 == y + low / 256
  {
  }

  lemma BelowPower(low: nat, p: nat)
    requires low < 256 * p
    ensures low / 256 < p
  {
  }

  /** md5_hash_string: one Append of the whole message. */
  method HashString(process: Compression, s: seq<Byte>) returns (digest: seq<Byte>)
    ensures digest == Digest(process, s) && Spells(digest, Folded(process, s))
  {
    var state := new State(process);
    state.Append([], s);
    assert [] + s == s;
    digest := state.Finish(s);
  }

  /** The same digest for the message cut into any chunks. */
  method HashChunks(process: Compression, chunks: seq<seq<Byte>>) returns (digest: seq<Byte>)
    ensures digest == Digest(process, Concat(chunks)) && Spells(digest, Folded(process, Concat(chunks)))
  {
    hide Digest, Spells;
    var state := new State(process);
    for i := 0 to |chunks|
      invariant state.process == process && fresh(state) && fresh(state.buf)
      invariant state.Holds(Concat(chunks[..i]))
    {
      ConcatOneMore(chunks, i);
      state.Append(Concat(chunks[..i]), chunks[i]);
    }
    assert chunks[..|chunks|] == chunks;
    digest := state.Finish(Concat(chunks));
  }
}

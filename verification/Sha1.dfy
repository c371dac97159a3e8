/**
 SHA-1 as the WebSocket accept key uses it. The specification follows sections 5.1.1, 6.1.1 and 6.1.2 of
 FIPS 180-4: pad the message, cut it into blocks of 64 bytes and fold the block function over them. The
 object buffers whatever arrives and never sees the whole message.
 */
module Sha1 {
  import opened Octets
  import opened Incremental

  type Word = bv32

  datatype Hash = Hash(a: Word, b: Word, c: Word, d: Word, e: Word)

  const INITIAL := Hash(0x67452301, 0xEFCDAB89, 0x98BADCFE, 0x10325476, 0xC3D2E1F0)

  const BLOCK: nat := 64

  type Block = bs: seq<byte> | |bs| == 64 witness seq(64, i => 0)

  // ---------------------------------------------------------------- the block function

  function RotateLeft(w: Word, bits: nat): Word
    requires bits <= 32
  {
    (w << bits) | (w >> (32 - bits))
  }

  function WordAt(bs: Block, i: nat): Word
    requires i < 16
  {
    var j := 4 * i;
    ((bs[j] as Word) << 24) | ((bs[j + 1] as Word) << 16) | ((bs[j + 2] as Word) << 8) | (bs[j + 3] as Word)
  }

  /** The message schedule. */
  function Schedule(bs: Block, t: nat): Word {
    if t < 16 then WordAt(bs, t)
    else RotateLeft(Schedule(bs, t - 3) ^ Schedule(bs, t - 8) ^ Schedule(bs, t - 14) ^ Schedule(bs, t - 16), 1)
  }

  function F(t: nat, b: Word, c: Word, d: Word): Word {
    if t < 20 then (b & c) | (!b & d)
    else if t < 40 then b ^ c ^ d
    else if t < 60 then (b & c) | (b & d) | (c & d)
    else b ^ c ^ d
  }

  function K(t: nat): Word {
    if t < 20 then 0x5A827999 else if t < 40 then 0x6ED9EBA1 else if t < 60 then 0x8F1BBCDC else 0xCA62C1D6
  }

  /** Round `t`, with its word of the schedule. */
  function Round(v: Hash, t: nat, w: Word): Hash {
    var temp := RotateLeft(v.a, 5) + F(t, v.b, v.c, v.d) + v.e + K(t) + w;
    Hash(temp, v.a, RotateLeft(v.b, 30), v.c, v.d)
  }

  /** The working variables after `t` rounds. */
  function Rounds(h: Hash, bs: Block, t: nat): Hash {
    if t == 0 then h else Round(Rounds(h, bs, t - 1), t - 1, Schedule(bs, t - 1))
  }

  function Plus(h: Hash, v: Hash): Hash {
    Hash(h.a + v.a, h.b + v.b, h.c + v.c, h.d + v.d, h.e + v.e)
  }

  function Compress(h: Hash, bs: Block): Hash {
    Plus(h, Rounds(h, bs, 80))
  }

  // ---------------------------------------------------------------- the hash of a message

  function Zeros(n: nat): (z: seq<byte>)
    ensures |z| == n && forall i :: 0 <= i < n ==> z[i] == 0
  {
    seq(n, i => 0)
  }

  /** How many zeros bring the message, the marker and the length to whole blocks. */
  function ZeroCount(n: nat): (k: nat)
    ensures k < BLOCK && (n + 1 + k + 8) % BLOCK == 0
  {
    (119 - n % BLOCK) % BLOCK
  }

  /** The message with 0x80, zeros and its length in bits. */
  function Padded(m: seq<byte>): (p: seq<byte>)
    ensures |p| % BLOCK == 0
  {
    m + [0x80] + Zeros(ZeroCount(|m|)) + BigEndian(8 * |m|, 8)
  }

  /** The block function folded over whole blocks. */
  function Fold(h: Hash, m: seq<byte>): Hash
    requires |m| % BLOCK == 0
    decreases |m|
  {
    if m == [] then h else Compress(Fold(h, m[..|m| - BLOCK]), m[|m| - BLOCK..])
  }

  function Digest(m: seq<byte>): Hash {
    Fold(INITIAL, Padded(m))
  }

  function Words(h: Hash): seq<Word> {
    [h.a, h.b, h.c, h.d, h.e]
  }

  /** The octets of a word, the most significant one first. */
  function OctetsOf(w: Word): (o: seq<bv8>)
    ensures |o| == 4
  {
    [((w >> 24) & 0xFF) as bv8, ((w >> 16) & 0xFF) as bv8, ((w >> 8) & 0xFF) as bv8, (w & 0xFF) as bv8]
  }

  function WriteWords(ws: seq<Word>): (o: seq<bv8>)
    ensures |o| == 4 * |ws|
  {
    if ws == [] then [] else WriteWords(ws[..|ws| - 1]) + OctetsOf(ws[|ws| - 1])
  }

  /** The 20 octets of a hash. */
  function Written(h: Hash): seq<bv8> {
    WriteWords(Words(h))
  }

  function ReadWord(o: seq<bv8>): Word
    requires |o| == 4
  {
    ((o[0] as Word) << 24) | ((o[1] as Word) << 16) | ((o[2] as Word) << 8) | (o[3] as Word)
  }

  lemma OctetsBack(w: Word)
    ensures ReadWord(OctetsOf(w)) == w
  {
  }

  /** Read as big-endian words, the octets of a hash are its words. */
  lemma {:induction false} WrittenBack(ws: seq<Word>, i: nat)
    requires i < |ws|
    ensures ReadWord(WriteWords(ws)[4 * i..4 * i + 4]) == ws[i]
  {
    hide ReadWord; hide OctetsOf;
    var last := |ws| - 1;
    if i == last {
      OctetsBack(ws[last]);
      assert WriteWords(ws)[4 * i..4 * i + 4] == OctetsOf(ws[last]);
    } else {
      WrittenBack(ws[..last], i);
      assert WriteWords(ws)[4 * i..4 * i + 4] == WriteWords(ws[..last])[4 * i..4 * i + 4];
    }
  }

  lemma FoldMore(h: Hash, m: seq<byte>, bs: Block)
    requires |m| % BLOCK == 0
    ensures |m + bs| % BLOCK == 0 && Fold(h, m + bs) == Compress(Fold(h, m), bs)
  {
    hide Compress;
    assert (m + bs)[..|m|] == m && (m + bs)[|m|..] == bs;
  }

  method FillSchedule(bs: Block) returns (schedule: array<Word>)
    ensures fresh(schedule) && schedule.Length == 80
    ensures forall j :: 0 <= j < 80 ==> schedule[j] == Schedule(bs, j)
  {
    hide RotateLeft; hide WordAt;
    schedule := new Word[80](i => 0);
    for i := 0 to 16
      invariant forall j :: 0 <= j < i ==> schedule[j] == Schedule(bs, j)
    {
      schedule[i] := WordAt(bs, i);
    }
    for i := 16 to 80
      invariant forall j :: 0 <= j < i ==> schedule[j] == Schedule(bs, j)
    {
      var w := RotateLeft(schedule[i - 3] ^ schedule[i - 8] ^ schedule[i - 14] ^ schedule[i - 16], 1);
      assert w == Schedule(bs, i);
      schedule[i] := w;
    }
  }

  method RunRounds(h: Hash, schedule: array<Word>, ghost bs: Block) returns (v: Hash)
    requires schedule.Length == 80 && forall j :: 0 <= j < 80 ==> schedule[j] == Schedule(bs, j)
    ensures v == Rounds(h, bs, 80)
  {
    hide Round; hide Schedule;
    v := h;
    for i := 0 to 80
      invariant v == Rounds(h, bs, i)
    {
      v := Round(v, i, schedule[i]);
    }
  }

  // ---------------------------------------------------------------- the object

  class Hasher {
    var state: Hash
    const block: array<byte>
    var blockLength: nat
    var totalBits: nat
    ghost var whole: seq<byte>

    /** Everything hashed so far: the whole blocks folded into the state, then the block buffer. */
    ghost function Contents(): seq<byte>
      requires blockLength <= block.Length
      reads this, block
    {
      whole + block[..blockLength]
    }

    ghost predicate Valid()
      reads this, block
    {
      && block.Length == BLOCK && blockLength < BLOCK
      && |whole| % BLOCK == 0 && state == Fold(INITIAL, whole)
    }

    constructor ()
      ensures Valid() && fresh(block) && Contents() == [] && totalBits == 0
    {
      state, blockLength, totalBits, whole := INITIAL, 0, 0, [];
      block := new byte[64](i => 0);
    }

    /** One block: the schedule is filled in, then 80 rounds. */
    method ProcessBlock()
      requires block.Length == BLOCK
      modifies `state
      ensures state == Compress(old(state), block[..])
    {
      hide Rounds; hide Schedule;
      var schedule := FillSchedule(block[..]);
      var v := RunRounds(state, schedule, block[..]);
      state := Plus(state, v);
    }

    /** Puts bytes into the block buffer, where there is room for them. */
    method Fill(data: seq<byte>)
      requires blockLength + |data| <= block.Length
      modifies `blockLength, block
      ensures blockLength == old(blockLength) + |data|
      ensures block[..blockLength] == old(block[..blockLength]) + data
    {
      var start := blockLength;
      for i := 0 to |data|
        invariant blockLength == start + i
        invariant block[..blockLength] == old(block[..blockLength]) + data[..i]
      {
        block[blockLength] := data[i];
        blockLength := blockLength + 1;
      }
      assert data[..|data|] == data;
    }

    /** Buffers more input; full blocks are folded into the state as they fill up. */
    method Absorb(data: seq<byte>)
      requires Valid()
      modifies `state, `blockLength, `whole, block
      ensures Valid() && Contents() == old(Contents()) + data
    {
      hide Compress; hide Fold;
      var done := 0;
      ghost var before := Contents();
      while done < |data|
        invariant 0 <= done <= |data| && Valid() && Contents() == before + data[..done]
      {
        var count := if |data| - done < BLOCK - blockLength then |data| - done else BLOCK - blockLength;
        assert data[..done] + data[done..done + count] == data[..done + count];
        AbsorbPiece(data[done..done + count]);
        done := done + count;
      }
      assert data[..done] == data;
    }

    /** As much input as the block buffer has room for. */
    method AbsorbPiece(piece: seq<byte>)
      requires Valid() && blockLength + |piece| <= BLOCK
      modifies `state, `blockLength, `whole, block
      ensures Valid() && Contents() == old(Contents()) + piece
    {
      hide Compress; hide Fold;
      ghost var before := Contents();
      Fill(piece);
      assert Contents() == before + piece;
      if blockLength == BLOCK {
        ghost var full := block[..];
        assert full == block[..blockLength];
        FoldMore(INITIAL, whole, full);
        ProcessBlock();
        whole := whole + full;
        blockLength := 0;
      }
    }

    method Update(data: seq<byte>)
      requires Valid() && totalBits == 8 * |Contents()| % Pow256(8)
      modifies this, block
      ensures Valid() && Contents() == old(Contents()) + data && totalBits == 8 * |Contents()| % Pow256(8)
    {
      WrapTwice(8 * |Contents()|, 8 * |data|);
      totalBits := (totalBits + 8 * |data|) % Pow256(8);
      hide Fold; hide Pow256;
      Absorb(data);
    }

    /** Pads and processes what is left; the result is the digest of everything that was hashed. */
    method Finalize() returns (digest: array<bv8>)
      requires Valid() && totalBits == 8 * |Contents()| % Pow256(8)
      modifies this, block
      ensures fresh(digest) && digest[..] == Written(Digest(old(Contents())))
    {
      Pad();
      hide Digest;
      digest := WriteOut(state);
    }

    /** The padding is absorbed, which leaves the hash in the state. */
    method Pad()
      requires Valid() && totalBits == 8 * |Contents()| % Pow256(8)
      modifies this, block
      ensures state == Digest(old(Contents()))
    {
      hide Fold; hide BigEndian; hide Padded; hide Zeros; hide Pow256; hide Compress;
      ghost var m := Contents();
      var zeros := if blockLength + 1 > 56 then 119 - blockLength else 55 - blockLength;
      var bits := BigEndian(totalBits, 8);
      PaddingOf(m, |whole|, blockLength, totalBits);
      Absorb([0x80]);
      Absorb(Zeros(zeros));
      Absorb(bits);
      WholeBlocks(whole, block[..blockLength], Padded(m));
    }
  }

  method WriteWord(digest: array<bv8>, start: nat, w: Word)
    requires start + 4 <= digest.Length
    modifies digest
    ensures digest[..start + 4] == old(digest[..start]) + OctetsOf(w)
  {
    var o := OctetsOf(w);
    hide OctetsOf;
    digest[start] := o[0];
    digest[start + 1] := o[1];
    digest[start + 2] := o[2];
    digest[start + 3] := o[3];
    assert digest[start..start + 4] == o && digest[..start] == old(digest[..start]);
  }

  method WriteOut(h: Hash) returns (digest: array<bv8>)
    ensures fresh(digest) && digest[..] == Written(h)
  {
    hide OctetsOf;
    var ws := Words(h);
    digest := new bv8[20](i => 0);
    for i := 0 to 5
      invariant digest[..4 * i] == WriteWords(ws[..i])
    {
      assert ws[..i + 1][..i] == ws[..i];
      WriteWord(digest, 4 * i, ws[i]);
    }
    assert ws[..5] == ws && digest[..20] == digest[..];
  }

  lemma PaddingOf(m: seq<byte>, n: nat, r: nat, bits: nat)
    requires |m| == n + r && r < BLOCK && n % BLOCK == 0 && bits == 8 * |m| % Pow256(8)
    ensures var zeros := if r + 1 > 56 then 119 - r else 55 - r;
      m + [0x80] + Zeros(zeros) + BigEndian(bits, 8) == Padded(m)
  {
    WrapDigits(8 * |m|, 8);
    RemainderOf(|m|, r);
    ZeroCountIs(|m|, r);
  }

  lemma WholeBlocks(whole: seq<byte>, tail: seq<byte>, p: seq<byte>)
    requires |whole| % BLOCK == 0 && |tail| < BLOCK && whole + tail == p && |p| % BLOCK == 0
    ensures whole == p
  {
    RemainderOf(|p|, |tail|);
  }

  /** Any split of a message into updates gives the digest of the message. */
  method DigestOf(parts: seq<seq<byte>>) returns (digest: array<bv8>)
    ensures fresh(digest) && digest[..] == Written(Digest(Flatten(parts)))
  {
    hide Digest; hide Pow256;
    var hasher := new Hasher();
    for i := 0 to |parts|
      invariant hasher.Valid() && fresh(hasher) && fresh(hasher.block)
      invariant hasher.totalBits == 8 * |hasher.Contents()| % Pow256(8)
      invariant hasher.Contents() == Flatten(parts[..i])
    {
      assert parts[..i + 1][..i] == parts[..i];
      hasher.Update(parts[i]);
    }
    assert parts[..|parts|] == parts;
    digest := hasher.Finalize();
  }

  // ---------------------------------------------------------------- arithmetic of lengths

  lemma RemainderOf(n: nat, r: nat)
    requires r < BLOCK && r <= n && (n - r) % BLOCK == 0
    ensures n % BLOCK == r
  {
  }

  lemma ZeroCountIs(n: nat, r: nat)
    requires n % BLOCK == r
    ensures ZeroCount(n) == if r + 1 > 56 then 119 - r else 55 - r
  {
  }

  lemma WrapTwice(a: nat, b: nat)
    ensures (a % Pow256(8) + b) % Pow256(8) == (a + b) % Pow256(8)
  {
    Wrap(a, b, Pow256(8));
  }

  lemma Wrap(a: nat, b: nat, p: nat)
    requires p >= 1
    ensures (a % p + b) % p == (a + b) % p
  {
    var q := a / p;
    var rest := a % p + b;
    assert a + b == q * p + rest;
    Multiples(q, p, rest);
  }

  lemma {:induction false} Multiples(q: nat, p: nat, rest: nat)
    requires p >= 1
    ensures (q * p + rest) % p == rest % p
  {
    if q > 0 {
      Multiples(q - 1, p, rest);
      assert q * p + rest == (q - 1) * p + rest + p;
      OneMore((q - 1) * p + rest, p);
    }
  }

  lemma OneMore(n: nat, p: nat)
    requires p >= 1
    ensures (n + p) % p == n % p
  {
    var q, r := n / p, n % p;
    assert n + p == (q + 1) * p + r;
    Unique(n + p, p, q + 1, r);
  }

  lemma Unique(n: nat, p: nat, q: nat, r: nat)
    requires p >= 1 && r < p && n == q * p + r
    ensures n % p == r
  {
    var d := n / p - q;
    assert n % p - r == -d * p;
    assert d >= 1 ==> d * p >= p;
    assert d <= -1 ==> d * p <= -1 * p;
  }

  /** The low bytes of a number do not notice that it was wrapped. */
  lemma {:induction false} WrapDigits(n: nat, width: nat)
    ensures BigEndian(n % Pow256(width), width) == BigEndian(n, width)
  {
    if width > 0 {
      var p := Pow256(width - 1);
      WrapDigits(n / 256, width - 1);
      DigitsOf(n, p);
    }
  }

  lemma DigitsOf(n: nat, p: nat)
    requires p >= 1
    ensures n % (256 * p) / 256 == n / 256 % p && n % (256 * p) % 256 == n % 256
  {
    var high, low := n / 256, n % 256;
    var q, r := high / p, high % p;
    assert n == 256 * (q * p + r) + low;
    assert n == q * (256 * p) + (256 * r + low);
    assert 256 * r + low < 256 * p;
    Unique(n, 256 * p, q, 256 * r + low);
  }
}

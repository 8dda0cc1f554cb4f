// The Adler-32 checksum of section 2.2 of RFC 1950, and the form of it that defers the modulo to the end
// of 5552-byte blocks and unrolls eight bytes at a time.
module Adler32 {
  type Byte = n: int | 0 <= n < 256

  const MODULUS := 65521
  const BLOCK := 5552
  const WORD := 0x1_0000_0000

  datatype Sums = Sums(s1: nat, s2: nat)

  // One byte of the reference: both sums reduced at once.
  function Step(s: Sums, b: Byte): Sums {
    var s1 := (s.s1 + b) % MODULUS;
    Sums(s1, (s.s2 + s1) % MODULUS)
  }

  function Reference(s: Sums, data: seq<Byte>): Sums
    decreases |data|
  {
    if data == [] then s else Reference(Step(s, data[0]), data[1..])
  }

  function Unpack(adler: nat): Sums
    requires adler < WORD
  {
    Sums(adler % 0x1_0000, adler / 0x1_0000)
  }

  function Pack(s: Sums): nat { s.s2 * 0x1_0000 + s.s1 }

  // The running sums without any reduction.
  function Raw(s: Sums, data: seq<Byte>): Sums
    decreases |data|
  {
    if data == [] then s else Raw(Sums(s.s1 + data[0], s.s2 + s.s1 + data[0]), data[1..])
  }

  function Reduced(s: Sums): Sums { Sums(s.s1 % MODULUS, s.s2 % MODULUS) }

  lemma {:induction false} RawAppend(s: Sums, data: seq<Byte>, b: Byte)
    ensures var r := Raw(s, data); Raw(s, data + [b]) == Sums(r.s1 + b, r.s2 + r.s1 + b)
    decreases |data|
  {
    if data == [] {
      assert ([] + [b])[1..] == [];
    } else {
      assert (data + [b])[1..] == data[1..] + [b];
      RawAppend(Sums(s.s1 + data[0], s.s2 + s.s1 + data[0]), data[1..], b);
    }
  }

  lemma {:induction false} ReferenceAppend(s: Sums, a: seq<Byte>, b: seq<Byte>)
    ensures Reference(s, a + b) == Reference(Reference(s, a), b)
    decreases |a|
  {
    if a == [] {
      assert a + b == b;
    } else {
      assert (a + b)[1..] == a[1..] + b;
      ReferenceAppend(Step(s, a[0]), a[1..], b);
    }
  }

  // Reducing at the end is reducing at every byte.
  lemma {:induction false} RawReduces(s: Sums, t: Sums, data: seq<Byte>)
    requires Reduced(s) == Reduced(t)
    ensures Reduced(Raw(s, data)) == Reduced(Reference(t, data))
    ensures data != [] ==> Reduced(Raw(s, data)) == Reference(t, data)
    decreases |data|
  {
    if data != [] {
      var s', t' := Sums(s.s1 + data[0], s.s2 + s.s1 + data[0]), Step(t, data[0]);
      SameResidue(s.s1, t.s1, data[0]);
      SameResidue(s.s2, t.s2, s.s1 + data[0]);
      SameResidue(s.s1 + data[0], t'.s1, t.s2);
      RawReduces(s', t', data[1..]);
      if |data| == 1 { assert Raw(s, data) == s' && Reference(t, data) == t'; }
    }
  }

  lemma SameResidue(a: nat, b: nat, c: nat)
    requires a % MODULUS == b % MODULUS
    ensures (a + c) % MODULUS == (b + c) % MODULUS
  {
  }

  // Triangular growth of the sums over a block.
  lemma {:induction false} RawBounded(s: Sums, data: seq<Byte>, a: nat, b: nat)
    requires s.s1 <= a && s.s2 <= b
    ensures Raw(s, data).s1 <= a + 255 * |data|
    ensures Raw(s, data).s2 <= b + a * |data| + 255 * (|data| * (|data| + 1) / 2)
    decreases |data|
  {
    if data != [] {
      var n := |data|;
      RawBounded(Sums(s.s1 + data[0], s.s2 + s.s1 + data[0]), data[1..], a + 255, b + a + 255);
      Triangle(a, b, n);
    }
  }

  lemma Triangle(a: nat, b: nat, n: nat)
    requires n > 0
    ensures (b + a + 255) + (a + 255) * (n - 1) + 255 * ((n - 1) * n / 2) == b + a * n + 255 * (n * (n + 1) / 2)
  {
    assert n * (n + 1) == (n - 1) * n + 2 * n;
    assert (a + 255) * (n - 1) == a * n - a + 255 * n - 255;
  }

  // unsigned long, at its narrowest: every sum stored in one is checked to fit.
  type Word = n: int | 0 <= n < WORD

  // A block may start unreduced only if it is shorter than 5552 bytes, as the first one is.
  predicate Startable(s: Sums, blocklen: nat) {
    || (s.s1 < MODULUS && s.s2 < MODULUS && blocklen <= BLOCK)
    || (s.s1 < 0x1_0000 && s.s2 < 0x1_0000 && blocklen < BLOCK)
  }

  // The sums of a block never leave 32 bits.
  lemma BlockFits(s: Sums, data: seq<Byte>, blocklen: nat)
    requires Startable(s, blocklen) && |data| <= blocklen
    ensures Raw(s, data).s1 < WORD && Raw(s, data).s2 < WORD
  {
    var n := |data|;
    var a := if s.s1 < MODULUS && s.s2 < MODULUS then 65520 else 65535;
    RawBounded(s, data, a, a);
    Growth(a, n, if a == 65520 then 5552 else 5551);
  }

  lemma Growth(a: nat, n: nat, most: nat)
    requires n <= most && ((a == 65520 && most == 5552) || (a == 65535 && most == 5551))
    ensures a + 255 * n < WORD && a + a * n + 255 * (n * (n + 1) / 2) < WORD
  {
    TriangleGrows(n, most);
    if most == 5552 {
      assert most * (most + 1) / 2 == 15415128;
    } else {
      assert most * (most + 1) / 2 == 15409576;
    }
  }

  lemma TriangleGrows(n: nat, most: nat)
    requires n <= most
    ensures n * (n + 1) / 2 <= most * (most + 1) / 2
  {
    assert n * (n + 1) <= most * (n + 1) <= most * (most + 1);
  }

  method AddByte(buffer: array<Byte>, at: nat, s1: Word, s2: Word, ghost base: Sums, ghost start: nat, ghost blocklen: nat)
    returns (t1: Word, t2: Word)
    requires start <= at < buffer.Length && at < start + blocklen && Startable(base, blocklen)
    requires Sums(s1, s2) == Raw(base, buffer[start..at])
    ensures Sums(t1, t2) == Raw(base, buffer[start..at + 1])
  {
    assert buffer[start..at + 1] == buffer[start..at] + [buffer[at]];
    RawAppend(base, buffer[start..at], buffer[at]);
    BlockFits(base, buffer[start..at + 1], blocklen);
    t1 := s1 + buffer[at];
    t2 := s2 + t1;
  }

  // The two inner loops: eight bytes a turn, then the rest one by one.
  method AbsorbBlock(buffer: array<Byte>, start: nat, blocklen: nat, s1: Word, s2: Word) returns (t1: Word, t2: Word)
    requires start + blocklen <= buffer.Length && Startable(Sums(s1, s2), blocklen)
    ensures Sums(t1, t2) == Raw(Sums(s1, s2), buffer[start..start + blocklen])
  {
    ghost var base := Sums(s1, s2);
    t1, t2 := s1, s2;
    var i := 0;
    while i + 7 < blocklen
      invariant 0 <= i <= blocklen && Sums(t1, t2) == Raw(base, buffer[start..start + i])
    {
      var at := start + i;
      t1, t2 := AddByte(buffer, at, t1, t2, base, start, blocklen);
      t1, t2 := AddByte(buffer, at + 1, t1, t2, base, start, blocklen);
      t1, t2 := AddByte(buffer, at + 2, t1, t2, base, start, blocklen);
      t1, t2 := AddByte(buffer, at + 3, t1, t2, base, start, blocklen);
      t1, t2 := AddByte(buffer, at + 4, t1, t2, base, start, blocklen);
      t1, t2 := AddByte(buffer, at + 5, t1, t2, base, start, blocklen);
      t1, t2 := AddByte(buffer, at + 6, t1, t2, base, start, blocklen);
      t1, t2 := AddByte(buffer, at + 7, t1, t2, base, start, blocklen);
      i := i + 8;
    }
    while i < blocklen
      invariant 0 <= i <= blocklen && Sums(t1, t2) == Raw(base, buffer[start..start + i])
    {
      t1, t2 := AddByte(buffer, start + i, t1, t2, base, start, blocklen);
      i := i + 1;
    }
  }

  // The reduced sums after one more block are the reference's, whatever was left unreduced before it.
  lemma BlockReduces(from: Sums, s: Sums, before: seq<Byte>, block: seq<Byte>)
    requires Reduced(s) == Reduced(Reference(from, before))
    ensures Reduced(Raw(s, block)) == Reduced(Reference(from, before + block))
    ensures block != [] ==> Reduced(Raw(s, block)) == Reference(from, before + block)
  {
    RawReduces(s, Reference(from, before), block);
    ReferenceAppend(from, before, block);
  }

  // The fast form equals the reference for every buffer and every 32-bit start value.
  method Adler32(adler: nat, buffer: array<Byte>) returns (r: Word)
    requires adler < WORD
    ensures r == Pack(Reference(Unpack(adler), buffer[..]))
  {
    var s1: Word, s2: Word := adler % 0x1_0000, adler / 0x1_0000;
    ghost var from := Unpack(adler);
    var buflen := buffer.Length;
    var blocklen := buflen % BLOCK;
    var at := 0;
    ghost var turns: int := buflen / BLOCK;
    assert buffer[..0] == [];
    while buflen > 0
      invariant 0 <= at <= at + buflen == buffer.Length && blocklen >= (if at == 0 then 0 else 1)
      invariant buflen > 0 ==> turns >= 0 && buflen == blocklen + BLOCK * turns
      invariant at > 0 || buffer.Length == 0 ==> Sums(s1, s2) == Reference(from, buffer[..at])
      invariant Reduced(Sums(s1, s2)) == Reduced(Reference(from, buffer[..at]))
      invariant Startable(Sums(s1, s2), blocklen)
      decreases buflen, if blocklen == 0 then 1 else 0
    {
      ghost var before, block := buffer[..at], buffer[at..at + blocklen];
      BlockReduces(from, Sums(s1, s2), before, block);
      s1, s2 := AbsorbBlock(buffer, at, blocklen, s1, s2);
      s1, s2 := s1 % MODULUS, s2 % MODULUS;
      assert buffer[..at + blocklen] == before + block;
      at := at + blocklen;
      buflen := buflen - blocklen;
      blocklen := BLOCK;
      turns := turns - 1;
    }
    assert buffer[..at] == buffer[..];
    ReferenceFits(from, buffer[..]);
    r := s2 * 0x1_0000 + s1;
  }

  // Sixteen-bit sums stay sixteen-bit sums.
  lemma {:induction false} ReferenceFits(s: Sums, data: seq<Byte>)
    requires s.s1 < 0x1_0000 && s.s2 < 0x1_0000
    ensures Reference(s, data).s1 < 0x1_0000 && Reference(s, data).s2 < 0x1_0000
    decreases |data|
  {
    if data != [] { ReferenceFits(Step(s, data[0]), data[1..]); }
  }

  // ---- the sums in closed form

  function SumOf(data: seq<Byte>): nat { if data == [] then 0 else SumOf(data[..|data| - 1]) + data[|data| - 1] }

  // Every byte times the number of bytes from it on.
  function Weighted(data: seq<Byte>): nat {
    if data == [] then 0 else Weighted(data[..|data| - 1]) + SumOf(data)
  }

  lemma {:induction false} WeightedAt(data: seq<Byte>, k: nat, b: Byte)
    requires k < |data|
    ensures Weighted(data[k := b]) - Weighted(data) == (|data| - k) * (b - data[k])
    ensures SumOf(data[k := b]) - SumOf(data) == b - data[k]
  {
    var n := |data| - 1;
    if k < n {
      assert data[k := b][..n] == data[..n][k := b];
      WeightedAt(data[..n], k, b);
    } else {
      assert data[k := b][..n] == data[..n];
    }
  }

  lemma {:induction false} RawInClosedForm(s: Sums, data: seq<Byte>)
    ensures Raw(s, data) == Sums(s.s1 + SumOf(data), s.s2 + |data| * s.s1 + Weighted(data))
  {
    if data != [] {
      var n := |data| - 1;
      RawInClosedForm(s, data[..n]);
      assert data == data[..n] + [data[n]];
      RawAppend(s, data[..n], data[n]);
      OnceMore(n, s.s1);
    }
  }

  lemma OnceMore(n: nat, a: nat)
    ensures (n + 1) * a == n * a + a
  {
  }

  // The checksum of a buffer: the first sum adds up the bytes, the second every byte as often as there are bytes
  // from it on, both modulo 65521.
  lemma ReferenceInClosedForm(s: Sums, data: seq<Byte>)
    requires data != []
    ensures Reference(s, data)
            == Sums((s.s1 + SumOf(data)) % MODULUS, (s.s2 + |data| * s.s1 + Weighted(data)) % MODULUS)
  {
    RawReduces(s, s, data);
    RawInClosedForm(s, data);
  }
}

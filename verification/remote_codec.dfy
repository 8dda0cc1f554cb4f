// The bytes of a remote draw list: every element is a tag and a payload.
module RemoteCodec {
  import opened Options

  type Byte = n: int | 0 <= n < 256

  type Text = seq<Byte>

  type Int32 = n: int | -0x8000_0000 <= n < 0x8000_0000

  // Floating-point numbers are the bytes they are sent as.
  type Float = b: seq<Byte> | |b| == 4 witness [0, 0, 0, 0]

  type Double = b: seq<Byte> | |b| == 8 witness [0, 0, 0, 0, 0, 0, 0, 0]

  datatype Elem =
    | Step(step: Byte, forceSync: bool)
    | Bool(b: bool)
    | Int(i: Int32)
    | Float(f: Float)
    | Str(str: Text)
    | Double(d: Double)

  // ---- encoding

  function BoolByte(b: bool): Byte { if b then 1 else 0 }

  function Int32Bytes(n: Int32): (b: Text)
    ensures |b| == 4
  {
    var u := if n < 0 then n + 0x1_0000_0000 else n;
    [u % 0x100, u / 0x100 % 0x100, u / 0x1_0000 % 0x100, u / 0x100_0000]
  }

  function BytesInt32(b: Text): Int32
    requires |b| == 4
  {
    var b0: int, b1: int, b2: int, b3: int := b[0], b[1], b[2], b[3];
    var u := b0 + 0x100 * b1 + 0x1_0000 * b2 + 0x100_0000 * b3;
    if u < 0x8000_0000 then u else u - 0x1_0000_0000
  }

  // The length is stored in 16 bits, whatever it is.
  function LengthBytes(n: nat): (b: Text)
    ensures |b| == 2
  {
    [n % 0x100, n / 0x100 % 0x100]
  }

  function BytesLength(b: Text): nat
    requires |b| == 2
  {
    var low: int, high: int := b[0], b[1];
    low + 0x100 * high
  }

  function Tag(e: Elem): Byte {
    match e
    case Step(_, _) => 0
    case Bool(_) => 1
    case Int(_) => 2
    case Float(_) => 3
    case Str(_) => 4
    case Double(_) => 5
  }

  function Payload(e: Elem): Text {
    match e
    case Step(s, sync) => [s, BoolByte(sync)]
    case Bool(b) => [BoolByte(b)]
    case Int(i) => Int32Bytes(i)
    case Float(f) => f
    case Str(s) => LengthBytes(|s|) + s
    case Double(d) => d
  }

  function Encoded(e: Elem): Text { [Tag(e)] + Payload(e) }

  function EncodedAll(es: seq<Elem>): Text {
    if es == [] then [] else Encoded(es[0]) + EncodedAll(es[1..])
  }

  function ItemSize(e: Elem): nat {
    match e
    case Step(_, _) => 3
    case Bool(_) => 2
    case Int(_) => 5
    case Float(_) => 5
    case Str(s) => 3 + |s|
    case Double(_) => 9
  }

  lemma EncodedSize(e: Elem)
    ensures |Encoded(e)| == ItemSize(e)
  {
  }

  // ---- decoding

  datatype Item = Item(elem: Elem, size: nat)

  function Decoded(data: Text): (r: Option<Item>)
    ensures r.Some? ==> 0 < r.value.size <= |data|
  {
    var n := |data|;
    if n < 1 then None
    else if data[0] == 0 && n >= 3 then Some(Item(Step(data[1], data[2] != 0), 3))
    else if data[0] == 1 && n >= 2 then Some(Item(Bool(data[1] != 0), 2))
    else if data[0] == 2 && n >= 5 then Some(Item(Int(BytesInt32(data[1..5])), 5))
    else if data[0] == 3 && n >= 5 then Some(Item(Elem.Float(data[1..5]), 5))
    else if data[0] == 5 && n >= 9 then Some(Item(Elem.Double(data[1..9]), 9))
    else if data[0] == 4 && n >= 3 then
      var length := BytesLength(data[1..3]);
      if n < length + 3 then None else Some(Item(Str(data[3..3 + length]), 3 + length))
    else None
  }

  // Everything up to the first item that cannot be read, and whether there is one.
  function DecodedAll(data: Text): (r: (seq<Elem>, bool))
    decreases |data|
  {
    if data == [] then ([], true)
    else
      match Decoded(data)
      case None => ([], false)
      case Some(item) =>
        var (rest, ok) := DecodedAll(data[item.size..]);
        ([item.elem] + rest, ok)
  }

  // ---- round trips

  lemma Int32RoundTrip(n: Int32)
    ensures BytesInt32(Int32Bytes(n)) == n
  {
    var u := if n < 0 then n + 0x1_0000_0000 else n;
    assert u / 0x1_0000 == u / 0x100 / 0x100 && u / 0x100_0000 == u / 0x1_0000 / 0x100;
  }

  // A length survives exactly when it has 16 bits; a longer one comes back shorter.
  lemma LengthRoundTrip(n: nat)
    ensures BytesLength(LengthBytes(n)) <= n
    ensures BytesLength(LengthBytes(n)) == n <==> n < 0x1_0000
  {
  }

  predicate Short(e: Elem) { e.Str? ==> |e.str| <= 65535 }

  lemma StringRoundTrip(s: Text, more: Text)
    ensures var data, length := Encoded(Str(s)) + more, BytesLength(LengthBytes(|s|));
            length <= |s| && Decoded(data) == Some(Item(Str(s[..length]), 3 + length))
    ensures s[..BytesLength(LengthBytes(|s|))] == s <==> |s| <= 65535
  {
    var data, length := Encoded(Str(s)) + more, BytesLength(LengthBytes(|s|));
    LengthRoundTrip(|s|);
    assert data == [4] + LengthBytes(|s|) + s + more;
    assert data[1..3] == LengthBytes(|s|);
    assert data[3..3 + length] == s[..length];
  }

  // What comes back of an element, whatever follows it.
  lemma ElemRoundTrip(e: Elem, more: Text)
    ensures Decoded(Encoded(e) + more).Some?
    ensures Decoded(Encoded(e) + more) == Some(Item(e, |Encoded(e)|)) <==> Short(e)
    ensures !Short(e) ==> Decoded(Encoded(e) + more).value.elem != e
  {
    var data := Encoded(e) + more;
    match e {
      case Int(i) =>
        assert data[1..5] == Int32Bytes(i);
        Int32RoundTrip(i);
      case Float(f) => assert data[1..5] == f;
      case Double(d) => assert data[1..9] == d;
      case Str(s) => StringRoundTrip(s, more);
      case _ =>
    }
  }

  // A list comes back as it was exactly when all its strings have at most 65535 bytes.
  lemma {:induction false} ListRoundTrip(es: seq<Elem>)
    ensures DecodedAll(EncodedAll(es)) == (es, true) <==> forall e <- es :: Short(e)
  {
    if es != [] {
      var e, rest := es[0], EncodedAll(es[1..]);
      ElemRoundTrip(e, rest);
      assert e in es && forall f <- es[1..] :: f in es;
      if Short(e) {
        assert (Encoded(e) + rest)[|Encoded(e)|..] == rest;
        ListRoundTrip(es[1..]);
        assert forall f <- es :: f == e || f in es[1..];
        assert DecodedAll(EncodedAll(es)).0 == [e] + DecodedAll(rest).0;
        assert [e] + es[1..] == es && ([e] + DecodedAll(rest).0)[1..] == DecodedAll(rest).0;
      } else {
        var back := DecodedAll(EncodedAll(es)).0;
        assert back[0] != e;
      }
    }
  }

  function TotalSize(es: seq<Elem>): nat {
    if es == [] then 0 else ItemSize(es[0]) + TotalSize(es[1..])
  }

  lemma {:induction false} EncodedAllSize(es: seq<Elem>)
    ensures |EncodedAll(es)| == TotalSize(es)
  {
    if es != [] {
      EncodedSize(es[0]);
      EncodedAllSize(es[1..]);
    }
  }

  lemma {:induction false} EncodedAppended(a: seq<Elem>, b: seq<Elem>)
    ensures EncodedAll(a + b) == EncodedAll(a) + EncodedAll(b) && TotalSize(a + b) == TotalSize(a) + TotalSize(b)
    decreases |a|
  {
    if a == [] {
      assert a + b == b;
    } else {
      assert (a + b)[1..] == a[1..] + b;
      EncodedAppended(a[1..], b);
    }
  }

  // ---- the original's loops over byte buffers

  method Copy(buf: array<Byte>, at: nat, bytes: Text)
    requires at + |bytes| <= buf.Length
    modifies buf
    ensures buf[..] == old(buf[..])[..at] + bytes + old(buf[..])[at + |bytes|..]
  {
    for k := 0 to |bytes|
      invariant buf[..] == old(buf[..])[..at] + bytes[..k] + old(buf[..])[at + k..]
    {
      buf[at + k] := bytes[k];
    }
    assert bytes[..|bytes|] == bytes;
  }

  // Writes one element into the `len` bytes from `at` on; -1 if there is no room for it.
  method StoreItem(e: Elem, buf: array<Byte>, at: nat, len: int) returns (count: int)
    requires at <= buf.Length && at + len <= buf.Length
    modifies buf
    ensures count == if len >= ItemSize(e) then ItemSize(e) else -1
    ensures buf[..at] == old(buf[..at])
    ensures count >= 0 ==> buf[at..at + count] == Encoded(e)
    ensures forall k :: at + len <= k < buf.Length && at <= k ==> buf[k] == old(buf[k])
  {
    if len < 1 { return -1; }
    var left := len - 1;
    EncodedSize(e);
    buf[at] := Tag(e);
    if left < |Payload(e)| { return -1; }
    Copy(buf, at + 1, Payload(e));
    return 1 + |Payload(e)|;
  }
}

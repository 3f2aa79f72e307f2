/** Messages made of any number of fields, written and read back with the macros. */
module Fields {
  import opened ByteOrder
  import opened Streams

  datatype Width = W8 | W16 | W24 | W32 | W64

  datatype Field = LittleEndian(w: Width, v: int) | BigEndian(w: Width, v: int) | Raw(bytes: seq<Byte>)

  // What a reader must know of a field to read it.
  datatype Shape = LittleEndianShape(w: Width) | BigEndianShape(w: Width) | RawShape(len: nat)

  function Bytes(w: Width): nat {
    match w case W8 => 1 case W16 => 2 case W24 => 3 case W32 => 4 case W64 => 8
  }

  function ShapeOf(f: Field): Shape {
    match f
    case LittleEndian(w, _) => LittleEndianShape(w)
    case BigEndian(w, _) => BigEndianShape(w)
    case Raw(bytes) => RawShape(|bytes|)
  }

  function Size(h: Shape): nat {
    match h case LittleEndianShape(w) => Bytes(w) case BigEndianShape(w) => Bytes(w) case RawShape(len) => len
  }

  function SizeAll(hs: seq<Shape>): nat {
    if hs == [] then 0 else SizeAll(hs[..|hs| - 1]) + Size(hs[|hs| - 1])
  }

  function Shapes(fs: seq<Field>): (hs: seq<Shape>)
    ensures |hs| == |fs| && forall i :: 0 <= i < |fs| ==> hs[i] == ShapeOf(fs[i])
  {
    seq(|fs|, i requires 0 <= i < |fs| => ShapeOf(fs[i]))
  }

  // What a field keeps of its value: as many low bits as it is wide.
  function Truncated(f: Field): Field {
    match f
    case LittleEndian(w, v) => LittleEndian(w, v % Pow256(Bytes(w)))
    case BigEndian(w, v) => BigEndian(w, v % Pow256(Bytes(w)))
    case Raw(bytes) => f
  }

  function TruncatedAll(fs: seq<Field>): (r: seq<Field>)
    ensures |r| == |fs| && forall i :: 0 <= i < |fs| ==> r[i] == Truncated(fs[i])
  {
    seq(|fs|, i requires 0 <= i < |fs| => Truncated(fs[i]))
  }

  function Encode(f: Field): (r: seq<Byte>)
    ensures |r| == Size(ShapeOf(f))
  {
    match f
    case LittleEndian(w, v) => LE(v, Bytes(w))
    case BigEndian(w, v) => BE(v, Bytes(w))
    case Raw(bytes) => bytes
  }

  function EncodeAll(fs: seq<Field>): seq<Byte> {
    if fs == [] then [] else EncodeAll(fs[..|fs| - 1]) + Encode(fs[|fs| - 1])
  }

  function Decode(h: Shape, bs: seq<Byte>): Field
    requires |bs| == Size(h)
  {
    match h
    case LittleEndianShape(w) => LittleEndian(w, LEValue(bs))
    case BigEndianShape(w) => BigEndian(w, BEValue(bs))
    case RawShape(_) => Raw(bs)
  }

  function DecodeAll(hs: seq<Shape>, bs: seq<Byte>): (fs: seq<Field>)
    requires |bs| == SizeAll(hs)
    ensures |fs| == |hs|
  {
    if hs == [] then []
    else
      var most, last := hs[..|hs| - 1], hs[|hs| - 1];
      DecodeAll(most, bs[..SizeAll(most)]) + [Decode(last, bs[SizeAll(most)..])]
  }

  lemma FieldRoundTrip(f: Field)
    ensures Decode(ShapeOf(f), Encode(f)) == Truncated(f)
  {
    match f
    case LittleEndian(w, v) => LERoundTrip(v, Bytes(w));
    case BigEndian(w, v) => BERoundTrip(v, Bytes(w));
    case Raw(_) =>
  }

  // Byte i of a little-endian field is its value shifted right by i bytes, truncated;
  // a big-endian field has the same bytes from the other end; bytes stand as they are.
  lemma EncodedBytes(w: Width, v: int, i: nat)
    requires i < Bytes(w)
    ensures Bytes(W8) == 1 && Bytes(W16) == 2 && Bytes(W24) == 3 && Bytes(W32) == 4 && Bytes(W64) == 8
    ensures Encode(LittleEndian(w, v))[i] == v / Pow256(i) % 256
    ensures Encode(BigEndian(w, v))[Bytes(w) - 1 - i] == v / Pow256(i) % 256
    ensures forall bytes :: Encode(Raw(bytes)) == bytes
  {
    LEBytes(v, Bytes(w), i);
    BEIsReverse(v, Bytes(w));
  }

  lemma {:induction false} EncodedSize(fs: seq<Field>)
    ensures |EncodeAll(fs)| == SizeAll(Shapes(fs))
  {
    if fs != [] {
      EncodedSize(fs[..|fs| - 1]);
      assert Shapes(fs)[..|fs| - 1] == Shapes(fs[..|fs| - 1]);
    }
  }

  // Whatever fields are written, in whatever widths and byte orders, reading with
  // the same shapes gives them all back, truncated to their widths.
  lemma {:induction false} RoundTrip(fs: seq<Field>)
    ensures |EncodeAll(fs)| == SizeAll(Shapes(fs))
    ensures DecodeAll(Shapes(fs), EncodeAll(fs)) == TruncatedAll(fs)
  {
    hide Encode, Decode, Truncated, Size, ShapeOf;
    EncodedSize(fs);
    if fs != [] {
      var most, last := fs[..|fs| - 1], fs[|fs| - 1];
      RoundTrip(most);
      FieldRoundTrip(last);
      assert Shapes(fs)[..|fs| - 1] == Shapes(most);
      assert EncodeAll(fs)[..|EncodeAll(most)|] == EncodeAll(most);
      assert EncodeAll(fs)[|EncodeAll(most)|..] == Encode(last);
      assert TruncatedAll(fs) == TruncatedAll(most) + [Truncated(last)];
    }
  }

  // Swapping the byte order of a number reverses its bytes.
  lemma SwappedOrder(w: Width, v: int)
    ensures Encode(BigEndian(w, v)) == Reverse(Encode(LittleEndian(w, v)))
  {
    BEIsReverse(v, Bytes(w));
  }

  // ---- the macros do this

  method PutField(output: Stream, f: Field)
    requires output.Room(Size(ShapeOf(f)))
    modifies output, output.buf
    ensures output.s == old(output.s) + |Encode(f)|
    ensures Wrote(old(output.buf[..]), output.buf[..], old(output.s), Encode(f))
  {
    match f
    case LittleEndian(w, v) =>
      match w {
        case W8 => output.PutLE8(v);
        case W16 => output.PutLE16(v);
        case W24 => output.PutLE24(v);
        case W32 => output.PutLE32(v);
        case W64 => output.PutLE64(v);
      }
    case BigEndian(w, v) =>
      match w {
        case W8 => output.PutBE8(v);
        case W16 => output.PutBE16(v);
        case W24 => output.PutBE24(v);
        case W32 => output.PutBE32(v);
        case W64 => output.PutBE64(v);
      }
    case Raw(bytes) =>
      var a := new Byte[|bytes|](i requires 0 <= i < |bytes| => bytes[i]);
      assert a[..|bytes|] == bytes;
      output.PutArray(a, |bytes|);
  }

  // Writes all fields: exactly the encoding, and nothing outside it.
  method PutAll(output: Stream, fs: seq<Field>)
    requires output.Room(|EncodeAll(fs)|)
    modifies output, output.buf
    ensures output.s == old(output.s) + |EncodeAll(fs)|
    ensures Wrote(old(output.buf[..]), output.buf[..], old(output.s), EncodeAll(fs))
  {
    hide Wrote, Encode, EncodeAll;
    var i := 0;
    ghost var was, at := output.buf[..], output.s;
    WroteNothing(was, at);
    EncodedNothing();
    assert fs[..0] == [];
    while i < |fs|
      invariant 0 <= i <= |fs|
      invariant output.s == at + |EncodeAll(fs[..i])|
      invariant Wrote(was, output.buf[..], at, EncodeAll(fs[..i]))
    {
      EncodedNext(fs, i);
      ghost var before := output.buf[..];
      PutField(output, fs[i]);
      WroteMore(was, before, output.buf[..], at, EncodeAll(fs[..i]), Encode(fs[i]));
      i := i + 1;
    }
    assert fs[..i] == fs;
  }

  lemma {:induction false} EncodedPrefix(fs: seq<Field>, n: nat)
    requires n <= |fs|
    ensures |EncodeAll(fs[..n])| <= |EncodeAll(fs)|
    decreases |fs| - n
  {
    hide Encode;
    if n < |fs| {
      EncodedPrefix(fs, n + 1);
      assert fs[..n + 1][..n] == fs[..n];
      assert EncodeAll(fs[..n + 1]) == EncodeAll(fs[..n]) + Encode(fs[n]);
    } else {
      assert fs[..n] == fs;
    }
  }

  lemma EncodedNothing()
    ensures EncodeAll([]) == []
  {
  }

  lemma EncodedNext(fs: seq<Field>, i: nat)
    requires i < |fs|
    ensures EncodeAll(fs[..i + 1]) == EncodeAll(fs[..i]) + Encode(fs[i])
    ensures |EncodeAll(fs[..i])| + |Encode(fs[i])| <= |EncodeAll(fs)|
  {
    assert fs[..i + 1][..i] == fs[..i];
    EncodedPrefix(fs, i + 1);
  }

  lemma WroteNothing(a: seq<Byte>, at: nat)
    requires at <= |a|
    ensures Wrote(a, a, at, [])
  {
  }

  lemma WroteMore(a: seq<Byte>, b: seq<Byte>, c: seq<Byte>, at: nat, x: seq<Byte>, y: seq<Byte>)
    requires Wrote(a, b, at, x) && Wrote(b, c, at + |x|, y)
    ensures Wrote(a, c, at, x + y)
  {
  }

  method GetField(input: Stream, h: Shape) returns (f: Field)
    requires input.Room(Size(h))
    modifies input`s
    ensures input.s == old(input.s) + Size(h)
    ensures f == Decode(h, input.buf[old(input.s)..input.s])
  {
    match h
    case LittleEndianShape(w) =>
      var v: nat;
      match w {
        case W8 => v := input.GetLE8();
        case W16 => v := input.GetLE16();
        case W24 => v := input.GetLE24();
        case W32 => v := input.GetLE32();
        case W64 => v := input.GetLE64();
      }
      f := LittleEndian(w, v);
    case BigEndianShape(w) =>
      var v: nat;
      match w {
        case W8 => v := input.GetBE8();
        case W16 => v := input.GetBE16();
        case W24 => v := input.GetBE24();
        case W32 => v := input.GetBE32();
        case W64 => v := input.GetBE64();
      }
      f := BigEndian(w, v);
    case RawShape(len) =>
      var a := new Byte[len];
      input.GetArray(a, len);
      f := Raw(a[..]);
  }

  // Reads one field for each shape.
  method GetAll(input: Stream, hs: seq<Shape>) returns (fs: seq<Field>)
    requires input.Room(SizeAll(hs))
    modifies input`s
    ensures input.s == old(input.s) + SizeAll(hs)
    ensures fs == DecodeAll(hs, input.buf[old(input.s)..input.s])
  {
    fs := [];
    var i := 0;
    while i < |hs|
      invariant 0 <= i <= |hs| && input.s == old(input.s) + SizeAll(hs[..i]) <= input.buf.Length
      invariant fs == DecodeAll(hs[..i], input.buf[old(input.s)..input.s])
    {
      SizePrefix(hs, i + 1);
      ghost var h, at := hs[..i + 1], input.s;
      assert h[..i] == hs[..i] && h[i] == hs[i];
      var f := GetField(input, hs[i]);
      ghost var bs := input.buf[old(input.s)..input.s];
      assert bs[..SizeAll(hs[..i])] == input.buf[old(input.s)..at];
      assert bs[SizeAll(hs[..i])..] == input.buf[at..input.s];
      fs := fs + [f];
      i := i + 1;
    }
    assert hs[..i] == hs;
  }

  lemma {:induction false} SizePrefix(hs: seq<Shape>, n: nat)
    requires n <= |hs|
    ensures SizeAll(hs[..n]) <= SizeAll(hs)
    decreases |hs| - n
  {
    if n < |hs| {
      SizePrefix(hs, n + 1);
      assert hs[..n + 1][..n] == hs[..n];
    } else {
      assert hs[..n] == hs;
    }
  }

  // The macros themselves: fields written, the cursor set back, and read again.
  method WriteThenRead(stream: Stream, fs: seq<Field>) returns (r: seq<Field>)
    requires stream.Room(|EncodeAll(fs)|)
    modifies stream, stream.buf
    ensures r == TruncatedAll(fs)
    ensures stream.s == old(stream.s) + |EncodeAll(fs)|
    ensures stream.buf[old(stream.s)..stream.s] == EncodeAll(fs)
    ensures stream.buf[..old(stream.s)] == old(stream.buf[..stream.s])
    ensures stream.buf[stream.s..] == old(stream.buf[stream.s + |EncodeAll(fs)|..])
  {
    hide EncodeAll, DecodeAll;
    ghost var was := stream.buf[..];
    var start := stream.s;
    PutAll(stream, fs);
    ghost var now := stream.buf[..];
    stream.s := start;
    RoundTrip(fs);
    r := GetAll(stream, Shapes(fs));
    assert stream.buf[start..stream.s] == now[start..stream.s] == EncodeAll(fs);
  }
}

/** Little-endian integers of a fixed width, the only number format of the wire protocol and of the
    reused bytes of a combat event. */
module Bytes {
  import opened CombatEvents

  type byte = u8

  function Pow256(width: nat): (p: nat)
    ensures p > 0
  {
    if width == 0 then 1 else 256 * Pow256(width - 1)
  }

  function ToBytes(n: nat, width: nat): (bytes: seq<byte>)
    ensures |bytes| == width
    decreases width
  {
    if width == 0 then [] else [n % 256] + ToBytes(n / 256, width - 1)
  }

  function FromBytes(bytes: seq<byte>): (n: nat)
    ensures n < Pow256(|bytes|)
  {
    if bytes == [] then 0 else bytes[0] + 256 * FromBytes(bytes[1..])
  }

  lemma {:induction false} DecodeEncode(n: nat, width: nat)
    requires n < Pow256(width)
    ensures FromBytes(ToBytes(n, width)) == n
    decreases width
  {
    if width > 0 {
      DecodeEncode(n / 256, width - 1);
      assert ToBytes(n, width)[1..] == ToBytes(n / 256, width - 1);
    }
  }

  lemma {:induction false} EncodeDecode(bytes: seq<byte>)
    ensures ToBytes(FromBytes(bytes), |bytes|) == bytes
  {
    if bytes != [] {
      EncodeDecode(bytes[1..]);
      assert FromBytes(bytes) % 256 == bytes[0] && FromBytes(bytes) / 256 == FromBytes(bytes[1..]);
    }
  }

  lemma Widths()
    ensures Pow256(1) == 0x100 && Pow256(2) == 0x1_0000 && Pow256(4) == 0x1_0000_0000
    ensures Pow256(8) == 0x1_0000_0000_0000_0000
  {
    assert Pow256(3) == 0x100_0000 && Pow256(4) == 0x1_0000_0000;
    assert Pow256(5) == 0x100_0000_0000 && Pow256(6) == 0x1_0000_0000_0000;
    assert Pow256(7) == 0x100_0000_0000_0000;
  }

  // ----- Bytes one by one

  lemma FirstByte(b: byte, rest: seq<byte>)
    ensures FromBytes([b] + rest) == b + 256 * FromBytes(rest)
  {
    assert ([b] + rest)[1..] == rest;
  }

  lemma TwoBytes(a: byte, b: byte, rest: seq<byte>)
    ensures FromBytes([a, b] + rest) == a + 0x100 * b + 0x1_0000 * FromBytes(rest)
  {
    FirstByte(b, rest);
    FirstByte(a, [b] + rest);
    hide FromBytes;
    assert [a] + ([b] + rest) == [a, b] + rest;
  }

  lemma FourBytes(a: byte, b: byte, c: byte, d: byte, rest: seq<byte>)
    ensures FromBytes([a, b, c, d] + rest) == a + 0x100 * b + 0x1_0000 * c + 0x100_0000 * d + 0x1_0000_0000 * FromBytes(rest)
  {
    TwoBytes(c, d, rest);
    TwoBytes(a, b, [c, d] + rest);
    hide FromBytes;
    assert [a, b] + ([c, d] + rest) == [a, b, c, d] + rest;
  }

  lemma EightBytes(a: byte, b: byte, c: byte, d: byte, e: byte, f: byte, g: byte, h: byte)
    ensures FromBytes([a, b, c, d, e, f, g, h])
            == a + 0x100 * b + 0x1_0000 * c + 0x100_0000 * d + 0x1_0000_0000 * e + 0x100_0000_0000 * f + 0x1_0000_0000_0000 * g
               + 0x100_0000_0000_0000 * h
  {
    assert FromBytes([]) == 0;
    hide FromBytes;
    FourBytes(e, f, g, h, []);
    FourBytes(a, b, c, d, [e, f, g, h] + []);
    assert [a, b, c, d] + ([e, f, g, h] + []) == [a, b, c, d, e, f, g, h];
  }

  // ----- Consecutive integers of one width

  function EncodeWords(values: seq<nat>, width: nat): (b: seq<byte>)
    ensures |b| == |values| * width
  {
    if values == [] then [] else ToBytes(values[0], width) + EncodeWords(values[1..], width)
  }

  function DecodeWords(b: seq<byte>, count: nat, width: nat): (values: seq<nat>)
    requires |b| == count * width
    ensures |values| == count && forall k :: 0 <= k < count ==> values[k] < Pow256(width)
    decreases count
  {
    if count == 0 then [] else [FromBytes(b[..width])] + DecodeWords(b[width..], count - 1, width)
  }

  lemma {:induction false} WordsDecodeEncode(values: seq<nat>, width: nat)
    requires forall k :: 0 <= k < |values| ==> values[k] < Pow256(width)
    ensures DecodeWords(EncodeWords(values, width), |values|, width) == values
  {
    if values != [] {
      var b := EncodeWords(values, width);
      assert b[..width] == ToBytes(values[0], width) && b[width..] == EncodeWords(values[1..], width);
      DecodeEncode(values[0], width);
      WordsDecodeEncode(values[1..], width);
    }
  }

  lemma OneWordLess(length: nat, count: nat, width: nat)
    requires length == count * width && count > 0
    ensures width <= length && length - width == (count - 1) * width
  {
  }

  lemma DecodeFirstWord(b: seq<byte>, count: nat, width: nat)
    requires |b| == count * width && count > 0
    ensures width <= |b| && |b[width..]| == (count - 1) * width
    ensures DecodeWords(b, count, width) == [FromBytes(b[..width])] + DecodeWords(b[width..], count - 1, width)
  {
    OneWordLess(|b|, count, width);
    hide FromBytes;
  }

  lemma EncodeFirstWord(value: nat, values: seq<nat>, width: nat)
    ensures EncodeWords([value] + values, width) == ToBytes(value, width) + EncodeWords(values, width)
  {
    assert ([value] + values)[1..] == values;
    hide ToBytes;
  }

  lemma {:induction false} WordsEncodeDecode(b: seq<byte>, count: nat, width: nat)
    requires |b| == count * width
    ensures EncodeWords(DecodeWords(b, count, width), width) == b
    decreases count
  {
    hide EncodeWords, DecodeWords, ToBytes, FromBytes;
    if count == 0 {
      NoWords(b, width);
    } else {
      DecodeFirstWord(b, count, width);
      EncodeDecode(b[..width]);
      WordsEncodeDecode(b[width..], count - 1, width);
      EncodeFirstWord(FromBytes(b[..width]), DecodeWords(b[width..], count - 1, width), width);
    }
  }

  lemma NoWords(b: seq<byte>, width: nat)
    requires |b| == 0 * width
    ensures b == [] && EncodeWords(DecodeWords(b, 0, width), width) == []
  {
  }
}

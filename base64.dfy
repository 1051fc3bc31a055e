/**
 * Standard base64 with padding, as defined in section 4 of RFC 4648. The tag
 * keys of wutag_core carry a tag's name in this encoding.
 */
module Base64 {
  import opened Wrappers
  import opened Text

  const PAD: byte := '='

  /** The character for a 6-bit value (table 1 of RFC 4648). */
  function Symbol(v: nat): (c: byte)
    requires v < 64
  {
    if v < 26 then ('A' as int + v) as char
    else if v < 52 then ('a' as int + (v - 26)) as char
    else if v < 62 then ('0' as int + (v - 52)) as char
    else if v == 62 then '+'
    else '/'
  }

  lemma SymbolInjective(v: nat, w: nat)
    requires v < 64 && w < 64 && Symbol(v) == Symbol(w)
    ensures v == w
  {
  }

  /** The first value at or after `from` whose character is `c`. */
  function IndexIn(c: byte, from: nat): (r: Option<nat>)
    requires from <= 64
    ensures r.Some? ==> from <= r.value < 64 && Symbol(r.value) == c
    decreases 64 - from
  {
    if from == 64 then None
    else if Symbol(from) == c then Some(from)
    else IndexIn(c, from + 1)
  }

  /** The 6-bit value of an alphabet character; `None` for anything else. */
  function Value(c: byte): (r: Option<nat>)
    ensures r.Some? ==> r.value < 64 && Symbol(r.value) == c
  {
    IndexIn(c, 0)
  }

  lemma {:induction false} IndexOfSymbol(v: nat, from: nat)
    requires from <= v < 64
    ensures IndexIn(Symbol(v), from) == Some(v)
    decreases 64 - from
  {
    if Symbol(from) == Symbol(v) {
      SymbolInjective(from, v);
    } else {
      IndexOfSymbol(v, from + 1);
    }
  }

  lemma ValueOfSymbol(v: nat)
    requires v < 64
    ensures Value(Symbol(v)) == Some(v)
  {
    IndexOfSymbol(v, 0);
  }

  predicate InAlphabet(c: byte)
  {
    Value(c).Some? || c == PAD
  }

  function ByteOf(n: nat): byte
    requires n < 256
  {
    n as char
  }

  /** Encodes bytes three at a time; a short last group is padded with '='. */
  function Encode(data: Text): (r: Text)
    ensures |r| == 4 * ((|data| + 2) / 3)
    decreases |data|
  {
    if |data| == 0 then []
    else if |data| == 1 then OneByteGroup(data[0] as int)
    else if |data| == 2 then TwoByteGroup(data[0] as int, data[1] as int)
    else ThreeByteGroup(data[0] as int, data[1] as int, data[2] as int) + Encode(data[3..])
  }

  /** Three bytes as four 6-bit symbols. */
  function ThreeByteGroup(b0: nat, b1: nat, b2: nat): (q: Text)
    requires b0 < 256 && b1 < 256 && b2 < 256
    ensures |q| == 4
  {
    [Symbol(b0 / 4), Symbol((b0 % 4) * 16 + b1 / 16), Symbol((b1 % 16) * 4 + b2 / 64), Symbol(b2 % 64)]
  }

  /** A last pair of bytes: three symbols, the last zero-filled, and one pad. */
  function TwoByteGroup(b0: nat, b1: nat): (q: Text)
    requires b0 < 256 && b1 < 256
    ensures |q| == 4
  {
    [Symbol(b0 / 4), Symbol((b0 % 4) * 16 + b1 / 16), Symbol((b1 % 16) * 4), PAD]
  }

  /** A last single byte: two symbols, the second zero-filled, and two pads. */
  function OneByteGroup(b0: nat): (q: Text)
    requires b0 < 256
    ensures |q| == 4
  {
    [Symbol(b0 / 4), Symbol((b0 % 4) * 16), PAD, PAD]
  }

  /**
   * Decodes one group of four characters. Padding is accepted only in the
   * last group, and the bits a padded group leaves over must be zero.
   */
  function DecodeGroup(q: Text, last: bool): (r: Option<Text>)
    requires |q| == 4
    ensures r.Some? ==> 1 <= |r.value| <= 3
    ensures r.Some? && !last ==> |r.value| == 3
  {
    var v0, v1 := Value(q[0]), Value(q[1]);
    if v0.None? || v1.None? then None
    else
      var a, b := v0.value, v1.value;
      if last && q[2] == PAD && q[3] == PAD then
        if b % 16 == 0 then Some([ByteOf(a * 4 + b / 16)]) else None
      else
        var v2 := Value(q[2]);
        if v2.None? then None
        else
          var c := v2.value;
          if last && q[3] == PAD then
            if c % 4 == 0 then Some([ByteOf(a * 4 + b / 16), ByteOf((b % 16) * 16 + c / 4)]) else None
          else
            var v3 := Value(q[3]);
            if v3.None? then None
            else Some([ByteOf(a * 4 + b / 16), ByteOf((b % 16) * 16 + c / 4), ByteOf((c % 4) * 64 + v3.value)])
  }

  /**
   * Strict decoding: the length must be a multiple of four, and every group
   * of four symbols gives three bytes, except that the last may give one or
   * two.
   */
  function Decode(s: Text): (r: Option<Text>)
    ensures |s| % 4 != 0 ==> r.None?
    ensures r.Some? ==> |r.value| <= |s| / 4 * 3
    ensures r.Some? && |s| > 0 ==> |s| / 4 * 3 - 2 <= |r.value|
    decreases |s|
  {
    if |s| == 0 then Some([])
    else if |s| < 4 then None
    else
      match DecodeGroup(s[..4], |s| == 4)
      case None => None
      case Some(group) =>
        if |s| == 4 then Some(group)
        else
          match Decode(s[4..])
          case None => None
          case Some(rest) => Some(group + rest)
  }

  lemma SplitByte(x: nat, k: nat)
    requires k > 0
    ensures x == (x / k) * k + x % k
  {
  }

  lemma GroupOfThree(b0: nat, b1: nat, b2: nat, last: bool)
    requires b0 < 256 && b1 < 256 && b2 < 256
    ensures DecodeGroup(ThreeByteGroup(b0, b1, b2), last)
            == Some([ByteOf(b0), ByteOf(b1), ByteOf(b2)])
  {
    var a, b, c, d := b0 / 4, (b0 % 4) * 16 + b1 / 16, (b1 % 16) * 4 + b2 / 64, b2 % 64;
    ThreeByteBits(b0, b1, b2);
    ValueOfSymbol(a); ValueOfSymbol(b); ValueOfSymbol(c); ValueOfSymbol(d);
  }

  /** The four 6-bit values of three bytes put the bytes back together. */
  lemma ThreeByteBits(b0: nat, b1: nat, b2: nat)
    requires b0 < 256 && b1 < 256 && b2 < 256
    ensures var a, b, c, d := b0 / 4, (b0 % 4) * 16 + b1 / 16, (b1 % 16) * 4 + b2 / 64, b2 % 64;
      a * 4 + b / 16 == b0 && (b % 16) * 16 + c / 4 == b1 && (c % 4) * 64 + d == b2
  {
    var a, b, c, d := b0 / 4, (b0 % 4) * 16 + b1 / 16, (b1 % 16) * 4 + b2 / 64, b2 % 64;
    assert b / 16 == b0 % 4 && b % 16 == b1 / 16;
    assert c / 4 == b1 % 16 && c % 4 == b2 / 64;
  }

  lemma GroupOfTwo(b0: nat, b1: nat)
    requires b0 < 256 && b1 < 256
    ensures DecodeGroup(TwoByteGroup(b0, b1), true)
            == Some([ByteOf(b0), ByteOf(b1)])
  {
    var a, b, c := b0 / 4, (b0 % 4) * 16 + b1 / 16, (b1 % 16) * 4;
    TwoByteBits(b0, b1);
    ValueOfSymbol(a); ValueOfSymbol(b); ValueOfSymbol(c);
  }

  /** The three 6-bit values of two bytes put the bytes back together, leaving zero bits over. */
  lemma TwoByteBits(b0: nat, b1: nat)
    requires b0 < 256 && b1 < 256
    ensures var a, b, c := b0 / 4, (b0 % 4) * 16 + b1 / 16, (b1 % 16) * 4;
      a * 4 + b / 16 == b0 && (b % 16) * 16 + c / 4 == b1 && c % 4 == 0
  {
    var a, b, c := b0 / 4, (b0 % 4) * 16 + b1 / 16, (b1 % 16) * 4;
    assert b / 16 == b0 % 4 && b % 16 == b1 / 16;
    assert c / 4 == b1 % 16;
  }

  lemma GroupOfOne(b0: nat)
    requires b0 < 256
    ensures DecodeGroup(OneByteGroup(b0), true) == Some([ByteOf(b0)])
  {
    var a, b := b0 / 4, (b0 % 4) * 16;
    ValueOfSymbol(a); ValueOfSymbol(b);
    assert b / 16 == b0 % 4 && b % 16 == 0;
    assert a * 4 + b / 16 == b0;
  }

  /** Decoding a group followed by more groups. */
  lemma DecodeAppend(s: Text, head: Text, tail: Text, group: Text, rest: Text)
    requires |head| == 4 && s == head + tail
    requires DecodeGroup(head, tail == []) == Some(group)
    requires Decode(tail) == Some(rest)
    ensures Decode(s) == Some(group + rest)
  {
    assert s[..4] == head;
    if tail == [] {
      assert s == head && rest == [];
      assert group + rest == group;
    } else {
      assert s[4..] == tail;
    }
  }

  lemma DecodeEncodeOne(data: Text)
    requires |data| == 1
    ensures Decode(Encode(data)) == Some(data)
  {
    var b0 := data[0] as int;
    GroupOfOne(b0);
    DecodeSingle(OneByteGroup(b0));
    assert [ByteOf(b0)] == data;
  }

  lemma DecodeEncodeTwo(data: Text)
    requires |data| == 2
    ensures Decode(Encode(data)) == Some(data)
  {
    var b0, b1 := data[0] as int, data[1] as int;
    GroupOfTwo(b0, b1);
    DecodeSingle(TwoByteGroup(b0, b1));
    assert ByteOf(b0) == data[0] && ByteOf(b1) == data[1];
    assert [ByteOf(b0), ByteOf(b1)] == data;
  }

  /** A text of one group decodes as that group, the last one. */
  lemma DecodeSingle(e: Text)
    requires |e| == 4
    ensures Decode(e) == DecodeGroup(e, true)
  {
    assert e[..4] == e;
  }

  lemma BytesOfGroup(data: Text)
    requires |data| >= 3
    ensures [ByteOf(data[0] as int), ByteOf(data[1] as int), ByteOf(data[2] as int)] + data[3..] == data
  {
    assert ByteOf(data[0] as int) == data[0];
    assert ByteOf(data[1] as int) == data[1];
    assert ByteOf(data[2] as int) == data[2];
  }

  /** An encoding is its first group followed by the encoding of the rest. */
  lemma EncodeHead(data: Text)
    requires |data| >= 3
    ensures |Encode(data)| >= 4 && Encode(data) == Encode(data)[..4] + Encode(data[3..])
    ensures DecodeGroup(Encode(data)[..4], Encode(data[3..]) == []) == Some(data[..3])
  {
    var b0, b1, b2 := data[0] as int, data[1] as int, data[2] as int;
    GroupOfThree(b0, b1, b2, |data| == 3);
    BytesOfGroup(data);
    assert data[..3] == [ByteOf(b0), ByteOf(b1), ByteOf(b2)];
    assert Encode(data[3..]) == [] <==> |data| == 3;
  }

  /** A leading group that decodes to the first three bytes, then a tail that decodes to the rest. */
  lemma DecodeLeadingGroup(data: Text, e: Text, tail: Text)
    requires |data| >= 3
    requires |e| >= 4 && e == e[..4] + tail
    requires DecodeGroup(e[..4], tail == []) == Some(data[..3])
    requires Decode(tail) == Some(data[3..])
    ensures Decode(e) == Some(data)
  {
    DecodeAppend(e, e[..4], tail, data[..3], data[3..]);
    assert data[..3] + data[3..] == data;
  }

  /** Decoding undoes encoding, for every byte string. */
  lemma {:induction false} DecodeEncode(data: Text)
    ensures Decode(Encode(data)) == Some(data)
    decreases |data|
  {
    if |data| == 1 {
      DecodeEncodeOne(data);
    } else if |data| == 2 {
      DecodeEncodeTwo(data);
    } else if |data| >= 3 {
      DecodeEncode(data[3..]);
      EncodeHead(data);
      DecodeLeadingGroup(data, Encode(data), Encode(data[3..]));
    }
  }

  /** An encoding holds only alphabet characters and padding. */
  lemma {:induction false} EncodeWithout(data: Text, c: byte)
    requires Value(c).None? && c != PAD
    ensures c !in Encode(data)
    decreases |data|
  {
    forall v: nat | v < 64
      ensures Symbol(v) != c
    {
      ValueOfSymbol(v);
    }
    if |data| >= 3 {
      EncodeWithout(data[3..], c);
    }
  }

  /** Different byte strings have different encodings. */
  lemma EncodeInjective(a: Text, b: Text)
    requires Encode(a) == Encode(b)
    ensures a == b
  {
    DecodeEncode(a);
    DecodeEncode(b);
  }
}

/** The base64 encoding of RFC 4648 section 4 (standard alphabet, '=' padding),
    with a strict decoder: the input length is a multiple of four, padding only
    closes the last quantum, and the bits that padding discards must be zero
    (section 3.5 of RFC 4648), so that every accepted text is the encoding of
    exactly one byte sequence. */
module Base64 {
  import opened Json

  type Byte = x: int | 0 <= x < 256
  type Sextet = x: int | 0 <= x < 64

  /** The symbol of a 6-bit value: A-Z, a-z, 0-9, '+', '/'. */
  function Symbol(v: Sextet): char {
    if v < 26 then ('A' as int + v) as char
    else if v < 52 then ('a' as int + (v - 26)) as char
    else if v < 62 then ('0' as int + (v - 52)) as char
    else if v == 62 then '+'
    else '/'
  }

  /** The 6-bit value of a symbol; None for a character outside the alphabet
      (the padding character '=' included). */
  function SymbolValue(c: char): (r: Option<Sextet>)
    ensures r.Some? ==> Symbol(r.value) == c
  {
    if 'A' <= c <= 'Z' then Some(c as int - 'A' as int)
    else if 'a' <= c <= 'z' then Some(c as int - 'a' as int + 26)
    else if '0' <= c <= '9' then Some(c as int - '0' as int + 52)
    else if c == '+' then Some(62)
    else if c == '/' then Some(63)
    else None
  }

  lemma SymbolRoundTrip(v: Sextet)
    ensures SymbolValue(Symbol(v)) == Some(v)
  {
  }

  /** Three bytes as four symbols. */
  function EncodeBlock(b0: Byte, b1: Byte, b2: Byte): string {
    [Symbol(b0 / 4), Symbol((b0 % 4) * 16 + b1 / 16), Symbol((b1 % 16) * 4 + b2 / 64), Symbol(b2 % 64)]
  }

  /** Three bytes encode as one block. */
  lemma EncodeOneBlock(b0: Byte, b1: Byte, b2: Byte)
    ensures Encode([b0, b1, b2]) == EncodeBlock(b0, b1, b2)
  {
    var b: seq<Byte> := [b0, b1, b2];
    assert b[3..] == [];
  }

  /** The test vector "foo" of section 10 of RFC 4648. */
  lemma EncodeFoo()
    ensures Encode([102, 111, 111]) == "Zm9v"
  {
    EncodeOneBlock(102, 111, 111);
    assert EncodeBlock(102, 111, 111) == [Symbol(25), Symbol(38), Symbol(61), Symbol(47)];
  }

  /** The test vector "foobar" of section 10 of RFC 4648. */
  lemma EncodeFoobar()
    ensures Encode([102, 111, 111, 98, 97, 114]) == "Zm9vYmFy"
  {
    var foo: seq<Byte>, bar: seq<Byte> := [102, 111, 111], [98, 97, 114];
    EncodeFoo();
    EncodeOneBlock(102, 111, 111);
    EncodeOneBlock(98, 97, 114);
    assert foo + bar == [102, 111, 111, 98, 97, 114];
    EncodeCons(foo, bar);
    var ybar := EncodeBlock(98, 97, 114);
    assert ybar == [Symbol(24), Symbol(38), Symbol(5), Symbol(50)];
    assert ybar == "YmFy";
  }

  function Encode(b: seq<Byte>): (s: string)
    ensures |s| % 4 == 0
    ensures |s| == 4 * ((|b| + 2) / 3)
    decreases |b|
  {
    if |b| == 0 then ""
    else if |b| == 1 then [Symbol(b[0] / 4), Symbol((b[0] % 4) * 16), '=', '=']
    else if |b| == 2 then [Symbol(b[0] / 4), Symbol((b[0] % 4) * 16 + b[1] / 16), Symbol((b[1] % 16) * 4), '=']
    else
      BlockStep(|b|);
      EncodeBlock(b[0], b[1], b[2]) + Encode(b[3..])
  }

  lemma BlockStep(n: nat)
    requires n >= 3
    ensures (n + 2) / 3 == (n - 3 + 2) / 3 + 1
  {
  }

  /** One quantum of four characters; padding is accepted only in the last one. */
  function DecodeQuantum(q: string, last: bool): (r: Option<seq<Byte>>)
    requires |q| == 4
    ensures r.Some? ==> 1 <= |r.value| <= 3 && (|r.value| < 3 ==> last)
  {
    var v0, v1 := SymbolValue(q[0]), SymbolValue(q[1]);
    if v0.None? || v1.None? then None
    else
      var a, b := v0.value, v1.value;
      if q[2] == '=' && q[3] == '=' then
        if last && b % 16 == 0 then Some([a * 4 + b / 16]) else None
      else
        var v2 := SymbolValue(q[2]);
        if v2.None? then None
        else
          var c := v2.value;
          if q[3] == '=' then
            if last && c % 4 == 0 then Some([a * 4 + b / 16, (b % 16) * 16 + c / 4]) else None
          else
            var v3 := SymbolValue(q[3]);
            if v3.None? then None
            else Some([a * 4 + b / 16, (b % 16) * 16 + c / 4, (c % 4) * 64 + v3.value])
  }

  function Decode(s: string): (r: Option<seq<Byte>>)
    ensures r.Some? ==> |s| % 4 == 0 && |r.value| <= 3 * (|s| / 4)
    decreases |s|
  {
    if s == [] then Some([])
    else if |s| < 4 then None
    else
      match DecodeQuantum(s[..4], |s| == 4)
      case None => None
      case Some(head) =>
        match Decode(s[4..])
        case None => None
        case Some(tail) =>
          QuantumStep(|s|);
          Some(head + tail)
  }

  lemma QuantumStep(n: nat)
    requires n >= 4
    ensures n % 4 == (n - 4) % 4 && n / 4 == (n - 4) / 4 + 1
  {
  }

  /** Regrouping three bytes as four sextets and back is the identity. */
  lemma Pack(b0: Byte, b1: Byte, b2: Byte)
    ensures (b0 / 4) * 4 + ((b0 % 4) * 16 + b1 / 16) / 16 == b0
    ensures (((b0 % 4) * 16 + b1 / 16) % 16) * 16 + ((b1 % 16) * 4 + b2 / 64) / 4 == b1
    ensures (((b1 % 16) * 4 + b2 / 64) % 4) * 64 + b2 % 64 == b2
  {
    assert ((b0 % 4) * 16 + b1 / 16) / 16 == b0 % 4;
    assert ((b0 % 4) * 16 + b1 / 16) % 16 == b1 / 16;
    assert ((b1 % 16) * 4 + b2 / 64) / 4 == b1 % 16;
    assert ((b1 % 16) * 4 + b2 / 64) % 4 == b2 / 64;
  }

  /** Regrouping four sextets as three bytes and back is the identity. */
  lemma Unpack(a: Sextet, b: Sextet, c: Sextet, d: Sextet)
    ensures (a * 4 + b / 16) / 4 == a
    ensures ((a * 4 + b / 16) % 4) * 16 + ((b % 16) * 16 + c / 4) / 16 == b
    ensures (((b % 16) * 16 + c / 4) % 16) * 4 + ((c % 4) * 64 + d) / 64 == c
    ensures ((c % 4) * 64 + d) % 64 == d
  {
    assert (a * 4 + b / 16) % 4 == b / 16;
    assert ((b % 16) * 16 + c / 4) / 16 == b % 16;
    assert ((b % 16) * 16 + c / 4) % 16 == c / 4;
    assert ((c % 4) * 64 + d) / 64 == c % 4;
  }

  lemma BlockRoundTrip(b0: Byte, b1: Byte, b2: Byte, last: bool)
    ensures DecodeQuantum(EncodeBlock(b0, b1, b2), last) == Some([b0, b1, b2])
  {
    var a, b, c, d := b0 / 4, (b0 % 4) * 16 + b1 / 16, (b1 % 16) * 4 + b2 / 64, b2 % 64;
    var q := EncodeBlock(b0, b1, b2);
    assert q == [Symbol(a), Symbol(b), Symbol(c), Symbol(d)];
    SymbolRoundTrip(a);
    SymbolRoundTrip(b);
    SymbolRoundTrip(c);
    SymbolRoundTrip(d);
    Pack(b0, b1, b2);
  }

  lemma DecodeOneByte(b0: Byte)
    ensures Decode(Encode([b0])) == Some([b0])
  {
    var s := Encode([b0]);
    assert s[..4] == s && s[4..] == [];
    SymbolRoundTrip(b0 / 4);
    SymbolRoundTrip((b0 % 4) * 16);
    Pack(b0, 0, 0);
    assert DecodeQuantum(s, true) == Some([b0]);
    assert [b0] + [] == [b0];
  }

  lemma DecodeTwoBytes(b0: Byte, b1: Byte)
    ensures Decode(Encode([b0, b1])) == Some([b0, b1])
  {
    var s := Encode([b0, b1]);
    assert s[..4] == s && s[4..] == [];
    SymbolRoundTrip(b0 / 4);
    SymbolRoundTrip((b0 % 4) * 16 + b1 / 16);
    SymbolRoundTrip((b1 % 16) * 4);
    Pack(b0, b1, 0);
    assert DecodeQuantum(s, true) == Some([b0, b1]);
    assert [b0, b1] + [] == [b0, b1];
  }

  /** A full first block decodes to its three bytes ahead of the rest. */
  lemma DecodeBlockThen(b0: Byte, b1: Byte, b2: Byte, rest: seq<Byte>)
    requires Decode(Encode(rest)) == Some(rest)
    ensures Decode(Encode([b0, b1, b2] + rest)) == Some([b0, b1, b2] + rest)
  {
    var b := [b0, b1, b2] + rest;
    assert b[3..] == rest;
    var block, tail := EncodeBlock(b0, b1, b2), Encode(rest);
    var s := Encode(b);
    assert s == block + tail;
    assert s[..4] == block && s[4..] == tail;
    BlockRoundTrip(b0, b1, b2, |s| == 4);
  }

  /** A byte sequence is its first bytes followed by the rest. */
  lemma Heads(b: seq<Byte>)
    ensures |b| == 1 ==> b == [b[0]]
    ensures |b| == 2 ==> b == [b[0], b[1]]
    ensures |b| >= 3 ==> b == [b[0], b[1], b[2]] + b[3..]
  {
  }

  /** Decoding inverts encoding. */
  lemma {:induction false} DecodeEncode(b: seq<Byte>)
    ensures Decode(Encode(b)) == Some(b)
    decreases |b|
  {
    if |b| == 1 {
      DecodeOneByte(b[0]);
      Heads(b);
    } else if |b| == 2 {
      DecodeTwoBytes(b[0], b[1]);
      Heads(b);
    } else if |b| >= 3 {
      DecodeEncode(b[3..]);
      DecodeBlockThen(b[0], b[1], b[2], b[3..]);
      Heads(b);
    }
  }

  lemma QuantumCanonical(q: string, last: bool, h: seq<Byte>)
    requires |q| == 4
    requires DecodeQuantum(q, last) == Some(h)
    ensures |h| == 3 ==> EncodeBlock(h[0], h[1], h[2]) == q
    ensures |h| < 3 ==> Encode(h) == q
  {
    if |h| == 3 {
      QuantumFull(q, last, h);
    } else if |h| == 2 {
      QuantumTwo(q, last, h);
    } else {
      QuantumOne(q, last, h);
    }
  }

  lemma QuantumFull(q: string, last: bool, h: seq<Byte>)
    requires |q| == 4 && DecodeQuantum(q, last) == Some(h) && |h| == 3
    ensures EncodeBlock(h[0], h[1], h[2]) == q
  {
    var a, b := SymbolValue(q[0]).value, SymbolValue(q[1]).value;
    assert q[2] != '=' && q[3] != '=';
    var c, d := SymbolValue(q[2]).value, SymbolValue(q[3]).value;
    var a', b', c' := a as int, b as int, c as int;
    assert h[0] == a' * 4 + b' / 16 && h[1] == (b' % 16) * 16 + c' / 4 && h[2] == (c' % 4) * 64 + d;
    RepackBlock(a, b, c, d);
    assert q == [Symbol(a), Symbol(b), Symbol(c), Symbol(d)];
  }

  /** Four sextets packed as three bytes encode back to their four symbols. */
  lemma RepackBlock(a: Sextet, b: Sextet, c: Sextet, d: Sextet)
    ensures EncodeBlock(a * 4 + b / 16, (b % 16) * 16 + c / 4, (c % 4) * 64 + d)
            == [Symbol(a), Symbol(b), Symbol(c), Symbol(d)]
  {
    Unpack(a, b, c, d);
  }

  lemma QuantumTwo(q: string, last: bool, h: seq<Byte>)
    requires |q| == 4 && DecodeQuantum(q, last) == Some(h) && |h| == 2
    ensures Encode(h) == q
  {
    var a, b := SymbolValue(q[0]).value, SymbolValue(q[1]).value;
    var c := SymbolValue(q[2]).value;
    assert q[3] == '=' && c % 4 == 0;
    Unpack(a, b, c, 0);
    assert ((h[1] % 16) * 4) == c;
  }

  lemma QuantumOne(q: string, last: bool, h: seq<Byte>)
    requires |q| == 4 && DecodeQuantum(q, last) == Some(h) && |h| == 1
    ensures Encode(h) == q
  {
    var a, b := SymbolValue(q[0]).value, SymbolValue(q[1]).value;
    assert q[2] == '=' && q[3] == '=' && b % 16 == 0;
    Unpack(a, b, 0, 0);
    assert (h[0] % 4) * 16 == b;
  }

  /** Encoding inverts strict decoding: an accepted text is the encoding of
      the bytes it decodes to. */
  lemma {:induction false} EncodeDecode(s: string, b: seq<Byte>)
    requires Decode(s) == Some(b)
    ensures Encode(b) == s
    decreases |s|
  {
    if s != [] {
      var head := DecodeQuantum(s[..4], |s| == 4).value;
      var tail := Decode(s[4..]).value;
      assert b == head + tail;
      QuantumCanonical(s[..4], |s| == 4, head);
      EncodeDecode(s[4..], tail);
      if |head| == 3 {
        EncodeCons(head, tail);
        assert s == s[..4] + s[4..];
      } else {
        assert s[4..] == [];
        assert tail == [];
        assert b == head;
      }
    }
  }

  /** Encoding three bytes and then more is the block of the three, then the
      encoding of the rest. */
  lemma EncodeCons(head: seq<Byte>, tail: seq<Byte>)
    requires |head| == 3
    ensures Encode(head + tail) == EncodeBlock(head[0], head[1], head[2]) + Encode(tail)
  {
    var b := head + tail;
    assert b[0] == head[0] && b[1] == head[1] && b[2] == head[2];
    assert b[3..] == tail;
  }

  /** The strict decoder accepts exactly the encodings. */
  lemma DecodeIffEncode(s: string, b: seq<Byte>)
    ensures Decode(s) == Some(b) <==> Encode(b) == s
  {
    if Decode(s) == Some(b) {
      EncodeDecode(s, b);
    }
    if Encode(b) == s {
      DecodeEncode(b);
    }
  }

  /** Node's `toString("ascii")`: each byte with its high bit cleared. */
  function AsciiText(b: seq<Byte>): (s: string)
    ensures |s| == |b|
    ensures forall i :: 0 <= i < |b| ==> s[i] as int == b[i] % 128
  {
    seq(|b|, i requires 0 <= i < |b| => (b[i] % 128) as char)
  }

  /** Every character is 7-bit ASCII. */
  predicate IsAscii(s: string) {
    forall i :: 0 <= i < |s| ==> s[i] as int < 128
  }

  /** The bytes of a 7-bit ASCII text (a client's encoding of its credentials). */
  function AsciiBytes(s: string): (b: seq<Byte>)
    requires IsAscii(s)
    ensures AsciiText(b) == s
  {
    seq(|s|, i requires 0 <= i < |s| => s[i] as int)
  }
}

/**
  The standard base64 encoding of section 4 of RFC 4648: the 64-character
  alphabet "A-Z a-z 0-9 + /", with '=' padding so that every encoded string
  is a whole number of 4-character quanta.

  The relay encodes the push payload with this alphabet (push.go:120) and
  bounds the payload by its encoded length (push.go:148). The encoder itself
  is library code; it is written out here from the RFC so that the relay's
  promises about the payload (its length bound and that it can be decoded
  back) can be proved. The decoder is strict: it accepts exactly the strings
  the encoder can produce, so that the two are inverse to each other.
*/
module Base64 {
  import opened Wrappers

  type byte = b: int | 0 <= b < 256
  type sextet = v: int | 0 <= v < 64

  const Pad: char := '='

  /** The encoded length of n bytes with padding: 4 characters per started group of 3 bytes. */
  function EncodedLen(n: nat): (r: nat)
    ensures r % 4 == 0
    ensures n <= 3 * (r / 4) < n + 3
  {
    (n + 2) / 3 * 4
  }

  /** The character that stands for a 6-bit value (table 1 of RFC 4648). */
  function Char(v: sextet): (c: char)
    ensures c != Pad
  {
    if v < 26 then (v + 'A' as int) as char
    else if v < 52 then (v - 26 + 'a' as int) as char
    else if v < 62 then (v - 52 + '0' as int) as char
    else if v == 62 then '+'
    else '/'
  }

  /** The 6-bit value a character stands for, or None when it is outside the alphabet. */
  function Value(c: char): (r: Option<sextet>)
    ensures r.Some? ==> Char(r.value) == c
  {
    if 'A' <= c <= 'Z' then Some(c as int - 'A' as int)
    else if 'a' <= c <= 'z' then Some(c as int - 'a' as int + 26)
    else if '0' <= c <= '9' then Some(c as int - '0' as int + 52)
    else if c == '+' then Some(62)
    else if c == '/' then Some(63)
    else None
  }

  lemma ValueOfChar(v: sextet)
    ensures Value(Char(v)) == Some(v)
  {
  }

  predicate InAlphabet(c: char) {
    Value(c).Some?
  }

  /** The four characters for three bytes: the 24 bits split into four 6-bit groups. */
  function EncodeTriple(b0: byte, b1: byte, b2: byte): (q: string)
    ensures |q| == 4
  {
    [Char(b0 / 4), Char(b0 % 4 * 16 + b1 / 16), Char(b1 % 16 * 4 + b2 / 64), Char(b2 % 64)]
  }

  /** Encodes a byte sequence, padding the final quantum when the length is not a multiple of 3. */
  function Encode(b: seq<byte>): (s: string)
    ensures |s| == EncodedLen(|b|)
    decreases |b|
  {
    if |b| == 0 then []
    else if |b| == 1 then [Char(b[0] / 4), Char(b[0] % 4 * 16), Pad, Pad]
    else if |b| == 2 then [Char(b[0] / 4), Char(b[0] % 4 * 16 + b[1] / 16), Char(b[1] % 16 * 4), Pad]
    else EncodeTriple(b[0], b[1], b[2]) + Encode(b[3..])
  }

  /**
    Decodes one quantum of four characters. Padding is accepted only in the
    final quantum, and only with the unused low bits zero, as the encoder
    leaves them.
  */
  function DecodeQuantum(q: string, last: bool): Option<seq<byte>>
    requires |q| == 4
  {
    if !InAlphabet(q[0]) || !InAlphabet(q[1]) then None
    else
      var v0, v1 := Value(q[0]).value, Value(q[1]).value;
      if q[2] == Pad && q[3] == Pad then
        if last && v1 % 16 == 0 then Some([v0 * 4 + v1 / 16]) else None
      else if !InAlphabet(q[2]) then None
      else
        var v2 := Value(q[2]).value;
        if q[3] == Pad then
          if last && v2 % 4 == 0 then Some([v0 * 4 + v1 / 16, v1 % 16 * 16 + v2 / 4]) else None
        else if !InAlphabet(q[3]) then None
        else
          var v3 := Value(q[3]).value;
          Some([v0 * 4 + v1 / 16, v1 % 16 * 16 + v2 / 4, v2 % 4 * 64 + v3])
  }

  /** Decodes a padded base64 string, or None when it is not the encoding of any byte sequence. */
  function Decode(s: string): Option<seq<byte>>
    decreases |s|
  {
    if |s| == 0 then Some([])
    else if |s| < 4 then None
    else
      match DecodeQuantum(s[..4], |s| == 4)
      case None => None
      case Some(head) =>
        match Decode(s[4..])
        case None => None
        case Some(tail) => Some(head + tail)
  }

  lemma TripleRoundTrip(b0: byte, b1: byte, b2: byte)
    ensures DecodeQuantum(EncodeTriple(b0, b1, b2), false) == Some([b0, b1, b2])
  {
    ValueOfChar(b0 / 4);
    ValueOfChar(b0 % 4 * 16 + b1 / 16);
    ValueOfChar(b1 % 16 * 4 + b2 / 64);
    ValueOfChar(b2 % 64);
  }

  lemma OneByteRoundTrip(b0: byte)
    ensures Decode(Encode([b0])) == Some([b0])
  {
    var s := Encode([b0]);
    ValueOfChar(b0 / 4);
    ValueOfChar(b0 % 4 * 16);
    assert |s| == 4 && s[..4] == s;
    assert DecodeQuantum(s[..4], true) == Some([b0]);
    assert Decode(s[4..]) == Some([]);
    assert [b0] + [] == [b0];
  }

  lemma TwoBytesRoundTrip(b0: byte, b1: byte)
    ensures Decode(Encode([b0, b1])) == Some([b0, b1])
  {
    var s := Encode([b0, b1]);
    ValueOfChar(b0 / 4);
    ValueOfChar(b0 % 4 * 16 + b1 / 16);
    ValueOfChar(b1 % 16 * 4);
    assert |s| == 4 && s[..4] == s;
    assert DecodeQuantum(s[..4], true) == Some([b0, b1]);
    assert Decode(s[4..]) == Some([]);
    assert [b0, b1] + [] == [b0, b1];
  }

  /** Decoding an encoding gives back the original bytes (the round trip of RFC 4648, section 4). */
  lemma {:induction false} DecodeEncode(b: seq<byte>)
    ensures Decode(Encode(b)) == Some(b)
    decreases |b|
  {
    if |b| == 0 {
    } else if |b| == 1 {
      assert b == [b[0]];
      OneByteRoundTrip(b[0]);
    } else if |b| == 2 {
      assert b == [b[0], b[1]];
      TwoBytesRoundTrip(b[0], b[1]);
    } else {
      var s := Encode(b);
      var t := Encode(b[3..]);
      assert s == EncodeTriple(b[0], b[1], b[2]) + t;
      assert s[..4] == EncodeTriple(b[0], b[1], b[2]);
      assert s[4..] == t;
      TripleRoundTrip(b[0], b[1], b[2]);
      DecodeEncode(b[3..]);
      assert [b[0], b[1], b[2]] + b[3..] == b;
    }
  }

  /** Every string the decoder accepts is the encoding of what it decodes to. */
  lemma {:induction false} EncodeDecode(s: string)
    requires Decode(s).Some?
    ensures Encode(Decode(s).value) == s
    decreases |s|
  {
    if |s| == 0 {
    } else {
      var q := s[..4];
      var head := DecodeQuantum(q, |s| == 4).value;
      var tail := Decode(s[4..]).value;
      QuantumReencodes(q, |s| == 4);
      EncodeDecode(s[4..]);
      assert Decode(s).value == head + tail;
      if |head| == 3 {
        assert head + tail == [head[0], head[1], head[2]] + tail;
        assert (head + tail)[3..] == tail;
        assert s == q + s[4..];
      } else {
        assert |s| == 4;
        assert s[4..] == [];
        assert head + tail == head;
      }
    }
  }

  /** Regrouping four 6-bit values into bytes and back gives the same values. */
  lemma Regroup(v0: sextet, v1: sextet, v2: sextet, v3: sextet)
    ensures 0 <= v0 * 4 + v1 / 16 < 256
    ensures 0 <= v1 % 16 * 16 + v2 / 4 < 256
    ensures 0 <= v2 % 4 * 64 + v3 < 256
    ensures (v0 * 4 + v1 / 16) / 4 == v0
    ensures (v0 * 4 + v1 / 16) % 4 * 16 + (v1 % 16 * 16 + v2 / 4) / 16 == v1
    ensures (v1 % 16 * 16 + v2 / 4) % 16 * 4 + (v2 % 4 * 64 + v3) / 64 == v2
    ensures (v2 % 4 * 64 + v3) % 64 == v3
  {
  }

  lemma FullQuantumReencodes(q: string, last: bool)
    requires |q| == 4
    requires q[2] != Pad && q[3] != Pad
    requires DecodeQuantum(q, last).Some?
    ensures var h := DecodeQuantum(q, last).value;
      |h| == 3 && EncodeTriple(h[0], h[1], h[2]) == q
  {
    var v0: int, v1: int, v2: int, v3: int := Value(q[0]).value, Value(q[1]).value, Value(q[2]).value, Value(q[3]).value;
    Regroup(v0, v1, v2, v3);
    var h := DecodeQuantum(q, last).value;
    assert h == [v0 * 4 + v1 / 16, v1 % 16 * 16 + v2 / 4, v2 % 4 * 64 + v3];
    assert EncodeTriple(h[0], h[1], h[2]) == [Char(v0), Char(v1), Char(v2), Char(v3)];
  }

  lemma OnePadReencodes(q: string, last: bool)
    requires |q| == 4
    requires q[2] != Pad && q[3] == Pad
    requires DecodeQuantum(q, last).Some?
    ensures last
    ensures var h := DecodeQuantum(q, last).value;
      |h| == 2 && Encode(h) == q
  {
    var v0: int, v1: int, v2: int := Value(q[0]).value, Value(q[1]).value, Value(q[2]).value;
    Regroup(v0, v1, v2, 0);
    var h := DecodeQuantum(q, last).value;
    assert h == [v0 * 4 + v1 / 16, v1 % 16 * 16 + v2 / 4];
    assert Encode(h) == [Char(v0), Char(v1), Char(v2), Pad];
  }

  lemma TwoPadsReencode(q: string, last: bool)
    requires |q| == 4
    requires q[2] == Pad && q[3] == Pad
    requires DecodeQuantum(q, last).Some?
    ensures last
    ensures var h := DecodeQuantum(q, last).value;
      |h| == 1 && Encode(h) == q
  {
    var v0: int, v1: int := Value(q[0]).value, Value(q[1]).value;
    Regroup(v0, v1, 0, 0);
    var h := DecodeQuantum(q, last).value;
    assert h == [v0 * 4 + v1 / 16];
    assert Encode(h) == [Char(v0), Char(v1), Pad, Pad];
  }

  lemma QuantumReencodes(q: string, last: bool)
    requires |q| == 4
    requires DecodeQuantum(q, last).Some?
    ensures var h := DecodeQuantum(q, last).value;
      && 1 <= |h| <= 3
      && (|h| < 3 ==> last)
      && (|h| == 3 ==> EncodeTriple(h[0], h[1], h[2]) == q)
      && (|h| < 3 ==> Encode(h) == q)
  {
    if q[2] == Pad && q[3] == Pad {
      TwoPadsReencode(q, last);
    } else if q[3] == Pad {
      OnePadReencodes(q, last);
    } else {
      FullQuantumReencodes(q, last);
    }
  }

  /** A string is accepted by the decoder exactly when it is the encoding of some bytes. */
  lemma DecodeIffEncoding(s: string, b: seq<byte>)
    ensures Decode(s) == Some(b) <==> s == Encode(b)
  {
    if s == Encode(b) {
      DecodeEncode(b);
    }
    if Decode(s) == Some(b) {
      EncodeDecode(s);
    }
  }

  /** The relay's bound on the encoded payload, 4000 characters, admits exactly the payloads of at most 3000 bytes. */
  lemma EncodedLenBound(n: nat)
    ensures EncodedLen(n) > 4000 <==> n > 3000
  {
  }

  /**
    The test vectors of section 10 of RFC 4648, and two that use the last two
    characters of the standard alphabet, '+' and '/' (where the URL-safe
    alphabet of section 5 would give '-' and '_').
  */
  lemma StandardVectors()
    ensures Encode([]) == ""
    ensures Encode([102]) == "Zg=="
    ensures Encode([102, 111]) == "Zm8="
    ensures Encode([102, 111, 111]) == "Zm9v"
    ensures Encode([102, 111, 111, 98, 97, 114]) == "Zm9vYmFy"
    ensures Encode([251, 255]) == "+/8="
    ensures Encode([248]) == "+A=="
  {
    assert [102, 111, 111, 98, 97, 114][3..] == [98, 97, 114];
  }
}

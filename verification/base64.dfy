/**
  Base 64 encoding as in section 4 of RFC 4648 (the alphabet `A-Z a-z 0-9 + /`
  with `=` padding), which is what the platform's `btoa` produces, together with
  a decoder used to state that the encoding loses nothing.
 */
module Base64 {
  import opened Errors

  type byte = x: int | 0 <= x < 256

  /** A 6-bit group, the value one output character carries. */
  type sextet = x: int | 0 <= x < 64

  /** The character for a 6-bit value (Table 1 of RFC 4648). */
  function Digit(v: sextet): (c: char)
    ensures IsDigit(c)
  {
    if v < 26 then (65 + v) as char
    else if v < 52 then (97 + v - 26) as char
    else if v < 62 then (48 + v - 52) as char
    else if v == 62 then '+'
    else '/'
  }

  /** The 64 characters of the alphabet; padding `=` is not one of them. */
  predicate IsDigit(c: char) {
    ('A' <= c <= 'Z') || ('a' <= c <= 'z') || ('0' <= c <= '9') || c == '+' || c == '/'
  }

  /** The value an alphabet character stands for. */
  function Val(c: char): (v: sextet)
    requires IsDigit(c)
    ensures Digit(v) == c
  {
    if 'A' <= c <= 'Z' then c as int - 65
    else if 'a' <= c <= 'z' then c as int - 97 + 26
    else if '0' <= c <= '9' then c as int - 48 + 52
    else if c == '+' then 62
    else 63
  }

  /** `Digit` is injective: each value has its own character. */
  lemma ValOfDigit(v: sextet)
    ensures Val(Digit(v)) == v
  {
  }

  /**
    Encodes a byte string. Every three bytes become four characters; a final
    group of one or two bytes is encoded with zero bits appended and padded
    with `=` to four characters.
   */
  function Encode(b: seq<byte>): (e: string)
    ensures |b| == 0 <==> |e| == 0
    ensures forall i :: 0 <= i < |e| ==> IsDigit(e[i]) || e[i] == '='
    ensures forall i :: 0 <= i < |e| - 2 ==> IsDigit(e[i])
    decreases |b|
  {
    if |b| == 0 then []
    else if |b| == 1 then
      var c := Sextets(b[0], 0, 0);
      [Digit(c.0), Digit(c.1), '=', '=']
    else if |b| == 2 then
      var c := Sextets(b[0], b[1], 0);
      [Digit(c.0), Digit(c.1), Digit(c.2), '=']
    else
      var q := Quad(Sextets(b[0], b[1], b[2]));
      var rest := Encode(b[3..]);
      assert forall i :: 4 <= i < 4 + |rest| ==> (q + rest)[i] == rest[i - 4];
      q + rest
  }

  /** Four characters for every started group of three bytes. */
  lemma {:induction false} EncodeLength(b: seq<byte>)
    ensures |Encode(b)| == 4 * ((|b| + 2) / 3)
    ensures |Encode(b)| % 4 == 0
    decreases |b|
  {
    if |b| > 2 {
      var rest := Encode(b[3..]);
      EncodeLength(b[3..]);
      assert Encode(b) == Quad(Sextets(b[0], b[1], b[2])) + rest;
      GroupArithmetic(|b[3..]|, |rest|);
    }
  }

  /** The encoding ends in `=` exactly when the last group is short. */
  lemma {:induction false} EncodePadding(b: seq<byte>)
    ensures var e := Encode(b); |b| % 3 != 0 <==> (|e| > 0 && e[|e| - 1] == '=')
    decreases |b|
  {
    if |b| > 2 {
      var e := Encode(b);
      var rest := Encode(b[3..]);
      EncodePadding(b[3..]);
      assert e == Quad(Sextets(b[0], b[1], b[2])) + rest;
      GroupArithmetic(|b[3..]|, |rest|);
      assert |rest| > 0 ==> e[|e| - 1] == rest[|rest| - 1];
    }
  }

  /** One more group of three bytes adds four characters and keeps both remainders. */
  lemma GroupArithmetic(n: nat, m: nat)
    ensures (n + 3) % 3 == n % 3
    ensures (n + 3 + 2) / 3 == (n + 2) / 3 + 1
    ensures (m + 4) % 4 == m % 4
  {
  }

  /** The four characters of a full group. */
  function Quad(c: (sextet, sextet, sextet, sextet)): (q: string)
    ensures |q| == 4 && forall i :: 0 <= i < 4 ==> IsDigit(q[i])
  {
    [Digit(c.0), Digit(c.1), Digit(c.2), Digit(c.3)]
  }

  /** The first byte of a group, from its first two 6-bit values. */
  function Byte0(c0: sextet, c1: sextet): byte {
    assert c1 / 16 < 4;
    c0 * 4 + c1 / 16
  }

  /** The second byte of a group, from its second and third 6-bit values. */
  function Byte1(c1: sextet, c2: sextet): byte {
    assert c1 % 16 < 16 && c2 / 4 < 16;
    (c1 % 16) * 16 + c2 / 4
  }

  /** The third byte of a group, from its last two 6-bit values. */
  function Byte2(c2: sextet, c3: sextet): byte {
    (c2 % 4) * 64 + c3
  }

  /**
    Decodes padded Base 64. Characters outside the alphabet, a length that is
    not a multiple of four, padding anywhere but the end, and non-zero pad
    bits in a final short group (section 3.5 of RFC 4648) are rejected.
   */
  function Decode(s: string): (r: Option<seq<byte>>)
    decreases |s|
  {
    if |s| == 0 then Some([])
    else if |s| < 4 then None
    else if |s| == 4 && s[2] == '=' && s[3] == '=' then
      if IsDigit(s[0]) && IsDigit(s[1]) && Val(s[1]) % 16 == 0 then
        Some([Byte0(Val(s[0]), Val(s[1]))])
      else None
    else if |s| == 4 && s[3] == '=' then
      if IsDigit(s[0]) && IsDigit(s[1]) && IsDigit(s[2]) && Val(s[2]) % 4 == 0 then
        Some([Byte0(Val(s[0]), Val(s[1])), Byte1(Val(s[1]), Val(s[2]))])
      else None
    else if IsDigit(s[0]) && IsDigit(s[1]) && IsDigit(s[2]) && IsDigit(s[3]) then
      match Decode(s[4..])
      case None => None
      case Some(rest) =>
        assert |s| == |s[4..]| + 4;
        Some(Triple(s[0], s[1], s[2], s[3]) + rest)
    else None
  }

  /** The three bytes of a full group of four alphabet characters. */
  function Triple(c0: char, c1: char, c2: char, c3: char): seq<byte>
    requires IsDigit(c0) && IsDigit(c1) && IsDigit(c2) && IsDigit(c3)
  {
    [Byte0(Val(c0), Val(c1)), Byte1(Val(c1), Val(c2)), Byte2(Val(c2), Val(c3))]
  }

  /** The 6-bit values of a group of three bytes, most significant bits first. */
  function Sextets(b0: byte, b1: byte, b2: byte): (c: (sextet, sextet, sextet, sextet))
  {
    assert (b0 % 4) * 16 + b1 / 16 < 64;
    assert (b1 % 16) * 4 + b2 / 64 < 64;
    (b0 / 4, (b0 % 4) * 16 + b1 / 16, (b1 % 16) * 4 + b2 / 64, b2 % 64)
  }

  /** The bytes of a group are recovered from its 6-bit values. */
  lemma GroupBytes(b0: byte, b1: byte, b2: byte)
    ensures var c := Sextets(b0, b1, b2);
      Byte0(c.0, c.1) == b0 && Byte1(c.1, c.2) == b1 && Byte2(c.2, c.3) == b2
  {
    var c := Sextets(b0, b1, b2);
    assert c.1 / 16 == b0 % 4;
    assert c.1 % 16 == b1 / 16;
    assert c.2 / 4 == b1 % 16;
    assert c.2 % 4 == b2 / 64;
  }

  /** Decoding undoes encoding, for every byte string. */
  lemma {:induction false} DecodeEncode(b: seq<byte>)
    ensures Decode(Encode(b)) == Some(b)
    decreases |b|, 1
  {
    if |b| == 0 {
    } else if |b| == 1 {
      ShortGroup1(b);
    } else if |b| == 2 {
      ShortGroup2(b);
    } else {
      FullGroup(b);
    }
  }

  /** `DecodeEncode` for a single byte. */
  lemma ShortGroup1(b: seq<byte>)
    requires |b| == 1
    ensures Decode(Encode(b)) == Some(b)
  {
    var c := Sextets(b[0], 0, 0);
    assert Encode(b) == [Digit(c.0), Digit(c.1), '=', '='];
    ValOfDigit(c.0);
    ValOfDigit(c.1);
    PadBitsZero(b[0], 0);
    DecodeSingle(Digit(c.0), Digit(c.1));
    GroupBytes(b[0], 0, 0);
    assert b == [b[0]];
  }

  /** `DecodeEncode` for two bytes. */
  lemma ShortGroup2(b: seq<byte>)
    requires |b| == 2
    ensures Decode(Encode(b)) == Some(b)
  {
    var c := Sextets(b[0], b[1], 0);
    assert Encode(b) == [Digit(c.0), Digit(c.1), Digit(c.2), '='];
    ValOfDigit(c.0);
    ValOfDigit(c.1);
    ValOfDigit(c.2);
    PadBitsZero(b[0], b[1]);
    DecodePair(Digit(c.0), Digit(c.1), Digit(c.2));
    GroupBytes(b[0], b[1], 0);
    assert b == [b[0], b[1]];
  }

  /** A final group of one byte: two characters and two `=`. */
  lemma DecodeSingle(c0: char, c1: char)
    requires IsDigit(c0) && IsDigit(c1) && Val(c1) % 16 == 0
    ensures Decode([c0, c1, '=', '=']) == Some([Byte0(Val(c0), Val(c1))])
  {
  }

  /** A final group of two bytes: three characters and one `=`. */
  lemma DecodePair(c0: char, c1: char, c2: char)
    requires IsDigit(c0) && IsDigit(c1) && IsDigit(c2) && Val(c2) % 4 == 0
    ensures Decode([c0, c1, c2, '=']) == Some([Byte0(Val(c0), Val(c1)), Byte1(Val(c1), Val(c2))])
  {
  }

  /** The inductive step of `DecodeEncode`: a full group of three bytes. */
  lemma {:induction false} FullGroup(b: seq<byte>)
    requires |b| >= 3
    ensures Decode(Encode(b)) == Some(b)
    decreases |b|, 0
  {
    var c := Sextets(b[0], b[1], b[2]);
    var rest := Encode(b[3..]);
    var e := Encode(b);
    assert e == Quad(c) + rest;
    assert e[..4] == [Digit(c.0), Digit(c.1), Digit(c.2), Digit(c.3)];
    assert e[4..] == rest;
    DecodeEncode(b[3..]);
    assert Decode(e) == Some(Triple(e[0], e[1], e[2], e[3]) + b[3..]);
    assert Triple(e[0], e[1], e[2], e[3]) == [b[0], b[1], b[2]] by {
      ValOfDigit(c.0);
      ValOfDigit(c.1);
      ValOfDigit(c.2);
      ValOfDigit(c.3);
      GroupBytes(b[0], b[1], b[2]);
    }
    SplitGroup(b);
  }

  /** A short final group leaves its unused low bits zero. */
  lemma PadBitsZero(b0: byte, b1: byte)
    ensures Sextets(b0, 0, 0).1 % 16 == 0
    ensures Sextets(b0, b1, 0).2 % 4 == 0
  {
    assert Sextets(b0, 0, 0).1 == (b0 % 4) * 16;
    assert Sextets(b0, b1, 0).2 == (b1 % 16) * 4;
  }

  /** The 6-bit values of a group are recovered from its bytes. */
  lemma GroupSextets(v0: sextet, v1: sextet, v2: sextet, v3: sextet)
    ensures Sextets(Byte0(v0, v1), Byte1(v1, v2), Byte2(v2, v3)) == (v0, v1, v2, v3)
  {
    var b0, b1, b2 := Byte0(v0, v1), Byte1(v1, v2), Byte2(v2, v3);
    assert b0 / 4 == v0 && b0 % 4 == v1 / 16;
    assert b1 / 16 == v1 % 16 && b1 % 16 == v2 / 4;
    assert b2 / 64 == v2 % 4 && b2 % 64 == v3;
  }

  /** The 6-bit values of a two-byte group with zero pad bits are recovered from its bytes. */
  lemma PairSextets(v0: sextet, v1: sextet, v2: sextet)
    requires v2 % 4 == 0
    ensures var c := Sextets(Byte0(v0, v1), Byte1(v1, v2), 0); c.0 == v0 && c.1 == v1 && c.2 == v2
  {
    var b0, b1 := Byte0(v0, v1), Byte1(v1, v2);
    assert b0 / 4 == v0 && b0 % 4 == v1 / 16;
    assert b1 / 16 == v1 % 16 && b1 % 16 == v2 / 4;
  }

  /** The 6-bit values of a one-byte group with zero pad bits are recovered from its byte. */
  lemma SingleSextets(v0: sextet, v1: sextet)
    requires v1 % 16 == 0
    ensures var c := Sextets(Byte0(v0, v1), 0, 0); c.0 == v0 && c.1 == v1
  {
    var b0 := Byte0(v0, v1);
    assert b0 / 4 == v0 && b0 % 4 == v1 / 16;
  }

  /** Re-encoding the three bytes of a full group gives back its four characters. */
  lemma QuadOfTriple(c0: char, c1: char, c2: char, c3: char)
    requires IsDigit(c0) && IsDigit(c1) && IsDigit(c2) && IsDigit(c3)
    ensures var t := Triple(c0, c1, c2, c3); Quad(Sextets(t[0], t[1], t[2])) == [c0, c1, c2, c3]
  {
    GroupSextets(Val(c0), Val(c1), Val(c2), Val(c3));
  }

  /** Re-encoding the byte of a one-byte final group with zero pad bits gives back its text. */
  lemma EncodeSingle(c0: char, c1: char)
    requires IsDigit(c0) && IsDigit(c1) && Val(c1) % 16 == 0
    ensures Encode([Byte0(Val(c0), Val(c1))]) == [c0, c1, '=', '=']
  {
    SingleSextets(Val(c0), Val(c1));
  }

  /** Re-encoding the bytes of a two-byte final group with zero pad bits gives back its text. */
  lemma EncodePair(c0: char, c1: char, c2: char)
    requires IsDigit(c0) && IsDigit(c1) && IsDigit(c2) && Val(c2) % 4 == 0
    ensures Encode([Byte0(Val(c0), Val(c1)), Byte1(Val(c1), Val(c2))]) == [c0, c1, c2, '=']
  {
    PairSextets(Val(c0), Val(c1), Val(c2));
  }

  /**
    Encoding undoes decoding: a text the decoder accepts is exactly the
    encoding of what it decodes to. With `DecodeEncode`, the two are inverse
    bijections between byte strings and canonical Base 64.
   */
  lemma {:induction false} EncodeDecode(s: string)
    requires Decode(s).Some?
    ensures Encode(Decode(s).value) == s
    decreases |s|
  {
    var b := Decode(s).value;
    if |s| == 0 {
    } else if |s| == 4 && s[2] == '=' && s[3] == '=' {
      assert s == [s[0], s[1], '=', '='];
      EncodeSingle(s[0], s[1]);
    } else if |s| == 4 && s[3] == '=' {
      assert s == [s[0], s[1], s[2], '='];
      EncodePair(s[0], s[1], s[2]);
    } else {
      var rest := Decode(s[4..]).value;
      EncodeDecode(s[4..]);
      var t := Triple(s[0], s[1], s[2], s[3]);
      assert b == t + rest;
      assert b[0] == t[0] && b[1] == t[1] && b[2] == t[2] && b[3..] == rest;
      QuadOfTriple(s[0], s[1], s[2], s[3]);
      assert Encode(b) == s[..4] + Encode(rest);
      assert s == s[..4] + s[4..];
    }
  }

  /**
    Distinct texts the decoder accepts never decode to the same bytes: each
    byte string has exactly one Base 64 text, the one `Encode` gives.
   */
  lemma DecodeInjective(s: string, t: string)
    requires Decode(s).Some? && Decode(s) == Decode(t)
    ensures s == t
  {
    EncodeDecode(s);
    EncodeDecode(t);
  }

  /** A byte string of three or more bytes is its first group followed by the rest. */
  lemma SplitGroup(b: seq<byte>)
    requires |b| >= 3
    ensures b == [b[0], b[1], b[2]] + b[3..]
  {
  }

  /** Two byte strings with the same encoding are the same byte string. */
  lemma EncodeInjective(a: seq<byte>, b: seq<byte>)
    requires Encode(a) == Encode(b)
    ensures a == b
  {
    DecodeEncode(a);
    DecodeEncode(b);
  }

  /** Every character is at most U+00FF, so `btoa` accepts the string. */
  predicate IsLatin1(s: string) {
    forall i :: 0 <= i < |s| ==> s[i] as int < 256
  }

  /**
    The bytes `btoa` sees: one per character, which must be at most U+00FF;
    any other character makes `btoa` throw.
   */
  function Latin1(s: string): (r: Result<seq<byte>>)
    ensures r.Ok? <==> IsLatin1(s)
    ensures r.Ok? ==> |r.value| == |s| && forall i :: 0 <= i < |s| ==> r.value[i] == s[i] as int
    ensures r.Err? ==> r.error == InvalidCharacter
    decreases |s|
  {
    if |s| == 0 then Ok([])
    else if s[0] as int >= 256 then Err(InvalidCharacter)
    else
      match Latin1(s[1..])
      case Err(e) => Err(e)
      case Ok(rest) => Ok([s[0] as int] + rest)
  }

  /** The platform's `btoa`: Base 64 of the Latin-1 bytes of a string. */
  function Btoa(s: string): (r: Result<string>)
    ensures r.Ok? <==> IsLatin1(s)
    ensures r.Ok? ==> Decode(r.value) == Some(Latin1(s).value)
  {
    match Latin1(s)
    case Err(e) => Err(e)
    case Ok(bytes) => DecodeEncode(bytes); Ok(Encode(bytes))
  }

  /** `btoa` is injective on the strings it accepts. */
  lemma BtoaInjective(s: string, t: string)
    requires Btoa(s).Ok? && Btoa(t).Ok?
    requires Btoa(s).value == Btoa(t).value
    ensures s == t
  {
    EncodeInjective(Latin1(s).value, Latin1(t).value);
    var a := Latin1(s).value;
    assert |s| == |t|;
    forall i | 0 <= i < |s|
      ensures s[i] == t[i]
    {
      assert a[i] == s[i] as int;
    }
  }

  /** A worked example: the byte 0x5D encodes as `XQ==`. */
  lemma EncodeBracket()
    ensures Encode([93]) == "XQ=="
  {
    assert 93 / 4 == 23 && 93 % 4 == 1 && 0 / 16 == 0;
    var c := Sextets(93, 0, 0);
    assert c.0 == 23 && c.1 == 16;
    assert Digit(23) == 'X' && Digit(16) == 'Q';
  }
}

/**
UTF-8 as section 3 of RFC 3629 lays it out, and the strict incremental decoder: it holds back the bytes of an
unfinished character and refuses a byte as soon as no character can continue that way.
*/
module Utf8 {
  import opened Prelude

  function EncodeChar(c: char): (r: seq<byte>)
    ensures 1 <= |r| <= 4
  {
    var n := c as int;
    if n < 0x80 then [n]
    else if n < 0x800 then [0xC0 + n / 64, 0x80 + n % 64]
    else if n < 0x10000 then [0xE0 + n / 4096, 0x80 + n / 64 % 64, 0x80 + n % 64]
    else [0xF0 + n / 262144, 0x80 + n / 4096 % 64, 0x80 + n / 64 % 64, 0x80 + n % 64]
  }

  function Encode(s: string): (r: seq<byte>) {
    if s == "" then [] else EncodeChar(s[0]) + Encode(s[1..])
  }

  lemma {:induction false} EncodeAppend(s: string, t: string)
    ensures Encode(s + t) == Encode(s) + Encode(t)
  {
    hide EncodeChar;
    if s == "" {
      assert s + t == t;
    } else {
      EncodeAppend(s[1..], t);
      assert (s + t)[1..] == s[1..] + t;
      assert Encode(s + t) == EncodeChar(s[0]) + Encode(s[1..] + t);
    }
  }

  lemma {:induction false} EncodeLength(s: string)
    ensures |s| <= |Encode(s)| <= 4 * |s|
  {
    if s != "" { EncodeLength(s[1..]); }
  }

  // ---------- the decoder ----------

  /** What a run of held-back bytes is: a whole character, the start of one, or malformed. */
  datatype Shape = Char(c: char) | More | Bad

  predicate Continuation(b: byte) { 0x80 <= b <= 0xBF }

  /** The second byte allowed after a leading byte of a three- or four-byte character. */
  predicate SecondByte(lead: byte, b: byte) {
    if lead == 0xE0 then 0xA0 <= b <= 0xBF
    else if lead == 0xED then 0x80 <= b <= 0x9F
    else if lead == 0xF0 then 0x90 <= b <= 0xBF
    else if lead == 0xF4 then 0x80 <= b <= 0x8F
    else Continuation(b)
  }

  lemma DivMod64(a: int, b: int)
    requires 0 <= b < 64
    ensures (a * 64 + b) / 64 == a && (a * 64 + b) % 64 == b
  {
  }

  /** The character of a two-, three- or four-byte form. */
  function Two(a: int, b: int): (c: char)
    requires 0xC2 <= a <= 0xDF && 0x80 <= b <= 0xBF
    ensures EncodeChar(c) == [a, b]
  {
    DivMod64(a - 0xC0, b - 0x80);
    ((a - 0xC0) * 64 + (b - 0x80)) as char
  }

  function Three(a: int, b: int, c: int): (r: char)
    requires 0xE0 <= a <= 0xEF && 0 <= b < 256 && SecondByte(a, b) && 0x80 <= c <= 0xBF
    ensures EncodeChar(r) == [a, b, c]
  {
    var hi := (a - 0xE0) * 64 + (b - 0x80);
    DivMod64(a - 0xE0, b - 0x80);
    DivMod64(hi, c - 0x80);
    assert (hi * 64 + (c - 0x80)) / 4096 == hi / 64;
    (hi * 64 + (c - 0x80)) as char
  }

  function Four(a: int, b: int, c: int, d: int): (r: char)
    requires 0xF0 <= a <= 0xF4 && 0 <= b < 256 && SecondByte(a, b) && 0x80 <= c <= 0xBF && 0x80 <= d <= 0xBF
    ensures EncodeChar(r) == [a, b, c, d]
  {
    var hi := (a - 0xF0) * 64 + (b - 0x80);
    var mid := hi * 64 + (c - 0x80);
    DivMod64(a - 0xF0, b - 0x80);
    DivMod64(hi, c - 0x80);
    DivMod64(mid, d - 0x80);
    assert (mid * 64 + (d - 0x80)) / 4096 == mid / 64;
    assert (mid * 64 + (d - 0x80)) / 262144 == hi / 64;
    (mid * 64 + (d - 0x80)) as char
  }

  function Classify(buf: seq<byte>): (r: Shape) {
    if buf == [] then More
    else
      var lead := buf[0];
      if lead < 0x80 then (if |buf| == 1 then Char(lead as char) else Bad)
      else if 0xC2 <= lead <= 0xDF then
        if |buf| == 1 then More
        else if |buf| == 2 && Continuation(buf[1]) then Char(Two(lead, buf[1]))
        else Bad
      else if 0xE0 <= lead <= 0xEF then
        if |buf| == 1 then More
        else if !SecondByte(lead, buf[1]) then Bad
        else if |buf| == 2 then More
        else if |buf| == 3 && Continuation(buf[2]) then
          Char(Three(lead, buf[1], buf[2]))
        else Bad
      else if 0xF0 <= lead <= 0xF4 then
        if |buf| == 1 then More
        else if !SecondByte(lead, buf[1]) then Bad
        else if |buf| == 2 then More
        else if !Continuation(buf[2]) then Bad
        else if |buf| == 3 then More
        else if |buf| == 4 && Continuation(buf[3]) then
          Char(Four(lead, buf[1], buf[2], buf[3]))
        else Bad
      else Bad
  }

  lemma ClassifyIsEncode(buf: seq<byte>)
    ensures Classify(buf).Char? ==> EncodeChar(Classify(buf).c) == buf
  {
  }

  lemma EncodeIsClassified(c: char, k: nat)
    requires k <= |EncodeChar(c)|
    ensures Classify(EncodeChar(c)[..k]) == if k == |EncodeChar(c)| then Char(c) else More
  {
    hide Classify, EncodeChar;
    if c as int < 0x800 {
      ShortIsClassified(c, k);
    } else if c as int < 0x10000 {
      ThreeAreClassified(c, k);
    } else {
      FourAreClassified(c, k);
    }
  }

  lemma ShortIsClassified(c: char, k: nat)
    requires k <= |EncodeChar(c)| && c as int < 0x800
    ensures Classify(EncodeChar(c)[..k]) == if k == |EncodeChar(c)| then Char(c) else More
  {
    Sextets(c as int);
  }

  lemma ThreeAreClassified(c: char, k: nat)
    requires k <= |EncodeChar(c)| && 0x800 <= c as int < 0x10000
    ensures Classify(EncodeChar(c)[..k]) == if k == |EncodeChar(c)| then Char(c) else More
  {
    Sextets(c as int);
  }

  lemma FourAreClassified(c: char, k: nat)
    requires k <= |EncodeChar(c)| && 0x10000 <= c as int
    ensures Classify(EncodeChar(c)[..k]) == if k == |EncodeChar(c)| then Char(c) else More
  {
    Sextets(c as int);
  }

  lemma Sextets(n: nat)
    ensures n / 64 / 64 == n / 4096 && n / 4096 / 64 == n / 262144
    ensures n == n / 64 * 64 + n % 64
    ensures n / 64 == n / 4096 * 64 + n / 64 % 64
    ensures n / 4096 == n / 262144 * 64 + n / 4096 % 64
  {
  }

  /** Text out and bytes held back after some input, or the point of no return. */
  datatype Decoded = Decoded(text: string, held: seq<byte>) | Malformed

  /** `decoder.decode(bytes, final=False)` with `held` already waiting. */
  function Decode(held: seq<byte>, bytes: seq<byte>): (r: Decoded)
    decreases |bytes|
  {
    if bytes == [] then Decoded("", held)
    else match Classify(held + [bytes[0]])
      case Bad => Malformed
      case More => Decode(held + [bytes[0]], bytes[1..])
      case Char(c) => Prepend(c, Decode([], bytes[1..]))
  }

  function Prepend(c: char, d: Decoded): (r: Decoded) {
    match d
    case Malformed => Malformed
    case Decoded(text, held) => Decoded([c] + text, held)
  }

  /** The bytes of a whole stream as text; None when they are not UTF-8. */
  function DecodeAll(bytes: seq<byte>): (r: Option<string>) {
    match Decode([], bytes)
    case Malformed => None
    case Decoded(text, held) => if held == [] then Some(text) else None
  }

  function Chain(first: Decoded, bytes: seq<byte>): (r: Decoded) {
    match first
    case Malformed => Malformed
    case Decoded(text, held) => match Decode(held, bytes)
                                case Malformed => Malformed
                                case Decoded(more, rest) => Decoded(text + more, rest)
  }

  /** Decoding chunk by chunk is decoding the concatenation. */
  lemma {:induction false} DecodeSplit(held: seq<byte>, a: seq<byte>, b: seq<byte>)
    ensures Decode(held, a + b) == Chain(Decode(held, a), b)
    decreases |a|
  {
    if a == [] {
      assert a + b == b;
    } else {
      assert (a + b)[1..] == a[1..] + b;
      match Classify(held + [a[0]])
      case Bad =>
      case More => DecodeSplit(held + [a[0]], a[1..], b);
      case Char(c) => DecodeSplit([], a[1..], b);
    }
  }

  /** The decoder has read exactly the encoding of its output and what it holds back. */
  lemma {:induction false} DecodeReads(held: seq<byte>, bytes: seq<byte>)
    requires Decode(held, bytes).Decoded?
    ensures held + bytes == Encode(Decode(held, bytes).text) + Decode(held, bytes).held
    decreases |bytes|
  {
    if bytes == [] {
    } else {
      var next := held + [bytes[0]];
      assert held + bytes == next + bytes[1..];
      match Classify(next)
      case More => DecodeReads(next, bytes[1..]);
      case Char(c) =>
        ClassifyIsEncode(next);
        DecodeReads([], bytes[1..]);
        var text := Decode([], bytes[1..]).text;
        assert ([c] + text)[1..] == text;
        assert [] + bytes[1..] == bytes[1..];
        assert Encode([c] + text) == next + Encode(text);
    }
  }

  lemma {:induction false} DecodeRestOfChar(c: char, k: nat, rest: seq<byte>)
    requires k < |EncodeChar(c)|
    ensures Decode(EncodeChar(c)[..k], EncodeChar(c)[k..] + rest) == Prepend(c, Decode([], rest))
    decreases |EncodeChar(c)| - k
  {
    var e := EncodeChar(c);
    var bytes := e[k..] + rest;
    assert e[..k] + [bytes[0]] == e[..k + 1];
    assert bytes[1..] == e[k + 1..] + rest;
    EncodeIsClassified(c, k + 1);
    if k + 1 < |e| {
      DecodeRestOfChar(c, k + 1, rest);
    } else {
      assert e[..k + 1] == e && e[k + 1..] + rest == rest;
    }
  }

  lemma {:induction false} DecodeEncoded(s: string)
    ensures Decode([], Encode(s)) == Decoded(s, [])
  {
    if s != "" {
      DecodeEncoded(s[1..]);
      var e := EncodeChar(s[0]);
      DecodeRestOfChar(s[0], 0, Encode(s[1..]));
      assert e[..0] == [] && e[0..] + Encode(s[1..]) == Encode(s);
      assert Decode([], Encode(s)) == Prepend(s[0], Decode([], Encode(s[1..])));
      assert [s[0]] + s[1..] == s;
    }
  }

  /** Decoding succeeds with text s exactly on the encoding of s. */
  lemma DecodeIffEncoded(bytes: seq<byte>, s: string)
    ensures DecodeAll(bytes) == Some(s) <==> bytes == Encode(s)
  {
    if DecodeAll(bytes) == Some(s) {
      DecodeReads([], bytes);
      assert [] + bytes == bytes && Encode(s) + [] == Encode(s);
    }
    if bytes == Encode(s) {
      DecodeEncoded(s);
    }
  }
}

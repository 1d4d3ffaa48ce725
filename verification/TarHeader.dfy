/** The octal fields and checksum of a TAR header block, as the frame consumer reads them. */
module TarHeader {
  import opened Prelude

  const TAR_BLOCK_BYTES := 512
  const SPACE: byte := 32
  const NUL: byte := 0

  predicate IsOctalDigit(b: byte) { 48 <= b <= 55 }

  predicate IsPadding(b: byte) { b == NUL || b == SPACE }

  predicate AllSpaces(s: seq<byte>) { forall i :: 0 <= i < |s| ==> s[i] == SPACE }

  predicate AllPadding(s: seq<byte>) { forall i :: 0 <= i < |s| ==> IsPadding(s[i]) }

  predicate AllOctal(s: seq<byte>) { forall i :: 0 <= i < |s| ==> IsOctalDigit(s[i]) }

  function OctalValue(digits: seq<byte>): (n: nat)
    requires AllOctal(digits)
  {
    if digits == [] then 0 else 8 * OctalValue(digits[..|digits| - 1]) + (digits[|digits| - 1] - 48)
  }

  /** The length of the longest prefix of s made of spaces. */
  function SpaceRun(s: seq<byte>): (n: nat)
    ensures n <= |s| && AllSpaces(s[..n]) && (n < |s| ==> s[n] != SPACE)
  {
    if s == [] || s[0] != SPACE then 0 else 1 + SpaceRun(s[1..])
  }

  /** The length of the longest prefix of s made of octal digits. */
  function DigitRun(s: seq<byte>): (n: nat)
    ensures n <= |s| && AllOctal(s[..n]) && (n < |s| ==> !IsOctalDigit(s[n]))
  {
    if s == [] || !IsOctalDigit(s[0]) then 0 else 1 + DigitRun(s[1..])
  }

  /** Leading spaces, at least one octal digit, then only NULs and spaces; anything else is no number. */
  function ParseOctal(field: seq<byte>): (r: Option<nat>) {
    var i := SpaceRun(field);
    var d := DigitRun(field[i..]);
    if d == 0 || !AllPadding(field[i + d..]) then None else Some(OctalValue(field[i..][..d]))
  }

  /** field is `spaces digits padding` and the digits denote n. */
  ghost predicate OctalField(field: seq<byte>, spaces: seq<byte>, digits: seq<byte>, padding: seq<byte>) {
    field == spaces + digits + padding && AllSpaces(spaces) && AllOctal(digits) && digits != [] && AllPadding(padding)
  }

  /** The scan accepts exactly the fields of the grammar, with the value their digits denote. */
  lemma ParseOctalIsTheGrammar(field: seq<byte>, n: nat)
    ensures ParseOctal(field) == Some(n)
       <==> exists s, d, p :: OctalField(field, s, d, p) && OctalValue(d) == n
  {
    var i := SpaceRun(field);
    var k := DigitRun(field[i..]);
    if ParseOctal(field) == Some(n) {
      assert field[i..][..k] + field[i + k..] == field[i..];
      assert OctalField(field, field[..i], field[i..][..k], field[i + k..]);
    }
    forall s, d, p | OctalField(field, s, d, p)
      ensures ParseOctal(field) == Some(OctalValue(d))
    {
      ScanFinds(s, d, p);
    }
  }

  lemma {:induction false} SpaceRunOf(s: seq<byte>, rest: seq<byte>)
    requires AllSpaces(s) && (rest == [] || rest[0] != SPACE)
    ensures SpaceRun(s + rest) == |s|
  {
    if s == [] {
      assert s + rest == rest;
    } else {
      SpaceRunOf(s[1..], rest);
      assert (s + rest)[1..] == s[1..] + rest;
    }
  }

  lemma {:induction false} DigitRunOf(d: seq<byte>, rest: seq<byte>)
    requires AllOctal(d) && (rest == [] || !IsOctalDigit(rest[0]))
    ensures DigitRun(d + rest) == |d|
  {
    if d == [] {
      assert d + rest == rest;
    } else {
      DigitRunOf(d[1..], rest);
      assert (d + rest)[1..] == d[1..] + rest;
    }
  }

  lemma ScanFinds(s: seq<byte>, d: seq<byte>, p: seq<byte>)
    requires AllSpaces(s) && AllOctal(d) && d != [] && AllPadding(p)
    ensures ParseOctal(s + d + p) == Some(OctalValue(d))
  {
    var field := s + d + p;
    assert field == s + (d + p);
    SpaceRunOf(s, d + p);
    assert field[|s|..] == d + p;
    DigitRunOf(d, p);
    assert (d + p)[..|d|] == d && field[|s| + |d|..] == p;
  }

  /** Print n as exactly width octal digits, most significant first. */
  function PrintOctal(n: nat, width: nat): (s: seq<byte>)
    ensures |s| == width && AllOctal(s)
  {
    if width == 0 then [] else PrintOctal(n / 8, width - 1) + [48 + n % 8]
  }

  function Pow8(k: nat): (p: nat)
    ensures p >= 1
  {
    if k == 0 then 1 else 8 * Pow8(k - 1)
  }

  lemma {:induction false} PrintedValue(n: nat, width: nat)
    requires n < Pow8(width)
    ensures OctalValue(PrintOctal(n, width)) == n
  {
    if width > 0 {
      PrintedValue(n / 8, width - 1);
      var s := PrintOctal(n, width);
      assert s[..width - 1] == PrintOctal(n / 8, width - 1);
    }
  }

  /** Printing and parsing an octal field undo each other, whatever legal padding surrounds the digits. */
  lemma OctalRoundTrip(n: nat, width: nat, before: seq<byte>, after: seq<byte>)
    requires 0 < width && n < Pow8(width) && AllSpaces(before) && AllPadding(after)
    ensures ParseOctal(before + PrintOctal(n, width) + after) == Some(n)
  {
    PrintedValue(n, width);
    ScanFinds(before, PrintOctal(n, width), after);
  }

  lemma {:induction false} OctalValueBound(digits: seq<byte>)
    requires AllOctal(digits)
    ensures OctalValue(digits) < Pow8(|digits|)
  {
    if digits != [] {
      OctalValueBound(digits[..|digits| - 1]);
    }
  }

  lemma {:induction false} ReprintedDigits(digits: seq<byte>)
    requires AllOctal(digits)
    ensures PrintOctal(OctalValue(digits), |digits|) == digits
  {
    if digits != [] {
      var front := digits[..|digits| - 1];
      ReprintedDigits(front);
      assert OctalValue(digits) / 8 == OctalValue(front);
    }
  }

  function Sum(s: seq<byte>): (total: nat) {
    if s == [] then 0 else s[0] + Sum(s[1..])
  }

  lemma {:induction false} SumBound(s: seq<byte>)
    ensures Sum(s) <= 255 * |s|
  {
    if s != [] { SumBound(s[1..]); }
  }

  /** The sum over the block with the eight checksum bytes counted as spaces. */
  function HeaderSum(block: seq<byte>): (total: nat)
    requires |block| == TAR_BLOCK_BYTES
  {
    Sum(block[..148]) + 8 * 32 + Sum(block[156..])
  }

  predicate ChecksumIsValid(block: seq<byte>) {
    |block| == TAR_BLOCK_BYTES && ParseOctal(block[148..156]) == Some(HeaderSum(block))
  }

  /** A sum of bytes is additive, and the byte itself on one byte. */
  lemma {:induction false} SumAppend(a: seq<byte>, b: seq<byte>)
    ensures Sum(a + b) == Sum(a) + Sum(b)
    ensures forall x: byte :: Sum([x]) == x as int
  {
    if a == [] {
      assert a + b == b;
    } else {
      SumAppend(a[1..], b);
      assert (a + b)[1..] == a[1..] + b;
    }
  }

  lemma {:induction false} SpacesSum(n: nat)
    ensures Sum(seq(n, _ => SPACE)) == 32 * n
  {
    if n > 0 {
      SpacesSum(n - 1);
      assert seq(n, _ => SPACE)[1..] == seq(n - 1, _ => SPACE);
    }
  }

  /** The block with its checksum field blanked out. */
  function Blanked(block: seq<byte>): (r: seq<byte>)
    requires |block| == TAR_BLOCK_BYTES
    ensures |r| == TAR_BLOCK_BYTES
    ensures forall i :: 0 <= i < |r| ==> r[i] == if 148 <= i < 156 then SPACE else block[i]
  {
    block[..148] + seq(8, _ => SPACE) + block[156..]
  }

  /** A checksum verifies exactly when the field holds the sum of all bytes of the block with that field blanked. */
  lemma ChecksumIsTheBlankedSum(block: seq<byte>)
    requires |block| == TAR_BLOCK_BYTES
    ensures ChecksumIsValid(block) <==> ParseOctal(block[148..156]) == Some(Sum(Blanked(block)))
  {
    SumAppend(block[..148] + seq(8, _ => SPACE), block[156..]);
    SumAppend(block[..148], seq(8, _ => SPACE));
    SpacesSum(8);
  }

  /** The usual way a writer stores the checksum: the sum of the blanked block in six octal digits, a NUL, a space. */
  function WithChecksum(block: seq<byte>): (r: seq<byte>)
    requires |block| == TAR_BLOCK_BYTES
    ensures |r| == TAR_BLOCK_BYTES
  {
    block[..148] + PrintOctal(Sum(Blanked(block)), 6) + [NUL, SPACE] + block[156..]
  }

  /** Every header's checksum fits six octal digits, and a header carrying it verifies, its other bytes untouched. */
  lemma WrittenChecksumVerifies(block: seq<byte>)
    requires |block| == TAR_BLOCK_BYTES
    ensures Sum(Blanked(block)) < Pow8(6)
    ensures ChecksumIsValid(WithChecksum(block))
    ensures WithChecksum(block)[..148] == block[..148] && WithChecksum(block)[156..] == block[156..]
  {
    hide ChecksumIsValid;
    var total := Sum(Blanked(block));
    SumBound(Blanked(block));
    assert Pow8(6) == 262144 by { assert Pow8(3) == 512; assert Pow8(4) == 4096; assert Pow8(5) == 32768; }
    var r := WithChecksum(block);
    assert r[148..156] == [] + PrintOctal(total, 6) + [NUL, SPACE];
    OctalRoundTrip(total, 6, [], [NUL, SPACE]);
    assert r[..148] == block[..148] && r[156..] == block[156..];
    assert Blanked(r) == Blanked(block);
    ChecksumIsTheBlankedSum(r);
  }

  function Zeros(n: nat): (s: seq<byte>)
    ensures |s| == n && forall i :: 0 <= i < n ==> s[i] == 0
  {
    seq(n, _ => 0)
  }

  /** An all-zero block never verifies, so the end-of-archive marker cannot be mistaken for a header. */
  lemma ZeroBlockIsNoHeader()
    ensures !ChecksumIsValid(Zeros(TAR_BLOCK_BYTES))
  {
    var field := Zeros(TAR_BLOCK_BYTES)[148..156];
    assert field[0] == 0;
    assert SpaceRun(field) == 0;
    assert field[0..] == field;
    assert DigitRun(field) == 0;
  }
}

/** The names the four volume patterns take: a stem, a marker in either case, a number of some width, and a tail. */
module VolumeNames {
  import opened Prelude
  import opened Text
  import opened Volumes

  /** s spells the lower-case text, each letter in either case. */
  predicate Spells(s: string, text: string) {
    |s| == |text| && forall i :: 0 <= i < |s| ==>
      s[i] == text[i] || ('a' <= text[i] <= 'z' && s[i] as int + 32 == text[i] as int)
  }

  /** name is the stem, the marker, the number and the tail, and nothing else. */
  predicate Composed(name: string, stem: string, marker: string, number: string, tail: string) {
    name == stem + marker + number + tail && stem != "" && AllDigits(number)
  }

  /** What the name of a volume is made of. */
  ghost predicate IsVolumeName(pattern: Pattern, name: string, stem: string, number: string) {
    exists marker, tail :: Composed(name, stem, marker, number, tail) && MadeFor(pattern, marker, number, tail)
  }

  predicate MadeFor(pattern: Pattern, marker: string, number: string, tail: string) {
    match pattern
    case NewRar => Spells(marker, ".part") && 1 <= |number| <= 6 && Spells(tail, ".rar")
    case OldRarPart => Spells(marker, ".r") && |number| == 2 && tail == ""
    case SevenZPart => Spells(marker, ".7z.") && 3 <= |number| <= 6 && tail == ""
    case SplitZipPart => Spells(marker, ".z") && |number| == 2 && tail == ""
  }

  lemma LowerIs(c: char, t: char)
    requires !('A' <= t <= 'Z')
    ensures LowerAscii(c) == t <==> c == t || ('a' <= t <= 'z' && c as int + 32 == t as int)
  {
  }

  lemma EndsInIffSpells(s: string, front: string, end: string, text: string)
    requires s == front + end && |end| == |text|
    requires forall i :: 0 <= i < |text| ==> !('A' <= text[i] <= 'Z')
    ensures EndsIn(s, text) <==> Spells(end, text)
  {
    hide LowerAscii;
    forall i | 0 <= i < |text|
      ensures s[|s| - |text| + i] == end[i]
      ensures LowerAscii(end[i]) == text[i]
         <==> end[i] == text[i] || ('a' <= text[i] <= 'z' && end[i] as int + 32 == text[i] as int)
    {
      LowerIs(end[i], text[i]);
    }
  }

  lemma DigitRunSnoc(s: string, c: char)
    ensures DigitRun(s + [c]) == if IsDigit(c) then 1 + DigitRun(s) else 0
  {
    var t := s + [c];
    assert t[|t| - 1] == c && t[..|t| - 1] == s;
  }

  lemma {:induction false} DigitRunIs(front: string, digits: string)
    requires AllDigits(digits) && (front == "" || !IsDigit(front[|front| - 1]))
    ensures DigitRun(front + digits) == |digits|
    decreases |digits|
  {
    hide DigitRun;
    if digits != "" {
      var fewer, last := digits[..|digits| - 1], digits[|digits| - 1];
      DigitRunIs(front, fewer);
      DigitRunSnoc(front + fewer, last);
      assert front + digits == front + fewer + [last];
    } else {
      assert front + digits == front;
      NoDigitRun(front);
    }
  }

  lemma NoDigitRun(front: string)
    requires front == "" || !IsDigit(front[|front| - 1])
    ensures DigitRun(front) == 0
  {
    if front != "" {
      DigitRunSnoc(front[..|front| - 1], front[|front| - 1]);
      assert front == front[..|front| - 1] + [front[|front| - 1]];
    }
  }

  /** A base is numbered exactly when it is a stem, the marker and enough digits, and in one way only. */
  lemma NumberedIffComposed(base: string, marker: string, least: nat, most: nat, stem: string, number: string)
    requires marker in {".part", ".r", ".7z.", ".z"}
    ensures Numbered(base, marker, least, most) == Some(Part(stem, number))
       <==> least <= |number| <= most && exists m :: Spells(m, marker) && Composed(base, stem, m, number, "")
  {
    hide EndsIn, Spells, DigitRun;
    if Numbered(base, marker, least, most) == Some(Part(stem, number)) {
      SplitsBase(base, marker, least, most, stem, number);
    }
    if least <= |number| <= most {
      if m :| Spells(m, marker) && Composed(base, stem, m, number, "") {
        ComposesBase(base, marker, least, most, stem, m, number);
      }
    }
  }

  lemma MarkersAreLower(marker: string)
    requires marker in {".part", ".r", ".7z.", ".z", ".rar"}
    ensures forall i :: 0 <= i < |marker| ==> !('A' <= marker[i] <= 'Z')
    ensures marker != "" && !IsDigit(marker[|marker| - 1])
  {
  }

  lemma SplitsBase(base: string, marker: string, least: nat, most: nat, stem: string, number: string)
    requires marker in {".part", ".r", ".7z.", ".z"}
    requires Numbered(base, marker, least, most) == Some(Part(stem, number))
    ensures least <= |number| <= most && exists m :: Spells(m, marker) && Composed(base, stem, m, number, "")
  {
    hide EndsIn, Spells, DigitRun;
    var front := base[..|base| - DigitRun(base)];
    var m := front[|front| - |marker|..];
    assert front == stem + m && base == front + number;
    MarkersAreLower(marker);
    EndsInIffSpells(front, stem, m, marker);
    assert base == stem + m + number + "";
    assert Composed(base, stem, m, number, "");
  }

  lemma LastIsNoDigit(m: string, marker: string)
    requires Spells(m, marker) && marker in {".part", ".r", ".7z.", ".z"}
    ensures m != "" && !IsDigit(m[|m| - 1])
  {
    MarkersAreLower(marker);
  }

  lemma ComposesBase(base: string, marker: string, least: nat, most: nat, stem: string, m: string, number: string)
    requires marker in {".part", ".r", ".7z.", ".z"} && least <= |number| <= most
    requires Spells(m, marker) && Composed(base, stem, m, number, "")
    ensures Numbered(base, marker, least, most) == Some(Part(stem, number))
  {
    hide EndsIn, DigitRun;
    LastIsNoDigit(m, marker);
    var front := stem + m;
    assert front[|front| - 1] == m[|m| - 1];
    assert base == front + number;
    DigitRunIs(front, number);
    MarkersAreLower(marker);
    EndsInIffSpells(front, stem, m, marker);
    assert base[..|base| - |number|] == front && base[|base| - |number|..] == number;
    assert front[..|front| - |marker|] == stem;
  }

  /** A pattern takes a name with this stem and number exactly when the name is made of them. */
  lemma MatchIsTheGrammar(pattern: Pattern, name: string, stem: string, number: string)
    ensures Match(pattern, name) == Some(Part(stem, number)) <==> IsVolumeName(pattern, name, stem, number)
  {
    hide EndsIn, Spells, Numbered;
    match pattern
    case NewRar => NewRarIsTheGrammar(name, stem, number);
    case OldRarPart => PartIsTheGrammar(pattern, ".r", 2, 2, name, stem, number);
    case SevenZPart => PartIsTheGrammar(pattern, ".7z.", 3, 6, name, stem, number);
    case SplitZipPart => PartIsTheGrammar(pattern, ".z", 2, 2, name, stem, number);
  }

  lemma PartIsTheGrammar(pattern: Pattern, marker: string, least: nat, most: nat, name: string, stem: string,
                         number: string)
    requires (pattern == OldRarPart && marker == ".r" && least == most == 2)
             || (pattern == SevenZPart && marker == ".7z." && least == 3 && most == 6)
             || (pattern == SplitZipPart && marker == ".z" && least == most == 2)
    ensures Numbered(name, marker, least, most) == Some(Part(stem, number))
       <==> IsVolumeName(pattern, name, stem, number)
  {
    hide EndsIn, Spells, Numbered;
    NumberedIffComposed(name, marker, least, most, stem, number);
    if m :| Spells(m, marker) && Composed(name, stem, m, number, "") && least <= |number| <= most {
      assert MadeFor(pattern, m, number, "");
    }
    if m, tail :| Composed(name, stem, m, number, tail) && MadeFor(pattern, m, number, tail) {
      assert Composed(name, stem, m, number, "");
    }
  }

  lemma NewRarIsTheGrammar(name: string, stem: string, number: string)
    ensures Match(NewRar, name) == Some(Part(stem, number)) <==> IsVolumeName(NewRar, name, stem, number)
  {
    hide EndsIn, Spells, Numbered;
    if Match(NewRar, name) == Some(Part(stem, number)) {
      LongEnough(name);
      var base, tail := name[..|name| - 4], name[|name| - 4..];
      assert name == base + tail;
      MarkersAreLower(".rar");
      EndsInIffSpells(name, base, tail, ".rar");
      NumberedIffComposed(base, ".part", 1, 6, stem, number);
      var m :| Spells(m, ".part") && Composed(base, stem, m, number, "");
      assert name == stem + m + number + tail;
      assert MadeFor(NewRar, m, number, tail) && Composed(name, stem, m, number, tail);
    }
    if m, tail :| Composed(name, stem, m, number, tail) && MadeFor(NewRar, m, number, tail) {
      TailIsFour(tail);
      var base := stem + m + number;
      assert name == base + tail && name[..|name| - 4] == base;
      MarkersAreLower(".rar");
      EndsInIffSpells(name, base, tail, ".rar");
      assert Composed(base, stem, m, number, "");
      NumberedIffComposed(base, ".part", 1, 6, stem, number);
    }
  }

  lemma LongEnough(name: string)
    requires EndsIn(name, ".rar")
    ensures |name| >= 4
  {
  }

  lemma TailIsFour(tail: string)
    requires Spells(tail, ".rar")
    ensures |tail| == 4
  {
  }

  /** What a pattern knows of a name is the stem, the width and the number it is made of. */
  lemma NameSays(pattern: Pattern, name: string, stem: string, number: string)
    requires IsVolumeName(pattern, name, stem, number)
    ensures Matches(pattern, name) && StemOf(pattern, name) == stem && WidthOf(pattern, name) == |number|
    ensures AllDigits(number) && NumberOf(pattern, name) == DecimalValue(number)
  {
    hide Match, IsVolumeName;
    MatchIsTheGrammar(pattern, name, stem, number);
  }

  /** A name that is not made for a pattern does not match it. */
  lemma OthersDoNotMatch(pattern: Pattern, name: string)
    requires forall stem, number :: !IsVolumeName(pattern, name, stem, number)
    ensures !Matches(pattern, name)
  {
    hide Match, IsVolumeName;
    if Matches(pattern, name) {
      var p := Match(pattern, name).value;
      MatchIsTheGrammar(pattern, name, p.stem, p.number);
    }
  }
}

/**
Cutting one object member out of a JSON text without parsing it: find the quoted name, then match braces outside
strings. The scan is proved to stop exactly at the end of the object for every JSON object that can follow (RFC 8259).
*/
module JsonScan {
  import opened Prelude

  const QUOTE: byte := 0x22
  const BACKSLASH: byte := 0x5C
  const LEFT_BRACE: byte := 0x7B
  const RIGHT_BRACE: byte := 0x7D
  const COLON: byte := 0x3A
  const COMMA: byte := 0x2C
  const LEFT_BRACKET: byte := 0x5B
  const RIGHT_BRACKET: byte := 0x5D

  predicate IsBlank(b: byte) { b == 0x20 || b == 0x09 || b == 0x0D || b == 0x0A }

  // ---------- JSON texts ----------

  /** A character of a string: any byte but a quote or a backslash, or an escape. */
  datatype Item = Plain(b: byte) | Escape(b: byte) {
    predicate Valid() { Plain? ==> b != QUOTE && b != BACKSLASH }
  }

  type Text = items: seq<Item> | forall i :: 0 <= i < |items| ==> items[i].Valid()

  /** White space as section 2 of RFC 8259 has it. */
  type Blank = bytes: seq<byte> | forall i :: 0 <= i < |bytes| ==> bytes[i] in {0x20, 0x09, 0x0D, 0x0A}

  predicate Structural(b: byte) { b == QUOTE || b == LEFT_BRACE || b == RIGHT_BRACE }

  /** A number or a literal name: no byte in it is a quote or a brace. */
  type Scalar = bytes: seq<byte> | forall i :: 0 <= i < |bytes| ==> !Structural(bytes[i])

  /** A value with the white space around it. */
  datatype Spaced = Spaced(before: Blank, value: Value, after: Blank)

  datatype Member = Member(before: Blank, name: Text, after: Blank, value: Spaced)

  datatype Value = ScalarValue(text: Scalar) | StringValue(chars: Text)
                 | Array(inner: Blank, elements: seq<Spaced>) | Object(inner: Blank, members: seq<Member>)

  function PrintItems(items: seq<Item>): (r: seq<byte>) {
    if items == [] then []
    else (match items[0] case Plain(b) => [b] case Escape(b) => [BACKSLASH, b]) + PrintItems(items[1..])
  }

  function PrintString(items: seq<Item>): (r: seq<byte>) { [QUOTE] + PrintItems(items) + [QUOTE] }

  function PrintSpaced(s: Spaced): (r: seq<byte>)
    decreases s, 0
  {
    s.before + Print(s.value) + s.after
  }

  function PrintMember(m: Member): (r: seq<byte>)
    decreases m, 0
  {
    m.before + PrintString(m.name) + m.after + [COLON] + PrintSpaced(m.value)
  }

  function PrintElements(elements: seq<Spaced>): (r: seq<byte>)
    decreases elements, 0
  {
    if elements == [] then []
    else if |elements| == 1 then PrintSpaced(elements[0])
    else PrintSpaced(elements[0]) + [COMMA] + PrintElements(elements[1..])
  }

  function PrintMembers(members: seq<Member>): (r: seq<byte>)
    decreases members, 0
  {
    if members == [] then []
    else if |members| == 1 then PrintMember(members[0])
    else PrintMember(members[0]) + [COMMA] + PrintMembers(members[1..])
  }

  /** A JSON value as text; `inner` is the white space of an empty array or object. */
  function Print(v: Value): (r: seq<byte>)
    decreases v, 1
  {
    match v
    case ScalarValue(text) => text
    case StringValue(chars) => PrintString(chars)
    case Array(inner, elements) =>
      [LEFT_BRACKET] + (if elements == [] then inner else PrintElements(elements)) + [RIGHT_BRACKET]
    case Object(inner, members) =>
      [LEFT_BRACE] + (if members == [] then inner else PrintMembers(members)) + [RIGHT_BRACE]
  }

  // ---------- the scan ----------

  datatype State = State(depth: int, inString: bool, escaped: bool)

  datatype Outcome = Closed(length: nat) | Open(state: State)

  function StepByte(s: State, b: byte): (q: State) {
    if s.inString then
      if s.escaped then s.(escaped := false)
      else if b == BACKSLASH then s.(escaped := true)
      else if b == QUOTE then s.(inString := false)
      else s
    else if b == QUOTE then s.(inString := true)
    else if b == LEFT_BRACE then s.(depth := s.depth + 1)
    else if b == RIGHT_BRACE then s.(depth := s.depth - 1)
    else s
  }

  /** This byte is the closing brace that brings the depth to zero. */
  predicate Closes(s: State, b: byte) { !s.inString && b == RIGHT_BRACE && s.depth == 1 }

  /** The scan of bytes from a state: the length up to and including the closing brace, or the state at the end. */
  function Scan(s: State, bytes: seq<byte>): (o: Outcome)
    ensures o.Closed? ==> 0 < o.length <= |bytes|
    decreases |bytes|
  {
    if bytes == [] then Open(s)
    else if Closes(s, bytes[0]) then Closed(1)
    else Shift(Scan(StepByte(s, bytes[0]), bytes[1..]), 1)
  }

  function Shift(o: Outcome, n: nat): (r: Outcome) {
    match o
    case Closed(k) => Closed(k + n)
    case Open(_) => o
  }

  function Then(o: Outcome, rest: seq<byte>, n: nat): (r: Outcome) {
    match o
    case Closed(_) => o
    case Open(s) => Shift(Scan(s, rest), n)
  }

  lemma {:induction false} ScanAppend(s: State, a: seq<byte>, b: seq<byte>)
    ensures Scan(s, a + b) == Then(Scan(s, a), b, |a|)
    decreases |a|
  {
    if a == [] {
      assert a + b == b;
    } else {
      assert (a + b)[1..] == a[1..] + b;
      ScanAppend(StepByte(s, a[0]), a[1..], b);
    }
  }

  function Inside(depth: int): (s: State) { State(depth, false, false) }

  /** Bytes that leave a scan inside some braces where it was. */
  ghost predicate Neutral(bytes: seq<byte>) { forall d :: d >= 1 ==> Scan(Inside(d), bytes) == Open(Inside(d)) }

  lemma NeutralAppend(a: seq<byte>, b: seq<byte>)
    requires Neutral(a) && Neutral(b)
    ensures Neutral(a + b)
  {
    forall d | d >= 1 ensures Scan(Inside(d), a + b) == Open(Inside(d)) {
      ScanAppend(Inside(d), a, b);
      assert Scan(Inside(d), a) == Open(Inside(d)) && Scan(Inside(d), b) == Open(Inside(d));
    }
  }

  lemma {:induction false} PlainIsNeutral(bytes: seq<byte>)
    requires forall i :: 0 <= i < |bytes| ==> !Structural(bytes[i])
    ensures Neutral(bytes)
    decreases |bytes|
  {
    if bytes != [] {
      PlainIsNeutral(bytes[1..]);
      forall d | d >= 1 ensures Scan(Inside(d), bytes) == Open(Inside(d)) {
        assert Scan(Inside(d), bytes[1..]) == Open(Inside(d));
      }
    }
  }

  lemma {:induction false} ItemsStayInside(d: int, items: Text)
    requires d >= 1
    ensures Scan(State(d, true, false), PrintItems(items)) == Open(State(d, true, false))
    decreases |items|
  {
    if items != [] {
      var rest: Text := items[1..];
      assert items[0].Valid();
      ItemsStayInside(d, rest);
      match items[0]
      case Plain(b) =>
        assert (([b] + PrintItems(rest))[1..]) == PrintItems(rest);
      case Escape(b) =>
        assert (([BACKSLASH, b] + PrintItems(rest))[1..]) == [b] + PrintItems(rest);
        assert (([b] + PrintItems(rest))[1..]) == PrintItems(rest);
    }
  }

  lemma StringIsNeutral(items: Text)
    ensures Neutral(PrintString(items))
  {
    forall d | d >= 1 ensures Scan(Inside(d), PrintString(items)) == Open(Inside(d)) {
      var body, q := PrintItems(items), [QUOTE];
      ItemsStayInside(d, items);
      ScanAppend(State(d, true, false), body, q);
      assert q[1..] == [] && StepByte(State(d, true, false), q[0]) == Inside(d);
      assert Scan(Inside(d), []) == Open(Inside(d));
      assert Scan(State(d, true, false), q) == Open(Inside(d));
      assert PrintString(items)[1..] == body + q && PrintString(items)[0] == QUOTE;
    }
  }

  lemma BlankIsNeutral(bytes: Blank)
    ensures Neutral(bytes)
  {
    PlainIsNeutral(bytes);
  }

  lemma SpacedIsNeutral(s: Spaced)
    ensures Neutral(PrintSpaced(s))
    decreases s, 0
  {
    hide Neutral;
    BlankIsNeutral(s.before);
    BlankIsNeutral(s.after);
    ValueIsNeutral(s.value);
    NeutralAppend(s.before, Print(s.value));
    NeutralAppend(s.before + Print(s.value), s.after);
  }

  lemma MemberIsNeutral(m: Member)
    ensures Neutral(PrintMember(m))
    decreases m, 0
  {
    hide Neutral;
    BlankIsNeutral(m.before);
    StringIsNeutral(m.name);
    BlankIsNeutral(m.after);
    PlainIsNeutral([COLON]);
    SpacedIsNeutral(m.value);
    NeutralAppend(m.before, PrintString(m.name));
    NeutralAppend(m.before + PrintString(m.name), m.after);
    NeutralAppend(m.before + PrintString(m.name) + m.after, [COLON]);
    NeutralAppend(m.before + PrintString(m.name) + m.after + [COLON], PrintSpaced(m.value));
  }

  lemma {:induction false} ElementsAreNeutral(elements: seq<Spaced>)
    ensures Neutral(PrintElements(elements))
    decreases elements, 0
  {
    hide Neutral;
    if elements == [] {
      PlainIsNeutral([]);
    } else {
      SpacedIsNeutral(elements[0]);
      if |elements| > 1 {
        ElementsAreNeutral(elements[1..]);
        PlainIsNeutral([COMMA]);
        NeutralAppend(PrintSpaced(elements[0]), [COMMA]);
        NeutralAppend(PrintSpaced(elements[0]) + [COMMA], PrintElements(elements[1..]));
      }
    }
  }

  lemma {:induction false} MembersAreNeutral(members: seq<Member>)
    ensures Neutral(PrintMembers(members))
    decreases members, 0
  {
    hide Neutral;
    if members == [] {
      PlainIsNeutral([]);
    } else {
      MemberIsNeutral(members[0]);
      if |members| > 1 {
        MembersAreNeutral(members[1..]);
        PlainIsNeutral([COMMA]);
        NeutralAppend(PrintMember(members[0]), [COMMA]);
        NeutralAppend(PrintMember(members[0]) + [COMMA], PrintMembers(members[1..]));
      }
    }
  }

  function Inner(inner: Blank, members: seq<Member>): (r: seq<byte>) {
    if members == [] then inner else PrintMembers(members)
  }

  lemma BracedIsNeutral(body: seq<byte>)
    requires Neutral(body)
    ensures Neutral([LEFT_BRACE] + body + [RIGHT_BRACE])
  {
    forall d | d >= 1 ensures Scan(Inside(d), [LEFT_BRACE] + body + [RIGHT_BRACE]) == Open(Inside(d)) {
      var close := [RIGHT_BRACE];
      assert Scan(Inside(d + 1), body) == Open(Inside(d + 1));
      ScanAppend(Inside(d + 1), body, close);
      assert close[1..] == [] && StepByte(Inside(d + 1), close[0]) == Inside(d);
      assert Scan(Inside(d), []) == Open(Inside(d));
      assert Scan(Inside(d + 1), close) == Open(Inside(d));
      assert ([LEFT_BRACE] + body + [RIGHT_BRACE])[1..] == body + close;
    }
  }

  /** Every JSON value, strings and nested objects included, leaves a scan inside braces where it was. */
  lemma {:induction false} ValueIsNeutral(v: Value)
    ensures Neutral(Print(v))
    decreases v, 1
  {
    hide Neutral;
    match v
    case ScalarValue(text) => PlainIsNeutral(text);
    case StringValue(chars) => StringIsNeutral(chars);
    case Array(inner, elements) =>
      var body := if elements == [] then inner else PrintElements(elements);
      BlankIsNeutral(inner);
      ElementsAreNeutral(elements);
      PlainIsNeutral([LEFT_BRACKET]);
      PlainIsNeutral([RIGHT_BRACKET]);
      NeutralAppend([LEFT_BRACKET], body);
      NeutralAppend([LEFT_BRACKET] + body, [RIGHT_BRACKET]);
    case Object(inner, members) =>
      BlankIsNeutral(inner);
      MembersAreNeutral(members);
      BracedIsNeutral(Inner(inner, members));
  }

  /** Whatever follows it, the scan of an object stops exactly at its end. */
  lemma ObjectCloses(inner: Blank, members: seq<Member>, rest: seq<byte>)
    ensures Scan(Inside(0), Print(Object(inner, members)) + rest) == Closed(|Print(Object(inner, members))|)
  {
    var body := Inner(inner, members);
    var tail := [RIGHT_BRACE] + rest;
    BlankIsNeutral(inner);
    MembersAreNeutral(members);
    assert Scan(Inside(1), body) == Open(Inside(1));
    ScanAppend(Inside(1), body, tail);
    assert Scan(Inside(1), tail) == Closed(1);
    assert (Print(Object(inner, members)) + rest)[1..] == body + tail;
  }

  // ---------- the extraction ----------

  predicate At(payload: seq<byte>, marker: seq<byte>, i: int) {
    0 <= i <= |payload| - |marker| && payload[i..i + |marker|] == marker
  }

  /** `payload.find(marker, from)` */
  function Find(payload: seq<byte>, marker: seq<byte>, from: nat): (r: Option<nat>)
    ensures r.Some? ==> r.value >= from && At(payload, marker, r.value)
                        && forall j :: from <= j < r.value ==> !At(payload, marker, j)
    ensures r.None? ==> forall j :: from <= j ==> !At(payload, marker, j)
    decreases |payload| - from
  {
    if from > |payload| then None
    else if At(payload, marker, from) then Some(from)
    else Find(payload, marker, from + 1)
  }

  /** The first position from i on that is not blank. */
  function SkipBlank(payload: seq<byte>, i: nat): (j: nat)
    requires i <= |payload|
    ensures i <= j <= |payload| && (forall k :: i <= k < j ==> IsBlank(payload[k]))
            && (j < |payload| ==> !IsBlank(payload[j]))
    decreases |payload| - i
  {
    if i < |payload| && IsBlank(payload[i]) then SkipBlank(payload, i + 1) else i
  }

  /** `_extract_json_object_member`, with the quoted name given; None where the code raises. */
  function Extract(payload: seq<byte>, marker: seq<byte>): (r: Option<seq<byte>>) {
    match Find(payload, marker, 0)
    case None => None
    case Some(p) =>
      if Find(payload, marker, p + |marker|).Some? then None
      else
        var colon := SkipBlank(payload, p + |marker|);
        if colon >= |payload| || payload[colon] != COLON then None
        else
          var start := SkipBlank(payload, colon + 1);
          if start >= |payload| || payload[start] != LEFT_BRACE then None
          else match Scan(Inside(0), payload[start..])
               case Open(_) => None
               case Closed(n) => Some(payload[start..start + n])
  }

  /** The brace-matching loop. */
  method ScanObject(payload: seq<byte>, start: nat) returns (r: Option<nat>)
    requires start <= |payload|
    ensures r == (match Scan(Inside(0), payload[start..]) case Open(_) => None case Closed(n) => Some(start + n))
  {
    var depth, inString, escaped := 0, false, false;
    var i := start;
    ghost var goal := Scan(Inside(0), payload[start..]);
    while i < |payload|
      invariant start <= i <= |payload|
      invariant goal == Shift(Scan(State(depth, inString, escaped), payload[i..]), i - start)
    {
      var b := payload[i];
      assert payload[i..][0] == b && payload[i..][1..] == payload[i + 1..];
      if inString {
        if escaped {
          escaped := false;
        } else if b == BACKSLASH {
          escaped := true;
        } else if b == QUOTE {
          inString := false;
        }
      } else if b == QUOTE {
        inString := true;
      } else if b == LEFT_BRACE {
        depth := depth + 1;
      } else if b == RIGHT_BRACE {
        depth := depth - 1;
        if depth == 0 {
          return Some(i + 1);
        }
      }
      i := i + 1;
    }
    return None;
  }

  method SkipBlanks(payload: seq<byte>, from: nat) returns (j: nat)
    requires from <= |payload|
    ensures j == SkipBlank(payload, from)
  {
    j := from;
    while j < |payload| && IsBlank(payload[j])
      invariant from <= j <= |payload| && SkipBlank(payload, from) == SkipBlank(payload, j)
    {
      j := j + 1;
    }
  }

  method ExtractMember(payload: seq<byte>, marker: seq<byte>) returns (r: Option<seq<byte>>)
    ensures r == Extract(payload, marker)
  {
    var found := Find(payload, marker, 0);
    if found.None? || Find(payload, marker, found.value + |marker|).Some? {
      return None;
    }
    var position := SkipBlanks(payload, found.value + |marker|);
    if position >= |payload| || payload[position] != COLON {
      return None;
    }
    var start := SkipBlanks(payload, position + 1);
    if start >= |payload| || payload[start] != LEFT_BRACE {
      return None;
    }
    var end := ScanObject(payload, start);
    return if end.Some? then Some(payload[start..end.value]) else None;
  }

  /** payload is front, the quoted name as a key, an object and the rest. */
  function Document(front: seq<byte>, marker: seq<byte>, before: Blank, after: Blank, target: seq<byte>,
                    rest: seq<byte>)
    : (r: seq<byte>)
  {
    front + marker + before + [COLON] + after + target + rest
  }

  /** The marker stands at p, not before, and not again behind it; an occurrence that overlaps the one at p is not
      seen. */
  ghost predicate OccursOnce(payload: seq<byte>, marker: seq<byte>, p: nat) {
    At(payload, marker, p) && forall j :: At(payload, marker, j) ==> p <= j < p + |marker|
  }

  lemma {:induction false} SkipsExactly(payload: seq<byte>, i: nat, n: nat)
    requires i + n < |payload| && !IsBlank(payload[i + n])
    requires forall k :: i <= k < i + n ==> IsBlank(payload[k])
    ensures SkipBlank(payload, i) == i + n
    decreases n
  {
    if n > 0 { SkipsExactly(payload, i + 1, n - 1); }
  }

  lemma DocumentParts(front: seq<byte>, marker: seq<byte>, before: Blank, after: Blank, target: seq<byte>,
                      rest: seq<byte>)
    requires target != []
    ensures var d := Document(front, marker, before, after, target, rest);
            var p := |front| + |marker|;
            var c := p + |before|;
            var s := c + 1 + |after|;
            && s < |d| && d[c] == COLON && d[s] == target[0] && d[s..] == target + rest
            && (forall k :: p <= k < c ==> IsBlank(d[k])) && (forall k :: c + 1 <= k < s ==> IsBlank(d[k]))
  {
    var d := Document(front, marker, before, after, target, rest);
    var p := |front| + |marker|;
    forall k | p <= k < p + |before| ensures IsBlank(d[k]) { assert d[k] == before[k - p]; }
    var c := p + |before|;
    forall k | c + 1 <= k < c + 1 + |after| ensures IsBlank(d[k]) { assert d[k] == after[k - c - 1]; }
  }

  lemma ExtractAt(d: seq<byte>, marker: seq<byte>, f: nat, colon: nat, start: nat, n: nat)
    requires marker != [] && OccursOnce(d, marker, f)
    requires SkipBlank(d, f + |marker|) == colon < |d| && d[colon] == COLON
    requires SkipBlank(d, colon + 1) == start < |d| && d[start] == LEFT_BRACE
    requires Scan(Inside(0), d[start..]) == Closed(n)
    ensures Extract(d, marker) == Some(d[start..start + n])
  {
    hide Scan, SkipBlank, At;
    assert Find(d, marker, 0) == Some(f);
    assert Find(d, marker, f + |marker|).None?;
  }

  /** If the quoted name occurs once, as a key followed by a JSON object, exactly that object's text is extracted. */
  lemma ExtractsExactlyTheObject(front: seq<byte>, marker: seq<byte>, before: Blank, after: Blank, inner: Blank,
                                 members: seq<Member>, rest: seq<byte>)
    requires marker != []
    requires OccursOnce(Document(front, marker, before, after, Print(Object(inner, members)), rest), marker, |front|)
    ensures Extract(Document(front, marker, before, after, Print(Object(inner, members)), rest), marker)
         == Some(Print(Object(inner, members)))
  {
    hide Document, Print, Scan, Extract, At, Find, OccursOnce;
    var target := PrintOf(inner, members);
    var d := Document(front, marker, before, after, target, rest);
    DocumentParts(front, marker, before, after, target, rest);
    var p := |front| + |marker|;
    var c := p + |before|;
    var s := c + 1 + |after|;
    SkipsExactly(d, p, |before|);
    SkipsExactly(d, c + 1, |after|);
    ObjectCloses(inner, members, rest);
    ExtractAt(d, marker, |front|, c, s, |target|);
    assert d[s..s + |target|] == d[s..][..|target|] == target;
  }

  lemma PrintOf(inner: Blank, members: seq<Member>) returns (target: seq<byte>)
    ensures target == Print(Object(inner, members)) && target != [] && target[0] == LEFT_BRACE
  {
    target := Print(Object(inner, members));
  }
}

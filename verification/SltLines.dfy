/** Text as terminated lines, and lines as fields: both directions, for the character and field layers of the parser. */
module SltLines {
  import opened Utf8
  import opened SltFields
  import opened SltMachine

  // ---------- lines ----------

  /** A line the parser takes whole: no control characters, within both length limits. */
  predicate GoodLine(line: string) {
    NoControls(line) && |line| <= MAX_LINE_CODEPOINTS && |Encode(line)| <= MAX_LINE_UTF8_BYTES
  }

  predicate GoodLines(lines: seq<string>) {
    forall i :: 0 <= i < |lines| ==> GoodLine(lines[i])
  }

  function Ending(cr: bool): (s: string) { if cr then "\r\n" else "\n" }

  /** The text of lines, line i ended by CR LF when crs[i] and by LF otherwise. */
  function JoinLines(lines: seq<string>, crs: seq<bool>): (text: string)
    requires |crs| == |lines|
  {
    if lines == [] then "" else lines[0] + Ending(crs[0]) + JoinLines(lines[1..], crs[1..])
  }

  function Lift(r: Result<Core>): (m: Result<Machine>) {
    match r
    case Refused(s) => Refused(s)
    case Ok(core) => Ok(Machine("", false, core))
  }

  lemma {:induction false} FeedPlain(env: Env, form: Form, core: Core, done: string, more: string, rest: string)
    requires NoControls(more) && |done + more| <= MAX_LINE_CODEPOINTS
    ensures FeedText(env, form, Machine(done, false, core), more + rest)
         == FeedText(env, form, Machine(done + more, false, core), rest)
    decreases |more|
  {
    hide CompleteLine;
    if more == "" {
      assert done + more == done && more + rest == rest;
    } else {
      assert (more + rest)[1..] == more[1..] + rest;
      assert more[0] != '\n' && more[0] != '\r';
      FeedPlain(env, form, core, done + [more[0]], more[1..], rest);
      assert done + [more[0]] + more[1..] == done + more;
    }
  }

  lemma FeedEnding(env: Env, form: Form, core: Core, line: string, cr: bool, rest: string)
    requires GoodLine(line)
    ensures FeedText(env, form, Machine(line, false, core), Ending(cr) + rest)
         == ContinueText(env, form, Lift(AcceptLine(env, form, core, line)), rest)
  {
    hide AcceptLine;
    var text := Ending(cr) + rest;
    assert text[1..] == if cr then "\n" + rest else rest;
    if cr {
      assert text[1..][1..] == rest;
    }
  }

  /** Feeding well-formed lines is accepting them one after another. */
  lemma {:induction false} FeedLines(env: Env, form: Form, core: Core, lines: seq<string>, crs: seq<bool>)
    requires |crs| == |lines| && GoodLines(lines)
    ensures FeedText(env, form, Machine("", false, core), JoinLines(lines, crs))
         == Lift(AcceptLines(env, form, core, lines))
    decreases |lines|
  {
    hide AcceptLine, FeedChar;
    if lines != [] {
      var line, rest := lines[0], JoinLines(lines[1..], crs[1..]);
      assert GoodLine(line);
      assert JoinLines(lines, crs) == line + (Ending(crs[0]) + rest);
      FeedPlain(env, form, core, "", line, Ending(crs[0]) + rest);
      assert "" + line == line;
      FeedEnding(env, form, core, line, crs[0], rest);
      match AcceptLine(env, form, core, line)
      case Refused(_) =>
      case Ok(next) => FeedLines(env, form, next, lines[1..], crs[1..]);
    }
  }

  function Pending(m: Machine): (s: string) { m.line + if m.pendingCr then "\r" else "" }

  /** An accepted character either ends a good line that the line layer accepts, or joins what is pending. */
  lemma CharCases(env: Env, form: Form, m: Machine, c: char)
    requires NoControls(m.line) && |m.line| <= MAX_LINE_CODEPOINTS && FeedChar(env, form, m, c).Ok?
    ensures c == '\n' ==> GoodLine(m.line) && AcceptLine(env, form, m.core, m.line).Ok?
    ensures c == '\n' ==> FeedChar(env, form, m, c) == Lift(AcceptLine(env, form, m.core, m.line))
    ensures var n := FeedChar(env, form, m, c).value;
            c != '\n' ==> n.core == m.core && Pending(n) == Pending(m) + [c]
    ensures var n := FeedChar(env, form, m, c).value;
            c != '\n' ==> NoControls(n.line) && |n.line| <= MAX_LINE_CODEPOINTS
  {
    hide AcceptLine;
  }

  lemma PendingNewline(m: Machine, text: string)
    requires text != "" && text[0] == '\n'
    ensures Pending(m) + text == m.line + Ending(m.pendingCr) + text[1..]
  {
  }

  lemma PendingNothing(m: Machine, text: string)
    requires m.line == "" && !m.pendingCr
    ensures Pending(m) + text == text
  {
  }

  lemma PendingMore(p: string, text: string)
    requires text != ""
    ensures p + text == p + [text[0]] + text[1..]
  {
  }

  lemma FeedNone(env: Env, form: Form, m: Machine)
    ensures FeedText(env, form, m, "") == Ok(m)
  {
  }

  lemma FeedHead(env: Env, form: Form, m: Machine, text: string) returns (next: Machine)
    requires text != "" && FeedText(env, form, m, text).Ok?
    ensures FeedChar(env, form, m, text[0]) == Ok(next)
    ensures FeedText(env, form, m, text) == FeedText(env, form, next, text[1..])
  {
    hide FeedChar;
    next := FeedChar(env, form, m, text[0]).value;
  }

  lemma JoinFirst(line: string, cr: bool, lines: seq<string>, crs: seq<bool>)
    requires |crs| == |lines|
    ensures JoinLines([line] + lines, [cr] + crs) == line + Ending(cr) + JoinLines(lines, crs)
  {
    assert ([line] + lines)[1..] == lines && ([cr] + crs)[1..] == crs;
  }

  lemma AcceptFirst(env: Env, form: Form, core: Core, line: string, lines: seq<string>)
    requires AcceptLine(env, form, core, line).Ok?
    ensures AcceptLines(env, form, core, [line] + lines)
         == AcceptLines(env, form, AcceptLine(env, form, core, line).value, lines)
  {
    hide AcceptLine;
    assert ([line] + lines)[1..] == lines;
  }

  /** Text the parser gets through with nothing pending is well-formed lines, accepted one after another. */
  lemma {:induction false} RecoverLines(env: Env, form: Form, m: Machine, text: string, end: Machine)
    returns (lines: seq<string>, crs: seq<bool>)
    requires NoControls(m.line) && |m.line| <= MAX_LINE_CODEPOINTS
    requires FeedText(env, form, m, text) == Ok(end) && end.line == "" && !end.pendingCr
    ensures |crs| == |lines| && GoodLines(lines)
    ensures Pending(m) + text == JoinLines(lines, crs)
    ensures AcceptLines(env, form, m.core, lines) == Ok(end.core)
    decreases |text|
  {
    hide AcceptLine, FeedChar, FeedText, GoodLine;
    if text == "" {
      FeedNone(env, form, m);
      lines, crs := [], [];
    } else {
      var c, rest := text[0], text[1..];
      var next := FeedHead(env, form, m, text);
      CharCases(env, form, m, c);
      lines, crs := RecoverLines(env, form, next, rest, end);
      if c == '\n' {
        PendingNewline(m, text);
        PendingNothing(next, rest);
        JoinFirst(m.line, m.pendingCr, lines, crs);
        AcceptFirst(env, form, m.core, m.line, lines);
        lines, crs := [m.line] + lines, [m.pendingCr] + crs;
      } else {
        PendingMore(Pending(m), text);
      }
    }
  }
}

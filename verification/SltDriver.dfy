/**
The parse drivers: chunks of bytes through the incremental UTF-8 decoder, the byte-order-mark rule and the parser. One
driver serves the three forms, which differ only in the parser they feed. Acceptance depends on the bytes alone.
*/
module SltDriver {
  import opened Prelude
  import opened Utf8
  import opened SltFields
  import opened SltMachine

  /** A driver between chunks. */
  datatype Drive = Driving(count: nat, total: nat, held: seq<byte>, started: bool, machine: Machine)
                 | Halted(status: Rejection)

  function StartDrive(form: Form, table: CaseTable): (d: Drive) {
    Driving(0, 0, [], false, StartMachine(form, table))
  }

  function DropBom(text: string): (r: string) {
    if text != "" && text[0] == BOM then text[1..] else text
  }

  /** Hand decoded text to the parser, dropping one leading byte-order mark of the stream and refusing any other. */
  function DriveText(env: Env, form: Form, d: Drive, text: string): (r: Drive)
    requires d.Driving?
  {
    if text == "" then d
    else
      var body := if d.started then text else DropBom(text);
      if BOM in body then Halted(EncodingRejected)
      else match FeedText(env, form, d.machine, body)
           case Refused(s) => Halted(s)
           case Ok(m) => d.(started := true, machine := m)
  }

  function DriveChunk(env: Env, form: Form, d: Drive, chunk: seq<byte>): (r: Drive) {
    match d
    case Halted(_) => d
    case Driving(count, total, held, started, machine) =>
      if count + 1 > MAX_CHUNKS || |chunk| > MAX_CHUNK_BYTES || total + |chunk| > MAX_STDOUT_BYTES
      then Halted(LimitExceeded)
      else match Decode(held, chunk)
           case Malformed => Halted(EncodingRejected)
           case Decoded(text, rest) =>
               DriveText(env, form, Driving(count + 1, total + |chunk|, rest, started, machine), text)
  }

  function DriveChunks(env: Env, form: Form, d: Drive, chunks: seq<seq<byte>>): (r: Drive)
    decreases |chunks|
  {
    if chunks == [] then d else DriveChunks(env, form, DriveChunk(env, form, d, chunks[0]), chunks[1..])
  }

  /** End of input: an unfinished character is malformed, the header form wants some text, then the parser finishes. */
  function DriveEnd(env: Env, form: Form, d: Drive): (r: Result<Core>) {
    match d
    case Halted(s) => Refused(s)
    case Driving(_, _, held, started, machine) =>
      if held != [] then Refused(EncodingRejected)
      else if form == HeaderForm && !started then Refused(GrammarRejected)
      else Finish(env, form, machine)
  }

  lemma {:induction false} HaltedStays(env: Env, form: Form, s: Rejection, chunks: seq<seq<byte>>)
    ensures DriveChunks(env, form, Halted(s), chunks) == Halted(s)
  {
    if chunks != [] { HaltedStays(env, form, s, chunks[1..]); }
  }

  /** One turn of the driver loop on a parser object. */
  method StepChunk(parser: Parser, count: nat, total: nat, held: seq<byte>, started: bool, chunk: seq<byte>)
    returns (halted: Option<Rejection>, nextTotal: nat, nextHeld: seq<byte>, nextStarted: bool)
    modifies parser
    ensures var d := DriveChunk(parser.env, parser.form, Driving(count, total, held, started,
                                    old(parser.Current())), chunk);
            if halted.Some? then d == Halted(halted.value)
            else d == Driving(count + 1, nextTotal, nextHeld, nextStarted, parser.Current())
    ensures halted.None? && !nextStarted ==> parser.failure == old(parser.failure)
    ensures halted.None? ==> count < MAX_CHUNKS && (started ==> nextStarted)
  {
    hide FeedText, Decode;
    halted, nextTotal, nextHeld, nextStarted := None, total + |chunk|, held, started;
    if count + 1 > MAX_CHUNKS || |chunk| > MAX_CHUNK_BYTES || nextTotal > MAX_STDOUT_BYTES {
      halted := Some(LimitExceeded);
      return;
    }
    var decoded := Decode(held, chunk);
    if decoded.Malformed? {
      halted := Some(EncodingRejected);
      return;
    }
    nextHeld := decoded.held;
    if decoded.text != "" {
      var body := if started then decoded.text else DropBom(decoded.text);
      nextStarted := true;
      if BOM in body {
        halted := Some(EncodingRejected);
        return;
      }
      var fed := parser.Feed(body);
      if !fed {
        halted := Some(parser.failure);
      }
    }
  }

  /** The driver loop over a parser object; an iterable that raises ends in GRAMMAR_REJECTED. */
  method ParseStream(env: Env, form: Form, table: CaseTable, chunks: seq<seq<byte>>, raises: bool)
    returns (r: Result<Core>)
    ensures var d := DriveChunks(env, form, StartDrive(form, table), chunks);
            r == if raises && d.Driving? then Refused(GrammarRejected) else DriveEnd(env, form, d)
  {
    hide DriveChunk, Finish;
    var parser := new Parser(env, form, table);
    var total, held, started := 0, [], false;
    var i := 0;
    ghost var goal := DriveChunks(env, form, StartDrive(form, table), chunks);
    while i < |chunks|
      invariant 0 <= i <= |chunks| && fresh(parser)
      invariant parser.env == env && parser.form == form
      invariant goal == DriveChunks(env, form, Driving(i, total, held, started, parser.Current()), chunks[i..])
      invariant !started ==> parser.failure == GrammarRejected
    {
      assert chunks[i..][0] == chunks[i] && chunks[i..][1..] == chunks[i + 1..];
      var halted;
      halted, total, held, started := StepChunk(parser, i, total, held, started, chunks[i]);
      if halted.Some? {
        HaltedStays(env, form, halted.value, chunks[i + 1..]);
        return Refused(halted.value);
      }
      i := i + 1;
    }
    if raises {
      return Refused(GrammarRejected);
    }
    if held != [] {
      return Refused(EncodingRejected);
    }
    if form == HeaderForm && !started {
      return Refused(parser.failure);
    }
    var closed := parser.Close();
    return if closed then Ok(parser.CurrentCore()) else Refused(parser.failure);
  }

  // ---------- the bytes alone ----------

  datatype Reached = Reached(text: string, held: seq<byte>, machine: Machine)

  /** Where a driver stands after exactly these bytes, or None once they cannot begin an acceptable stream. */
  function After(env: Env, form: Form, table: CaseTable, bytes: seq<byte>): (r: Option<Reached>) {
    match Decode([], bytes)
    case Malformed => None
    case Decoded(text, held) =>
      if BOM in DropBom(text) then None
      else match FeedText(env, form, StartMachine(form, table), DropBom(text))
           case Refused(_) => None
           case Ok(m) => Some(Reached(text, held, m))
  }

  /** The parse of a whole byte string. */
  function ParseBytes(env: Env, form: Form, table: CaseTable, bytes: seq<byte>): (r: Option<Core>) {
    match After(env, form, table, bytes)
    case None => None
    case Some(at) =>
      if at.held != [] || (form == HeaderForm && at.text == "") then None
      else match Finish(env, form, at.machine)
           case Refused(_) => None
           case Ok(core) => Some(core)
  }

  predicate At(d: Drive, at: Option<Reached>) {
    match at
    case None => d.Halted?
    case Some(r) => d.Driving? && d.held == r.held && d.started == (r.text != "") && d.machine == r.machine
  }

  lemma DropBomAppend(a: string, b: string)
    ensures DropBom(a + b) == if a == "" then DropBom(b) else DropBom(a) + b
  {
    if a == "" {
      assert a + b == b;
    } else {
      assert (a + b)[1..] == a[1..] + b;
    }
  }

  lemma AfterMore(env: Env, form: Form, table: CaseTable, a: seq<byte>, b: seq<byte>)
    ensures match After(env, form, table, a)
            case None => After(env, form, table, a + b) == None
            case Some(r) =>
              match Decode(r.held, b)
              case Malformed => After(env, form, table, a + b) == None
              case Decoded(text, held) =>
                var body := if r.text == "" then DropBom(text) else text;
                if BOM in body then After(env, form, table, a + b) == None
                else match FeedText(env, form, r.machine, body)
                     case Refused(_) => After(env, form, table, a + b) == None
                     case Ok(m) => After(env, form, table, a + b) == Some(Reached(r.text + text, held, m))
  {
    hide FeedText;
    DecodeSplit([], a, b);
    match Decode([], a)
    case Malformed =>
    case Decoded(ta, ha) =>
      match Decode(ha, b)
      case Malformed =>
      case Decoded(tb, hb) =>
        DropBomAppend(ta, tb);
        var body := if ta == "" then DropBom(tb) else tb;
        var first := DropBom(ta);
        assert DropBom(ta + tb) == first + body;
        FeedSplit(env, form, StartMachine(form, table), first, body);
  }

  lemma DriveIsAfter(env: Env, form: Form, table: CaseTable, a: seq<byte>, d: Drive, chunk: seq<byte>)
    requires At(d, After(env, form, table, a))
    requires d.Driving? ==> d.count < MAX_CHUNKS && |chunk| <= MAX_CHUNK_BYTES && d.total + |chunk| <= MAX_STDOUT_BYTES
    ensures At(DriveChunk(env, form, d, chunk), After(env, form, table, a + chunk))
    ensures var e := DriveChunk(env, form, d, chunk);
            e.Driving? ==> d.Driving? && e.count == d.count + 1 && e.total == d.total + |chunk|
  {
    hide FeedText;
    AfterMore(env, form, table, a, chunk);
    if d.Driving? {
      FeedNothing(env, form, d.machine);
    }
  }

  lemma FeedNothing(env: Env, form: Form, m: Machine)
    ensures FeedText(env, form, m, "") == Ok(m)
  {
  }

  predicate ChunksWithinLimits(count: nat, total: nat, chunks: seq<seq<byte>>) {
    && count + |chunks| <= MAX_CHUNKS
    && (forall i :: 0 <= i < |chunks| ==> |chunks[i]| <= MAX_CHUNK_BYTES)
    && total + |Concat(chunks)| <= MAX_STDOUT_BYTES
  }

  lemma {:induction false} DriveChunksAreAfter(env: Env, form: Form, table: CaseTable, a: seq<byte>, d: Drive,
                                               chunks: seq<seq<byte>>)
    requires At(d, After(env, form, table, a))
    requires d.Driving? ==> ChunksWithinLimits(d.count, d.total, chunks)
    ensures At(DriveChunks(env, form, d, chunks), After(env, form, table, a + Concat(chunks)))
    decreases |chunks|
  {
    hide After, DriveChunk;
    if chunks == [] {
      assert a + Concat(chunks) == a;
    } else {
      DriveIsAfter(env, form, table, a, d, chunks[0]);
      DriveChunksAreAfter(env, form, table, a + chunks[0], DriveChunk(env, form, d, chunks[0]), chunks[1..]);
      assert a + Concat(chunks) == a + chunks[0] + Concat(chunks[1..]);
    }
  }

  lemma StartIsAfterNothing(env: Env, form: Form, table: CaseTable)
    ensures At(StartDrive(form, table), After(env, form, table, []))
  {
    FeedNothing(env, form, StartMachine(form, table));
  }

  /** However the stream is cut into chunks within the limits, it is accepted exactly when its bytes parse, to the same
      core; only the code of a rejection may depend on the cuts. */
  lemma AcceptanceIgnoresChunking(env: Env, form: Form, table: CaseTable, chunks: seq<seq<byte>>, core: Core)
    requires ChunksWithinLimits(0, 0, chunks)
    ensures DriveEnd(env, form, DriveChunks(env, form, StartDrive(form, table), chunks)) == Ok(core)
       <==> ParseBytes(env, form, table, Concat(chunks)) == Some(core)
  {
    hide Finish, FeedText, DriveChunks, StartMachine, Decode;
    StartIsAfterNothing(env, form, table);
    DriveChunksAreAfter(env, form, table, [], StartDrive(form, table), chunks);
    assert [] + Concat(chunks) == Concat(chunks);
  }

  /** A driver that has not halted has only seen chunks within the limits. */
  lemma {:induction false} DrivingIsWithinLimits(env: Env, form: Form, d: Drive, chunks: seq<seq<byte>>)
    requires d.Driving? && d.count <= MAX_CHUNKS && d.total <= MAX_STDOUT_BYTES
    requires DriveChunks(env, form, d, chunks).Driving?
    ensures ChunksWithinLimits(d.count, d.total, chunks)
    decreases |chunks|
  {
    hide DriveText, Decode;
    if chunks != [] {
      var next := DriveChunk(env, form, d, chunks[0]);
      if next.Halted? {
        HaltedStays(env, form, next.status, chunks[1..]);
        assert false;
      }
      TextKeepsCounts(env, form, d, chunks[0]);
      DrivingIsWithinLimits(env, form, next, chunks[1..]);
    }
  }

  lemma TextKeepsCounts(env: Env, form: Form, d: Drive, chunk: seq<byte>)
    requires d.Driving? && DriveChunk(env, form, d, chunk).Driving?
    ensures var q := DriveChunk(env, form, d, chunk);
            && q.count == d.count + 1 <= MAX_CHUNKS && q.total == d.total + |chunk| <= MAX_STDOUT_BYTES
            && |chunk| <= MAX_CHUNK_BYTES
  {
    hide FeedText, Decode;
  }

  lemma {:induction false} DriveSnoc(env: Env, form: Form, d: Drive, chunks: seq<seq<byte>>, c: seq<byte>)
    ensures DriveChunks(env, form, d, chunks + [c]) == DriveChunk(env, form, DriveChunks(env, form, d, chunks), c)
    decreases |chunks|
  {
    hide DriveChunk;
    if chunks == [] {
      assert [] + [c] == [c] && [c][1..] == [];
    } else {
      assert (chunks + [c])[1..] == chunks[1..] + [c];
      DriveSnoc(env, form, DriveChunk(env, form, d, chunks[0]), chunks[1..], c);
    }
  }
}

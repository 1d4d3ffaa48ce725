/**
The SLT listing parser. `Core` is everything the parser keeps between lines; the functions below say what one line, one
character and the end of input do to it, for the three forms of a listing. The class `Parser` updates its core in
place, one character after another, and is proved to follow these functions.
*/
module SltMachine {
  import opened Prelude
  import opened PolicyLimits
  import opened Text
  import opened Utf8
  import opened Locators
  import opened SltFields

  datatype FormatCase = PlaintextRegular | Directory | AllEncrypted | Mixed | SymbolicLink | HardLink

  type CaseTable = map<FormatCase, seq<string>>

  /** Library functions the parser calls but does not define, and the storage family of a locked parse. */
  datatype Env = Env(upper: string -> string, fold: SegmentFold, recordHash: seq<(string, ValueClass)> -> string,
                     storageIsTar: bool)

  datatype Form = HeaderForm | MemberForm | LockedForm

  datatype Stage = InHeader | InSeparator | InMembers

  datatype Core = Core(stage: Stage, header: Fields, headerClosed: bool, record: Fields, closed: bool,
                       members: seq<Member>, keys: map<string, bool>, candidates: CaseTable, hashes: seq<string>)

  function StartCore(form: Form, table: CaseTable): (c: Core) {
    Core(if form == HeaderForm then InHeader else InMembers, [], false, [], false, [], map[], table, [])
  }

  // ---------- closing a record ----------

  function CanonicalKey(env: Env, locator: string): (k: string) { Canonical(locator, env.fold) }

  /** Append a checked member unless the list is full or its locator collides or conflicts. */
  function Append(env: Env, core: Core, m: Member): (r: Result<Core>) {
    if |core.members| >= MAX_MEMBER_COUNT then Refused(LimitExceeded)
    else
      var key := CanonicalKey(env, m.locator);
      if key in core.keys || ParentChildConflict(key, m.isDirectory, core.keys) then Refused(GrammarRejected)
      else if !ConstructibleMember(m, env.upper) then Refused(GrammarRejected)
      else Ok(core.(members := core.members + [m], keys := core.keys[key := m.isDirectory], record := []))
  }

  function ClosePlain(env: Env, core: Core): (r: Result<Core>) {
    var rec := core.record;
    if !(REQUIRED_FIELDS <= Names(rec)) || "Comment" in Names(rec) then Refused(GrammarRejected)
    else if !AcceptableLocator(Value(rec, "Path"), env.upper) then Refused(GrammarRejected)
    else Append(env, core, MemberOf(rec))
  }

  function ClassOf(f: Field): (c: (string, ValueClass)) {
    (f.name, match LockedValueClass(f.name, f.value) case Some(v) => v case None => TechnicalNonemptyDiscarded)
  }

  function ClassesOf(rec: Fields): (r: seq<(string, ValueClass)>)
    ensures |r| == |rec|
  {
    if rec == [] then [] else [ClassOf(rec[0])] + ClassesOf(rec[1..])
  }

  /** The cases whose next record hash is h. */
  function Narrow(candidates: CaseTable, seen: nat, h: string): (r: CaseTable) {
    map c | c in candidates && seen < |candidates[c]| && candidates[c][seen] == h :: candidates[c]
  }

  predicate AllDirectory(candidates: CaseTable) { forall c :: c in candidates ==> c == Directory }

  predicate NoneDirectory(candidates: CaseTable) { Directory !in candidates }

  /** The value of "Encrypted", which TAR listings may leave out. */
  function LockedEncrypted(env: Env, rec: Fields): (v: Option<string>) {
    match Get(rec, "Encrypted")
    case None => if env.storageIsTar then Some("-") else None
    case Some(v) => Some(v)
  }

  predicate NonEmpty(v: Option<string>) { v.Some? && v.value != "" }

  function LockedMemberOf(env: Env, rec: Fields, isDirectory: bool): (m: Member)
    requires LockedRecordIsUsable(env, rec)
  {
    Member(Value(rec, "Path"), isDirectory, NumberOf(Value(rec, "Size")), NumberOf(Value(rec, "Packed Size")),
           LockedEncrypted(env, rec) == Some("+"), if NonEmpty(Get(rec, "CRC")) then Get(rec, "CRC") else None,
           NonEmpty(Get(rec, "Symbolic Link")), NonEmpty(Get(rec, "Hard Link")),
           "User" in Names(rec), "Group" in Names(rec), "Characteristics" in Names(rec),
           Get(rec, "Alternate Stream") == Some("+"), Get(rec, "Anti") == Some("+"))
  }

  predicate LockedRecordIsUsable(env: Env, rec: Fields) {
    && {"Path", "Size", "Packed Size"} <= Names(rec)
    && (LockedEncrypted(env, rec) == Some("+") || LockedEncrypted(env, rec) == Some("-"))
    && IsCanonicalNumber(Value(rec, "Size")) && IsCanonicalNumber(Value(rec, "Packed Size"))
    && AcceptableLocator(Value(rec, "Path"), env.upper)
  }

  function CloseLocked(env: Env, core: Core): (r: Result<Core>) {
    var rec := core.record;
    var h := env.recordHash(ClassesOf(rec));
    var candidates := Narrow(core.candidates, |core.hashes|, h);
    if |candidates| == 0 then Refused(GrammarRejected)
    else
      var next := core.(candidates := candidates, hashes := core.hashes + [h]);
      if !LockedRecordIsUsable(env, rec) then Refused(GrammarRejected)
      else if |core.members| >= MAX_MEMBER_COUNT then Refused(LimitExceeded)
      else if !AllDirectory(candidates) && !NoneDirectory(candidates) then Refused(GrammarRejected)
      else Append(env, next, LockedMemberOf(env, rec, AllDirectory(candidates)))
  }

  function CloseRecord(env: Env, form: Form, core: Core): (r: Result<Core>) {
    if form == LockedForm then CloseLocked(env, core) else ClosePlain(env, core)
  }

  // ---------- lines ----------

  const SEPARATOR := "----------"

  predicate HeaderIsComplete(header: Fields) {
    && {"Path", "Type", "Physical Size"} <= Names(header)
    && BoundedText(Value(header, "Path"), MAX_LINE_CODEPOINTS, MAX_LINE_UTF8_BYTES)
    && BoundedText(Value(header, "Type"), MAX_LINE_CODEPOINTS, MAX_LINE_UTF8_BYTES)
  }

  function MemberSchemeOf(form: Form): (s: Scheme) {
    if form == LockedForm then LockedScheme else MemberScheme
  }

  function MemberLine(env: Env, form: Form, core: Core, line: string): (r: Result<Core>) {
    if line == "" then
      if core.record == [] || (form != HeaderForm && core.closed) then Refused(GrammarRejected)
      else match CloseRecord(env, form, core)
           case Refused(s) => Refused(s)
           case Ok(next) => Ok(next.(closed := true))
    else match AddField(core.record, line, MemberSchemeOf(form))
         case Refused(s) => Refused(s)
         case Ok(rec) => Ok(core.(record := rec, closed := false))
  }

  function AcceptLine(env: Env, form: Form, core: Core, line: string): (r: Result<Core>) {
    if form != HeaderForm || core.stage == InMembers then MemberLine(env, form, core, line)
    else if core.stage == InHeader then
      if line == "" then
        if core.header == [] || core.headerClosed then Refused(GrammarRejected)
        else Ok(core.(headerClosed := true, stage := InSeparator))
      else match AddField(core.header, line, HeaderScheme)
           case Refused(s) => Refused(s)
           case Ok(rec) => Ok(core.(header := rec))
    else if line != SEPARATOR || !HeaderIsComplete(core.header) then Refused(GrammarRejected)
    else Ok(core.(stage := InMembers))
  }

  function AcceptLines(env: Env, form: Form, core: Core, lines: seq<string>): (r: Result<Core>)
    decreases |lines|
  {
    if lines == [] then Ok(core)
    else match AcceptLine(env, form, core, lines[0])
         case Refused(s) => Refused(s)
         case Ok(next) => AcceptLines(env, form, next, lines[1..])
  }

  /** What the end of input asks once no line is pending. */
  function FinishCore(env: Env, form: Form, core: Core): (r: Result<Core>) {
    match form
    case HeaderForm =>
      if core.stage != InMembers || core.closed then Refused(GrammarRejected)
      else if core.record == [] then (if core.headerClosed then Ok(core) else Refused(GrammarRejected))
      else (match ClosePlain(env, core)
            case Refused(s) => Refused(s)
            case Ok(next) => if next.headerClosed then Ok(next) else Refused(GrammarRejected))
    case MemberForm =>
      if core.record != [] || (core.members != [] && !core.closed) then Refused(GrammarRejected) else Ok(core)
    case LockedForm =>
      var complete := map c | c in core.candidates && |core.candidates[c]| == |core.hashes| :: core.candidates[c];
      if core.record != [] || !core.closed || |complete| != 1 then Refused(GrammarRejected)
      else Ok(core.(candidates := complete))
  }

  // ---------- characters ----------

  datatype Machine = Machine(line: string, pendingCr: bool, core: Core)

  function CompleteLine(env: Env, form: Form, m: Machine): (r: Result<Machine>) {
    if |Encode(m.line)| > MAX_LINE_UTF8_BYTES then Refused(LimitExceeded)
    else match AcceptLine(env, form, m.core, m.line)
         case Refused(s) => Refused(s)
         case Ok(core) => Ok(Machine("", false, core))
  }

  function FeedChar(env: Env, form: Form, m: Machine, c: char): (r: Result<Machine>) {
    if IsControl(c) && c != '\n' && c != '\r' then Refused(GrammarRejected)
    else if m.pendingCr then
      if c != '\n' then Refused(GrammarRejected) else CompleteLine(env, form, m)
    else if c == '\r' then Ok(m.(pendingCr := true))
    else if c == '\n' then CompleteLine(env, form, m)
    else if |m.line| + 1 > MAX_LINE_CODEPOINTS then Refused(LimitExceeded)
    else Ok(m.(line := m.line + [c]))
  }

  function FeedText(env: Env, form: Form, m: Machine, text: string): (r: Result<Machine>)
    decreases |text|
  {
    if text == "" then Ok(m)
    else match FeedChar(env, form, m, text[0])
         case Refused(s) => Refused(s)
         case Ok(next) => FeedText(env, form, next, text[1..])
  }

  function Finish(env: Env, form: Form, m: Machine): (r: Result<Core>) {
    if m.pendingCr || m.line != "" then Refused(GrammarRejected) else FinishCore(env, form, m.core)
  }

  function StartMachine(form: Form, table: CaseTable): (m: Machine) {
    Machine("", false, StartCore(form, table))
  }

  function ContinueText(env: Env, form: Form, r: Result<Machine>, text: string): (q: Result<Machine>) {
    match r
    case Refused(_) => r
    case Ok(m) => FeedText(env, form, m, text)
  }

  /** Characters may arrive in any pieces. */
  lemma {:induction false} FeedSplit(env: Env, form: Form, m: Machine, a: string, b: string)
    ensures FeedText(env, form, m, a + b) == ContinueText(env, form, FeedText(env, form, m, a), b)
    decreases |a|
  {
    hide FeedChar;
    if a == "" {
      assert a + b == b;
    } else {
      assert (a + b)[1..] == a[1..] + b;
      match FeedChar(env, form, m, a[0])
      case Refused(_) =>
      case Ok(next) => FeedSplit(env, form, next, a[1..], b);
    }
  }

  // ---------- the parser object ----------

  class Parser {
    const env: Env
    const form: Form
    var failure: Rejection
    var line: string
    var pendingCr: bool
    var stage: Stage
    var header: Fields
    var member: Fields
    var members: seq<Member>
    var canonicalMembers: map<string, bool>
    var headerClosed: bool
    var recordClosed: bool
    var candidateCases: CaseTable
    var recordHashes: seq<string>

    function CurrentCore(): (c: Core)
      reads this
    {
      Core(stage, header, headerClosed, member, recordClosed, members, canonicalMembers, candidateCases, recordHashes)
    }

    function Current(): (m: Machine)
      reads this
    {
      Machine(line, pendingCr, CurrentCore())
    }

    /** The outcome of a step, read off the object: its state when the step succeeded, its failure otherwise. */
    ghost predicate Shows(ok: bool, r: Result<Core>)
      reads this
    {
      if ok then r == Ok(CurrentCore()) else r == Refused(failure)
    }

    constructor (env: Env, form: Form, table: CaseTable)
      ensures this.env == env && this.form == form
      ensures Current() == StartMachine(form, table) && failure == GrammarRejected
    {
      this.env, this.form := env, form;
      failure := GrammarRejected;
      line, pendingCr := "", false;
      stage := if form == HeaderForm then InHeader else InMembers;
      header, member, members, canonicalMembers := [], [], [], map[];
      headerClosed, recordClosed := false, false;
      candidateCases, recordHashes := table, [];
    }

    method Reject() returns (ok: bool)
      modifies this`failure
      ensures !ok && failure == GrammarRejected
    {
      failure := GrammarRejected;
      return false;
    }

    method AppendMember(m: Member) returns (ok: bool)
      modifies this`failure, this`members, this`canonicalMembers, this`member
      ensures Shows(ok, Append(env, old(CurrentCore()), m))
    {
      hide ConstructibleMember, ParentChildConflict, CanonicalKey;
      if |members| >= MAX_MEMBER_COUNT {
        failure := LimitExceeded;
        return false;
      }
      var key := CanonicalKey(env, m.locator);
      if key in canonicalMembers || ParentChildConflict(key, m.isDirectory, canonicalMembers)
         || !ConstructibleMember(m, env.upper) {
        ok := Reject();
        return;
      }
      members := members + [m];
      canonicalMembers := canonicalMembers[key := m.isDirectory];
      member := [];
      return true;
    }

    method CloseMember() returns (ok: bool)
      modifies this`failure, this`members, this`canonicalMembers, this`member, this`candidateCases, this`recordHashes
      ensures Shows(ok, CloseRecord(env, form, old(CurrentCore())))
    {
      hide AcceptableLocator, Append, MemberOf, CloseLocked;
      if form == LockedForm {
        ok := CloseLockedMember();
      } else if !(REQUIRED_FIELDS <= Names(member)) || "Comment" in Names(member)
                || !AcceptableLocator(Value(member, "Path"), env.upper) {
        ok := Reject();
      } else {
        ok := AppendMember(MemberOf(member));
      }
    }

    method CloseLockedMember() returns (ok: bool)
      modifies this`failure, this`members, this`canonicalMembers, this`member, this`candidateCases, this`recordHashes
      ensures Shows(ok, CloseLocked(env, old(CurrentCore())))
    {
      hide Append, LockedMemberOf, LockedRecordIsUsable, Narrow, AllDirectory, NoneDirectory, ClassesOf;
      var h := env.recordHash(ClassesOf(member));
      var candidates := Narrow(candidateCases, |recordHashes|, h);
      if |candidates| == 0 {
        ok := Reject();
        return;
      }
      candidateCases, recordHashes := candidates, recordHashes + [h];
      if !LockedRecordIsUsable(env, member) {
        ok := Reject();
      } else if |members| >= MAX_MEMBER_COUNT {
        failure, ok := LimitExceeded, false;
      } else if !AllDirectory(candidates) && !NoneDirectory(candidates) {
        ok := Reject();
      } else {
        ok := AppendLocked(AllDirectory(candidates));
      }
    }

    method AppendLocked(isDirectory: bool) returns (ok: bool)
      requires LockedRecordIsUsable(env, member)
      modifies this`failure, this`members, this`canonicalMembers, this`member
      ensures Shows(ok, Append(env, old(CurrentCore()), LockedMemberOf(env, old(member), isDirectory)))
    {
      hide Append, LockedMemberOf;
      ok := AppendMember(LockedMemberOf(env, member, isDirectory));
    }

    method AddFieldTo(record: Fields, text: string, scheme: Scheme) returns (ok: bool, next: Fields)
      modifies this`failure
      ensures if ok then AddField(record, text, scheme) == Ok(next)
                 else AddField(record, text, scheme) == Refused(failure)
    {
      next := record;
      var at := FindSeparator(text);
      if at.None? {
        ok := Reject();
        return;
      }
      var f := Field(text[..at.value], text[at.value + 3..]);
      if f.name == "" || !Stripped(f.name) || !Stripped(f.value)
         || f.name !in Allowed(scheme) || f.name in Names(record) {
        ok := Reject();
        return;
      }
      if |record| >= MAX_FIELDS_PER_RECORD {
        failure := LimitExceeded;
        return false, next;
      }
      var checked := CheckValue(scheme, f);
      if checked != Parsed {
        failure := checked;
        return false, next;
      }
      return true, record + [f];
    }

    method AcceptMemberLine(text: string) returns (ok: bool)
      modifies this
      ensures Shows(ok, MemberLine(env, form, old(CurrentCore()), text))
      ensures line == old(line) && pendingCr == old(pendingCr)
    {
      hide CloseRecord, AddField;
      if text == "" {
        if member == [] || (form != HeaderForm && recordClosed) {
          ok := Reject();
          return;
        }
        ok := CloseMember();
        if ok {
          recordClosed := true;
        }
        return;
      }
      if recordClosed {
        recordClosed := false;
      }
      var next;
      ok, next := AddFieldTo(member, text, MemberSchemeOf(form));
      member := next;
    }

    method Accept(text: string) returns (ok: bool)
      modifies this
      ensures Shows(ok, AcceptLine(env, form, old(CurrentCore()), text))
      ensures line == old(line) && pendingCr == old(pendingCr)
    {
      if form != HeaderForm || stage == InMembers {
        ok := AcceptMemberLine(text);
      } else if stage == InHeader {
        if text == "" {
          if header == [] || headerClosed {
            ok := Reject();
            return;
          }
          headerClosed, stage := true, InSeparator;
          return true;
        }
        var next;
        ok, next := AddFieldTo(header, text, HeaderScheme);
        header := next;
      } else {
        if text != SEPARATOR || !HeaderIsComplete(header) {
          ok := Reject();
          return;
        }
        stage := InMembers;
        return true;
      }
    }

    method Complete() returns (ok: bool)
      modifies this
      ensures var r := CompleteLine(env, form, old(Current()));
              if ok then r == Ok(Current().(pendingCr := false)) && pendingCr == old(pendingCr)
              else r == Refused(failure)
    {
      var text := line;
      line := "";
      if |Encode(text)| > MAX_LINE_UTF8_BYTES {
        failure := LimitExceeded;
        return false;
      }
      ok := Accept(text);
    }

    method Feed(text: string) returns (ok: bool)
      modifies this
      ensures var r := FeedText(env, form, old(Current()), text);
              if ok then r == Ok(Current()) else r == Refused(failure)
    {
      hide AcceptLine, Encode, IsControl;
      var i := 0;
      ghost var goal := FeedText(env, form, Current(), text);
      assert text[0..] == text;
      while i < |text|
        invariant 0 <= i <= |text|
        invariant goal == FeedText(env, form, Current(), text[i..])
      {
        var c := text[i];
        assert text[i..][0] == c && text[i..][1..] == text[i + 1..];
        if IsControl(c) && c != '\n' && c != '\r' {
          ok := Reject();
          return;
        }
        if pendingCr {
          if c != '\n' {
            ok := Reject();
            return;
          }
          pendingCr := false;
          ok := Complete();
          if !ok { return; }
        } else if c == '\r' {
          pendingCr := true;
        } else if c == '\n' {
          ok := Complete();
          if !ok { return; }
        } else {
          line := line + [c];
          if |line| > MAX_LINE_CODEPOINTS {
            failure := LimitExceeded;
            return false;
          }
        }
        i := i + 1;
      }
      return true;
    }

    method Close() returns (ok: bool)
      modifies this
      ensures Shows(ok, Finish(env, form, old(Current())))
    {
      if pendingCr || line != "" {
        ok := Reject();
        return;
      }
      match form
      case HeaderForm =>
        if stage != InMembers || recordClosed {
          ok := Reject();
          return;
        }
        if member != [] {
          ok := CloseMember();
          if !ok { return; }
        }
        if !headerClosed {
          ok := Reject();
          return;
        }
        return true;
      case MemberForm =>
        if member != [] || (members != [] && !recordClosed) {
          ok := Reject();
          return;
        }
        return true;
      case LockedForm =>
        var complete := map c | c in candidateCases && |candidateCases[c]| == |recordHashes| :: candidateCases[c];
        if member != [] || !recordClosed || |complete| != 1 {
          ok := Reject();
          return;
        }
        candidateCases := complete;
        return true;
    }
  }
}

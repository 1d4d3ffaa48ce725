/**
The safety policy on listed members: every member admissible, the totals bounded, enough workspace, and canonical paths
that neither collide nor put a file above another member. The code checks in one pass with running totals and a growing
dictionary; the policy is stated here without order.
*/
module SafetyPolicy {
  import opened Prelude
  import opened PolicyLimits
  import opened Permutations
  import opened Locators

  const MAX_VOLUME_COUNT := 256
  const MAX_COMPRESSION_RATIO := 1_000
  const MAX_WORKSPACE_BYTES := 8_589_934_592
  const MIN_WORKSPACE_FREE_RESERVE_BYTES := 1_073_741_824

  datatype Kind = RegularFile | Directory | Symlink | Hardlink | ReparsePoint | Fifo | Socket | BlockDevice
                | CharacterDevice | Unknown

  datatype Status = Accepted | PolicyRejected | LimitExceeded

  datatype Violation = InvalidInput | MemberCountLimit | VolumeCountLimit | UnknownSize | NegativeSize | MemberSizeLimit
                     | TotalUncompressedLimit | CompressionRatioLimit | PathInvalid | PathCollision | ParentChildClash
                     | MemberKindRejected | MetadataRejected | NestedArchiveRejected | WorkspaceLimit | WorkspaceReserve
                     | WorkspaceOverlap

  datatype Descriptor = Descriptor(
    locator: string, kind: Kind, compressed: Option<int>, uncompressed: Option<int>, nestedArchive: bool, sparse: bool,
    alternateStream: bool, hasAcl: bool, hasXattrs: bool, hasOwner: bool, hasGroup: bool, hasSetuid: bool,
    hasSetgid: bool,
    hasSpecialFlags: bool)
  {
    predicate SpecialMetadata() {
      sparse || alternateStream || hasAcl || hasXattrs || hasOwner || hasGroup || hasSetuid || hasSetgid
      || hasSpecialFlags
    }
  }

  datatype Result = Result(status: Status, violations: seq<Violation>, memberCount: nat) {
    predicate Constructible() {
      && memberCount <= MAX_MEMBER_COUNT
      && (if status == Accepted then violations == [] else |violations| == 1)
    }
  }

  /** `_failed`: the codes whose name ends in LIMIT, and the two named ones, exceed a limit. */
  function Failed(v: Violation, count: nat): (r: Result) {
    Result(if v in {MemberCountLimit, VolumeCountLimit, MemberSizeLimit, TotalUncompressedLimit, CompressionRatioLimit,
                    WorkspaceLimit, WorkspaceReserve}
           then LimitExceeded else PolicyRejected, [v], count)
  }

  /** Library functions on locators: upper case of a name stem, and the fold of a path segment. */
  datatype Env = Env(upper: string -> string, fold: SegmentFold)

  datatype Inputs = Inputs(volumeCount: int, capacity: int, free: int, overlaps: bool)

  // ---------- one member ----------

  /** `_validate_member`, in the order the code asks. */
  function MemberViolation(env: Env, m: Descriptor): (v: Option<Violation>) {
    if m.kind != RegularFile && m.kind != Directory then Some(MemberKindRejected)
    else if !SafeLocator(m.locator, env.upper) then Some(PathInvalid)
    else if m.compressed.None? || m.uncompressed.None? then Some(UnknownSize)
    else if m.compressed.value < 0 || m.uncompressed.value < 0 then Some(NegativeSize)
    else if m.uncompressed.value > MAX_SINGLE_MEMBER_BYTES then Some(MemberSizeLimit)
    else if m.uncompressed.value > 0 && m.compressed.value == 0 then Some(CompressionRatioLimit)
    else if m.compressed.value > 0 && m.uncompressed.value > m.compressed.value * MAX_COMPRESSION_RATIO
    then Some(CompressionRatioLimit)
    else if m.nestedArchive then Some(NestedArchiveRejected)
    else if m.SpecialMetadata() then Some(MetadataRejected)
    else None
  }

  /** An admissible member: a file or a directory at a safe place, with known sizes in proportion and nothing
      special. */
  predicate GoodMember(env: Env, m: Descriptor) {
    && m.kind in {RegularFile, Directory}
    && SafeLocator(m.locator, env.upper)
    && m.compressed.Some? && m.uncompressed.Some?
    && 0 <= m.compressed.value
    && 0 <= m.uncompressed.value <= MAX_SINGLE_MEMBER_BYTES
    && m.uncompressed.value <= MAX_COMPRESSION_RATIO * m.compressed.value
    && !m.nestedArchive && !m.SpecialMetadata()
  }

  lemma NoViolationIffGood(env: Env, m: Descriptor)
    ensures MemberViolation(env, m).None? <==> GoodMember(env, m)
  {
    hide SafeLocator;
  }

  function EntryOf(env: Env, m: Descriptor): (e: Entry) { Entry(Canonical(m.locator, env.fold), m.kind != RegularFile) }

  function EntriesOf(env: Env, ms: seq<Descriptor>): (es: seq<Entry>)
    ensures |es| == |ms| && forall i :: 0 <= i < |es| ==> es[i] == EntryOf(env, ms[i])
  {
    seq(|ms|, i requires 0 <= i < |ms| => EntryOf(env, ms[i]))
  }

  function SizeOf(size: Option<int>): (n: int) { if size.Some? then size.value else 0 }

  function Total(ms: seq<Descriptor>): (n: int) { if ms == [] then 0 else SizeOf(ms[0].uncompressed) + Total(ms[1..]) }

  function TotalCompressed(ms: seq<Descriptor>): (n: int) {
    if ms == [] then 0 else SizeOf(ms[0].compressed) + TotalCompressed(ms[1..])
  }

  predicate AllGood(env: Env, ms: seq<Descriptor>) { forall i :: 0 <= i < |ms| ==> GoodMember(env, ms[i]) }

  // ---------- the policy ----------

  /** The policy: nothing in it depends on the order of the members. */
  predicate Acceptable(env: Env, ms: seq<Descriptor>, x: Inputs) {
    && |ms| <= MAX_MEMBER_COUNT
    && 1 <= x.volumeCount <= MAX_VOLUME_COUNT
    && 0 <= x.capacity <= MAX_WORKSPACE_BYTES
    && 0 <= x.free && !x.overlaps
    && AllGood(env, ms)
    && Total(ms) <= MAX_TOTAL_UNCOMPRESSED_BYTES
    && Total(ms) <= x.capacity
    && Total(ms) + MIN_WORKSPACE_FREE_RESERVE_BYTES <= x.free
    && ConflictFree(EntriesOf(env, ms))
  }

  // ---------- why a list is refused ----------

  function InputViolation(ms: seq<Descriptor>, x: Inputs): (v: Option<Violation>) {
    if |ms| > MAX_MEMBER_COUNT then Some(MemberCountLimit)
    else if !(1 <= x.volumeCount <= MAX_VOLUME_COUNT) then Some(VolumeCountLimit)
    else if !(0 <= x.capacity <= MAX_WORKSPACE_BYTES) then Some(WorkspaceLimit)
    else if x.free < 0 then Some(WorkspaceReserve)
    else if x.overlaps then Some(WorkspaceOverlap)
    else None
  }

  /** What is wrong with a member behind others that were fine: itself, the total, or its place among them. */
  function ViolationBehind(env: Env, before: seq<Descriptor>, m: Descriptor): (v: Option<Violation>) {
    if MemberViolation(env, m).Some? then MemberViolation(env, m)
    else if Total(before + [m]) > MAX_TOTAL_UNCOMPRESSED_BYTES then Some(TotalUncompressedLimit)
    else if exists i :: 0 <= i < |before| && EntryOf(env, before[i]).key == EntryOf(env, m).key then Some(PathCollision)
    else if !ConflictFree(EntriesOf(env, before + [m])) then Some(ParentChildClash)
    else None
  }

  /** The violation of the first member that has one. */
  function FirstViolation(env: Env, ms: seq<Descriptor>): (v: Option<Violation>)
    decreases |ms|
  {
    if ms == [] then None
    else if FirstViolation(env, ms[..|ms| - 1]).Some? then FirstViolation(env, ms[..|ms| - 1])
    else ViolationBehind(env, ms[..|ms| - 1], ms[|ms| - 1])
  }

  function Verdict(env: Env, ms: seq<Descriptor>, x: Inputs): (r: Result) {
    if InputViolation(ms, x).Some? then Failed(InputViolation(ms, x).value, 0)
    else if FirstViolation(env, ms).Some? then Failed(FirstViolation(env, ms).value, |ms|)
    else if Total(ms) > x.capacity then Failed(WorkspaceLimit, |ms|)
    else if x.free < Total(ms) + MIN_WORKSPACE_FREE_RESERVE_BYTES then Failed(WorkspaceReserve, |ms|)
    else Result(Accepted, [], |ms|)
  }

  lemma {:induction false} TotalSnoc(ms: seq<Descriptor>, m: Descriptor)
    ensures Total(ms + [m]) == Total(ms) + SizeOf(m.uncompressed)
    ensures TotalCompressed(ms + [m]) == TotalCompressed(ms) + SizeOf(m.compressed)
  {
    if ms == [] {
      assert ms + [m] == [m];
    } else {
      assert (ms + [m])[1..] == ms[1..] + [m];
      TotalSnoc(ms[1..], m);
    }
  }

  /** Once each member passed its own ratio check the totals pass theirs: the aggregate checks can never fire. */
  lemma {:induction false} AggregateRatioHolds(env: Env, ms: seq<Descriptor>)
    requires AllGood(env, ms)
    ensures 0 <= Total(ms) <= MAX_COMPRESSION_RATIO * TotalCompressed(ms)
    ensures !(Total(ms) > 0 && TotalCompressed(ms) == 0)
  {
    hide GoodMember;
    if ms != [] {
      GoodRatio(env, ms[0]);
      AggregateRatioHolds(env, ms[1..]);
    }
  }

  lemma GoodRatio(env: Env, m: Descriptor)
    requires GoodMember(env, m)
    ensures 0 <= SizeOf(m.uncompressed) <= MAX_COMPRESSION_RATIO * SizeOf(m.compressed)
    ensures m.compressed.Some? && m.uncompressed.Some?
  {
    hide SafeLocator;
  }

  /** The loop of `validate_archive_safety`: running totals and a dictionary of canonical paths. */
  method CheckMembers(env: Env, ms: seq<Descriptor>) returns (violation: Option<Violation>, total: int)
    ensures violation == FirstViolation(env, ms)
    ensures violation.None? ==> total == Total(ms)
  {
    hide MemberViolation, EntryOf, ConflictFree, ParentChildConflict, MapOf, FirstViolation, ViolationBehind, Total,
         TotalCompressed, AllGood, GoodMember, EntriesOf;
    var totalCompressed := 0;
    total := 0;
    var canonical: map<string, bool> := map[];
    var i := 0;
    NothingChecked(env);
    assert ms[..0] == [];
    while i < |ms|
      invariant 0 <= i <= |ms|
      invariant FirstViolation(env, ms[..i]).None? && AllGood(env, ms[..i])
      invariant total == Total(ms[..i]) && totalCompressed == TotalCompressed(ms[..i])
      invariant ConflictFree(EntriesOf(env, ms[..i])) && MapOf(canonical, EntriesOf(env, ms[..i]))
    {
      var m := ms[i];
      assert ms[..i + 1] == ms[..i] + [m];
      FirstIsBehind(env, ms, i);
      violation := MemberViolation(env, m);
      if violation.Some? {
        OwnViolation(env, ms[..i], m);
        return;
      }
      NoViolationIffGood(env, m);
      GoodRatio(env, m);
      AllGoodSnoc(env, ms[..i], m);
      TotalSnoc(ms[..i], m);
      totalCompressed := totalCompressed + m.compressed.value;
      total := total + m.uncompressed.value;
      AggregateRatioHolds(env, ms[..i + 1]);
      var e := EntryOf(env, m);
      PlaceViolation(env, ms[..i], m, canonical);
      if total > MAX_TOTAL_UNCOMPRESSED_BYTES {
        return Some(TotalUncompressedLimit), total;
      }
      if total > 0 && totalCompressed == 0 {
        assert false;
      }
      if totalCompressed > 0 && total > totalCompressed * MAX_COMPRESSION_RATIO {
        assert false;
      }
      if e.key in canonical {
        return Some(PathCollision), total;
      }
      if ParentChildConflict(e.key, e.isDir, canonical) {
        return Some(ParentChildClash), total;
      }
      canonical := canonical[e.key := e.isDir];
      i := i + 1;
    }
    assert ms[..|ms|] == ms;
    violation := None;
  }

  /** `validate_archive_safety`. */
  method Validate(env: Env, ms: seq<Descriptor>, x: Inputs) returns (r: Result)
    ensures r == Verdict(env, ms, x)
  {
    hide FirstViolation, Total;
    if InputViolation(ms, x).Some? {
      return Failed(InputViolation(ms, x).value, 0);
    }
    var violation, total := CheckMembers(env, ms);
    if violation.Some? {
      return Failed(violation.value, |ms|);
    }
    if total > x.capacity {
      return Failed(WorkspaceLimit, |ms|);
    }
    if x.free < total + MIN_WORKSPACE_FREE_RESERVE_BYTES {
      return Failed(WorkspaceReserve, |ms|);
    }
    return Result(Accepted, [], |ms|);
  }

  lemma NothingChecked(env: Env)
    ensures FirstViolation(env, []).None? && AllGood(env, []) && Total([]) == 0 && TotalCompressed([]) == 0
    ensures ConflictFree(EntriesOf(env, [])) && MapOf(map[], EntriesOf(env, []))
  {
    NothingMapped(env);
  }

  /** Behind members without a violation the first violation is the next member's, if it has one. */
  lemma FirstIsBehind(env: Env, ms: seq<Descriptor>, i: nat)
    requires i < |ms| && FirstViolation(env, ms[..i]).None?
    ensures FirstViolation(env, ms[..i + 1]) == ViolationBehind(env, ms[..i], ms[i])
    ensures ViolationBehind(env, ms[..i], ms[i]).Some? ==>
              FirstViolation(env, ms) == ViolationBehind(env, ms[..i], ms[i])
  {
    hide ViolationBehind;
    var part := ms[..i + 1];
    assert part[..|part| - 1] == ms[..i] && part[|part| - 1] == ms[i];
    if ViolationBehind(env, ms[..i], ms[i]).Some? { FirstStays(env, ms, i + 1); }
  }

  lemma OwnViolation(env: Env, before: seq<Descriptor>, m: Descriptor)
    requires MemberViolation(env, m).Some?
    ensures ViolationBehind(env, before, m) == MemberViolation(env, m)
  {
  }

  /** For a member that is fine by itself, the dictionary gives the same answer as looking at every earlier member. */
  lemma PlaceViolation(env: Env, before: seq<Descriptor>, m: Descriptor, canonical: map<string, bool>)
    requires MemberViolation(env, m).None?
    requires ConflictFree(EntriesOf(env, before)) && MapOf(canonical, EntriesOf(env, before))
    ensures var e := EntryOf(env, m);
            var v := ViolationBehind(env, before, m);
            && v == (if Total(before + [m]) > MAX_TOTAL_UNCOMPRESSED_BYTES then Some(TotalUncompressedLimit)
                     else if e.key in canonical then Some(PathCollision)
                     else if ParentChildConflict(e.key, e.isDir, canonical) then Some(ParentChildClash)
                     else None)
            && (v.None? ==> ConflictFree(EntriesOf(env, before + [m]))
                            && MapOf(canonical[e.key := e.isDir], EntriesOf(env, before + [m])))
  {
    hide MemberViolation, EntryOf, ConflictFree, ParentChildConflict, MapOf, Total;
    EntriesSnoc(env, before, m);
    CollidesIffMapped(env, before, canonical, EntryOf(env, m).key);
    CheckIsPairwise(EntriesOf(env, before), EntryOf(env, m), canonical);
  }

  lemma NothingMapped(env: Env)
    ensures ConflictFree(EntriesOf(env, [])) && MapOf(map[], EntriesOf(env, []))
  {
  }

  lemma EntriesSnoc(env: Env, ms: seq<Descriptor>, m: Descriptor)
    ensures EntriesOf(env, ms + [m]) == EntriesOf(env, ms) + [EntryOf(env, m)]
  {
    hide EntryOf;
  }

  lemma AllGoodSnoc(env: Env, ms: seq<Descriptor>, m: Descriptor)
    requires AllGood(env, ms) && GoodMember(env, m)
    ensures AllGood(env, ms + [m])
  {
    hide GoodMember;
  }

  lemma CollidesIffMapped(env: Env, ms: seq<Descriptor>, canonical: map<string, bool>, key: string)
    requires MapOf(canonical, EntriesOf(env, ms))
    ensures key in canonical <==> exists i :: 0 <= i < |ms| && EntryOf(env, ms[i]).key == key
  {
    hide EntryOf;
    var es := EntriesOf(env, ms);
    if key in canonical {
      var i :| 0 <= i < |es| && es[i].key == key;
      assert EntryOf(env, ms[i]).key == key;
    }
    if i :| 0 <= i < |ms| && EntryOf(env, ms[i]).key == key {
      assert es[i].key == key;
    }
  }

  /** A violation found in a leading part is the first of the whole list. */
  lemma {:induction false} FirstStays(env: Env, ms: seq<Descriptor>, k: nat)
    requires k <= |ms| && FirstViolation(env, ms[..k]).Some?
    ensures FirstViolation(env, ms) == FirstViolation(env, ms[..k])
    decreases |ms|
  {
    hide ViolationBehind;
    if k == |ms| {
      assert ms[..k] == ms;
    } else {
      var front := ms[..|ms| - 1];
      assert front[..k] == ms[..k];
      FirstStays(env, front, k);
    }
  }

  // ---------- the code against the policy ----------

  lemma {:induction false} NoViolationIffPolicy(env: Env, ms: seq<Descriptor>)
    ensures FirstViolation(env, ms).None?
       <==> AllGood(env, ms) && Total(ms) <= MAX_TOTAL_UNCOMPRESSED_BYTES && ConflictFree(EntriesOf(env, ms))
    decreases |ms|
  {
    hide ViolationBehind, AllGood, GoodMember, ConflictFree, EntriesOf;
    if ms == [] {
      NothingChecked(env);
    } else {
      var front, m := ms[..|ms| - 1], ms[|ms| - 1];
      assert ms == front + [m];
      NoViolationIffPolicy(env, front);
      NothingBehindIff(env, front, m);
      PolicyOfFront(env, front, m);
    }
  }

  lemma NothingBehindIff(env: Env, front: seq<Descriptor>, m: Descriptor)
    ensures ViolationBehind(env, front, m).None?
       <==> GoodMember(env, m) && Total(front + [m]) <= MAX_TOTAL_UNCOMPRESSED_BYTES
            && ConflictFree(EntriesOf(env, front + [m]))
  {
    hide MemberViolation, GoodMember, EntryOf, ConflictFree, EntriesOf;
    NoViolationIffGood(env, m);
    if exists i :: 0 <= i < |front| && EntryOf(env, front[i]).key == EntryOf(env, m).key {
      CollisionIsConflict(env, front, m);
    }
  }

  /** What the policy asks of all members it asks of those in front of the last. */
  lemma PolicyOfFront(env: Env, front: seq<Descriptor>, m: Descriptor)
    ensures AllGood(env, front + [m]) <==> AllGood(env, front) && GoodMember(env, m)
    ensures GoodMember(env, m) ==> Total(front) <= Total(front + [m])
    ensures ConflictFree(EntriesOf(env, front + [m])) ==> ConflictFree(EntriesOf(env, front))
  {
    hide GoodMember, EntryOf, ConflictFree, EntriesOf, Total;
    var ms := front + [m];
    assert ms[|front|] == m && ms[..|front|] == front;
    if AllGood(env, ms) {
      forall i | 0 <= i < |front| ensures GoodMember(env, front[i]) {
        assert ms[i] == front[i];
      }
    }
    if AllGood(env, front) && GoodMember(env, m) { AllGoodSnoc(env, front, m); }
    TotalSnoc(front, m);
    if GoodMember(env, m) { GoodRatio(env, m); }
    EntriesSnoc(env, front, m);
    FrontConflictFree(EntriesOf(env, front), EntryOf(env, m));
  }

  lemma FrontConflictFree(es: seq<Entry>, e: Entry)
    ensures ConflictFree(es + [e]) ==> ConflictFree(es)
  {
    hide Compatible;
    if ConflictFree(es + [e]) {
      forall i, j | 0 <= i < j < |es| ensures Compatible(es[i], es[j]) {
        assert (es + [e])[i] == es[i] && (es + [e])[j] == es[j];
      }
    }
  }

  lemma CollisionIsConflict(env: Env, before: seq<Descriptor>, m: Descriptor)
    requires exists i :: 0 <= i < |before| && EntryOf(env, before[i]).key == EntryOf(env, m).key
    ensures !ConflictFree(EntriesOf(env, before + [m]))
  {
    hide EntryOf, Clash;
    var i :| 0 <= i < |before| && EntryOf(env, before[i]).key == EntryOf(env, m).key;
    var es := EntriesOf(env, before + [m]);
    assert es[i] == EntryOf(env, before[i]) && es[|before|] == EntryOf(env, m);
    assert !Compatible(es[i], es[|before|]);
  }

  /** The one-pass check accepts exactly what the policy accepts, and its result is always one its constructor takes. */
  lemma AcceptsExactlyThePolicy(env: Env, ms: seq<Descriptor>, x: Inputs)
    ensures Verdict(env, ms, x).status == Accepted <==> Acceptable(env, ms, x)
    ensures Verdict(env, ms, x).Constructible()
  {
    hide FirstViolation, AllGood, ConflictFree;
    NoViolationIffPolicy(env, ms);
  }

  // ---------- order ----------

  lemma {:induction false} TotalIgnoresOrder(a: seq<Descriptor>, b: seq<Descriptor>)
    requires SameElements(a, b)
    ensures Total(a) == Total(b)
    decreases |a|
  {
    SameLength(a, b);
    if a != [] {
      var k := FindHead(a, b);
      TotalIgnoresOrder(a[1..], Without(b, k));
      TotalWithout(b, k);
    }
  }

  lemma {:induction false} TotalWithout(b: seq<Descriptor>, k: nat)
    requires k < |b|
    ensures Total(b) == SizeOf(b[k].uncompressed) + Total(Without(b, k))
  {
    if k == 0 {
      assert Without(b, 0) == b[1..];
    } else {
      assert Without(b, k)[1..] == Without(b[1..], k - 1);
      TotalWithout(b[1..], k - 1);
    }
  }

  /** Entry x goes with every entry of es. */
  predicate GoesWith(x: Entry, es: seq<Entry>) { forall i :: 0 <= i < |es| ==> Compatible(x, es[i]) }

  lemma CompatibleIsSymmetric(a: Entry, b: Entry)
    ensures Compatible(a, b) <==> Compatible(b, a)
  {
  }

  lemma ConflictFreeWithout(es: seq<Entry>, k: nat)
    requires k < |es|
    ensures ConflictFree(es) <==> GoesWith(es[k], Without(es, k)) && ConflictFree(Without(es, k))
  {
    hide Compatible;
    var rest := Without(es, k);
    if ConflictFree(es) {
      forall i | 0 <= i < |rest| ensures Compatible(es[k], rest[i]) {
        if i < k { CompatibleIsSymmetric(es[i], es[k]); }
      }
      forall i, j | 0 <= i < j < |rest| ensures Compatible(rest[i], rest[j]) {
        assert rest[i] == es[if i < k then i else i + 1] && rest[j] == es[if j < k then j else j + 1];
      }
    }
    if GoesWith(es[k], rest) && ConflictFree(rest) {
      forall i, j | 0 <= i < j < |es| ensures Compatible(es[i], es[j]) {
        if i == k {
          assert es[j] == rest[j - 1];
        } else if j == k {
          assert es[i] == rest[i];
          CompatibleIsSymmetric(es[i], es[k]);
        } else {
          assert es[i] == rest[if i < k then i else i - 1] && es[j] == rest[if j < k then j else j - 1];
        }
      }
    }
  }

  lemma {:induction false} ConflictFreeIgnoresOrder(a: seq<Entry>, b: seq<Entry>)
    requires SameElements(a, b)
    ensures ConflictFree(a) <==> ConflictFree(b)
    decreases |a|
  {
    hide Compatible, ConflictFree, GoesWith;
    SameLength(a, b);
    if a == [] {
      assert a == b;
    } else {
      var k := FindHead(a, b);
      ConflictFreeIgnoresOrder(a[1..], Without(b, k));
      assert Without(a, 0) == a[1..];
      ConflictFreeWithout(a, 0);
      ConflictFreeWithout(b, k);
      GoesWithIgnoresOrder(a[0], a[1..], Without(b, k));
    }
  }

  lemma GoesWithIgnoresOrder(x: Entry, a: seq<Entry>, b: seq<Entry>)
    requires SameElements(a, b)
    ensures GoesWith(x, a) <==> GoesWith(x, b)
  {
    hide Compatible;
    SameMembers(a, b);
    assert forall e :: e in a ==> e in b;
    assert GoesWith(x, a) <==> forall e :: e in a ==> Compatible(x, e);
    assert GoesWith(x, b) <==> forall e :: e in b ==> Compatible(x, e);
  }

  lemma {:induction false} EntriesIgnoreOrder(env: Env, a: seq<Descriptor>, b: seq<Descriptor>)
    requires SameElements(a, b)
    ensures SameElements(EntriesOf(env, a), EntriesOf(env, b))
    decreases |a|
  {
    hide EntryOf;
    SameLength(a, b);
    if a != [] {
      var k := FindHead(a, b);
      EntriesIgnoreOrder(env, a[1..], Without(b, k));
      assert EntriesOf(env, a) == [EntryOf(env, a[0])] + EntriesOf(env, a[1..]);
      WithoutElements(EntriesOf(env, b), k);
      assert Without(EntriesOf(env, b), k) == EntriesOf(env, Without(b, k));
    }
  }

  /** Acceptance does not depend on the order in which the members are listed. */
  lemma AcceptanceIgnoresOrder(env: Env, a: seq<Descriptor>, b: seq<Descriptor>, x: Inputs)
    requires SameElements(a, b)
    ensures Verdict(env, a, x).status == Accepted <==> Verdict(env, b, x).status == Accepted
  {
    hide Verdict, ConflictFree, GoodMember, Total, EntriesOf;
    AcceptsExactlyThePolicy(env, a, x);
    AcceptsExactlyThePolicy(env, b, x);
    SameLength(a, b);
    TotalIgnoresOrder(a, b);
    EntriesIgnoreOrder(env, a, b);
    ConflictFreeIgnoresOrder(EntriesOf(env, a), EntriesOf(env, b));
    SameMembers(a, b);
    assert AllGood(env, a) <==> forall m :: m in a ==> GoodMember(env, m);
    assert AllGood(env, b) <==> forall m :: m in b ==> GoodMember(env, m);
  }
}

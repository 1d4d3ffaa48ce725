/**
Why the safety policy refuses: when a refusal is a limit and when a matter of policy, said of inputs and members alone.
*/
module SafetyRefusals {
  import opened Prelude
  import opened PolicyLimits
  import opened Locators
  import opened SafetyPolicy

  // ---------- one member ----------

  /** Not a file or directory at a safe place with known sizes. */
  predicate Inadmissible(env: Env, m: Descriptor) {
    || (m.kind != RegularFile && m.kind != Directory) || !SafeLocator(m.locator, env.upper)
    || m.compressed.None? || m.uncompressed.None? || m.compressed.value < 0 || m.uncompressed.value < 0
  }

  /** An admissible member that is too big, or too big for its compressed size. */
  predicate Oversized(env: Env, m: Descriptor) {
    && !Inadmissible(env, m)
    && (m.uncompressed.value > MAX_SINGLE_MEMBER_BYTES
        || m.uncompressed.value > MAX_COMPRESSION_RATIO * m.compressed.value)
  }

  /** An admissible member within the limits that is an archive itself or carries special metadata. */
  predicate Special(env: Env, m: Descriptor) {
    !Inadmissible(env, m) && !Oversized(env, m) && (m.nestedArchive || m.SpecialMetadata())
  }

  lemma GoodIsNothingOfThese(env: Env, m: Descriptor)
    ensures GoodMember(env, m) <==> !Inadmissible(env, m) && !Oversized(env, m) && !Special(env, m)
  {
    hide SafeLocator;
  }

  // ---------- a member among others ----------

  /** The first k members are fine: each by itself, in total, and among one another. */
  predicate FineUpTo(env: Env, ms: seq<Descriptor>, k: nat)
    requires k <= |ms|
  {
    && AllGood(env, ms[..k]) && Total(ms[..k]) <= MAX_TOTAL_UNCOMPRESSED_BYTES && ConflictFree(EntriesOf(env, ms[..k]))
  }

  /** The k-th member is the first that is not fine, and it breaks a limit: its own or the total. */
  predicate BreaksLimit(env: Env, ms: seq<Descriptor>, k: nat)
    requires k < |ms|
  {
    && FineUpTo(env, ms, k)
    && (Oversized(env, ms[k])
        || (GoodMember(env, ms[k]) && Total(ms[..k + 1]) > MAX_TOTAL_UNCOMPRESSED_BYTES))
  }

  /** The k-th member is the first that is not fine, and it breaks no limit: it is inadmissible or special, or its path
      collides with that of an earlier member. */
  predicate BreaksPolicy(env: Env, ms: seq<Descriptor>, k: nat)
    requires k < |ms|
  {
    && FineUpTo(env, ms, k)
    && (Inadmissible(env, ms[k]) || Special(env, ms[k])
        || (GoodMember(env, ms[k]) && Total(ms[..k + 1]) <= MAX_TOTAL_UNCOMPRESSED_BYTES
            && !ConflictFree(EntriesOf(env, ms[..k + 1]))))
  }

  predicate IsLimit(v: Violation) { Failed(v, 0).status == LimitExceeded }

  lemma OwnViolationIs(env: Env, m: Descriptor)
    ensures MemberViolation(env, m).Some? ==> (IsLimit(MemberViolation(env, m).value) <==> Oversized(env, m))
    ensures MemberViolation(env, m).Some? <==> Inadmissible(env, m) || Oversized(env, m) || Special(env, m)
  {
    hide SafeLocator;
  }

  lemma BehindIs(env: Env, ms: seq<Descriptor>, k: nat)
    requires k < |ms| && FineUpTo(env, ms, k)
    ensures var v := ViolationBehind(env, ms[..k], ms[k]);
            && (v.Some? && IsLimit(v.value) <==> BreaksLimit(env, ms, k))
            && (v.Some? && !IsLimit(v.value) <==> BreaksPolicy(env, ms, k))
  {
    hide MemberViolation, Oversized, Special, Inadmissible, GoodMember, ConflictFree, EntriesOf, AllGood, EntryOf,
         Total;
    assert ms[..k + 1] == ms[..k] + [ms[k]];
    OwnViolationIs(env, ms[k]);
    GoodIsNothingOfThese(env, ms[k]);
    OnlyOne(env, ms[k]);
    if exists i :: 0 <= i < |ms[..k]| && EntryOf(env, ms[..k][i]).key == EntryOf(env, ms[k]).key {
      CollisionIsConflict(env, ms[..k], ms[k]);
    }
  }

  lemma OnlyOne(env: Env, m: Descriptor)
    ensures !(Inadmissible(env, m) && Oversized(env, m)) && !(Special(env, m) && Oversized(env, m))
  {
    hide SafeLocator;
  }

  // ---------- the first violation ----------

  lemma FineIffNone(env: Env, ms: seq<Descriptor>, k: nat)
    requires k <= |ms|
    ensures FineUpTo(env, ms, k) <==> FirstViolation(env, ms[..k]).None?
  {
    hide AllGood, ConflictFree, EntriesOf, FirstViolation, Total;
    NoViolationIffPolicy(env, ms[..k]);
  }

  /** Where the first violation is. */
  lemma {:induction false} FindFirst(env: Env, ms: seq<Descriptor>, n: nat) returns (k: nat)
    requires n <= |ms| && FirstViolation(env, ms[..n]).Some?
    ensures k < n && FirstViolation(env, ms[..k]).None?
    ensures FirstViolation(env, ms) == ViolationBehind(env, ms[..k], ms[k])
            && ViolationBehind(env, ms[..k], ms[k]).Some?
  {
    hide ViolationBehind, FirstViolation;
    if n == 0 {
      NothingFirst(env);
    } else if FirstViolation(env, ms[..n - 1]).Some? {
      k := FindFirst(env, ms, n - 1);
    } else {
      k := n - 1;
      FirstIsBehind(env, ms, k);
    }
  }

  lemma NothingFirst(env: Env)
    ensures forall ms: seq<Descriptor> :: FirstViolation(env, ms[..0]).None?
  {
    forall ms: seq<Descriptor> ensures FirstViolation(env, ms[..0]).None? {
      assert ms[..0] == [];
    }
  }

  lemma FirstIs(env: Env, ms: seq<Descriptor>)
    ensures FirstViolation(env, ms).Some? && IsLimit(FirstViolation(env, ms).value)
       <==> exists k :: 0 <= k < |ms| && BreaksLimit(env, ms, k)
    ensures FirstViolation(env, ms).Some? && !IsLimit(FirstViolation(env, ms).value)
       <==> exists k :: 0 <= k < |ms| && BreaksPolicy(env, ms, k)
  {
    hide ViolationBehind, FirstViolation, BreaksLimit, BreaksPolicy, FineUpTo, IsLimit;
    forall k | 0 <= k < |ms| && (BreaksLimit(env, ms, k) || BreaksPolicy(env, ms, k))
      ensures FirstViolation(env, ms) == ViolationBehind(env, ms[..k], ms[k]) && FineUpTo(env, ms, k)
    {
      BreakIsFirst(env, ms, k);
    }
    forall k | 0 <= k < |ms| && FineUpTo(env, ms, k)
      ensures var v := ViolationBehind(env, ms[..k], ms[k]);
              && (v.Some? && IsLimit(v.value) <==> BreaksLimit(env, ms, k))
              && (v.Some? && !IsLimit(v.value) <==> BreaksPolicy(env, ms, k))
    {
      BehindIs(env, ms, k);
    }
    if FirstViolation(env, ms).Some? {
      assert ms[..|ms|] == ms;
      var k := FindFirst(env, ms, |ms|);
      FineIffNone(env, ms, k);
    }
  }

  lemma BreakIsFirst(env: Env, ms: seq<Descriptor>, k: nat)
    requires k < |ms| && (BreaksLimit(env, ms, k) || BreaksPolicy(env, ms, k))
    ensures FirstViolation(env, ms) == ViolationBehind(env, ms[..k], ms[k]) && FineUpTo(env, ms, k)
  {
    hide ViolationBehind, FirstViolation, FineUpTo, IsLimit, GoodMember, Oversized, Inadmissible, Special, ConflictFree,
         EntriesOf, Total;
    FineIffNone(env, ms, k);
    BehindIs(env, ms, k);
    FirstIsBehind(env, ms, k);
  }

  // ---------- the verdict ----------

  /** The call itself is out of bounds. */
  predicate InputsOverLimit(ms: seq<Descriptor>, x: Inputs) {
    || |ms| > MAX_MEMBER_COUNT || x.volumeCount < 1 || x.volumeCount > MAX_VOLUME_COUNT
    || x.capacity < 0 || x.capacity > MAX_WORKSPACE_BYTES || x.free < 0
  }

  /** LIMIT_EXCEEDED exactly when the inputs are out of bounds, or the first member that is not fine breaks a limit, or
      fine members do not fit the workspace or its reserve; POLICY_REJECTED exactly for an overlap or when the first
      member that is not fine breaks no limit. */
  lemma RefusedExactly(env: Env, ms: seq<Descriptor>, x: Inputs)
    ensures Verdict(env, ms, x).status == LimitExceeded
       <==> InputsOverLimit(ms, x)
            || (!x.overlaps
                && ((exists k :: 0 <= k < |ms| && BreaksLimit(env, ms, k))
                    || (FineUpTo(env, ms, |ms|)
                        && (Total(ms) > x.capacity || x.free < Total(ms) + MIN_WORKSPACE_FREE_RESERVE_BYTES))))
    ensures Verdict(env, ms, x).status == PolicyRejected
       <==> !InputsOverLimit(ms, x) && (x.overlaps || exists k :: 0 <= k < |ms| && BreaksPolicy(env, ms, k))
  {
    hide FirstViolation, BreaksLimit, BreaksPolicy, FineUpTo, Total;
    FirstIs(env, ms);
    assert ms[..|ms|] == ms;
    FineIffNone(env, ms, |ms|);
  }

  // ---------- the code of a refusal ----------

  /** The code a member earns by itself. */
  predicate EarnsCode(env: Env, m: Descriptor, v: Violation) {
    var known := m.compressed.Some? && m.uncompressed.Some?;
    var placed := m.kind in {RegularFile, Directory} && SafeLocator(m.locator, env.upper);
    match v
    case MemberKindRejected => m.kind !in {RegularFile, Directory}
    case PathInvalid => m.kind in {RegularFile, Directory} && !SafeLocator(m.locator, env.upper)
    case UnknownSize => placed && !known
    case NegativeSize => placed && known && (m.compressed.value < 0 || m.uncompressed.value < 0)
    case MemberSizeLimit => !Inadmissible(env, m) && m.uncompressed.value > MAX_SINGLE_MEMBER_BYTES
    case CompressionRatioLimit => Oversized(env, m) && m.uncompressed.value <= MAX_SINGLE_MEMBER_BYTES
    case NestedArchiveRejected => Special(env, m) && m.nestedArchive
    case MetadataRejected => Special(env, m) && !m.nestedArchive
    case _ => false
  }

  lemma OwnCode(env: Env, m: Descriptor, v: Violation)
    ensures MemberViolation(env, m) == Some(v) <==> EarnsCode(env, m, v)
  {
    hide SafeLocator;
  }

  predicate SharesKey(env: Env, ms: seq<Descriptor>, k: nat)
    requires k < |ms|
  {
    exists i :: 0 <= i < k && EntryOf(env, ms[i]).key == EntryOf(env, ms[k]).key
  }

  /** The k-th member is the first that is not fine, and this is its code. */
  predicate Blames(env: Env, ms: seq<Descriptor>, k: nat, v: Violation)
    requires k < |ms|
  {
    && FineUpTo(env, ms, k)
    && if !GoodMember(env, ms[k]) then EarnsCode(env, ms[k], v)
       else if Total(ms[..k + 1]) > MAX_TOTAL_UNCOMPRESSED_BYTES then v == TotalUncompressedLimit
       else if SharesKey(env, ms, k) then v == PathCollision
       else v == ParentChildClash && !ConflictFree(EntriesOf(env, ms[..k + 1]))
  }

  lemma BehindBlames(env: Env, ms: seq<Descriptor>, k: nat, v: Violation)
    requires k < |ms| && FineUpTo(env, ms, k)
    ensures ViolationBehind(env, ms[..k], ms[k]) == Some(v) <==> Blames(env, ms, k, v)
  {
    hide MemberViolation, EarnsCode, GoodMember, ConflictFree, EntriesOf, AllGood, EntryOf, Total;
    var before := ms[..k];
    assert ms[..k + 1] == before + [ms[k]];
    OwnCode(env, ms[k], v);
    NoViolationIffGood(env, ms[k]);
    assert SharesKey(env, ms, k)
      <==> exists i :: 0 <= i < |before| && EntryOf(env, before[i]).key == EntryOf(env, ms[k]).key by {
      if i :| 0 <= i < k && EntryOf(env, ms[i]).key == EntryOf(env, ms[k]).key {
        assert EntryOf(env, before[i]).key == EntryOf(env, ms[k]).key;
      }
      if i :| 0 <= i < |before| && EntryOf(env, before[i]).key == EntryOf(env, ms[k]).key {
        assert EntryOf(env, ms[i]).key == EntryOf(env, ms[k]).key;
      }
    }
  }

  lemma FirstBlames(env: Env, ms: seq<Descriptor>, v: Violation)
    ensures FirstViolation(env, ms) == Some(v) <==> exists k :: 0 <= k < |ms| && Blames(env, ms, k, v)
  {
    hide ViolationBehind, FirstViolation, Blames, FineUpTo;
    if FirstViolation(env, ms) == Some(v) {
      assert ms[..|ms|] == ms;
      var k := FindFirst(env, ms, |ms|);
      FineIffNone(env, ms, k);
      BehindBlames(env, ms, k, v);
    }
    if k :| 0 <= k < |ms| && Blames(env, ms, k, v) {
      BlamedIsFine(env, ms, k, v);
      FineIffNone(env, ms, k);
      BehindBlames(env, ms, k, v);
      FirstIsBehind(env, ms, k);
    }
  }

  lemma BlamedIsFine(env: Env, ms: seq<Descriptor>, k: nat, v: Violation)
    requires k < |ms| && Blames(env, ms, k, v)
    ensures FineUpTo(env, ms, k)
  {
    hide FineUpTo, EarnsCode, GoodMember, ConflictFree, EntriesOf, SharesKey;
  }

  /** The code that the inputs earn before any member is looked at. */
  predicate InputsEarn(ms: seq<Descriptor>, x: Inputs, v: Violation) {
    match v
    case MemberCountLimit => |ms| > MAX_MEMBER_COUNT
    case VolumeCountLimit => |ms| <= MAX_MEMBER_COUNT && !(1 <= x.volumeCount <= MAX_VOLUME_COUNT)
    case WorkspaceLimit => InRange(ms, x) && !(0 <= x.capacity <= MAX_WORKSPACE_BYTES)
    case WorkspaceReserve => InRange(ms, x) && 0 <= x.capacity <= MAX_WORKSPACE_BYTES && x.free < 0
    case WorkspaceOverlap => !InputsOverLimit(ms, x) && x.overlaps
    case _ => false
  }

  predicate InRange(ms: seq<Descriptor>, x: Inputs) {
    |ms| <= MAX_MEMBER_COUNT && 1 <= x.volumeCount <= MAX_VOLUME_COUNT
  }

  /** A refusal carries the one code that the inputs, the first member that is not fine, or the workspace earn, in this
      order. */
  lemma RefusedWithCode(env: Env, ms: seq<Descriptor>, x: Inputs, v: Violation)
    ensures Verdict(env, ms, x).violations == [v]
       <==> InputsEarn(ms, x, v)
            || (!InputsOverLimit(ms, x) && !x.overlaps
                && ((exists k :: 0 <= k < |ms| && Blames(env, ms, k, v))
                    || (FineUpTo(env, ms, |ms|)
                        && if Total(ms) > x.capacity then v == WorkspaceLimit
                           else v == WorkspaceReserve && x.free < Total(ms) + MIN_WORKSPACE_FREE_RESERVE_BYTES)))
  {
    hide FirstViolation, Blames, FineUpTo, Total;
    assert ms[..|ms|] == ms;
    FirstBlames(env, ms, v);
    FineIffNone(env, ms, |ms|);
    assert Verdict(env, ms, x).violations == [v] ==> Verdict(env, ms, x).violations[0] == v;
  }
}

/**
The coordinator of bounded workspaces and the capabilities it hands out. Backend answers are parameters, so a method's
contract holds for every backend; ghost fields remember every capability granted and where every backend lease went.
*/
module QuotaSlots {
  import opened Prelude

  const MAX_WORKSPACE_BYTES := 8_589_934_592
  const MIN_HOST_RESERVE_BYTES := 1_073_741_824
  const MAX_SINGLE_FILE_BYTES := 2_147_483_648
  const MAX_ARCHIVE_MEMBERS := 10_000
  const MAX_ACTIVE_EXTRACTIONS := 2

  datatype WorkspaceState = Available | Leased | Returned | Quarantined | Unavailable

  datatype Limits = Limits(workspaceBytes: int, hostReserve: int, singleFile: int, members: int, activeExtractions: int)

  const LIMITS := Limits(MAX_WORKSPACE_BYTES, MIN_HOST_RESERVE_BYTES, MAX_SINGLE_FILE_BYTES, MAX_ARCHIVE_MEMBERS,
                         MAX_ACTIVE_EXTRACTIONS)

  /** A lease generation, at least 1 by the attestation's own constructor. */
  type Generation = n: int | n >= 1 witness 1

  datatype Identity = Identity(providerId: string, adapterProfile: string)

  datatype Attestation = Attestation(
    profile: string, compatibility: string, identity: Identity, slotId: string, leaseId: string, generation: Generation,
    fingerprint: Sha256, limits: Limits, state: WorkspaceState, empty: bool, authorized: bool)

  /** A well-typed backend lease; the two root handles are opaque. */
  datatype Lease = Lease(attestation: Attestation, inputRoot: int, outputRoot: int) {
    function Id(): (id: string) { attestation.leaseId }
  }

  datatype AcquireAnswer = AcquireRaises | NoCapacity | NotALease | Acquired(lease: Lease)

  datatype ReturnAnswer = ReturnRaises | NotAnAttestation | Attested(attestation: Attestation)

  // ---------- what the coordinator checks ----------

  predicate GoodLease(l: Lease, approved: set<Identity>) {
    var a := l.attestation;
    a.state == Leased && a.empty && a.authorized && a.limits == LIMITS && a.identity in approved
  }

  /** The returned attestation repeats the leased one, now empty and RETURNED. */
  predicate GoodReturn(leased: Attestation, answer: ReturnAnswer) {
    answer.Attested? && answer.attestation == leased.(state := Returned, empty := true, authorized := true)
  }

  /** A workspace was attested leased out, empty, ours to use, and of exactly the fixed limits. */
  predicate WasAttested(a: Attestation) {
    && a.state == Leased && a.empty && a.authorized
    && a.limits.workspaceBytes == MAX_WORKSPACE_BYTES && a.limits.hostReserve == MIN_HOST_RESERVE_BYTES
    && a.limits.singleFile == MAX_SINGLE_FILE_BYTES && a.limits.members == MAX_ARCHIVE_MEMBERS
    && a.limits.activeExtractions == MAX_ACTIVE_EXTRACTIONS
  }

  lemma GoodLeaseMeans(l: Lease, approved: set<Identity>)
    ensures GoodLease(l, approved) <==> WasAttested(l.attestation) && l.attestation.identity in approved
  {
    assert LIMITS == Limits(MAX_WORKSPACE_BYTES, MIN_HOST_RESERVE_BYTES, MAX_SINGLE_FILE_BYTES, MAX_ARCHIVE_MEMBERS,
                            MAX_ACTIVE_EXTRACTIONS);
  }

  /** The attestation is about the same lease of the same slot, and says that the workspace is back and empty. */
  predicate AttestsReturn(leased: Attestation, a: Attestation) {
    && a.profile == leased.profile && a.compatibility == leased.compatibility && a.identity == leased.identity
    && a.slotId == leased.slotId && a.leaseId == leased.leaseId && a.generation == leased.generation
    && a.fingerprint == leased.fingerprint && a.limits == leased.limits
    && a.state == Returned && a.empty && a.authorized
  }

  lemma GoodReturnMeans(leased: Attestation, answer: ReturnAnswer)
    ensures GoodReturn(leased, answer) <==> answer.Attested? && AttestsReturn(leased, answer.attestation)
  {
  }

  function PreviousGeneration(highest: map<string, Generation>, slot: string): (n: int) {
    if slot in highest then highest[slot] else 0
  }

  predicate FreshGrant(a: Attestation, identity: Option<Identity>, highest: map<string, Generation>) {
    (identity.Some? ==> a.identity == identity.value) && a.generation > PreviousGeneration(highest, a.slotId)
  }

  // ---------- what holds of a history of grants ----------

  /** Granted generations strictly increase per slot. */
  predicate Increasing(grants: seq<Attestation>) {
    forall i, j :: 0 <= i < j < |grants| && grants[i].slotId == grants[j].slotId ==>
        grants[i].generation < grants[j].generation
  }

  predicate OneIdentity(grants: seq<Attestation>, identity: Option<Identity>) {
    && (grants == [] <==> identity.None?)
    && forall i :: 0 <= i < |grants| ==> Some(grants[i].identity) == identity
  }

  /** The map holds for every slot granted so far the highest generation granted there, and no other slot. */
  predicate HighestOf(grants: seq<Attestation>, highest: map<string, Generation>) {
    && (forall i :: 0 <= i < |grants| ==>
          grants[i].slotId in highest && grants[i].generation <= highest[grants[i].slotId])
    && (forall slot :: slot in highest ==> Reached(grants, slot, highest[slot]))
  }

  predicate Reached(grants: seq<Attestation>, slot: string, g: Generation) {
    exists i :: 0 <= i < |grants| && grants[i].slotId == slot && grants[i].generation == g
  }

  predicate HistoryOk(grants: seq<Attestation>, identity: Option<Identity>, highest: map<string, Generation>) {
    Increasing(grants) && OneIdentity(grants, identity) && HighestOf(grants, highest)
  }

  lemma ReachedStays(grants: seq<Attestation>, a: Attestation, slot: string, g: Generation)
    requires Reached(grants, slot, g)
    ensures Reached(grants + [a], slot, g)
  {
    var i :| 0 <= i < |grants| && grants[i].slotId == slot && grants[i].generation == g;
    assert (grants + [a])[i] == grants[i];
  }

  lemma GrantKeepsHistory(grants: seq<Attestation>, identity: Option<Identity>, highest: map<string, Generation>,
                          a: Attestation)
    requires HistoryOk(grants, identity, highest) && FreshGrant(a, identity, highest)
    ensures HistoryOk(grants + [a], Some(a.identity), highest[a.slotId := a.generation])
  {
    hide Reached;
    var more, next := grants + [a], highest[a.slotId := a.generation];
    forall slot | slot in next ensures Reached(more, slot, next[slot]) {
      if slot == a.slotId {
        LastIsReached(grants, a);
      } else {
        ReachedStays(grants, a, slot, next[slot]);
      }
    }
  }

  lemma LastIsReached(grants: seq<Attestation>, a: Attestation)
    ensures Reached(grants + [a], a.slotId, a.generation)
  {
    assert (grants + [a])[|grants|] == a;
  }

  /** A grant is fresh exactly when the history may go on with it: the generations of its slot keep increasing and the
      backend is the same. */
  lemma FreshIffHistoryGoesOn(grants: seq<Attestation>, identity: Option<Identity>, highest: map<string, Generation>,
                              a: Attestation)
    requires HistoryOk(grants, identity, highest)
    ensures FreshGrant(a, identity, highest)
       <==> Increasing(grants + [a]) && forall i :: 0 <= i < |grants| ==> grants[i].identity == a.identity
  {
    var more := grants + [a];
    assert more[|grants|] == a && forall i :: 0 <= i < |grants| ==> more[i] == grants[i];
    if Increasing(more) && a.slotId in highest {
      assert Reached(grants, a.slotId, highest[a.slotId]);
      var i :| 0 <= i < |grants| && grants[i].slotId == a.slotId && grants[i].generation == highest[a.slotId];
      assert more[i].generation < more[|grants|].generation;
    }
    if grants != [] { assert Some(grants[0].identity) == identity; }
    if FreshGrant(a, identity, highest) {
      forall i, j | 0 <= i < j < |more| && more[i].slotId == more[j].slotId
        ensures more[i].generation < more[j].generation
      {
        if j == |grants| { assert grants[i].generation <= highest[a.slotId]; }
      }
    }
  }

  function LeasesOf(active: map<string, Capability>): (ls: set<Lease>) { set id | id in active :: active[id].lease }

  predicate UnderOwnIds(active: map<string, Capability>) { forall id :: id in active ==> active[id].lease.Id() == id }

  lemma LeasesWith(active: map<string, Capability>, c: Capability)
    requires UnderOwnIds(active) && c.lease.Id() !in active
    ensures multiset(LeasesOf(active[c.lease.Id() := c])) == multiset(LeasesOf(active)) + multiset{c.lease}
  {
    var more := active[c.lease.Id() := c];
    assert more[c.lease.Id()].lease == c.lease;
    forall l | l in LeasesOf(active) ensures l in LeasesOf(more) {
      var k :| k in active && active[k].lease == l;
      assert more[k].lease == l;
    }
    assert LeasesOf(more) == LeasesOf(active) + {c.lease};
    assert c.lease !in LeasesOf(active);
  }

  lemma Regroup<T>(a: multiset<T>, one: multiset<T>, r: multiset<T>, q: multiset<T>)
    ensures a + one + r + q == a + (r + one) + q == a + r + (q + one)
  {
  }

  /** The books stay right when a lease is obtained and goes out. */
  lemma AccountedWith(active: map<string, Capability>, c: Capability, obtained: multiset<Lease>,
                      returned: multiset<Lease>, quarantined: multiset<Lease>)
    requires UnderOwnIds(active) && c.lease.Id() !in active
    requires obtained == multiset(LeasesOf(active)) + returned + quarantined
    ensures obtained + multiset{c.lease}
         == multiset(LeasesOf(active[c.lease.Id() := c])) + returned + quarantined
    ensures |active[c.lease.Id() := c]| == |active| + 1
  {
    hide LeasesOf;
    LeasesWith(active, c);
    Regroup(multiset(LeasesOf(active)), multiset{c.lease}, returned, quarantined);
  }

  lemma LeasesWithout(active: map<string, Capability>, c: Capability)
    requires UnderOwnIds(active) && c.lease.Id() in active && active[c.lease.Id()] == c
    ensures multiset(LeasesOf(active)) == multiset(LeasesOf(active - {c.lease.Id()})) + multiset{c.lease}
    ensures |active - {c.lease.Id()}| == |active| - 1
  {
    var id := c.lease.Id();
    var fewer := active - {id};
    forall l | l in LeasesOf(active) ensures l in LeasesOf(fewer) + {c.lease} {
      var k :| k in active && active[k].lease == l;
      if k != id { assert fewer[k].lease == l; }
    }
    assert LeasesOf(active) == LeasesOf(fewer) + {c.lease};
    assert c.lease !in LeasesOf(fewer);
    assert active.Keys == fewer.Keys + {id};
  }

  // ---------- the books: what any sequence of calls leads to ----------

  /** A capability that was granted, with its present state. */
  datatype Entry = Entry(lease: Lease, state: WorkspaceState)

  /** Everything a coordinator keeps or owes: the grants in order and where every backend lease went. */
  datatype Books = Books(entries: seq<Entry>, identity: Option<Identity>, highest: map<string, Generation>,
                         obtained: multiset<Lease>, returned: multiset<Lease>, quarantined: multiset<Lease>)

  const EMPTY_BOOKS := Books([], None, map[], multiset{}, multiset{}, multiset{})

  /** Requests name capabilities by the order in which they were granted. */
  datatype Request = LeaseCall(answer: AcquireAnswer) | ReturnCall(which: nat, reply: ReturnAnswer)
                   | QuarantineCall(which: nat, raises: bool)

  function LeasedIds(entries: seq<Entry>): (ids: set<string>) {
    set i | 0 <= i < |entries| && entries[i].state == Leased :: entries[i].lease.Id()
  }

  /** The lease a request makes the backend hand over; a full coordinator does not ask. */
  function DrawnBy(b: Books, request: Request): (l: Option<Lease>) {
    if request.LeaseCall? && request.answer.Acquired? && |LeasedIds(b.entries)| < MAX_ACTIVE_EXTRACTIONS
    then Some(request.answer.lease) else None
  }

  function DrawnLeases(b: Books, request: Request): (ls: multiset<Lease>) {
    match DrawnBy(b, request) case None => multiset{} case Some(l) => multiset{l}
  }

  predicate Grantable(approved: set<Identity>, b: Books, l: Lease) {
    GoodLease(l, approved) && FreshGrant(l.attestation, b.identity, b.highest) && l.Id() !in LeasedIds(b.entries)
  }

  function Granting(b: Books, l: Lease): (r: Books) {
    Books(b.entries + [Entry(l, Leased)], Some(l.attestation.identity),
          b.highest[l.attestation.slotId := l.attestation.generation], b.obtained + multiset{l}, b.returned,
          b.quarantined)
  }

  /** An active capability leaves, its lease returned or in quarantine. */
  function Retiring(b: Books, which: nat, clean: bool): (r: Books)
    requires which < |b.entries|
  {
    var l := b.entries[which].lease;
    if clean then b.(entries := b.entries[which := Entry(l, Returned)], returned := b.returned + multiset{l})
    else b.(entries := b.entries[which := Entry(l, Quarantined)], quarantined := b.quarantined + multiset{l})
  }

  predicate ActiveEntry(b: Books, which: nat) { which < |b.entries| && b.entries[which].state == Leased }

  function Served(approved: set<Identity>, b: Books, request: Request): (r: Books) {
    match request
    case LeaseCall(_) =>
      (match DrawnBy(b, request)
       case None => b
       case Some(l) =>
         if Grantable(approved, b, l) then Granting(b, l)
         else b.(obtained := b.obtained + multiset{l}, quarantined := b.quarantined + multiset{l}))
    case ReturnCall(which, reply) =>
      if ActiveEntry(b, which) then Retiring(b, which, GoodReturn(b.entries[which].lease.attestation, reply)) else b
    case QuarantineCall(which, _) =>
      if ActiveEntry(b, which) then Retiring(b, which, false) else b
  }

  function ServedAll(approved: set<Identity>, b: Books, requests: seq<Request>): (r: Books) {
    if requests == [] then b
    else Served(approved, ServedAll(approved, b, requests[..|requests| - 1]), requests[|requests| - 1])
  }

  lemma ServedAllStarts(approved: set<Identity>, b: Books, requests: seq<Request>)
    ensures ServedAll(approved, b, requests[..0]) == b
  {
  }

  lemma ServedAllSnoc(approved: set<Identity>, b: Books, requests: seq<Request>, i: nat)
    requires i < |requests|
    ensures ServedAll(approved, b, requests[..i + 1])
         == Served(approved, ServedAll(approved, b, requests[..i]), requests[i])
  {
    hide Served;
    assert requests[..i + 1][..i] == requests[..i];
  }

  /** The leases the backend hands over in the course of the requests. */
  function Drawn(approved: set<Identity>, b: Books, requests: seq<Request>): (ls: multiset<Lease>) {
    if requests == [] then multiset{}
    else
      var front := requests[..|requests| - 1];
      Drawn(approved, b, front) + DrawnLeases(ServedAll(approved, b, front), requests[|requests| - 1])
  }

  /** Once a capability is not LEASED it stays as it is for good, whatever is asked afterwards. */
  lemma {:induction false} GoneStaysGone(approved: set<Identity>, b: Books, requests: seq<Request>, j: nat)
    requires j < |b.entries|
    ensures var after := ServedAll(approved, b, requests).entries;
            && |b.entries| <= |after| && after[j].lease == b.entries[j].lease
            && (b.entries[j].state != Leased ==> after[j] == b.entries[j])
  {
    hide Served;
    if requests != [] {
      var front := requests[..|requests| - 1];
      GoneStaysGone(approved, b, front, j);
      ServedKeepsGone(approved, ServedAll(approved, b, front), requests[|requests| - 1], j);
    }
  }

  lemma ServedKeepsGone(approved: set<Identity>, b: Books, request: Request, j: nat)
    requires j < |b.entries|
    ensures var after := Served(approved, b, request).entries;
            && |b.entries| <= |after| && after[j].lease == b.entries[j].lease
            && (b.entries[j].state != Leased ==> after[j] == b.entries[j])
  {
    hide DrawnBy, Grantable, GoodReturn;
  }

  /** The leases of the capabilities still LEASED. */
  function LeasedIn(entries: seq<Entry>): (ls: multiset<Lease>) {
    if entries == [] then multiset{}
    else
      var last := entries[|entries| - 1];
      LeasedIn(entries[..|entries| - 1]) + if last.state == Leased then multiset{last.lease} else multiset{}
  }

  lemma {:induction false} LeasedInAfter(entries: seq<Entry>, j: nat, e: Entry)
    requires j < |entries| && entries[j].state == Leased && e.state != Leased
    ensures LeasedIn(entries) == LeasedIn(entries[j := e]) + multiset{entries[j].lease}
    decreases |entries|
  {
    var n := |entries| - 1;
    if j < n {
      LeasedInAfter(entries[..n], j, e);
      assert entries[j := e][..n] == entries[..n][j := e];
    } else {
      assert entries[j := e][..n] == entries[..n];
    }
  }

  /** Every lease obtained is leased out, was cleanly returned, or was handed to quarantine. */
  predicate Balanced(b: Books) { b.obtained == LeasedIn(b.entries) + b.returned + b.quarantined }

  lemma ServedBalances(approved: set<Identity>, b: Books, request: Request)
    requires Balanced(b)
    ensures Balanced(Served(approved, b, request))
    ensures Served(approved, b, request).obtained == b.obtained + DrawnLeases(b, request)
  {
    hide LeasedIds, Grantable, GoodReturn, Balanced, Granting, Retiring;
    match request
    case LeaseCall(_) =>
      if DrawnBy(b, request).Some? {
        LeaseBalances(b, DrawnBy(b, request).value);
      }
    case ReturnCall(which, reply) =>
      if ActiveEntry(b, which) {
        RetiringBalances(b, which, GoodReturn(b.entries[which].lease.attestation, reply));
      }
    case QuarantineCall(which, _) =>
      if ActiveEntry(b, which) {
        RetiringBalances(b, which, false);
      }
  }

  lemma LeaseBalances(b: Books, l: Lease)
    requires Balanced(b)
    ensures Balanced(Granting(b, l)) && Granting(b, l).obtained == b.obtained + multiset{l}
    ensures Balanced(b.(obtained := b.obtained + multiset{l}, quarantined := b.quarantined + multiset{l}))
  {
    var more := b.entries + [Entry(l, Leased)];
    assert more[..|more| - 1] == b.entries;
  }

  lemma RetiringBalances(b: Books, which: nat, clean: bool)
    requires Balanced(b) && ActiveEntry(b, which)
    ensures Balanced(Retiring(b, which, clean)) && Retiring(b, which, clean).obtained == b.obtained
  {
    LeasedInAfter(b.entries, which, Entry(b.entries[which].lease, if clean then Returned else Quarantined));
  }

  /** Over any requests the leases obtained are exactly those drawn from the backend, and each is still leased out, was
      cleanly returned, or was handed to quarantine. */
  lemma {:induction false} EveryLeaseIsSomewhere(approved: set<Identity>, b: Books, requests: seq<Request>)
    requires Balanced(b)
    ensures Balanced(ServedAll(approved, b, requests))
    ensures ServedAll(approved, b, requests).obtained == b.obtained + Drawn(approved, b, requests)
  {
    hide Served, DrawnLeases, Balanced;
    if requests != [] {
      var front := requests[..|requests| - 1];
      EveryLeaseIsSomewhere(approved, b, front);
      ServedBalances(approved, ServedAll(approved, b, front), requests[|requests| - 1]);
    }
  }

  // ---------- capabilities ----------

  /** Single-use access to the roots of one lease. */
  class Capability {
    const lease: Lease
    const owner: Coordinator
    var state: WorkspaceState

    constructor (lease: Lease, owner: Coordinator)
      ensures this.lease == lease && this.owner == owner && state == Leased
    {
      this.lease, this.owner, state := lease, owner, Leased;
    }

    /** The roots it lends in its present state. */
    function Roots(): (roots: Option<(int, int)>)
      reads this
    {
      if state == Leased then Some((lease.inputRoot, lease.outputRoot)) else None
    }

    method BorrowRoots() returns (roots: Option<(int, int)>)
      ensures roots == Roots()
    {
      if state != Leased {
        return None;
      }
      return Some((lease.inputRoot, lease.outputRoot));
    }
  }

  function EntriesOf(granted: seq<Capability>): (entries: seq<Entry>)
    reads granted
    ensures |entries| == |granted|
    ensures forall i :: 0 <= i < |granted| ==> entries[i] == Entry(granted[i].lease, granted[i].state)
  {
    seq(|granted|, i requires 0 <= i < |granted| reads granted => Entry(granted[i].lease, granted[i].state))
  }

  /** The active map holds exactly the granted capabilities still LEASED, each under its own lease id. */
  ghost predicate ActiveIsLeased(me: Coordinator, active: map<string, Capability>, granted: seq<Capability>)
    reads granted
  {
    && UnderOwnIds(active)
    && (forall id :: id in active ==> active[id] in granted && active[id].state == Leased)
    && (forall i :: 0 <= i < |granted| ==> CapabilityOk(me, active, granted[i]))
  }

  ghost predicate CapabilityOk(me: Coordinator, active: map<string, Capability>, c: Capability)
    reads c
  {
    && c.owner == me && c.lease.attestation.identity in me.approved && WasAttested(c.lease.attestation)
    && c.state in {Leased, Returned, Quarantined}
    && (c.state == Leased ==> c.lease.Id() in active && active[c.lease.Id()] == c)
  }

  lemma FreshIsOk(me: Coordinator, active: map<string, Capability>, c: Capability)
    requires c.owner == me && c.state == Leased && GoodLease(c.lease, me.approved)
    ensures CapabilityOk(me, active[c.lease.Id() := c], c)
  {
    GoodLeaseMeans(c.lease, me.approved);
  }

  lemma GrantKeepsActive(me: Coordinator, active: map<string, Capability>, granted: seq<Capability>, c: Capability)
    requires ActiveIsLeased(me, active, granted) && c.lease.Id() !in active
    requires CapabilityOk(me, active[c.lease.Id() := c], c) && c.state == Leased && c !in granted
    ensures ActiveIsLeased(me, active[c.lease.Id() := c], granted + [c])
  {
    forall i | 0 <= i < |granted| ensures CapabilityOk(me, active[c.lease.Id() := c], granted[i]) {
      assert CapabilityOk(me, active, granted[i]);
    }
  }

  lemma ActiveUnderOwnIds(me: Coordinator, active: map<string, Capability>, granted: seq<Capability>)
    requires ActiveIsLeased(me, active, granted)
    ensures UnderOwnIds(active)
  {
  }

  datatype LeaseOutcome = Granted | NoneFree | LeaseError

  predicate AttestationsOf(grants: seq<Attestation>, granted: seq<Capability>) {
    |grants| == |granted| && forall i :: 0 <= i < |granted| ==> grants[i] == granted[i].lease.attestation
  }

  lemma AttestationsSnoc(grants: seq<Attestation>, granted: seq<Capability>, c: Capability)
    requires AttestationsOf(grants, granted)
    ensures AttestationsOf(grants + [c.lease.attestation], granted + [c])
  {
  }

  // ---------- the coordinator ----------

  class Coordinator {
    const approved: set<Identity>
    var active: map<string, Capability>
    var identity: Option<Identity>
    var highest: map<string, Generation>
    ghost var granted: seq<Capability>
    ghost var grants: seq<Attestation>
    ghost var obtained: multiset<Lease>
    ghost var returned: multiset<Lease>
    ghost var quarantined: multiset<Lease>

    /** `grants` lists the attestations of the capabilities granted, in order. */
    ghost predicate GrantsMatch()
      reads this
    {
      AttestationsOf(grants, granted)
    }

    /** Every well-typed backend lease is active, was cleanly returned, or was handed to quarantine. */
    ghost predicate LeasesAccountedFor()
      reads this
    {
      obtained == multiset(LeasesOf(active)) + returned + quarantined
    }

    ghost function View(): (b: Books)
      reads this, granted
    {
      Books(EntriesOf(granted), identity, highest, obtained, returned, quarantined)
    }

    ghost predicate Valid()
      reads this, granted
    {
      && |active| <= MAX_ACTIVE_EXTRACTIONS
      && ActiveIsLeased(this, active, granted) && GrantsMatch()
      && HistoryOk(grants, identity, highest)
      && LeasesAccountedFor()
    }

    constructor (approved: set<Identity>)
      ensures Valid() && fresh(this) && this.approved == approved && active == map[] && granted == []
      ensures View() == EMPTY_BOOKS
    {
      this.approved := approved;
      active, identity, highest, granted, grants := map[], None, map[], [], [];
      obtained, returned, quarantined := multiset{}, multiset{}, multiset{};
    }

    /** Nothing the coordinator keeps has changed. */
    twostate predicate Unchanged()
      reads this
    {
      active == old(active) && identity == old(identity) && highest == old(highest) && granted == old(granted)
    }

    /** `lease`, whatever the backend answers. */
    method LeaseOne(answer: AcquireAnswer) returns (outcome: LeaseOutcome, c: Capability?)
      requires Valid()
      modifies this
      ensures Valid()
      ensures outcome == Granted <==> c != null
      ensures outcome == Granted <==>
                && |old(active)| < MAX_ACTIVE_EXTRACTIONS && answer.Acquired? && GoodLease(answer.lease, approved)
                && FreshGrant(answer.lease.attestation, old(identity), old(highest))
                && answer.lease.Id() !in old(active)
      ensures outcome == NoneFree <==> |old(active)| >= MAX_ACTIVE_EXTRACTIONS || answer == NoCapacity
      ensures outcome == Granted ==>
                && fresh(c) && c.lease == answer.lease && c.state == Leased
                && active == old(active)[answer.lease.Id() := c] && granted == old(granted) + [c]
                && identity == Some(answer.lease.attestation.identity)
                && highest == old(highest)[answer.lease.attestation.slotId := answer.lease.attestation.generation]
      ensures outcome != Granted ==> Unchanged()
      ensures returned == old(returned)
      ensures var drawn := if |old(active)| < MAX_ACTIVE_EXTRACTIONS && answer.Acquired?
                           then multiset{answer.lease} else multiset{};
              && obtained == old(obtained) + drawn
              && quarantined == (if outcome == Granted then old(quarantined) else old(quarantined) + drawn)
    {
      hide HistoryOk, LeasesOf, GoodLease, FreshGrant, ActiveIsLeased, GrantsMatch;
      c := null;
      if |active| >= MAX_ACTIVE_EXTRACTIONS {
        return NoneFree, c;
      }
      if answer == NoCapacity {
        return NoneFree, c;
      }
      if !answer.Acquired? {
        return LeaseError, c;
      }
      var lease := answer.lease;
      if !GoodLease(lease, approved) || !FreshGrant(lease.attestation, identity, highest) || lease.Id() in active {
        HandToQuarantine(lease);
        return LeaseError, c;
      }
      c := Grant(lease);
      outcome := Granted;
    }

    /** A backend lease the coordinator will not grant. */
    method HandToQuarantine(lease: Lease)
      requires Valid()
      modifies this`obtained, this`quarantined
      ensures Valid() && quarantined == old(quarantined) + multiset{lease}
              && obtained == old(obtained) + multiset{lease}
    {
      hide HistoryOk, LeasesOf, CapabilityOk;
      obtained := obtained + multiset{lease};
      quarantined := quarantined + multiset{lease};
    }

    method Grant(lease: Lease) returns (c: Capability)
      requires Valid() && |active| < MAX_ACTIVE_EXTRACTIONS
      requires GoodLease(lease, approved) && FreshGrant(lease.attestation, identity, highest) && lease.Id() !in active
      modifies this`active, this`granted, this`grants, this`identity, this`highest, this`obtained
      ensures Valid() && fresh(c) && c.lease == lease && c.state == Leased
      ensures active == old(active)[lease.Id() := c] && granted == old(granted) + [c]
      ensures identity == Some(lease.attestation.identity)
      ensures highest == old(highest)[lease.attestation.slotId := lease.attestation.generation]
      ensures obtained == old(obtained) + multiset{lease}
    {
      hide HistoryOk, FreshGrant, LeasesOf, ActiveIsLeased, GoodLease;
      c := new Capability(lease, this);
      Admit(c);
    }

    method Admit(c: Capability)
      requires Valid() && |active| < MAX_ACTIVE_EXTRACTIONS
      requires GoodLease(c.lease, approved) && FreshGrant(c.lease.attestation, identity, highest)
      requires c.lease.Id() !in active && c !in granted && c.owner == this && c.state == Leased
      modifies this`active, this`granted, this`grants, this`identity, this`highest, this`obtained
      ensures Valid()
      ensures active == old(active)[c.lease.Id() := c] && granted == old(granted) + [c]
      ensures identity == Some(c.lease.attestation.identity)
      ensures highest == old(highest)[c.lease.attestation.slotId := c.lease.attestation.generation]
      ensures obtained == old(obtained) + multiset{c.lease}
    {
      hide HistoryOk, FreshGrant, LeasesOf, ActiveIsLeased, CapabilityOk, GoodLease, UnderOwnIds, AttestationsOf;
      GrantKeepsHistory(grants, identity, highest, c.lease.attestation);
      AttestationsSnoc(grants, granted, c);
      ActiveUnderOwnIds(this, active, granted);
      AccountedWith(active, c, obtained, returned, quarantined);
      FreshIsOk(this, active, c);
      GrantKeepsActive(this, active, granted, c);
      var a := c.lease.attestation;
      obtained := obtained + multiset{c.lease};
      active, identity, highest := active[c.lease.Id() := c], Some(a.identity), highest[a.slotId := a.generation];
      granted, grants := granted + [c], grants + [a];
      assert ActiveIsLeased(this, active, granted);
    }

    /** `__require_active`: the very object the map holds, still LEASED, of this coordinator. */
    predicate IsActive(c: Capability)
      reads this, c
    {
      c.owner == this && c.lease.Id() in active && active[c.lease.Id()] == c && c.state == Leased
    }

    /** Take an active capability out of the map, to a state it never leaves for LEASED. */
    method Retire(c: Capability, state: WorkspaceState)
      requires Valid() && IsActive(c) && state in {Returned, Quarantined}
      modifies this`active, c
      ensures c.state == state && active == old(active) - {c.lease.Id()} && c in granted
      ensures |active| == |old(active)| - 1
      ensures ActiveIsLeased(this, active, granted)
      ensures obtained == multiset(LeasesOf(active)) + multiset{c.lease} + returned + quarantined
    {
      hide HistoryOk, LeasesOf, CapabilityOk;
      LeasesWithout(active, c);
      Unmap(c, state);
    }

    method Unmap(c: Capability, state: WorkspaceState)
      requires ActiveIsLeased(this, active, granted) && IsActive(c) && state in {Returned, Quarantined}
      modifies this`active, c
      ensures c.state == state && active == old(active) - {c.lease.Id()} && c in granted
      ensures ActiveIsLeased(this, active, granted)
    {
      assert c in granted;
      assert forall id :: id in active && id != c.lease.Id() ==> active[id] != c;
      c.state := state;
      active := active - {c.lease.Id()};
      assert forall i :: 0 <= i < |granted| ==> CapabilityOk(this, active, granted[i]);
    }

    /** `_quarantine_after_failed_return`. */
    method QuarantineReturned(c: Capability)
      requires ActiveIsLeased(this, active, granted) && c in granted && c.state == Returned
      modifies c
      ensures ActiveIsLeased(this, active, granted) && c.state == Quarantined
    {
      assert forall id :: id in active ==> active[id] != c;
      c.state := Quarantined;
      assert forall i :: 0 <= i < |granted| ==> CapabilityOk(this, active, granted[i]);
    }

    /** The backend's answer to a return decides whether the lease is back or goes to quarantine. */
    method Settle(c: Capability, answer: ReturnAnswer) returns (ok: bool)
      requires |active| <= MAX_ACTIVE_EXTRACTIONS && ActiveIsLeased(this, active, granted) && GrantsMatch()
      requires HistoryOk(grants, identity, highest) && c in granted && c.state == Returned
      requires obtained == multiset(LeasesOf(active)) + multiset{c.lease} + returned + quarantined
      modifies this`returned, this`quarantined, c
      ensures Valid() && ok == GoodReturn(c.lease.attestation, answer)
      ensures c.state == (if ok then Returned else Quarantined)
      ensures returned == (if ok then old(returned) + multiset{c.lease} else old(returned))
      ensures quarantined == (if ok then old(quarantined) else old(quarantined) + multiset{c.lease})
    {
      hide HistoryOk, LeasesOf, GoodReturn, ActiveIsLeased, CapabilityOk, UnderOwnIds;
      Regroup(multiset(LeasesOf(active)), multiset{c.lease}, returned, quarantined);
      ok := GoodReturn(c.lease.attestation, answer);
      if ok {
        returned := returned + multiset{c.lease};
      } else {
        QuarantineReturned(c);
        quarantined := quarantined + multiset{c.lease};
      }
    }

    /** `return_capability`; false when it raises. */
    method ReturnCapability(c: Capability, answer: ReturnAnswer) returns (ok: bool)
      requires Valid()
      modifies this, c
      ensures Valid()
      ensures ok <==> old(IsActive(c)) && GoodReturn(c.lease.attestation, answer)
      ensures !old(IsActive(c)) ==> Unchanged() && c.state == old(c.state)
                                    && returned == old(returned) && quarantined == old(quarantined)
      ensures obtained == old(obtained)
      ensures old(IsActive(c)) ==>
                && active == old(active) - {c.lease.Id()} && granted == old(granted)
                && identity == old(identity) && highest == old(highest)
                && c.state == (if ok then Returned else Quarantined)
                && returned == (if ok then old(returned) + multiset{c.lease} else old(returned))
                && quarantined == (if ok then old(quarantined) else old(quarantined) + multiset{c.lease})
    {
      hide HistoryOk, LeasesOf, GoodReturn, ActiveIsLeased, CapabilityOk;
      if !IsActive(c) {
        return false;
      }
      Retire(c, Returned);
      ok := Settle(c, answer);
    }

    /** `quarantine_capability`; false when it raises, which the backend may make it do after the handover. */
    method QuarantineCapability(c: Capability, backendRaises: bool) returns (ok: bool)
      requires Valid()
      modifies this, c
      ensures Valid()
      ensures ok <==> old(IsActive(c)) && !backendRaises
      ensures !old(IsActive(c)) ==> Unchanged() && c.state == old(c.state)
                                    && returned == old(returned) && quarantined == old(quarantined)
      ensures obtained == old(obtained)
      ensures old(IsActive(c)) ==>
                && active == old(active) - {c.lease.Id()} && granted == old(granted) && c.state == Quarantined
                && identity == old(identity) && highest == old(highest)
                && returned == old(returned) && quarantined == old(quarantined) + multiset{c.lease}
    {
      hide HistoryOk, LeasesOf, GoodReturn, ActiveIsLeased, CapabilityOk;
      if !IsActive(c) {
        return false;
      }
      Retire(c, Quarantined);
      quarantined := quarantined + multiset{c.lease};
      return !backendRaises;
    }
  }

  // ---------- any sequence of calls ----------

  lemma LeasedIffActive(k: Coordinator, c: Capability)
    requires k.Valid() && c in k.granted
    ensures c.state == Leased <==> c in k.active.Values
    ensures WasAttested(c.lease.attestation) && c.lease.attestation.identity in k.approved
  {
    hide LeasesOf, HistoryOk, WasAttested;
    assert CapabilityOk(k, k.active, c);
    if c in k.active.Values {
      var id :| id in k.active && k.active[id] == c;
    }
  }

  lemma OfOneIdentity(k: Coordinator, c: Capability)
    requires k.Valid() && c in k.granted
    ensures Some(c.lease.attestation.identity) == k.identity
  {
    hide LeasesOf, ActiveIsLeased;
    var i :| 0 <= i < |k.granted| && k.granted[i] == c;
    assert k.grants[i] == c.lease.attestation;
  }

  lemma GenerationsIncrease(k: Coordinator, i: nat, j: nat)
    requires k.Valid() && i < j < |k.granted| && k.grants[i].slotId == k.grants[j].slotId
    ensures k.granted[i].lease.attestation.generation < k.granted[j].lease.attestation.generation
  {
    hide LeasesOf, ActiveIsLeased;
    assert k.grants[i] == k.granted[i].lease.attestation && k.grants[j] == k.granted[j].lease.attestation;
  }

  /** What `Valid` says of the capabilities ever granted: LEASED, and lending its roots, exactly while in the map; at
      most two at once; generations strictly increasing per slot; one backend identity for all; no lease lost or
      counted twice. */
  lemma ValidMeans(k: Coordinator)
    requires k.Valid()
    ensures forall c :: c in k.granted ==> (c.state == Leased <==> c in k.active.Values)
    ensures |set c | c in k.granted && c.state == Leased :: c.lease.Id()| <= MAX_ACTIVE_EXTRACTIONS
    ensures forall i, j :: 0 <= i < j < |k.granted| && k.grants[i].slotId == k.grants[j].slotId ==>
              k.granted[i].lease.attestation.generation < k.granted[j].lease.attestation.generation
    ensures forall c, d :: c in k.granted && d in k.granted ==>
              c.lease.attestation.identity == d.lease.attestation.identity
    ensures forall c :: c in k.granted ==>
              WasAttested(c.lease.attestation) && c.lease.attestation.identity in k.approved
    ensures k.obtained == multiset(LeasesOf(k.active)) + k.returned + k.quarantined
  {
    hide LeasesOf, HistoryOk, ActiveIsLeased, WasAttested;
    forall c | c in k.granted
      ensures c.state == Leased <==> c in k.active.Values
      ensures Some(c.lease.attestation.identity) == k.identity
      ensures WasAttested(c.lease.attestation) && c.lease.attestation.identity in k.approved
    {
      LeasedIffActive(k, c);
      OfOneIdentity(k, c);
    }
    forall i, j | 0 <= i < j < |k.granted| && k.grants[i].slotId == k.grants[j].slotId
      ensures k.granted[i].lease.attestation.generation < k.granted[j].lease.attestation.generation
    {
      GenerationsIncrease(k, i, j);
    }
    FewAreLeased(k);
  }

  lemma FewAreLeased(k: Coordinator)
    requires k.Valid()
    ensures |set c | c in k.granted && c.state == Leased :: c.lease.Id()| <= MAX_ACTIVE_EXTRACTIONS
  {
    hide LeasesOf, HistoryOk, ActiveIsLeased;
    LeasedIdsAreActive(k);
    assert (set c | c in k.granted && c.state == Leased :: c.lease.Id()) == LeasedIds(EntriesOf(k.granted));
    assert |k.active| == |k.active.Keys|;
  }

  /** The leased entries of the books are the keys of the map. */
  lemma LeasedIdsAreActive(k: Coordinator)
    requires k.Valid()
    ensures LeasedIds(EntriesOf(k.granted)) == k.active.Keys
  {
    hide HistoryOk, LeasesOf;
    var entries := EntriesOf(k.granted);
    forall id | id in LeasedIds(entries) ensures id in k.active.Keys {
      var i :| 0 <= i < |entries| && entries[i].state == Leased && entries[i].lease.Id() == id;
      assert CapabilityOk(k, k.active, k.granted[i]);
    }
    forall id | id in k.active.Keys ensures id in LeasedIds(entries) {
      var i :| 0 <= i < |k.granted| && k.granted[i] == k.active[id];
      assert entries[i].lease.Id() == id;
    }
  }

  /** Roots are lent to exactly the holders of the capabilities in the map: one that is not there lends nothing, and by
      GoneStaysGone it never will again. */
  lemma RootsAreLentWhileActive(k: Coordinator, c: Capability)
    requires k.Valid() && c in k.granted
    ensures c.Roots().Some? <==> c in k.active.Values
    ensures c.Roots().Some? ==> k.IsActive(c) && c.Roots() == Some((c.lease.inputRoot, c.lease.outputRoot))
  {
    hide LeasesOf, HistoryOk;
    ValidMeans(k);
    assert CapabilityOk(k, k.active, c);
  }

  /** No capability is granted twice: its generation would have to exceed itself. */
  lemma GrantedAreDistinct(k: Coordinator, i: nat, j: nat)
    requires k.Valid() && i < j < |k.granted|
    ensures k.granted[i] != k.granted[j]
  {
    hide LeasesOf, CapabilityOk;
    assert k.grants[i] == k.granted[i].lease.attestation && k.grants[j] == k.granted[j].lease.attestation;
  }

  lemma ActiveIffLeased(k: Coordinator, which: nat)
    requires k.Valid() && which < |k.granted|
    ensures k.IsActive(k.granted[which]) <==> k.granted[which].state == Leased
    ensures forall j :: 0 <= j < |k.granted| && j != which ==> k.granted[j] != k.granted[which]
  {
    hide LeasesOf, HistoryOk;
    assert CapabilityOk(k, k.active, k.granted[which]);
    forall j | 0 <= j < |k.granted| && j != which ensures k.granted[j] != k.granted[which] {
      if j < which { GrantedAreDistinct(k, j, which); } else { GrantedAreDistinct(k, which, j); }
    }
  }

  function LeasedAmong(granted: seq<Capability>, n: nat): (ls: set<Lease>)
    requires n <= |granted|
    reads granted
  {
    set i | 0 <= i < n && granted[i].state == Leased :: granted[i].lease
  }

  /** Two capabilities still LEASED never share a lease. */
  lemma LeasedDiffer(k: Coordinator, i: nat, j: nat)
    requires k.Valid() && i < j < |k.granted| && k.granted[i].state == k.granted[j].state == Leased
    ensures k.granted[i].lease != k.granted[j].lease
  {
    hide HistoryOk, LeasesOf;
    assert CapabilityOk(k, k.active, k.granted[i]) && CapabilityOk(k, k.active, k.granted[j]);
    GrantedAreDistinct(k, i, j);
  }

  lemma LeasedInSnoc(entries: seq<Entry>, n: nat)
    requires n <= |entries|
    ensures n == 0 ==> LeasedIn(entries[..n]) == multiset{}
    ensures n > 0 ==> LeasedIn(entries[..n])
                      == LeasedIn(entries[..n - 1]) + if entries[n - 1].state == Leased
                                                        then multiset{entries[n - 1].lease} else multiset{}
  {
    if n > 0 {
      assert entries[..n][..n - 1] == entries[..n - 1];
    }
  }

  lemma {:induction false} LeasedInIsASet(k: Coordinator, n: nat)
    requires k.Valid() && n <= |k.granted|
    ensures LeasedIn(EntriesOf(k.granted)[..n]) == multiset(LeasedAmong(k.granted, n))
  {
    hide Coordinator.Valid, LeasedIn;
    LeasedInSnoc(EntriesOf(k.granted), n);
    if n > 0 {
      var c := k.granted[n - 1];
      LeasedInIsASet(k, n - 1);
      if c.state == Leased {
        forall i | 0 <= i < n - 1 && k.granted[i].state == Leased ensures k.granted[i].lease != c.lease {
          LeasedDiffer(k, i, n - 1);
        }
        assert LeasedAmong(k.granted, n) == LeasedAmong(k.granted, n - 1) + {c.lease};
      } else {
        assert LeasedAmong(k.granted, n) == LeasedAmong(k.granted, n - 1);
      }
    }
  }

  lemma ValidIsBalanced(k: Coordinator)
    requires k.Valid()
    ensures Balanced(k.View())
  {
    hide HistoryOk;
    var n := |k.granted|;
    LeasedInIsASet(k, n);
    assert EntriesOf(k.granted)[..n] == EntriesOf(k.granted);
    forall l | l in LeasedAmong(k.granted, n) ensures l in LeasesOf(k.active) {
      var i :| 0 <= i < n && k.granted[i].state == Leased && k.granted[i].lease == l;
      assert CapabilityOk(k, k.active, k.granted[i]);
    }
    forall l | l in LeasesOf(k.active) ensures l in LeasedAmong(k.granted, n) {
      var id :| id in k.active && k.active[id].lease == l;
      var i :| 0 <= i < n && k.granted[i] == k.active[id];
    }
    assert LeasedAmong(k.granted, n) == LeasesOf(k.active);
  }

  method ServeLease(k: Coordinator, held: seq<Capability>, answer: AcquireAnswer) returns (next: seq<Capability>)
    requires k.Valid() && held == k.granted
    modifies k
    ensures k.Valid() && next == k.granted && held <= next
    ensures forall i :: |held| <= i < |next| ==> fresh(next[i])
    ensures k.View() == Served(k.approved, old(k.View()), LeaseCall(answer))
  {
    hide HistoryOk, LeasesOf, GoodLease, FreshGrant, ActiveIsLeased, CapabilityOk, LeasedIds, Coordinator.GrantsMatch;
    ghost var entries := EntriesOf(held);
    LeasedIdsAreActive(k);
    assert |k.active| == |k.active.Keys|;
    var outcome, c := k.LeaseOne(answer);
    next := held;
    if c != null {
      next := held + [c];
      assert EntriesOf(next) == entries + [Entry(answer.lease, Leased)];
    } else {
      assert EntriesOf(k.granted) == entries;
    }
  }

  lemma OneEntryAfter(entries: seq<Entry>, after: seq<Entry>, which: nat)
    requires which < |entries| == |after| && forall j :: 0 <= j < |entries| && j != which ==> after[j] == entries[j]
    ensures after == entries[which := after[which]] && entries[which := entries[which]] == entries
  {
  }

  method ServeReturn(k: Coordinator, held: seq<Capability>, which: nat, reply: ReturnAnswer)
    requires k.Valid() && held == k.granted
    modifies k, held
    ensures k.Valid() && held == k.granted
    ensures k.View() == Served(k.approved, old(k.View()), ReturnCall(which, reply))
  {
    hide HistoryOk, LeasesOf, GoodReturn, ActiveIsLeased, CapabilityOk, Coordinator.GrantsMatch;
    ghost var entries := EntriesOf(held);
    if which < |held| {
      ActiveIffLeased(k, which);
      var _ := k.ReturnCapability(held[which], reply);
      OneEntryAfter(entries, EntriesOf(held), which);
    }
  }

  method ServeQuarantine(k: Coordinator, held: seq<Capability>, which: nat, raises: bool)
    requires k.Valid() && held == k.granted
    modifies k, held
    ensures k.Valid() && held == k.granted
    ensures k.View() == Served(k.approved, old(k.View()), QuarantineCall(which, raises))
  {
    hide HistoryOk, LeasesOf, GoodReturn, ActiveIsLeased, CapabilityOk, Coordinator.GrantsMatch;
    ghost var entries := EntriesOf(held);
    if which < |held| {
      ActiveIffLeased(k, which);
      var _ := k.QuarantineCapability(held[which], raises);
      OneEntryAfter(entries, EntriesOf(held), which);
    }
  }

  /** One request leads to exactly what the books say. */
  method Serve(k: Coordinator, held: seq<Capability>, request: Request) returns (next: seq<Capability>)
    requires k.Valid() && held == k.granted
    modifies k, held
    ensures k.Valid() && next == k.granted && held <= next
    ensures forall i :: |held| <= i < |next| ==> fresh(next[i])
    ensures k.View() == Served(k.approved, old(k.View()), request)
  {
    hide Served, HistoryOk, LeasesOf, ActiveIsLeased, CapabilityOk;
    next := held;
    match request
    case LeaseCall(answer) => next := ServeLease(k, held, answer);
    case ReturnCall(which, reply) => ServeReturn(k, held, which, reply);
    case QuarantineCall(which, raises) => ServeQuarantine(k, held, which, raises);
  }

  /** Any requests against any backend lead from any valid coordinator to exactly what the books say; the capabilities
      granted before are still the first ones, and none of them that was not LEASED is LEASED again. */
  method RunRequests(k: Coordinator, held: seq<Capability>, requests: seq<Request>) returns (now: seq<Capability>)
    requires k.Valid() && held == k.granted
    modifies k, held
    ensures k.Valid() && now == k.granted && held <= now
    ensures k.View() == ServedAll(k.approved, old(k.View()), requests)
    ensures forall j :: 0 <= j < |held| && old(held[j].state) != Leased ==> held[j].state == old(held[j].state)
    ensures k.obtained == old(k.obtained) + Drawn(k.approved, old(k.View()), requests)
    ensures k.obtained == LeasedIn(EntriesOf(now)) + k.returned + k.quarantined
  {
    hide Served, ServedAll, Drawn, LeasedIn, Coordinator.Valid;
    ghost var before := k.View();
    ValidIsBalanced(k);
    ServedAllStarts(k.approved, before, requests);
    now := held;
    var i := 0;
    while i < |requests|
      invariant 0 <= i <= |requests| && k.Valid() && now == k.granted && held <= now
      invariant forall j :: |held| <= j < |now| ==> fresh(now[j])
      invariant k.View() == ServedAll(k.approved, before, requests[..i])
    {
      ServedAllSnoc(k.approved, before, requests, i);
      now := Serve(k, now, requests[i]);
      i := i + 1;
    }
    assert requests[..i] == requests;
    EveryLeaseIsSomewhere(k.approved, before, requests);
    forall j | 0 <= j < |held| && old(held[j].state) != Leased ensures held[j].state == old(held[j].state) {
      GoneStaysGone(k.approved, before, requests, j);
      assert k.View().entries[j] == Entry(held[j].lease, held[j].state);
    }
  }
}

/**
 The scan-based publisher of vehicle group documents: compare each vehicle's
 current groups with what was recorded as published, publish what differs,
 record what the wire accepted. An event names the licence it was signed with
 and the vehicle, not the tenant, so tenants of one licence share a stream per
 vehicle. A document's digest is an injective stand-in for SHA-256; tenants are
 visited in ascending order, a tenant's vehicles in any order.
 */
module GroupPublisher {
  import opened Wrappers
  import opened Sorting

  type Tenant = nat
  type Key = (Tenant, nat)

  datatype Ref = Ref(id: string, name: string, color: string)

  type Doc = seq<Ref>

  datatype Digest = Digest(of: Doc)

  type Groups = map<Key, Doc>
  type Digests = map<Key, Digest>

  /** A vehicle with no groups has the empty document. */
  function DocOf(groups: Groups, k: Key): Doc {
    if k in groups then groups[k] else []
  }

  /** The rows a run loads: one tenant's, or everyone's. */
  predicate InScope(filter: Option<Tenant>, k: Key) {
    filter.None? || filter.value == k.0
  }

  function Scoped<V>(m: map<Key, V>, filter: Option<Tenant>): map<Key, V> {
    map k | k in m && InScope(filter, k) :: m[k]
  }

  /** Vehicles the scan compares: grouped now, or published before. */
  function Checked(groups: Groups, published: Digests): set<Key> {
    set k | k in groups.Keys + published.Keys && (DocOf(groups, k) != [] || k in published)
  }

  /** Vehicles whose recorded digest is not the current document's. */
  function Plan(groups: Groups, published: Digests): set<Key> {
    set k | k in Checked(groups, published) && !(k in published && published[k] == Digest(DocOf(groups, k)))
  }

  datatype PublishResult = PublishResult(
    checked: nat,
    planned: nat,
    published: nat,
    retracted: nat,
    failed: nat,
    skippedVehicles: nat,
    upToDate: nat,
    skippedTenants: nat)
  {
    predicate Balances() {
      planned == published + retracted + failed + skippedVehicles
    }
  }

  /** How a tenant's developer JWT resolves. */
  datatype Credential = Token | NoCredential | CredentialError

  /** How `publishOne` ends for one vehicle. */
  datatype Outcome = SignFailed | SubmitFailed | RecordFailed | Recorded

  /** How a run's outside calls end, and whose licence each tenant's events are signed with. */
  datatype Oracle = Oracle(credential: Tenant -> Credential, outcome: Key -> Outcome, holder: Tenant -> Tenant)

  /** What consumers can tell events apart by: the licence and the vehicle. */
  type Stream = (Tenant, nat)

  function StreamOf(holder: Tenant -> Tenant, k: Key): Stream { (holder(k.0), k.1) }

  /** The last event of a stream: whose it was, and its document. */
  datatype Post = Post(sender: Key, doc: Doc)

  type Wire = map<Stream, Post>

  /** A stream nobody has written to reads as the empty document. */
  function OnWire(wire: Wire, s: Stream): Doc {
    if s in wire then wire[s].doc else []
  }

  predicate Reached(o: Oracle, k: Key) { o.credential(k.0) == Token }

  /** The wire took the event. */
  predicate Accepted(o: Oracle, k: Key) {
    Reached(o, k) && (o.outcome(k) == RecordFailed || o.outcome(k) == Recorded)
  }

  /** The wire took the event and the state row was written. */
  predicate Stored(o: Oracle, k: Key) { Reached(o, k) && o.outcome(k) == Recorded }

  function StoredIn(plan: set<Key>, groups: Groups, o: Oracle, empty: bool): set<Key> {
    set k | k in plan && Stored(o, k) && ((DocOf(groups, k) == []) == empty)
  }

  function FailedIn(plan: set<Key>, o: Oracle): set<Key> {
    set k | k in plan && o.credential(k.0) != NoCredential && !Stored(o, k)
  }

  function SkippedIn(plan: set<Key>, o: Oracle): set<Key> {
    set k | k in plan && o.credential(k.0) == NoCredential
  }

  /** The tenants of a plan without a usable credential. */
  function Unusable(plan: set<Key>, o: Oracle): set<Tenant> {
    set k | k in plan && o.credential(k.0) == NoCredential :: k.0
  }

  /** The vehicles of the listed tenants. */
  function Among(plan: set<Key>, order: seq<Tenant>): set<Key> {
    set k | k in plan && k.0 in order
  }

  /** The next tenant's vehicles come after everybody's so far, and there are some. */
  lemma AmongStep(plan: set<Key>, order: seq<Tenant>, n: nat)
    requires n < |order| && (forall i, j :: 0 <= i < j < |order| ==> order[i] < order[j])
    requires forall t :: t in order ==> t in set k | k in plan :: k.0
    ensures var t, dealt := order[n], Among(plan, order[..n]);
            var vehicles := set k | k in plan && k.0 == t;
            && vehicles != {} && dealt !! vehicles && Among(plan, order[..n + 1]) == dealt + vehicles
            && (forall k :: k in dealt ==> k.0 != t)
            && (forall x, y :: x in dealt && y in vehicles ==> x.0 <= y.0)
  {
    var t := order[n];
    assert t in order;
    assert order[..n + 1] == order[..n] + [t];
    assert forall u :: u in order[..n] ==> u < t;
    var dealt, vehicles := Among(plan, order[..n]), set k | k in plan && k.0 == t;
    var k :| k in plan && k.0 == t;
    assert k in vehicles;
    assert Among(plan, order[..n + 1]) == dealt + vehicles;
    assert forall x :: x in dealt ==> x.0 in order[..n];
  }

  lemma NobodyYet(plan: set<Key>)
    ensures forall order: seq<Tenant> :: Among(plan, order[..0]) == {}
  {
  }

  lemma Everybody(plan: set<Key>, order: seq<Tenant>)
    requires forall t :: t in order <==> t in set k | k in plan :: k.0
    ensures Among(plan, order[..|order|]) == plan
  {
    assert order[..|order|] == order;
    assert forall k :: k in plan ==> k.0 in order;
  }

  lemma UnusableMore(dealt: set<Key>, vehicles: set<Key>, t: Tenant, o: Oracle)
    requires vehicles != {} && (forall k :: k in vehicles ==> k.0 == t) && forall k :: k in dealt ==> k.0 != t
    ensures |Unusable(dealt + vehicles, o)| == |Unusable(dealt, o)| + (if o.credential(t) == NoCredential then 1 else 0)
  {
    var k :| k in vehicles;
    assert t !in Unusable(dealt, o);
    if o.credential(t) == NoCredential {
      assert k in dealt + vehicles && k.0 == t;
      assert Unusable(dealt + vehicles, o) == Unusable(dealt, o) + {t};
    } else {
      assert Unusable(dealt + vehicles, o) == Unusable(dealt, o);
    }
  }

  /** The recorded digests after a plan has been carried out. */
  function RecordedAfter(published: Digests, plan: set<Key>, groups: Groups, o: Oracle): Digests {
    map k | k in published.Keys + plan && (k in published || Stored(o, k)) ::
      if k in plan && Stored(o, k) then Digest(DocOf(groups, k)) else published[k]
  }

  /** The last document of each tenant's vehicle that the wire accepted, after a plan has been carried out. */
  function SentAfter(sent: Groups, plan: set<Key>, groups: Groups, o: Oracle): Groups {
    map k | k in sent.Keys + plan && (k in sent || Accepted(o, k)) ::
      if k in plan && Accepted(o, k) then DocOf(groups, k) else sent[k]
  }

  /** The tenants whose planned events reach a stream. */
  function Writers(plan: set<Key>, o: Oracle, s: Stream): set<Tenant> {
    set k | k in plan && Accepted(o, k) && StreamOf(o.holder, k) == s :: k.0
  }

  /** The wire after a plan has been carried out: on each stream the highest tenant id writes last. */
  ghost function WireAfter(wire: Wire, plan: set<Key>, groups: Groups, o: Oracle): Wire {
    map s | s in wire.Keys + (set k | k in plan :: StreamOf(o.holder, k)) && (s in wire || Writers(plan, o, s) != {}) ::
      if Writers(plan, o, s) != {} then LastPost(plan, groups, o, s) else wire[s]
  }

  ghost function LastPost(plan: set<Key>, groups: Groups, o: Oracle, s: Stream): Post
    requires Writers(plan, o, s) != {}
  {
    var k := (MaxOf(Writers(plan, o, s)), s.1);
    Post(k, DocOf(groups, k))
  }

  /** The publish loop's half of the accounting, for the vehicles it has dealt with. */
  predicate Accounts(res: PublishResult, dealt: set<Key>, groups: Groups, o: Oracle) {
    && res.published == |StoredIn(dealt, groups, o, false)|
    && res.retracted == |StoredIn(dealt, groups, o, true)|
    && res.failed == |FailedIn(dealt, o)|
    && res.skippedVehicles == |SkippedIn(dealt, o)|
  }

  lemma DealtWithMore(a: set<Key>, b: set<Key>, groups: Groups, o: Oracle)
    requires a !! b
    ensures forall e :: |StoredIn(a + b, groups, o, e)| == |StoredIn(a, groups, o, e)| + |StoredIn(b, groups, o, e)|
    ensures |FailedIn(a + b, o)| == |FailedIn(a, o)| + |FailedIn(b, o)|
    ensures |SkippedIn(a + b, o)| == |SkippedIn(a, o)| + |SkippedIn(b, o)|
  {
    forall e ensures |StoredIn(a + b, groups, o, e)| == |StoredIn(a, groups, o, e)| + |StoredIn(b, groups, o, e)| {
      assert StoredIn(a + b, groups, o, e) == StoredIn(a, groups, o, e) + StoredIn(b, groups, o, e);
    }
    assert FailedIn(a + b, o) == FailedIn(a, o) + FailedIn(b, o);
    assert SkippedIn(a + b, o) == SkippedIn(a, o) + SkippedIn(b, o);
  }

  lemma RecordedMore(published: Digests, a: set<Key>, b: set<Key>, groups: Groups, o: Oracle)
    ensures RecordedAfter(RecordedAfter(published, a, groups, o), b, groups, o) == RecordedAfter(published, a + b, groups, o)
  {
    hide DocOf, Stored;
    var both := RecordedAfter(published, a + b, groups, o);
    var one := RecordedAfter(published, a, groups, o);
    assert RecordedAfter(one, b, groups, o).Keys == both.Keys;
  }

  /** A stream's writer is a planned, accepted vehicle of that stream. */
  lemma WriterIs(plan: set<Key>, o: Oracle, s: Stream, t: Tenant)
    requires t in Writers(plan, o, s)
    ensures (t, s.1) in plan && Accepted(o, (t, s.1)) && StreamOf(o.holder, (t, s.1)) == s
  {
  }

  /** Which streams a plan reaches, and what it leaves on them. */
  lemma WireAt(wire: Wire, plan: set<Key>, groups: Groups, o: Oracle, s: Stream)
    ensures var after := WireAfter(wire, plan, groups, o);
            if Writers(plan, o, s) != {} then s in after && after[s] == LastPost(plan, groups, o, s)
            else (s in after <==> s in wire) && (s in wire ==> after[s] == wire[s])
  {
    if t :| t in Writers(plan, o, s) {
      WriterIs(plan, o, s, t);
    }
  }

  /** Carrying out two plans is carrying out both, if the second's tenants come no earlier. */
  lemma WireMore(wire: Wire, a: set<Key>, b: set<Key>, groups: Groups, o: Oracle)
    requires forall x, y :: x in a && y in b ==> x.0 <= y.0
    ensures WireAfter(WireAfter(wire, a, groups, o), b, groups, o) == WireAfter(wire, a + b, groups, o)
  {
    hide WireAfter;
    var one := WireAfter(wire, a, groups, o);
    var two, both := WireAfter(one, b, groups, o), WireAfter(wire, a + b, groups, o);
    forall s ensures (s in two <==> s in both) && (s in two ==> two[s] == both[s]) {
      WireAt(wire, a, groups, o, s);
      WireAt(one, b, groups, o, s);
      WireAt(wire, a + b, groups, o, s);
      WritersMore(a, b, o, s);
    }
    assert two.Keys == both.Keys;
  }

  lemma WritersMore(a: set<Key>, b: set<Key>, o: Oracle, s: Stream)
    requires forall x, y :: x in a && y in b ==> x.0 <= y.0
    ensures (Writers(a + b, o, s) == {}) <==> Writers(a, o, s) == {} && Writers(b, o, s) == {}
    ensures Writers(b, o, s) != {} ==> MaxOf(Writers(a + b, o, s)) == MaxOf(Writers(b, o, s))
    ensures Writers(a, o, s) != {} && Writers(b, o, s) == {} ==> MaxOf(Writers(a + b, o, s)) == MaxOf(Writers(a, o, s))
  {
    var wa, wb, w := Writers(a, o, s), Writers(b, o, s), Writers(a + b, o, s);
    assert forall t :: t in w <==> t in wa || t in wb;
    assert forall t, u :: t in wa && u in wb ==> t <= u by {
      forall t, u | t in wa && u in wb ensures t <= u {
        WriterIs(a, o, s, t);
        WriterIs(b, o, s, u);
      }
    }
    hide Writers;
    if wb != {} {
      assert IsMax(MaxOf(wb), w);
    } else if wa != {} {
      assert w == wa;
    }
  }

  lemma WroteOne(wire: Wire, k: Key, groups: Groups, o: Oracle)
    ensures WireAfter(wire, {k}, groups, o) == if Accepted(o, k) then wire[StreamOf(o.holder, k) := Post(k, DocOf(groups, k))] else wire
  {
    hide WireAfter;
    var after := WireAfter(wire, {k}, groups, o);
    var want := if Accepted(o, k) then wire[StreamOf(o.holder, k) := Post(k, DocOf(groups, k))] else wire;
    forall s ensures (s in after <==> s in want) && (s in after ==> after[s] == want[s]) {
      WireAt(wire, {k}, groups, o, s);
      assert Writers({k}, o, s) == if Accepted(o, k) && StreamOf(o.holder, k) == s then {k.0} else {};
    }
    assert after.Keys == want.Keys;
  }

  lemma NothingWritten(wire: Wire, plan: set<Key>, groups: Groups, o: Oracle)
    requires forall k :: k in plan ==> !Accepted(o, k)
    ensures WireAfter(wire, plan, groups, o) == wire
  {
  }

  /** Every planned vehicle has exactly one outcome: the accounting balances. */
  lemma AccountsBalance(res: PublishResult, plan: set<Key>, groups: Groups, o: Oracle)
    requires res.planned == |plan| && Accounts(res, plan, groups, o)
    ensures res.Balances()
  {
    var p, r, f, s := StoredIn(plan, groups, o, false), StoredIn(plan, groups, o, true), FailedIn(plan, o), SkippedIn(plan, o);
    assert forall k :: k in plan <==> k in p || k in r || k in f || k in s;
    assert forall k :: !(k in p && k in r) && !(k in f && (k in p || k in r)) && !(k in s && (k in p || k in r || k in f));
    FourParts(plan, p, r, f, s);
  }

  lemma FourParts(plan: set<Key>, p: set<Key>, r: set<Key>, f: set<Key>, s: set<Key>)
    requires forall k :: k in plan <==> k in p || k in r || k in f || k in s
    requires forall k :: !(k in p && k in r) && !(k in f && (k in p || k in r)) && !(k in s && (k in p || k in r || k in f))
    ensures |plan| == |p| + |r| + |f| + |s|
  {
    assert plan == p + r + f + s;
    assert |p + r| == |p| + |r|;
    assert |p + r + f| == |p + r| + |f|;
  }

  lemma PlanBounds(groups: Groups, published: Digests)
    ensures Checked(groups, published) <= groups.Keys + published.Keys && Plan(groups, published) <= Checked(groups, published)
  {
  }

  /** Looked at are the vehicles in scope that have groups or were published. */
  lemma CheckedAre(groups: Groups, published: Digests, filter: Option<Tenant>, k: Key)
    ensures k in Checked(Scoped(groups, filter), Scoped(published, filter)) <==>
            (filter.None? || filter.value == k.0) && (DocOf(groups, k) != [] || k in published)
  {
  }

  lemma PlanAt(groups: Groups, published: Digests, k: Key)
    requires k in groups.Keys + published.Keys
    ensures k in Checked(groups, published) <==> !(DocOf(groups, k) == [] && k !in published)
    ensures k in Plan(groups, published) <==>
            !(DocOf(groups, k) == [] && k !in published) && !(k in published && published[k] == Digest(DocOf(groups, k)))
  {
  }

  /** The counter one vehicle moves. */
  function Counted(res: PublishResult, k: Key, groups: Groups, o: Oracle): PublishResult {
    if !Stored(o, k) then res.(failed := res.failed + 1)
    else if DocOf(groups, k) == [] then res.(retracted := res.retracted + 1)
    else res.(published := res.published + 1)
  }

  lemma CountedAccounts(res: PublishResult, dealt: set<Key>, k: Key, groups: Groups, o: Oracle)
    requires Accounts(res, dealt, groups, o) && k !in dealt && Reached(o, k)
    ensures Accounts(Counted(res, k, groups, o), dealt + {k}, groups, o)
  {
    hide StoredIn, FailedIn, SkippedIn, DocOf;
    OneVehicle(k, groups, o);
    DealtWithMore(dealt, {k}, groups, o);
  }

  // ---- The run ----------------------------------------------------------

  class Publisher {
    var published: Digests
    ghost var wire: Wire

    constructor ()
      ensures published == map[] && wire == map[]
    {
      published, wire := map[], map[];
    }

    /** `planPublishes`: the vehicles to publish, and the scan's half of the accounting. */
    method PlanPublishes(groups: Groups, digests: Digests) returns (pending: set<Key>, res: PublishResult)
      ensures pending == Plan(groups, digests)
      ensures res.checked == |Checked(groups, digests)| && res.planned == |pending| && res.checked == res.planned + res.upToDate
      ensures res.published == 0 && res.retracted == 0 && res.failed == 0 && res.skippedVehicles == 0 && res.skippedTenants == 0
    {
      hide Checked, Plan, DocOf;
      pending, res := {}, PublishResult(0, 0, 0, 0, 0, 0, 0, 0);
      ghost var checked, plan := Checked(groups, digests), Plan(groups, digests);
      var rest := groups.Keys + digests.Keys;
      PlanBounds(groups, digests);
      ghost var seen: set<Key> := {};
      while rest != {}
        invariant rest <= groups.Keys + digests.Keys
        invariant forall j :: j in seen <==> j in checked && j !in rest
        invariant forall j :: j in pending <==> j in plan && j !in rest
        invariant |seen| == |pending| + res.upToDate
        invariant res == PublishResult(|seen|, |pending|, 0, 0, 0, 0, res.upToDate, 0)
      {
        var k :| k in rest;
        PlanAt(groups, digests, k);
        rest := rest - {k};
        var doc := DocOf(groups, k);
        if !(doc == [] && k !in digests) {
          res := res.(checked := res.checked + 1);
          seen := seen + {k};
          if k in digests && digests[k] == Digest(doc) {
            res := res.(upToDate := res.upToDate + 1);
          } else {
            pending := pending + {k};
            res := res.(planned := res.planned + 1);
          }
        }
      }
      assert seen == checked && pending == plan;
    }

    /** `publishOne`: sign, deliver, record. A lost record leaves the wire ahead of the table, never behind it. */
    method PublishOne(k: Key, groups: Groups, o: Oracle) returns (ok: bool)
      requires Reached(o, k)
      modifies this
      ensures ok <==> Stored(o, k)
      ensures published == RecordedAfter(old(published), {k}, groups, o)
      ensures wire == WireAfter(old(wire), {k}, groups, o)
    {
      hide DocOf, WireAfter, StreamOf;
      WroteOne(wire, k, groups, o);
      if o.outcome(k) == SignFailed || o.outcome(k) == SubmitFailed {
        return false;
      }
      wire := wire[StreamOf(o.holder, k) := Post(k, DocOf(groups, k))];
      if o.outcome(k) == RecordFailed {
        return false;
      }
      published := published[k := Digest(DocOf(groups, k))];
      ok := true;
    }

    /** One tenant's vehicles, with its credential in hand. */
    method PublishTenant(vehicles: set<Key>, t: Tenant, groups: Groups, o: Oracle) returns (res: PublishResult)
      requires forall k :: k in vehicles ==> k.0 == t && Reached(o, k)
      modifies this
      ensures Accounts(res, vehicles, groups, o) && res.skippedTenants == 0
      ensures published == RecordedAfter(old(published), vehicles, groups, o)
      ensures wire == WireAfter(old(wire), vehicles, groups, o)
    {
      hide RecordedAfter, WireAfter, DocOf, StoredIn, FailedIn, SkippedIn;
      NothingDealt(published, wire, groups, o);
      res := PublishResult(0, 0, 0, 0, 0, 0, 0, 0);
      assert Accounts(res, {}, groups, o);
      hide Accounts;
      var rest := vehicles;
      ghost var dealt: set<Key> := {};
      while rest != {}
        invariant rest <= vehicles && forall j :: j in dealt <==> j in vehicles && j !in rest
        invariant Accounts(res, dealt, groups, o) && res.skippedTenants == 0
        invariant published == RecordedAfter(old(published), dealt, groups, o)
        invariant wire == WireAfter(old(wire), dealt, groups, o)
      {
        var k :| k in rest;
        rest := rest - {k};
        CountedAccounts(res, dealt, k, groups, o);
        RecordedMore(old(published), dealt, {k}, groups, o);
        WireMore(old(wire), dealt, {k}, groups, o);
        var ok := PublishOne(k, groups, o);
        if !ok {
          res := res.(failed := res.failed + 1);
        } else if DocOf(groups, k) == [] {
          res := res.(retracted := res.retracted + 1);
        } else {
          res := res.(published := res.published + 1);
        }
        dealt := dealt + {k};
      }
      assert dealt == vehicles;
    }

    /** One tenant of the publish loop: resolve its credential, then publish, skip or fail its vehicles as a unit. */
    method SettleTenant(vehicles: set<Key>, t: Tenant, groups: Groups, o: Oracle, soFar: PublishResult, ghost dealt: set<Key>)
      returns (res: PublishResult)
      requires Accounts(soFar, dealt, groups, o) && dealt !! vehicles
      requires forall k :: k in vehicles ==> k.0 == t
      modifies this
      ensures Accounts(res, dealt + vehicles, groups, o)
      ensures res.checked == soFar.checked && res.planned == soFar.planned && res.upToDate == soFar.upToDate
      ensures res.skippedTenants == soFar.skippedTenants + (if o.credential(t) == NoCredential then 1 else 0)
      ensures published == RecordedAfter(old(published), vehicles, groups, o)
      ensures wire == WireAfter(old(wire), vehicles, groups, o)
    {
      hide StoredIn, FailedIn, SkippedIn, RecordedAfter, WireAfter;
      DealtWithMore(dealt, vehicles, groups, o);
      OneTenant(vehicles, t, published, wire, groups, o);
      match o.credential(t) {
        case NoCredential =>
          res := soFar.(skippedTenants := soFar.skippedTenants + 1, skippedVehicles := soFar.skippedVehicles + |vehicles|);
        case CredentialError =>
          res := soFar.(failed := soFar.failed + |vehicles|);
        case Token =>
          var part := PublishTenant(vehicles, t, groups, o);
          res := soFar.(published := soFar.published + part.published, retracted := soFar.retracted + part.retracted,
                        failed := soFar.failed + part.failed);
      }
    }

    /**
     `Run`. Every counter is the number of planned vehicles with that outcome;
     a dry run leaves the state row and the wire alone.
     */
    method Run(all: Groups, filter: Option<Tenant>, o: Oracle, dryRun: bool) returns (res: PublishResult)
      modifies this
      ensures var plan := PlanFor(all, old(published), filter);
              && res.planned == |plan| && res.checked == |Checked(Scoped(all, filter), Scoped(old(published), filter))|
              && res.upToDate == res.checked - res.planned
              && res.skippedTenants == (if dryRun then 0 else |Unusable(plan, o)|)
              && (if dryRun then
                    && published == old(published) && wire == old(wire)
                    && res.published == 0 && res.retracted == 0 && res.failed == 0 && res.skippedVehicles == 0
                  else
                    && Accounts(res, plan, Scoped(all, filter), o) && res.Balances()
                    && published == RecordedAfter(old(published), plan, Scoped(all, filter), o)
                    && wire == WireAfter(old(wire), plan, Scoped(all, filter), o))
    {
      hide StoredIn, FailedIn, SkippedIn, RecordedAfter, WireAfter, Scoped, Plan, Checked, Sorted, Unusable, Among;
      var groups := Scoped(all, filter);
      var pending;
      pending, res := PlanPublishes(groups, Scoped(published, filter));
      if dryRun {
        return;
      }
      var tenants := set k | k in pending :: k.0;
      var order := Sort(tenants);
      SortedElements(tenants);
      ghost var scanned := res.checked;
      NothingDealt(published, wire, groups, o);
      NobodyYet(pending);
      for n := 0 to |order|
        invariant Accounts(res, Among(pending, order[..n]), groups, o)
        invariant res.planned == |pending| && res.checked == scanned && res.checked == res.planned + res.upToDate
        invariant res.skippedTenants == |Unusable(Among(pending, order[..n]), o)|
        invariant published == RecordedAfter(old(published), Among(pending, order[..n]), groups, o)
        invariant wire == WireAfter(old(wire), Among(pending, order[..n]), groups, o)
      {
        var t := order[n];
        var vehicles := set k | k in pending && k.0 == t;
        ghost var dealt := Among(pending, order[..n]);
        AmongStep(pending, order, n);
        UnusableMore(dealt, vehicles, t, o);
        res := SettleTenant(vehicles, t, groups, o, res, dealt);
        RecordedMore(old(published), dealt, vehicles, groups, o);
        WireMore(old(wire), dealt, vehicles, groups, o);
      }
      Everybody(pending, order);
      AccountsBalance(res, pending, groups, o);
    }
  }

  lemma NothingDealt(published: Digests, wire: Wire, groups: Groups, o: Oracle)
    ensures |StoredIn({}, groups, o, true)| == 0 && |StoredIn({}, groups, o, false)| == 0 && |FailedIn({}, o)| == 0 && |SkippedIn({}, o)| == 0
    ensures RecordedAfter(published, {}, groups, o) == published && WireAfter(wire, {}, groups, o) == wire
    ensures |Unusable({}, o)| == 0
  {
    hide WireAfter, Writers, DocOf;
    NothingWritten(wire, {}, groups, o);
    assert Unusable({}, o) == {};
    assert StoredIn({}, groups, o, true) == {} && StoredIn({}, groups, o, false) == {} && FailedIn({}, o) == {} && SkippedIn({}, o) == {};
  }

  lemma OneVehicle(k: Key, groups: Groups, o: Oracle)
    requires Reached(o, k)
    ensures forall e :: |StoredIn({k}, groups, o, e)| == if Stored(o, k) && ((DocOf(groups, k) == []) == e) then 1 else 0
    ensures |FailedIn({k}, o)| == if Stored(o, k) then 0 else 1
    ensures |SkippedIn({k}, o)| == 0
  {
    forall e ensures |StoredIn({k}, groups, o, e)| == if Stored(o, k) && ((DocOf(groups, k) == []) == e) then 1 else 0 {
      assert StoredIn({k}, groups, o, e) == if Stored(o, k) && ((DocOf(groups, k) == []) == e) then {k} else {};
    }
    assert FailedIn({k}, o) == if Stored(o, k) then {} else {k};
    assert SkippedIn({k}, o) == {};
  }

  lemma NothingReached(vehicles: set<Key>, published: Digests, wire: Wire, groups: Groups, o: Oracle)
    requires forall k :: k in vehicles ==> !Reached(o, k)
    ensures forall e :: StoredIn(vehicles, groups, o, e) == {}
    ensures RecordedAfter(published, vehicles, groups, o) == published
    ensures WireAfter(wire, vehicles, groups, o) == wire
  {
    hide DocOf, WireAfter, Writers;
    NothingWritten(wire, vehicles, groups, o);
  }

  lemma UnreachedSettle(vehicles: set<Key>, t: Tenant, o: Oracle)
    requires forall k :: k in vehicles ==> k.0 == t
    ensures o.credential(t) == NoCredential ==> SkippedIn(vehicles, o) == vehicles && FailedIn(vehicles, o) == {}
    ensures o.credential(t) == CredentialError ==> SkippedIn(vehicles, o) == {} && FailedIn(vehicles, o) == vehicles
    ensures o.credential(t) == Token ==> SkippedIn(vehicles, o) == {}
  {
  }

  /** A tenant without a usable credential settles all its vehicles at once and writes nothing. */
  lemma OneTenant(vehicles: set<Key>, t: Tenant, published: Digests, wire: Wire, groups: Groups, o: Oracle)
    requires forall k :: k in vehicles ==> k.0 == t
    ensures o.credential(t) != Token ==>
              && (forall e :: |StoredIn(vehicles, groups, o, e)| == 0)
              && |FailedIn(vehicles, o)| == (if o.credential(t) == CredentialError then |vehicles| else 0)
              && |SkippedIn(vehicles, o)| == (if o.credential(t) == NoCredential then |vehicles| else 0)
              && RecordedAfter(published, vehicles, groups, o) == published
              && WireAfter(wire, vehicles, groups, o) == wire
    ensures o.credential(t) == Token ==> (forall k :: k in vehicles ==> Reached(o, k)) && |SkippedIn(vehicles, o)| == 0
  {
    hide StoredIn, FailedIn, SkippedIn, RecordedAfter, WireAfter;
    UnreachedSettle(vehicles, t, o);
    if o.credential(t) != Token {
      NothingReached(vehicles, published, wire, groups, o);
    }
  }

  // ---- Convergence and the wire -----------------------------------------

  /** What a run of the publisher, for one tenant or for all, selects to publish. */
  function PlanFor(groups: Groups, published: Digests, filter: Option<Tenant>): set<Key> {
    Plan(Scoped(groups, filter), Scoped(published, filter))
  }

  lemma InPlan(groups: Groups, published: Digests, filter: Option<Tenant>, k: Key)
    ensures k in PlanFor(groups, published, filter) <==>
            (filter.None? || filter.value == k.0) && (if k in published then published[k] != Digest(DocOf(groups, k)) else DocOf(groups, k) != [])
  {
  }

  /**
   A run in which every planned vehicle was stored leaves an empty plan while
   the groups stay as they are; in general exactly the vehicles that were not
   stored are planned again.
   */
  lemma RunConverges(groups: Groups, published: Digests, filter: Option<Tenant>, o: Oracle)
    ensures var plan := PlanFor(groups, published, filter);
            PlanFor(groups, RecordedAfter(published, plan, Scoped(groups, filter), o), filter) == set k | k in plan && !Stored(o, k)
  {
    hide PlanFor, Stored;
    var plan := PlanFor(groups, published, filter);
    var after := RecordedAfter(published, plan, Scoped(groups, filter), o);
    forall k ensures k in PlanFor(groups, after, filter) <==> k in plan && !Stored(o, k) {
      InPlan(groups, published, filter, k);
      InPlan(groups, after, filter, k);
    }
  }

  /** What is recorded for a vehicle is what its tenant last sent. */
  predicate AgreesAt(published: Digests, sent: Groups, k: Key) {
    (k in published <==> k in sent) && (k in published ==> published[k] == Digest(sent[k]))
  }

  ghost predicate Agrees(published: Digests, sent: Groups) {
    forall k :: AgreesAt(published, sent, k)
  }

  /** One run keeps the record in agreement with what was sent exactly when every accepted event was recorded. */
  lemma AgreementKeptIff(groups: Groups, published: Digests, sent: Groups, filter: Option<Tenant>, o: Oracle)
    requires Agrees(published, sent)
    ensures var plan, scoped := PlanFor(groups, published, filter), Scoped(groups, filter);
            Agrees(RecordedAfter(published, plan, scoped, o), SentAfter(sent, plan, scoped, o))
            <==> forall k :: k in plan && Accepted(o, k) ==> Stored(o, k)
  {
    hide PlanFor, AgreesAt, RecordedAfter, SentAfter, Accepted, Stored;
    var plan, scoped := PlanFor(groups, published, filter), Scoped(groups, filter);
    var published', sent' := RecordedAfter(published, plan, scoped, o), SentAfter(sent, plan, scoped, o);
    forall k ensures AgreesAt(published', sent', k) <==> (k in plan && Accepted(o, k) ==> Stored(o, k)) {
      assert AgreesAt(published, sent, k);
      AgreementAtKey(groups, published, sent, filter, o, k);
    }
  }

  lemma AgreementAtKey(groups: Groups, published: Digests, sent: Groups, filter: Option<Tenant>, o: Oracle, k: Key)
    requires AgreesAt(published, sent, k)
    ensures var plan, scoped := PlanFor(groups, published, filter), Scoped(groups, filter);
            AgreesAt(RecordedAfter(published, plan, scoped, o), SentAfter(sent, plan, scoped, o), k)
            <==> (k in plan && Accepted(o, k) ==> Stored(o, k))
  {
    hide PlanFor;
    InPlan(groups, published, filter, k);
  }

  /** One real run of the past: the groups it found, the tenant it was limited to, and how its calls ended. */
  datatype PastRun = PastRun(groups: Groups, filter: Option<Tenant>, oracle: Oracle)

  /** The recorded digests, what each tenant last sent, and the wire, after a history of runs. */
  function RecordedBy(history: seq<PastRun>): Digests {
    if history == [] then map[]
    else
      var before, run := RecordedBy(history[..|history| - 1]), history[|history| - 1];
      RecordedAfter(before, PlanFor(run.groups, before, run.filter), Scoped(run.groups, run.filter), run.oracle)
  }

  function SentBy(history: seq<PastRun>): Groups {
    if history == [] then map[]
    else
      var before, run := RecordedBy(history[..|history| - 1]), history[|history| - 1];
      SentAfter(SentBy(history[..|history| - 1]), PlanFor(run.groups, before, run.filter), Scoped(run.groups, run.filter), run.oracle)
  }

  ghost function WireBy(history: seq<PastRun>): Wire {
    if history == [] then map[]
    else
      var before, run := RecordedBy(history[..|history| - 1]), history[|history| - 1];
      WireAfter(WireBy(history[..|history| - 1]), PlanFor(run.groups, before, run.filter), Scoped(run.groups, run.filter), run.oracle)
  }

  /** What the run at a position of the history planned. */
  function PlannedAt(history: seq<PastRun>, i: nat): set<Key>
    requires i < |history|
  {
    PlanFor(history[i].groups, RecordedBy(history[..i]), history[i].filter)
  }

  /** Whether the last of a vehicle's events that the wire accepted was recorded; `None` if there was none. */
  function LastAccepted(history: seq<PastRun>, k: Key): Option<bool> {
    if history == [] then None
    else
      var last := |history| - 1;
      if k in PlannedAt(history, last) && Accepted(history[last].oracle, k) then Some(Stored(history[last].oracle, k))
      else LastAccepted(history[..last], k)
  }

  /** Where record and sent document stand, by how the last accepted event fared. */
  predicate Standing(last: Option<bool>, published: Digests, sent: Groups, k: Key) {
    if last.None? then k !in published && k !in sent
    else if last.value then k in published && k in sent && published[k] == Digest(sent[k])
    else k in sent && (if k in published then published[k] != Digest(sent[k]) else sent[k] != [])
  }

  lemma StandingStep(last: Option<bool>, published: Digests, sent: Groups, run: PastRun, k: Key)
    requires Standing(last, published, sent, k)
    ensures var plan, scoped, o := PlanFor(run.groups, published, run.filter), Scoped(run.groups, run.filter), run.oracle;
            Standing(if k in plan && Accepted(o, k) then Some(Stored(o, k)) else last,
                     RecordedAfter(published, plan, scoped, o), SentAfter(sent, plan, scoped, o), k)
  {
    hide PlanFor;
    InPlan(run.groups, published, run.filter, k);
  }

  lemma {:induction false} HistoryStands(history: seq<PastRun>, k: Key)
    ensures Standing(LastAccepted(history, k), RecordedBy(history), SentBy(history), k)
  {
    hide Standing, RecordedAfter, SentAfter, PlanFor;
    if history == [] {
      NothingStands(k);
    } else {
      var front, run := history[..|history| - 1], history[|history| - 1];
      HistoryStands(front, k);
      StandingStep(LastAccepted(front, k), RecordedBy(front), SentBy(front), run, k);
    }
  }

  lemma NothingStands(k: Key)
    ensures Standing(None, map[], map[], k)
  {
  }

  /** After any history, record and sent document of a vehicle agree exactly when its last accepted event was recorded, or it had none. */
  lemma {:induction false} AgreementIff(history: seq<PastRun>, k: Key)
    ensures AgreesAt(RecordedBy(history), SentBy(history), k) <==> LastAccepted(history, k) != Some(false)
  {
    hide RecordedBy, SentBy, LastAccepted;
    HistoryStands(history, k);
  }

  /**
   After any history, for a vehicle the scan leaves out of its plan: what its
   tenant last sent is its current document exactly when its last accepted
   event was recorded, or it had none.
   */
  lemma {:induction false} UnplannedIsCurrentIff(history: seq<PastRun>, groups: Groups, filter: Option<Tenant>, k: Key)
    requires InScope(filter, k) && k !in PlanFor(groups, RecordedBy(history), filter)
    ensures DocOf(SentBy(history), k) == DocOf(groups, k) <==> LastAccepted(history, k) != Some(false)
  {
    hide RecordedBy, SentBy, LastAccepted, PlanFor;
    HistoryStands(history, k);
    InPlan(groups, RecordedBy(history), filter, k);
  }

  ghost predicate EveryAcceptedRecorded(history: seq<PastRun>) {
    forall i, k | 0 <= i < |history| && k in PlannedAt(history, i) :: Accepted(history[i].oracle, k) ==> Stored(history[i].oracle, k)
  }

  lemma {:induction false} AllRecorded(history: seq<PastRun>, k: Key)
    requires EveryAcceptedRecorded(history)
    ensures LastAccepted(history, k) != Some(false)
  {
    hide PlanFor, RecordedBy, Accepted, Stored;
    if history != [] {
      var n := |history| - 1;
      var front := history[..n];
      forall i, j | 0 <= i < |front| && j in PlannedAt(front, i) ensures Accepted(front[i].oracle, j) ==> Stored(front[i].oracle, j) {
        assert front[..i] == history[..i];
        assert j in PlannedAt(history, i);
      }
      AllRecorded(front, k);
    }
  }

  /** In particular they agree everywhere if every accepted event of the past was recorded. */
  lemma HistoryAgrees(history: seq<PastRun>)
    requires EveryAcceptedRecorded(history)
    ensures Agrees(RecordedBy(history), SentBy(history))
  {
    hide RecordedBy, SentBy, LastAccepted, EveryAcceptedRecorded, AgreesAt;
    forall k ensures AgreesAt(RecordedBy(history), SentBy(history), k) {
      AllRecorded(history, k);
      AgreementIff(history, k);
    }
  }

  /** And then an empty plan means exactly that every tenant last sent the current document of every vehicle the scan looks at. */
  lemma EmptyPlanMeansSentIsCurrent(history: seq<PastRun>, groups: Groups, filter: Option<Tenant>)
    requires EveryAcceptedRecorded(history)
    ensures PlanFor(groups, RecordedBy(history), filter) == {} <==>
            forall k :: InScope(filter, k) ==> DocOf(SentBy(history), k) == DocOf(groups, k)
  {
    HistoryAgrees(history);
    var published, sent := RecordedBy(history), SentBy(history);
    hide RecordedBy, SentBy, PlanFor;
    forall k ensures k in PlanFor(groups, published, filter) <==> InScope(filter, k) && DocOf(sent, k) != DocOf(groups, k) {
      InPlan(groups, published, filter, k);
      assert AgreesAt(published, sent, k);
    }
    if PlanFor(groups, published, filter) != {} {
      var k :| k in PlanFor(groups, published, filter);
      assert InScope(filter, k);
    }
  }

  // ---- Streams ----------------------------------------------------------

  /** Each tenant's events were signed with the same licence throughout. */
  ghost predicate Steady(history: seq<PastRun>, holder: Tenant -> Tenant) {
    forall i, t :: 0 <= i < |history| ==> history[i].oracle.holder(t) == holder(t)
  }

  /** The last event of a stream is the last that its sender sent. */
  ghost predicate PostedLast(wire: Wire, sent: Groups, holder: Tenant -> Tenant, s: Stream) {
    s in wire ==> StreamOf(holder, wire[s].sender) == s && wire[s].sender in sent && wire[s].doc == sent[wire[s].sender]
  }

  lemma PostedStep(wire: Wire, sent: Groups, plan: set<Key>, groups: Groups, o: Oracle, holder: Tenant -> Tenant, s: Stream)
    requires PostedLast(wire, sent, holder, s) && forall t :: o.holder(t) == holder(t)
    ensures PostedLast(WireAfter(wire, plan, groups, o), SentAfter(sent, plan, groups, o), holder, s)
  {
    hide WireAfter, Writers;
    WireAt(wire, plan, groups, o, s);
    if Writers(plan, o, s) != {} {
      WriterIs(plan, o, s, MaxOf(Writers(plan, o, s)));
    } else if s in wire {
      assert !(wire[s].sender in plan && Accepted(o, wire[s].sender)) by { IsWriter(plan, o, wire[s].sender); }
    }
  }

  lemma IsWriter(plan: set<Key>, o: Oracle, k: Key)
    ensures k in plan && Accepted(o, k) ==> k.0 in Writers(plan, o, StreamOf(o.holder, k))
  {
  }

  lemma {:induction false} HistoryPosts(history: seq<PastRun>, holder: Tenant -> Tenant, s: Stream)
    requires Steady(history, holder)
    ensures PostedLast(WireBy(history), SentBy(history), holder, s)
  {
    hide PlanFor, WireAfter, SentAfter, RecordedAfter, PostedLast;
    if history == [] {
      NothingPosted(holder, s);
    } else {
      var n := |history| - 1;
      var front, run := history[..n], history[n];
      assert forall i :: 0 <= i < n ==> front[i] == history[i];
      HistoryPosts(front, holder, s);
      PostedStep(WireBy(front), SentBy(front), PlanFor(run.groups, RecordedBy(front), run.filter), Scoped(run.groups, run.filter),
                 run.oracle, holder, s);
    }
  }

  lemma NothingPosted(holder: Tenant -> Tenant, s: Stream)
    ensures PostedLast(map[], map[], holder, s)
  {
  }

  /** Whoever has sent a document has written to its stream. */
  lemma {:induction false} SentIsOnItsStream(history: seq<PastRun>, holder: Tenant -> Tenant, k: Key)
    requires Steady(history, holder) && k in SentBy(history)
    ensures StreamOf(holder, k) in WireBy(history)
  {
    hide PlanFor, WireAfter, RecordedAfter, Writers;
    var n := |history| - 1;
    var front, run := history[..n], history[n];
    var plan, s := PlanFor(run.groups, RecordedBy(front), run.filter), StreamOf(holder, k);
    assert forall i :: 0 <= i < n ==> front[i] == history[i];
    if k in SentBy(front) {
      SentIsOnItsStream(front, holder, k);
    }
    IsWriter(plan, run.oracle, k);
    WireAt(WireBy(front), plan, Scoped(run.groups, run.filter), run.oracle, s);
  }

  /**
   What a stream shows for a vehicle the scan leaves out of its plan. Unwritten,
   it shows the current, empty document. Written last by the vehicle's own
   tenant, it shows the current document exactly when that event was recorded.
   Written last for another tenant whose event was recorded and who has nothing
   to publish either, exactly when both have the same document.
   */
  lemma StreamIsCurrentIff(history: seq<PastRun>, holder: Tenant -> Tenant, groups: Groups, filter: Option<Tenant>, k: Key)
    requires Steady(history, holder) && InScope(filter, k) && k !in PlanFor(groups, RecordedBy(history), filter)
    ensures var s, wire := StreamOf(holder, k), WireBy(history);
            if s !in wire then DocOf(groups, k) == []
            else
              var last := wire[s].sender;
              && StreamOf(holder, last) == s && LastAccepted(history, last).Some?
              && (last == k ==> (OnWire(wire, s) == DocOf(groups, k) <==> LastAccepted(history, k) == Some(true)))
              && (InScope(filter, last) && last !in PlanFor(groups, RecordedBy(history), filter) && LastAccepted(history, last) == Some(true) ==>
                    (OnWire(wire, s) == DocOf(groups, k) <==> DocOf(groups, last) == DocOf(groups, k)))
  {
    hide RecordedBy, SentBy, WireBy, LastAccepted, PlanFor, Steady;
    var s, wire := StreamOf(holder, k), WireBy(history);
    HistoryPosts(history, holder, s);
    HistoryStands(history, k);
    UnplannedIsCurrentIff(history, groups, filter, k);
    if s !in wire {
      if k in SentBy(history) {
        SentIsOnItsStream(history, holder, k);
      }
    } else {
      var last := wire[s].sender;
      HistoryStands(history, last);
      if InScope(filter, last) && last !in PlanFor(groups, RecordedBy(history), filter) {
        UnplannedIsCurrentIff(history, groups, filter, last);
      }
    }
  }

  /** No other tenant of the same licence has published the vehicle. */
  ghost predicate SolePublisher(history: seq<PastRun>, holder: Tenant -> Tenant, k: Key) {
    forall other :: other != k && StreamOf(holder, other) == StreamOf(holder, k) ==> LastAccepted(history, other).None?
  }

  /** A sole publisher's stream shows the current document of an unplanned vehicle exactly when the last accepted event was recorded, or there was none. */
  lemma SolePublisherIsCurrentIff(history: seq<PastRun>, holder: Tenant -> Tenant, groups: Groups, filter: Option<Tenant>, k: Key)
    requires Steady(history, holder) && InScope(filter, k) && k !in PlanFor(groups, RecordedBy(history), filter)
    requires SolePublisher(history, holder, k)
    ensures OnWire(WireBy(history), StreamOf(holder, k)) == DocOf(groups, k) <==> LastAccepted(history, k) != Some(false)
  {
    hide RecordedBy, SentBy, WireBy, LastAccepted, PlanFor, Steady;
    StreamIsCurrentIff(history, holder, groups, filter, k);
    HistoryStands(history, k);
    if k in SentBy(history) {
      SentIsOnItsStream(history, holder, k);
    }
  }

  /** The scan has something to compare for the vehicle: groups now, or a document sent before. */
  predicate Concerns(groups: Groups, sent: Groups, k: Key) {
    DocOf(groups, k) != [] || k in sent
  }

  /**
   If every accepted event was recorded and no vehicle the scan compares shares
   its stream, an empty plan means exactly that every such stream shows the
   current document.
   */
  lemma EmptyPlanMeansWireIsCurrent(history: seq<PastRun>, holder: Tenant -> Tenant, groups: Groups, filter: Option<Tenant>)
    requires Steady(history, holder) && EveryAcceptedRecorded(history)
    requires forall k :: InScope(filter, k) && Concerns(groups, SentBy(history), k) ==> SolePublisher(history, holder, k)
    ensures PlanFor(groups, RecordedBy(history), filter) == {} <==>
            forall k :: InScope(filter, k) && Concerns(groups, SentBy(history), k) ==> OnWire(WireBy(history), StreamOf(holder, k)) == DocOf(groups, k)
  {
    hide RecordedBy, SentBy, WireBy, LastAccepted, PlanFor, Steady, EveryAcceptedRecorded, SolePublisher;
    EmptyPlanMeansSentIsCurrent(history, groups, filter);
    forall k | InScope(filter, k)
      ensures Concerns(groups, SentBy(history), k) ==> OnWire(WireBy(history), StreamOf(holder, k)) == DocOf(SentBy(history), k)
      ensures !Concerns(groups, SentBy(history), k) ==> DocOf(SentBy(history), k) == DocOf(groups, k)
    {
      if Concerns(groups, SentBy(history), k) {
        SoleStreamShowsSent(history, holder, k);
      }
    }
  }

  lemma SoleStreamShowsSent(history: seq<PastRun>, holder: Tenant -> Tenant, k: Key)
    requires Steady(history, holder) && SolePublisher(history, holder, k)
    ensures OnWire(WireBy(history), StreamOf(holder, k)) == DocOf(SentBy(history), k)
  {
    hide RecordedBy, SentBy, WireBy, LastAccepted, Steady;
    var s := StreamOf(holder, k);
    HistoryPosts(history, holder, s);
    if k in SentBy(history) {
      SentIsOnItsStream(history, holder, k);
    }
    if s in WireBy(history) {
      HistoryStands(history, WireBy(history)[s].sender);
    }
  }

  /**
   Two tenants of one licence that both group a vehicle: everything is accepted
   and recorded, nothing is left to publish, and the stream shows only the
   later tenant's document.
   */
  lemma TwoTenantsOneStream(t: Tenant, u: Tenant, licence: Tenant, vehicle: nat, a: Doc, b: Doc)
    requires t < u && a != b && a != [] && b != []
    ensures var o := Oracle(_ => Token, _ => Recorded, _ => licence);
            var groups := map[(t, vehicle) := a, (u, vehicle) := b];
            var history := [PastRun(groups, None, o)];
            && EveryAcceptedRecorded(history)
            && PlanFor(groups, RecordedBy(history), None) == {}
            && OnWire(WireBy(history), (licence, vehicle)) == b != DocOf(groups, (t, vehicle))
  {
    hide PlanFor, RecordedBy, WireBy, RecordedAfter, WireAfter, Scoped;
    var o := Oracle(_ => Token, _ => Recorded, _ => licence);
    var k, l := (t, vehicle), (u, vehicle);
    var groups: Groups := map[k := a, l := b];
    FirstRun(groups, o);
    var plan := PlanFor(groups, map[], None);
    forall x ensures x in plan <==> x == k || x == l {
      InPlan(groups, map[], None, x);
    }
    RunConverges(groups, map[], None, o);
    LaterTenantWins(plan, groups, o, k, l);
  }

  lemma LaterTenantWins(plan: set<Key>, groups: Groups, o: Oracle, k: Key, l: Key)
    requires plan == {k, l} && k.0 < l.0 && k.1 == l.1 && o.holder(k.0) == o.holder(l.0) && Accepted(o, k) && Accepted(o, l)
    ensures OnWire(WireAfter(map[], plan, Scoped(groups, None), o), StreamOf(o.holder, l)) == DocOf(groups, l)
  {
    hide WireAfter, Accepted;
    var s := StreamOf(o.holder, l);
    assert Writers(plan, o, s) == {k.0, l.0};
    hide Writers;
    WireAt(map[], plan, Scoped(groups, None), o, s);
    assert MaxOf({k.0, l.0}) == l.0;
  }

  lemma FirstRun(groups: Groups, o: Oracle)
    ensures var history := [PastRun(groups, None, o)];
            var plan, scoped := PlanFor(groups, map[], None), Scoped(groups, None);
            && RecordedBy(history) == RecordedAfter(map[], plan, scoped, o) && WireBy(history) == WireAfter(map[], plan, scoped, o)
  {
    hide PlanFor, Scoped, RecordedAfter, WireAfter;
    var history := [PastRun(groups, None, o)];
    var none: seq<PastRun> := [];
    assert history[..0] == none;
    assert RecordedBy(none) == map[] && WireBy(none) == map[];
  }

  lemma RetractionSurvives(before: Digests, run: PastRun, k: Key)
    requires k in before && before[k] == Digest([]) && DocOf(run.groups, k) == []
    ensures var after := RecordedAfter(before, PlanFor(run.groups, before, run.filter), Scoped(run.groups, run.filter), run.oracle);
            k in after && after[k] == Digest([])
  {
    InPlan(run.groups, before, run.filter, k);
    hide PlanFor;
  }

  /** A recorded retraction stays recorded while the vehicle has no groups. */
  lemma {:induction false} RetractionStays(history: seq<PastRun>, n: nat, m: nat, k: Key)
    requires n <= m <= |history|
    requires k in RecordedBy(history[..n]) && RecordedBy(history[..n])[k] == Digest([])
    requires forall i :: n <= i < m ==> DocOf(history[i].groups, k) == []
    ensures k in RecordedBy(history[..m]) && RecordedBy(history[..m])[k] == Digest([])
    decreases m
  {
    hide PlanFor, RecordedAfter, Scoped;
    if n < m {
      RetractionStays(history, n, m - 1, k);
      assert history[..m][..m - 1] == history[..m - 1] && history[..m][m - 1] == history[m - 1];
      RetractionSurvives(RecordedBy(history[..m - 1]), history[m - 1], k);
    }
  }

  /**
   A retraction that went through is planned once: while the vehicle stays
   without groups, no later run, whatever its filter, plans it again.
   */
  lemma RetractionPlannedOnce(history: seq<PastRun>, n: nat, m: nat, k: Key)
    requires n < m < |history|
    requires k in PlannedAt(history, n) && Stored(history[n].oracle, k)
    requires forall i :: n <= i <= m ==> DocOf(history[i].groups, k) == []
    ensures k !in PlannedAt(history, m)
  {
    var run := history[n];
    InPlan(run.groups, RecordedBy(history[..n]), run.filter, k);
    InPlan(history[m].groups, RecordedBy(history[..m]), history[m].filter, k);
    hide PlanFor;
    assert history[..n + 1][..n] == history[..n];
    RetractionStays(history, n + 1, m, k);
  }

  /**
   A document accepted but not recorded, followed by groups going back to what
   is recorded, leaves the other document on the wire under an empty plan.
   */
  lemma UnrecordedEventIsForgotten(k: Key, a: Doc, b: Doc)
    requires a != b && a != [] && b != []
    ensures var ok, lost := Oracle(_ => Token, _ => Recorded, t => t), Oracle(_ => Token, _ => RecordFailed, t => t);
            var history := [PastRun(map[k := a], None, ok), PastRun(map[k := b], None, lost)];
            PlanFor(map[k := a], RecordedBy(history), None) == {} && OnWire(WireBy(history), k) == b
  {
    var ok, lost := Oracle(_ => Token, _ => Recorded, t => t), Oracle(_ => Token, _ => RecordFailed, t => t);
    var first := [PastRun(map[k := a], None, ok)];
    var history := [PastRun(map[k := a], None, ok), PastRun(map[k := b], None, lost)];
    assert first[..0] == [] && history[..1] == first;
    assert PlanFor(map[k := a], map[], None) == {k};
    assert RecordedBy(first) == map[k := Digest(a)];
    assert PlanFor(map[k := b], RecordedBy(first), None) == {k};
    assert RecordedBy(history) == map[k := Digest(a)];
    assert Scoped(map[k := b], None) == map[k := b];
    hide WireAfter;
    WroteOne(WireBy(first), k, map[k := b], lost);
  }
}

/**
 The durable memory of what accounts-api says about a wallet's shared account,
 and the two paths that read it: the display gate (`FilterSignable`) and the
 out-of-band warm-up. Wallets are canonical checksummed addresses; a caller's
 owner string that is not an address is `None`.
 */
module SignerCache {
  import opened Wrappers
  import opened Lists

  type Wallet = nat
  type Time = int

  const NEGATIVE_RECHECK_AFTER := 24 * 3600

  // ---- accounts-api -----------------------------------------------------

  datatype Registration = Registration(signer: Wallet, since: Time)

  /** A signer is accepted once, at registration, and never revoked. */
  type Registry = map<Wallet, Registration>

  /** What accounts-api answers about a wallet at one time. */
  function Live(reg: Registry, w: Wallet, at: Time): Option<Wallet> {
    if w in reg && reg[w].since <= at then Some(reg[w].signer) else None
  }

  // ---- The shared_accounts table ----------------------------------------

  datatype Row = Row(signer: Option<Wallet>, checkedAt: Time)

  type Rows = map<Wallet, Row>

  predicate Fresh(r: Row, now: Time) {
    r.signer.Some? || now - r.checkedAt < NEGATIVE_RECHECK_AFTER
  }

  predicate Known(rows: Rows, w: Wallet, now: Time) {
    w in rows && Fresh(rows[w], now)
  }

  /** A stored signer answers for ever; a stored "none" for less than a day. */
  lemma AnswersAge(rows: Rows, w: Wallet, now: Time)
    requires w in rows
    ensures rows[w].signer.Some? ==> Known(rows, w, now)
    ensures rows[w].signer.None? ==> (Known(rows, w, now) <==> now < rows[w].checkedAt + 86400)
  {
  }

  /** `Record`'s upsert: COALESCE keeps a stored signer when the new answer has none. */
  function Recorded(rows: Rows, w: Wallet, answer: Option<Wallet>, now: Time): Rows {
    var signer := if answer.None? && w in rows then rows[w].signer else answer;
    rows[w := Row(signer, now)]
  }

  /** One Record call: an answer given at `askedAt`, stored at `at`. */
  datatype Write = Write(wallet: Wallet, answer: Option<Wallet>, askedAt: Time, at: Time)

  /** The writer passed on what accounts-api said. */
  predicate Honest(reg: Registry, w: Write) {
    w.askedAt <= w.at && w.answer == Live(reg, w.wallet, w.askedAt)
  }

  /** The table after any interleaving of concurrent calls' writes. */
  function Replayed(rows: Rows, writes: seq<Write>): Rows {
    if writes == [] then rows
    else
      var w := writes[|writes| - 1];
      Recorded(Replayed(rows, writes[..|writes| - 1]), w.wallet, w.answer, w.at)
  }

  /** Every stored signer is the wallet's live one, at every time from when it was stored. */
  ghost predicate Sound(reg: Registry, rows: Rows) {
    forall w :: w in rows && rows[w].signer.Some? ==> Live(reg, w, rows[w].checkedAt) == rows[w].signer
  }

  /** Soundness of one wallet's row, and its not moving back in time. */
  ghost predicate InOrder(rows: Rows, w: Write) {
    w.wallet in rows ==> rows[w.wallet].checkedAt <= w.at
  }

  ghost predicate Interleaving(reg: Registry, rows: Rows, writes: seq<Write>) {
    && (forall i :: 0 <= i < |writes| ==> Honest(reg, writes[i]) && InOrder(rows, writes[i]))
    && (forall i, j :: 0 <= i < j < |writes| ==> writes[i].at <= writes[j].at)
  }

  /** Any interleaving of honest writes keeps the table sound. */
  lemma {:induction false} InterleavingKeepsSound(reg: Registry, rows: Rows, writes: seq<Write>)
    requires Sound(reg, rows) && Interleaving(reg, rows, writes)
    ensures Sound(reg, Replayed(rows, writes))
  {
    if writes != [] {
      var front, last := writes[..|writes| - 1], writes[|writes| - 1];
      assert forall i :: 0 <= i < |front| ==> front[i] == writes[i];
      InterleavingKeepsSound(reg, rows, front);
      var before := Replayed(rows, front);
      if last.wallet in before {
        LastStoredBy(rows, front, last.wallet, last.at);
      }
      assert Honest(reg, last);
    }
  }

  lemma {:induction false} LastStoredBy(rows: Rows, writes: seq<Write>, w: Wallet, limit: Time)
    requires forall i :: 0 <= i < |writes| ==> writes[i].at <= limit
    requires w in rows ==> rows[w].checkedAt <= limit
    ensures w in Replayed(rows, writes) ==> Replayed(rows, writes)[w].checkedAt <= limit
  {
    if writes != [] {
      LastStoredBy(rows, writes[..|writes| - 1], w, limit);
    }
  }

  /**
   Whatever the order in which concurrent renders land, a wallet has a stored
   signer exactly when it had one or one of them brought one: no negative
   erases it.
   */
  lemma {:induction false} PositivesSurvive(rows: Rows, writes: seq<Write>, w: Wallet)
    ensures w in Replayed(rows, writes) && Replayed(rows, writes)[w].signer.Some? <==>
            (w in rows && rows[w].signer.Some?) || exists i :: 0 <= i < |writes| && writes[i].wallet == w && writes[i].answer.Some?
  {
    if writes != [] {
      var front, last := writes[..|writes| - 1], writes[|writes| - 1];
      PositivesSurvive(rows, front, w);
      assert forall i :: 0 <= i < |front| ==> front[i] == writes[i];
      if last.wallet == w && last.answer.Some? {
        assert writes[|writes| - 1].wallet == w;
      }
    }
  }

  // ---- Owner lists ------------------------------------------------------

  /** The entries of a list that are addresses. */
  function Addresses(owners: seq<Option<Wallet>>): seq<Wallet> {
    if owners == [] then []
    else
      var front, last := Addresses(owners[..|owners| - 1]), owners[|owners| - 1];
      if last.Some? then front + [last.value] else front
  }

  lemma {:induction false} AddressesElements(owners: seq<Option<Wallet>>)
    ensures forall w :: w in Addresses(owners) <==> Some(w) in owners
  {
    if owners != [] {
      AddressesElements(owners[..|owners| - 1]);
      assert owners == owners[..|owners| - 1] + [owners[|owners| - 1]];
    }
  }

  /** The distinct addresses of a list, in first-seen order, malformed entries skipped. */
  function Named(owners: seq<Option<Wallet>>): seq<Wallet> {
    Distinct(Addresses(owners))
  }

  /** Each address once, none lost and none added. */
  lemma NamedIsTheSet(owners: seq<Option<Wallet>>)
    ensures NoRepeats(Named(owners))
    ensures forall w :: w in Named(owners) <==> Some(w) in owners
  {
    AddressesElements(owners);
    DistinctIsTheSet(Addresses(owners));
  }

  lemma NamedStep(owners: seq<Option<Wallet>>, n: nat)
    requires n < |owners|
    ensures var was := Named(owners[..n]);
            Named(owners[..n + 1]) == if owners[n].Some? && owners[n].value !in was then was + [owners[n].value] else was
  {
    assert owners[..n + 1][..n] == owners[..n];
    var was := Addresses(owners[..n]);
    if owners[n].Some? {
      assert (was + [owners[n].value])[..|was|] == was;
    }
  }

  lemma OneOwnerOnce(s: seq<Wallet>, w: Wallet)
    requires NoRepeats(s) && forall i :: 0 <= i < |s| ==> s[i] == w
    ensures |s| <= 1
  {
    SetSize(s);
    SubsetSize(Elements(s), {w});
  }

  lemma OneMoreOwner(first: seq<Wallet>, rest: seq<Wallet>)
    requires |first| <= 1 && (NoRepeats(rest) || rest == []) && (first != [] ==> first[0] !in rest)
    ensures NoRepeats(first + rest)
  {
  }

  function Without(s: seq<Wallet>, w: Option<Wallet>): seq<Wallet> {
    if s == [] then []
    else
      var front := Without(s[..|s| - 1], w);
      if Some(s[|s| - 1]) == w then front else front + [s[|s| - 1]]
  }

  /** The owners with no usable answer on record, in order. */
  function Cold(owners: seq<Wallet>, rows: Rows, now: Time): seq<Wallet> {
    if owners == [] then []
    else
      var front, last := Cold(owners[..|owners| - 1], rows, now), owners[|owners| - 1];
      if Known(rows, last, now) then front else front + [last]
  }

  lemma {:induction false} ColdElements(owners: seq<Wallet>, rows: Rows, now: Time)
    ensures forall w :: w in Cold(owners, rows, now) <==> w in owners && !Known(rows, w, now)
    ensures NoRepeats(owners) ==> NoRepeats(Cold(owners, rows, now))
  {
    if owners != [] {
      var front, last := owners[..|owners| - 1], owners[|owners| - 1];
      ColdElements(front, rows, now);
      assert owners == front + [last];
      assert NoRepeats(owners) ==> NoRepeats(front);
    }
  }

  lemma {:induction false} WithoutNothing(s: seq<Wallet>)
    ensures Without(s, None) == s
  {
    if s != [] {
      WithoutNothing(s[..|s| - 1]);
    }
  }

  lemma {:induction false} WithoutElements(s: seq<Wallet>, skip: Option<Wallet>)
    ensures forall w :: w in Without(s, skip) <==> w in s && Some(w) != skip
    ensures NoRepeats(s) ==> NoRepeats(Without(s, skip))
  {
    if s != [] {
      WithoutElements(s[..|s| - 1], skip);
      assert s == s[..|s| - 1] + [s[|s| - 1]];
    }
  }

  // ---- The service ------------------------------------------------------

  /** How one accounts-api lookup ended. `deadline` is a blown budget or a cancelled caller. */
  datatype Lookup = Answer(signer: Option<Wallet>, askedAt: Time) | Failed(deadline: bool)

  /** What happens while a batch runs: its own lookups finishing, in any order, among other calls' writes. */
  datatype PoolEvent =
    | Mine(owner: Wallet, lookup: Lookup, stored: bool, at: Time)
    | Theirs(write: Write)

  /** The writes a schedule makes to the table. A failed write is logged and dropped. */
  function Writes(events: seq<PoolEvent>): seq<Write> {
    if events == [] then []
    else
      var front, e := Writes(events[..|events| - 1]), events[|events| - 1];
      if e.Theirs? then front + [e.write]
      else if e.lookup.Answer? && e.stored then front + [Write(e.owner, e.lookup.signer, e.lookup.askedAt, e.at)]
      else front
  }

  /** The write an event makes, if it makes one. */
  predicate Makes(e: PoolEvent, w: Write) {
    if e.Theirs? then e.write == w
    else e.lookup.Answer? && e.stored && w == Write(e.owner, e.lookup.signer, e.lookup.askedAt, e.at)
  }

  /** Every answer that arrived and was stored is a write, so is every other call's, and nothing else is. */
  lemma {:induction false} WritesAre(events: seq<PoolEvent>, w: Write)
    ensures w in Writes(events) <==> exists e :: e in events && Makes(e, w)
  {
    if events != [] {
      var front, last := events[..|events| - 1], events[|events| - 1];
      WritesAre(front, w);
      assert events == front + [last] && last in events;
      assert Makes(last, w) ==> w in Writes(events);
      if e :| e in front && Makes(e, w) {
        assert e in events && w in Writes(events);
      }
    }
  }

  /** The channel hands each owner to one worker. */
  ghost predicate FromPool(owners: seq<Wallet>, events: seq<PoolEvent>) {
    && (forall i :: 0 <= i < |events| && events[i].Mine? ==> events[i].owner in owners)
    && (forall i, j :: 0 <= i < j < |events| && events[i].Mine? && events[j].Mine? ==> events[i].owner != events[j].owner)
  }

  /** Each lookup's answer is accounts-api's, at some time during the call. */
  ghost predicate AnswersAreLive(events: seq<PoolEvent>, reg: Registry, start: Time, end: Time) {
    forall i :: 0 <= i < |events| && events[i].Mine? && events[i].lookup.Answer? ==>
      && start <= events[i].lookup.askedAt <= end
      && events[i].lookup.signer == Live(reg, events[i].owner, events[i].lookup.askedAt)
  }

  ghost predicate WasAnswered(events: seq<PoolEvent>, w: Wallet) {
    exists i :: 0 <= i < |events| && events[i].Mine? && events[i].owner == w && events[i].lookup.Answer?
  }

  /** The owners this batch's lookups answered, with a signer or without one. */
  ghost function Answered(events: seq<PoolEvent>, some: bool): set<Wallet> {
    set i | 0 <= i < |events| && events[i].Mine? && events[i].lookup.Answer? && events[i].lookup.signer.Some? == some :: events[i].owner
  }

  /** The answers among the first `n` events, and only those. */
  ghost predicate Collected(events: seq<PoolEvent>, n: nat, resolved: map<Wallet, Option<Wallet>>)
    requires n <= |events|
  {
    && (forall w :: w in resolved ==> exists i :: 0 <= i < n && events[i].Mine? && events[i].owner == w
                                                  && events[i].lookup.Answer? && events[i].lookup.signer == resolved[w])
    && (forall i :: 0 <= i < n && events[i].Mine? && events[i].lookup.Answer? ==> events[i].owner in resolved)
  }

  lemma CollectedStep(events: seq<PoolEvent>, n: nat, resolved: map<Wallet, Option<Wallet>>)
    requires n < |events| && Collected(events, n, resolved)
    ensures var e := events[n];
            Collected(events, n + 1, if e.Mine? && e.lookup.Answer? then resolved[e.owner := e.lookup.signer] else resolved)
  {
    var e := events[n];
    if e.Mine? && e.lookup.Answer? {
      var resolved' := resolved[e.owner := e.lookup.signer];
      forall w | w in resolved'
        ensures exists i :: 0 <= i < n + 1 && events[i].Mine? && events[i].owner == w
                            && events[i].lookup.Answer? && events[i].lookup.signer == resolved'[w]
      {
        if w == e.owner {
          assert events[n].owner == w;
        } else {
          assert w in resolved;
        }
      }
    }
  }

  lemma WritesStep(rows: Rows, events: seq<PoolEvent>, n: nat)
    requires n < |events|
    ensures var e, before := events[n], Replayed(rows, Writes(events[..n]));
            Replayed(rows, Writes(events[..n + 1])) ==
            match e
            case Theirs(w) => Recorded(before, w.wallet, w.answer, w.at)
            case Mine(owner, Answer(signer, _), true, at) => Recorded(before, owner, signer, at)
            case _ => before
  {
    hide Recorded;
    assert events[..n + 1][..n] == events[..n];
    var was, now := Writes(events[..n]), Writes(events[..n + 1]);
    assert now == was || now[..|was|] == was;
  }

  lemma NothingYet(rows: Rows, events: seq<PoolEvent>)
    ensures Replayed(rows, Writes(events[..0])) == rows && Collected(events, 0, map[]) && FirstFailure(events[..0]).None?
  {
  }

  ghost function Having(resolved: map<Wallet, Option<Wallet>>, some: bool): set<Wallet> {
    set w | w in resolved && resolved[w].Some? == some
  }

  lemma HavingSplits(resolved: map<Wallet, Option<Wallet>>)
    ensures |Having(resolved, true)| + |Having(resolved, false)| == |resolved|
  {
    assert resolved.Keys == Having(resolved, true) + Having(resolved, false);
  }

  lemma AnsweredIsResolved(owners: seq<Wallet>, events: seq<PoolEvent>, resolved: map<Wallet, Option<Wallet>>)
    requires FromPool(owners, events)
    requires Collected(events, |events|, resolved)
    ensures forall some :: Having(resolved, some) == Answered(events, some)
  {
    forall some, w ensures w in Having(resolved, some) <==> w in Answered(events, some) {
      if w in resolved {
        var i :| 0 <= i < |events| && events[i].Mine? && events[i].owner == w && events[i].lookup.Answer? && events[i].lookup.signer == resolved[w];
        if w in Answered(events, some) {
          var j :| 0 <= j < |events| && events[j].Mine? && events[j].lookup.Answer? && events[j].owner == w && events[j].lookup.signer.Some? == some;
          assert i == j;
        }
      }
    }
  }

  ghost predicate UpstreamFailed(events: seq<PoolEvent>) {
    exists i :: 0 <= i < |events| && events[i].Mine? && events[i].lookup == Failed(false)
  }

  /** Whether the first lookup to fail ran out of time; `None` if none failed. */
  function FirstFailure(events: seq<PoolEvent>): Option<bool> {
    if events == [] then None
    else
      var front, e := FirstFailure(events[..|events| - 1]), events[|events| - 1];
      if front.None? && e.Mine? && e.lookup.Failed? then Some(e.lookup.deadline) else front
  }

  predicate FailsAt(events: seq<PoolEvent>, i: nat, deadline: bool) {
    i < |events| && events[i].Mine? && events[i].lookup == Failed(deadline)
  }

  /** A lookup fails there, and none before it. */
  ghost predicate FirstFailsAt(events: seq<PoolEvent>, i: nat, deadline: bool) {
    FailsAt(events, i, deadline) && forall j: nat, d :: j < i ==> !FailsAt(events, j, d)
  }

  /** The first failure is the one that no other precedes. */
  lemma {:induction false} FirstFailureIs(events: seq<PoolEvent>)
    ensures forall d :: FirstFailure(events) == Some(d) <==> exists i: nat :: FirstFailsAt(events, i, d)
    ensures FirstFailure(events).None? <==> forall i: nat, d :: !FailsAt(events, i, d)
  {
    if events != [] {
      var n := |events| - 1;
      var front, e := events[..n], events[n];
      FirstFailureIs(front);
      assert forall i: nat, d :: FailsAt(events, i, d) <==> FailsAt(front, i, d) || (i == n && FailsAt(events, n, d));
      forall d
        ensures FirstFailure(events) == Some(d) <==> exists i: nat :: FirstFailsAt(events, i, d)
      {
        FirstFailsMore(events, front, d);
      }
      assert e.Mine? && e.lookup.Failed? ==> FailsAt(events, n, e.lookup.deadline);
    }
  }

  lemma FirstFailsMore(events: seq<PoolEvent>, front: seq<PoolEvent>, d: bool)
    requires events != [] && front == events[..|events| - 1]
    ensures (exists i: nat :: FirstFailsAt(events, i, d)) <==>
            (exists i: nat :: FirstFailsAt(front, i, d)) || ((forall i: nat, d' :: !FailsAt(front, i, d')) && FailsAt(events, |front|, d))
  {
    assert forall i: nat, d' | i < |front| :: FailsAt(events, i, d') <==> FailsAt(front, i, d');
    if i: nat :| FirstFailsAt(events, i, d) {
      if i < |front| {
        assert FirstFailsAt(front, i, d);
      }
    }
    if i: nat :| FirstFailsAt(front, i, d) {
      assert FirstFailsAt(events, i, d);
    }
    if (forall i: nat, d' :: !FailsAt(front, i, d')) && FailsAt(events, |front|, d) {
      assert FirstFailsAt(events, |front|, d);
    }
  }

  lemma FirstFailureStep(events: seq<PoolEvent>, n: nat)
    requires n < |events|
    ensures var was, e := FirstFailure(events[..n]), events[n];
            FirstFailure(events[..n + 1]) == if was.None? && e.Mine? && e.lookup.Failed? then Some(e.lookup.deadline) else was
  {
    assert events[..n + 1][..n] == events[..n];
  }

  /**
   Exactly when a real failure among a batch's lookups is the one that counts:
   no lookup had run out of time before the first of them.
   */
  lemma FailureCountsIff(events: seq<PoolEvent>)
    requires UpstreamFailed(events)
    ensures FirstFailure(events) == Some(false) <==>
            forall j: nat | FailsAt(events, j, true) :: exists i: nat :: i < j && FailsAt(events, i, false)
  {
    hide FirstFailure;
    FirstFailureIs(events);
    var k :| 0 <= k < |events| && events[k].Mine? && events[k].lookup == Failed(false);
    assert FailsAt(events, k, false);
    if FirstFailure(events) == Some(false) {
      var i: nat :| FirstFailsAt(events, i, false);
      forall j: nat | FailsAt(events, j, true) ensures i < j && FailsAt(events, i, false) {
        assert j != i;
      }
    } else {
      assert FirstFailure(events).Some?;
      var d := FirstFailure(events).value;
      assert FirstFailure(events) == Some(d);
      assert d;
      var i: nat :| FirstFailsAt(events, i, true);
      assert FailsAt(events, i, true) && forall h: nat :: h < i ==> !FailsAt(events, h, false);
    }
  }

  /** The batch as a whole fails: the mint failed outright, or the first lookup to fail did not run out of time. */
  predicate BatchFails(mint: Mint, events: seq<PoolEvent>) {
    mint == MintFailed || (mint.Minted? && FirstFailure(events) == Some(false))
  }

  /** Some listed owner other than the AA wallet has no usable answer on record. */
  ghost predicate SomeoneToAsk(aaWallet: Option<Wallet>, owners: seq<Option<Wallet>>, rows: Rows, now: Time) {
    exists w :: Some(w) in owners && Some(w) != aaWallet && !Known(rows, w, now)
  }

  /** Some listed owner needs the table and the read failed, or some needs asking and the batch failed. */
  ghost predicate LookupsFail(aaWallet: Option<Wallet>, owners: seq<Option<Wallet>>, rows: Rows, now: Time, storeUp: bool,
                              mint: Mint, events: seq<PoolEvent>)
  {
    exists w :: Some(w) in owners && Some(w) != aaWallet && (!storeUp || (!Known(rows, w, now) && BatchFails(mint, events)))
  }

  lemma AskedAre(distinct: seq<Wallet>, aaWallet: Option<Wallet>, owners: seq<Option<Wallet>>, rows: Rows, now: Time, storeUp: bool,
                 mint: Mint, events: seq<PoolEvent>)
    requires forall w :: w in distinct <==> Some(w) in owners && Some(w) != aaWallet
    ensures SomeoneToAsk(aaWallet, owners, rows, now) <==> exists w :: w in distinct && !Known(rows, w, now)
    ensures LookupsFail(aaWallet, owners, rows, now, storeUp, mint, events) <==>
            distinct != [] && (!storeUp || ((exists w :: w in distinct && !Known(rows, w, now)) && BatchFails(mint, events)))
  {
    hide Known, BatchFails;
    assert distinct != [] ==> distinct[0] in distinct;
  }

  datatype Mint = Minted | MintDeadline | MintFailed

  datatype Error = CredentialError | StoreError | UpstreamError

  datatype Filtered = Filtered(signable: seq<Wallet>, unresolved: seq<Wallet>)

  datatype WarmResult = WarmResult(cold: nat, positive: nat, negative: nat, failed: nat)

  /** Every answer in hand is live at the end, and misses what was live at the start only behind a fresh stored negative. */
  ghost predicate Truthful(reg: Registry, answers: map<Wallet, Option<Wallet>>, rows: Rows, now: Time, end: Time) {
    forall w :: w in answers ==>
      && (answers[w].Some? ==> Live(reg, w, end) == answers[w])
      && (Live(reg, w, now).Some? ==> answers[w] == Live(reg, w, now) || FreshNegative(rows, w, now))
  }

  predicate FreshNegative(rows: Rows, w: Wallet, now: Time) {
    w in rows && rows[w].signer.None? && now - rows[w].checkedAt < NEGATIVE_RECHECK_AFTER
  }

  lemma PartitionIsTruthful(reg: Registry, answers: map<Wallet, Option<Wallet>>, rows: Rows, now: Time, end: Time)
    requires Sound(reg, rows) && now <= end
    requires forall w :: w in rows ==> rows[w].checkedAt <= now
    requires forall w :: w in answers ==> Known(rows, w, now) && answers[w] == rows[w].signer
    ensures Truthful(reg, answers, rows, now, end)
  {
  }

  class SharedSignerService {
    var rows: Rows

    constructor ()
      ensures rows == map[]
    {
      rows := map[];
    }

    method Record(w: Wallet, answer: Option<Wallet>, now: Time)
      modifies this
      ensures rows == Recorded(old(rows), w, answer, now)
      ensures w in rows && rows[w].checkedAt == now
      ensures rows[w].signer == if answer.Some? then answer else if w in old(rows) then old(rows)[w].signer else None
      ensures forall x :: x != w ==> (x in rows <==> x in old(rows)) && (x in rows ==> rows[x] == old(rows)[x])
    {
      if w in rows && answer.None? {
        rows := rows[w := rows[w].(checkedAt := now)];
      } else {
        rows := rows[w := Row(answer, now)];
      }
    }

    /** `ColdOwners`: deduplicate, look up, keep what has no fresh answer. */
    method ColdOwners(owners: seq<Option<Wallet>>, now: Time, storeUp: bool) returns (r: Result<seq<Wallet>, Error>)
      ensures r == if Named(owners) != [] && !storeUp then Err(StoreError) else Ok(Cold(Named(owners), rows, now))
    {
      var distinct := Dedupe(owners, None);
      WithoutNothing(Named(owners));
      if distinct == [] {
        return Ok([]);
      }
      if !storeUp {
        return Err(StoreError);
      }
      var cold := [];
      for n := 0 to |distinct|
        invariant cold == Cold(distinct[..n], rows, now)
      {
        assert distinct[..n + 1][..n] == distinct[..n];
        if !(distinct[n] in rows && Fresh(rows[distinct[n]], now)) {
          cold := cold + [distinct[n]];
        }
      }
      assert distinct[..|distinct|] == distinct;
      r := Ok(cold);
    }

    /** The dedup loop both paths share; `skip` is the tenant's own AA wallet, kept out of the lookups. */
    method Dedupe(owners: seq<Option<Wallet>>, skip: Option<Wallet>) returns (distinct: seq<Wallet>)
      ensures distinct == Without(Named(owners), skip)
    {
      var seen: set<Wallet> := {};
      distinct := [];
      for n := 0 to |owners|
        invariant distinct == Without(Named(owners[..n]), skip)
        invariant seen == set w | w in Named(owners[..n])
      {
        NamedStep(owners, n);
        if owners[n].Some? && owners[n].value !in seen {
          var was := Named(owners[..n]);
          assert (was + [owners[n].value])[..|was|] == was;
          seen := seen + {owners[n].value};
          if skip != owners[n] {
            distinct := distinct + [owners[n].value];
          }
        }
      }
      assert owners[..|owners|] == owners;
    }

    /**
     `resolveMany`: record each answer the moment it arrives. Only the first
     error to arrive decides whether the batch fails; answers recorded before
     that stay recorded.
     */
    method ResolveMany(mint: Mint, events: seq<PoolEvent>)
      returns (resolved: map<Wallet, Option<Wallet>>, error: Option<Error>, deadline: bool)
      modifies this
      ensures rows == if mint.Minted? then Replayed(old(rows), Writes(events)) else old(rows)
      ensures mint.Minted? && error.None? ==> Collected(events, |events|, resolved)
      ensures !mint.Minted? ==> resolved == map[] && error.Some? && (deadline <==> mint == MintDeadline)
      ensures mint.Minted? ==> !deadline && (error.Some? <==> FirstFailure(events) == Some(false))
      ensures error.Some? ==> error.value == UpstreamError
    {
      hide Replayed, Writes, Collected, Recorded, FirstFailure;
      resolved, error, deadline := map[], None, false;
      NothingYet(rows, events);
      if mint != Minted {
        return map[], Some(UpstreamError), mint == MintDeadline;
      }
      var firstError: Option<bool> := None;
      for n := 0 to |events|
        invariant rows == Replayed(old(rows), Writes(events[..n]))
        invariant Collected(events, n, resolved)
        invariant firstError == FirstFailure(events[..n])
      {
        FirstFailureStep(events, n);
        WritesStep(old(rows), events, n);
        CollectedStep(events, n, resolved);
        match events[n] {
          case Theirs(w) =>
            Record(w.wallet, w.answer, w.at);
          case Mine(owner, Answer(signer, askedAt), stored, at) =>
            if stored {
              Record(owner, signer, at);
            }
            resolved := resolved[owner := signer];
          case Mine(_, Failed(late), _, _) =>
            if firstError.None? {
              firstError := Some(late);
            }
        }
      }
      assert events[..|events|] == events;
      if firstError == Some(false) {
        return map[], Some(UpstreamError), false;
      }
    }

    method Partition(distinct: seq<Wallet>, known: Rows, now: Time)
      returns (registered: map<Wallet, Option<Wallet>>, unknown: seq<Wallet>)
      ensures forall w :: w in registered <==> w in distinct && Known(known, w, now)
      ensures forall w :: w in registered ==> w in known && registered[w] == known[w].signer
      ensures forall w :: w in unknown <==> w in distinct && !Known(known, w, now)
    {
      registered, unknown := map[], [];
      for n := 0 to |distinct|
        invariant forall w :: w in registered <==> w in distinct[..n] && Known(known, w, now)
        invariant forall w :: w in registered ==> w in known && registered[w] == known[w].signer
        invariant forall w :: w in unknown <==> w in distinct[..n] && !Known(known, w, now)
      {
        assert distinct[..n + 1] == distinct[..n] + [distinct[n]];
        if distinct[n] in known && Fresh(known[distinct[n]], now) {
          registered := registered[distinct[n] := known[distinct[n]].signer];
        } else {
          unknown := unknown + [distinct[n]];
        }
      }
      assert distinct[..|distinct|] == distinct;
    }

    method Missing(unknown: seq<Wallet>, registered: map<Wallet, Option<Wallet>>) returns (unresolved: seq<Wallet>)
      ensures forall w :: w in unresolved <==> w in unknown && w !in registered
    {
      unresolved := [];
      for n := 0 to |unknown|
        invariant forall w :: w in unresolved <==> w in unknown[..n] && w !in registered
      {
        assert unknown[..n + 1] == unknown[..n] + [unknown[n]];
        if unknown[n] !in registered {
          unresolved := unresolved + [unknown[n]];
        }
      }
      assert unknown[..|unknown|] == unknown;
    }

    method Matching(distinct: seq<Wallet>, registered: map<Wallet, Option<Wallet>>, signer: Wallet) returns (out: seq<Wallet>)
      ensures forall w :: w in out <==> w in distinct && w in registered && registered[w] == Some(signer)
      ensures NoRepeats(distinct) ==> NoRepeats(out)
    {
      out := [];
      for n := 0 to |distinct|
        invariant forall w :: w in out <==> w in distinct[..n] && w in registered && registered[w] == Some(signer)
        invariant NoRepeats(distinct) ==> NoRepeats(out)
      {
        assert distinct[..n + 1] == distinct[..n] + [distinct[n]];
        if distinct[n] in registered && registered[distinct[n]] == Some(signer) {
          out := out + [distinct[n]];
        }
      }
      assert distinct[..|distinct|] == distinct;
    }

    /** The half of `FilterSignable` that needs the signer arrangement: read the table, then ask about the rest. */
    method AskSigner(distinct: seq<Wallet>, signer: Wallet, now: Time, storeUp: bool,
                     mint: Mint, events: seq<PoolEvent>, ghost reg: Registry, ghost end: Time)
      returns (r: Result<Filtered, Error>)
      requires Sound(reg, rows) && now <= end
      requires forall w :: w in rows ==> rows[w].checkedAt <= now
      requires Interleaving(reg, rows, Writes(events))
      requires AnswersAreLive(events, reg, now, end)
      modifies this
      ensures Sound(reg, rows)
      ensures r.Ok? && NoRepeats(distinct) ==> NoRepeats(r.value.signable)
      ensures r.Ok? ==> forall w :: w in r.value.signable ==> w in distinct && Live(reg, w, end) == Some(signer)
      ensures r.Ok? ==> forall w :: w in distinct && Live(reg, w, now) == Some(signer) ==>
                w in r.value.signable || w in r.value.unresolved || FreshNegative(old(rows), w, now)
      ensures r.Ok? ==> forall w :: w in r.value.unresolved <==>
                w in distinct && !Known(old(rows), w, now) && !(mint.Minted? && WasAnswered(events, w))
      ensures rows == if storeUp && mint.Minted? && (exists w :: w in distinct && !Known(old(rows), w, now)) then Replayed(old(rows), Writes(events)) else old(rows)
      ensures r.Err? <==> !storeUp || ((exists w :: w in distinct && !Known(old(rows), w, now)) && BatchFails(mint, events))
      ensures r.Err? ==> r.error == if storeUp then UpstreamError else StoreError
    {
      hide Replayed, Writes, Interleaving, FirstFailure;
      if !storeUp {
        return Err(StoreError);
      }
      var registered, unknown := Partition(distinct, rows, now);
      assert unknown != [] ==> unknown[0] in unknown;
      var unresolved := [];
      PartitionIsTruthful(reg, registered, rows, now, end);
      if unknown != [] {
        var resolved, error, deadline := ResolveMany(mint, events);
        InterleavingKeepsSound(reg, old(rows), Writes(events));
        if error.Some? && !deadline {
          return Err(error.value);
        }
        registered := registered + resolved;
        unresolved := Missing(unknown, registered);
        assert Truthful(reg, registered, old(rows), now, end);
      }
      var matched := Matching(distinct, registered, signer);
      r := Ok(Filtered(matched, unresolved));
    }

    /**
     `FilterSignable`, judged against accounts-api itself: every owner returned
     is the tenant's AA wallet or has the tenant's signer live; every listed
     owner that has it live when the call starts is returned, reported
     unresolved, or hidden by a negative recorded less than 24 hours before.
     */
    method FilterSignable(credential: Result<Option<Wallet>, Error>, aaWallet: Option<Wallet>,
                          owners: seq<Option<Wallet>>, now: Time, storeUp: bool,
                          mint: Mint, events: seq<PoolEvent>, ghost reg: Registry, ghost end: Time)
      returns (r: Result<Filtered, Error>)
      requires Sound(reg, rows) && now <= end
      requires forall w :: w in rows ==> rows[w].checkedAt <= now
      requires Interleaving(reg, rows, Writes(events))
      requires AnswersAreLive(events, reg, now, end)
      modifies this
      ensures Sound(reg, rows)
      ensures r.Ok? ==> NoRepeats(r.value.signable)
      ensures r.Ok? && credential.Ok? ==> forall w :: w in r.value.signable ==>
                Some(w) in owners && (aaWallet == Some(w) || (credential.value.Some? && Live(reg, w, end) == credential.value))
      ensures r.Ok? && credential.Ok? ==> forall w :: Some(w) in owners ==>
                (aaWallet == Some(w) ==> w in r.value.signable)
      ensures r.Ok? && credential.Ok? && credential.value.Some? ==> forall w :: Some(w) in owners ==>
                (Live(reg, w, now) == credential.value ==>
                   w in r.value.signable || w in r.value.unresolved || FreshNegative(old(rows), w, now))
      ensures r.Ok? && credential.Ok? ==> forall w :: w in r.value.unresolved <==>
                && credential.value.Some? && Some(w) in owners && Some(w) != aaWallet
                && !Known(old(rows), w, now) && !(mint.Minted? && WasAnswered(events, w))
      ensures rows == if credential.Ok? && credential.value.Some? && storeUp && mint.Minted? && SomeoneToAsk(aaWallet, owners, old(rows), now)
                      then Replayed(old(rows), Writes(events)) else old(rows)
      ensures credential.Err? ==> r == Err(credential.error)
      ensures credential.Ok? ==> (r.Err? <==> credential.value.Some? && LookupsFail(aaWallet, owners, old(rows), now, storeUp, mint, events))
    {
      hide Replayed, Writes, Interleaving, Sound, AnswersAreLive, BatchFails, Known, WasAnswered, Live, FreshNegative, Named, Without, NoRepeats,
           SomeoneToAsk, LookupsFail;
      if credential.Err? {
        return Err(credential.error);
      }
      var signer := credential.value;
      if signer.None? && aaWallet.None? {
        var none: seq<Wallet> := [];
        OneMoreOwner(none, none);
        assert none + none == none;
        return Ok(Filtered(none, none));
      }
      var distinct := Dedupe(owners, aaWallet);
      NamedIsTheSet(owners);
      WithoutElements(Named(owners), aaWallet);
      var out := if aaWallet.Some? && aaWallet in owners then [aaWallet.value] else [];
      AskedAre(distinct, aaWallet, owners, rows, now, storeUp, mint, events);
      if distinct == [] || signer.None? {
        OneMoreOwner(out, []);
        assert out + [] == out;
        return Ok(Filtered(out, []));
      }
      var rest := AskSigner(distinct, signer.value, now, storeUp, mint, events, reg, end);
      if rest.Err? {
        return Err(rest.error);
      }
      assert NoRepeats(out + rest.value.signable) by { OneMoreOwner(out, rest.value.signable); }
      r := Ok(Filtered(out + rest.value.signable, rest.value.unresolved));
    }

    /**
     `check`, behind the gate on every signature: yes only for the AA wallet or
     a live signer; no to a live one only behind a fresh stored negative or a
     lookup the budget cut off.
     */
    method Check(credential: Result<Option<Wallet>, Error>, aaWallet: Option<Wallet>,
                 owner: Option<Wallet>, now: Time, storeUp: bool,
                 mint: Mint, events: seq<PoolEvent>, ghost reg: Registry, ghost end: Time)
      returns (r: Result<bool, Error>)
      requires Sound(reg, rows) && now <= end
      requires forall w :: w in rows ==> rows[w].checkedAt <= now
      requires Interleaving(reg, rows, Writes(events))
      requires AnswersAreLive(events, reg, now, end)
      modifies this
      ensures Sound(reg, rows)
      ensures owner.None? ==> r == Ok(false) && rows == old(rows)
      ensures r.Ok? && r.value ==>
                aaWallet == owner || (credential.Ok? && credential.value.Some? && Live(reg, owner.value, end) == credential.value)
      ensures r.Ok? && !r.value && owner.Some? && credential.Ok? ==>
                && aaWallet != owner
                && (credential.value.Some? && Live(reg, owner.value, now) == credential.value ==>
                      FreshNegative(old(rows), owner.value, now)
                      || (!Known(old(rows), owner.value, now) && !(mint.Minted? && WasAnswered(events, owner.value))))
      ensures rows == if credential.Ok? && credential.value.Some? && storeUp && mint.Minted? && SomeoneToAsk(aaWallet, [owner], old(rows), now)
                      then Replayed(old(rows), Writes(events)) else old(rows)
      ensures owner.Some? && credential.Err? ==> r == Err(credential.error)
      ensures owner.Some? && credential.Ok? ==>
                (r.Err? <==> credential.value.Some? && LookupsFail(aaWallet, [owner], old(rows), now, storeUp, mint, events))
    {
      hide Replayed, Writes, Interleaving, Sound, AnswersAreLive, BatchFails;
      if owner.None? {
        return Ok(false);
      }
      var filtered := FilterSignable(credential, aaWallet, [owner], now, storeUp, mint, events, reg, end);
      if filtered.Err? {
        return Err(filtered.error);
      }
      var signable := filtered.value.signable;
      forall i | 0 <= i < |signable| ensures signable[i] == owner.value {
        assert signable[i] in signable && Some(signable[i]) in [owner];
      }
      OneOwnerOnce(signable, owner.value);
      r := Ok(|signable| == 1);
      assert owner == Some(owner.value) && owner in [owner];
      assert |signable| == 1 ==> signable[0] == owner.value;
    }

    method Tally(resolved: map<Wallet, Option<Wallet>>) returns (positive: nat, negative: nat)
      ensures positive == |Having(resolved, true)| && negative == |Having(resolved, false)|
      ensures positive + negative == |resolved|
    {
      var remaining := resolved.Keys;
      positive, negative := 0, 0;
      ghost var pos: set<Wallet>, neg: set<Wallet> := {}, {};
      while remaining != {}
        invariant forall w :: w in remaining ==> w in resolved
        invariant forall w :: w in pos <==> w in resolved && resolved[w].Some? && w !in remaining
        invariant forall w :: w in neg <==> w in resolved && resolved[w].None? && w !in remaining
        invariant positive == |pos| && negative == |neg|
      {
        var w :| w in remaining;
        remaining := remaining - {w};
        if resolved[w].None? {
          negative := negative + 1;
          neg := neg + {w};
        } else {
          positive := positive + 1;
          pos := pos + {w};
        }
      }
      assert pos == Having(resolved, true) && neg == Having(resolved, false);
      HavingSplits(resolved);
    }

    /**
     `Warm`: every cold owner is answered with a signer, answered without one,
     or counted as failed. It returns an error exactly when the table could not
     be read, or there was something to ask and no token was minted or the first
     lookup to fail did not run out of time; what was recorded by then stays.
     */
    method Warm(owners: seq<Option<Wallet>>, now: Time, storeUp: bool, mint: Mint, events: seq<PoolEvent>)
      returns (res: WarmResult, error: Option<Error>)
      requires FromPool(Cold(Named(owners), rows, now), events)
      modifies this
      ensures var cold := Cold(Named(owners), old(rows), now);
              && rows == (if storeUp && mint.Minted? && cold != [] then Replayed(old(rows), Writes(events)) else old(rows))
              && (error.Some? <==> if storeUp then cold != [] && (!mint.Minted? || FirstFailure(events) == Some(false)) else Named(owners) != [])
              && res.cold == (if storeUp then |cold| else 0)
      ensures error.None? && res.cold > 0 ==> res.positive == |Answered(events, true)| && res.negative == |Answered(events, false)|
      ensures error.None? ==> res.cold == res.positive + res.negative + res.failed
    {
      hide Replayed, Writes, Answered, Having, FirstFailure;
      res, error := WarmResult(0, 0, 0, 0), None;
      var r := ColdOwners(owners, now, storeUp);
      if r.Err? {
        return res, Some(r.error);
      }
      var cold := r.value;
      res := res.(cold := |cold|);
      if cold == [] {
        return;
      }
      var resolved, failure, _ := ResolveMany(mint, events);
      if failure.Some? {
        return res, failure;
      }
      var positive, negative := Tally(resolved);
      AnsweredIsResolved(cold, events, resolved);
      assert |resolved| <= |cold| by {
        NamedIsTheSet(owners);
        ColdElements(Named(owners), old(rows), now);
        SetSize(cold);
        SubsetSize(resolved.Keys, Elements(cold));
      }
      res := WarmResult(|cold|, positive, negative, |cold| - |resolved|);
    }
  }

  lemma TwoFailures(x: PoolEvent, y: PoolEvent)
    requires x.Mine? && y.Mine? && x.lookup.Failed? && y.lookup.Failed?
    ensures FirstFailure([x, y]) == Some(x.lookup.deadline) && Writes([x, y]) == []
  {
    var none: seq<PoolEvent> := [];
    assert FirstFailure(none).None? && Writes(none) == [];
    assert [x][..0] == none;
    assert FirstFailure([x]) == Some(x.lookup.deadline) && Writes([x]) == [];
    assert [x, y][..1] == [x];
  }

  /**
   The rule that a failure is fatal to the whole call has an exception. One
   lookup out of time and then one refused by accounts-api: both owners come
   back as unresolved, no error. In the other order the call fails.
   */
  method FailureBehindTheBudget(a: Wallet, b: Wallet, signer: Wallet, now: Time)
    returns (r: Result<Filtered, Error>, r': Result<Filtered, Error>)
    requires a != b
    ensures var late, refused := Mine(a, Failed(true), false, now), Mine(b, Failed(false), false, now);
            && UpstreamFailed([late, refused]) && !BatchFails(Minted, [late, refused])
            && UpstreamFailed([refused, late]) && BatchFails(Minted, [refused, late])
    ensures r.Ok? && r.value.signable == [] && a in r.value.unresolved && b in r.value.unresolved
    ensures r'.Err?
  {
    var late, refused := Mine(a, Failed(true), false, now), Mine(b, Failed(false), false, now);
    var one, two := [late, refused], [refused, late];
    hide FirstFailure, Writes;
    assert one[1] == refused && two[0] == refused;
    TwoFailures(late, refused);
    TwoFailures(refused, late);
    var owners := [Some(a), Some(b)];
    assert owners[0] == Some(a) && owners[1] == Some(b);
    var service := new SharedSignerService();
    r := service.FilterSignable(Ok(Some(signer)), None, owners, now, true, Minted, one, map[], now);
    SetSize(r.value.signable);
    assert Elements(r.value.signable) == {};
    service := new SharedSignerService();
    r' := service.FilterSignable(Ok(Some(signer)), None, owners, now, true, Minted, two, map[], now);
  }
}

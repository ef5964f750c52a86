/**
 The vehicle roster: one row per vehicle, an append-only log of observed owner
 changes, and the reconcile job that keeps both in line with identity-api.
 Owners are strings as in the source, "" for none; a NULL column is `None`.
 */
module Roster {
  import opened Wrappers
  import opened Lists
  import opened Sorting

  type Token = nat
  type Time = int

  /** What identity-api serves about one vehicle. */
  datatype Reading = Reading(owner: string, definition: string, device: Option<int>)

  datatype Licence = Answered(vehicles: seq<(Token, Reading)>) | Failed

  /** Everything one run is told: each licence's answer, the entitled tokens, and the single-vehicle answers. */
  datatype Sweep = Sweep(licences: seq<Licence>, entitled: set<Token>, details: map<Token, Reading>, at: Time)

  datatype Row = Row(
    owner: Option<string>,
    definition: Option<string>,
    device: Option<int>,
    firstSeen: Time,
    reconciled: Time,
    unseenSince: Option<Time>)

  datatype Change = Change(token: Token, previous: Option<string>, owner: string, at: Time)

  type Rows = map<Token, Row>

  datatype OwnerChange = OwnerChange(token: Token, previous: string, owner: string)

  datatype Report = Report(
    failed: nat,
    seen: nat,
    filled: nat,
    inserted: nat,
    updated: nat,
    ownerChanges: seq<OwnerChange>,
    markedUnseen: nat,
    firstRun: bool)

  // ---- What a run sees --------------------------------------------------

  function AddAll(seen: map<Token, Reading>, vs: seq<(Token, Reading)>): map<Token, Reading> {
    if vs == [] then seen else AddAll(seen, vs[..|vs| - 1])[vs[|vs| - 1].0 := vs[|vs| - 1].1]
  }

  function Swept(licences: seq<Licence>): map<Token, Reading> {
    if licences == [] then map[]
    else
      var front, last := Swept(licences[..|licences| - 1]), licences[|licences| - 1];
      if last.Failed? then front else AddAll(front, last.vehicles)
  }

  function FailedCount(licences: seq<Licence>): nat {
    if licences == [] then 0
    else FailedCount(licences[..|licences| - 1]) + (if licences[|licences| - 1].Failed? then 1 else 0)
  }

  predicate Complete(s: Sweep) {
    FailedCount(s.licences) == 0
  }

  /** Entitled vehicles no licence returned, as far as identity-api could answer for them one by one. */
  function Gaps(s: Sweep): map<Token, Reading> {
    map t | t in s.entitled && t in s.details && t !in Swept(s.licences) :: s.details[t]
  }

  function Seen(s: Sweep): map<Token, Reading> {
    Swept(s.licences) + Gaps(s)
  }

  /** A licence that answered returned this vehicle at this place of its list. */
  predicate ReturnedAt(licences: seq<Licence>, i: nat, k: nat, t: Token) {
    i < |licences| && licences[i].Answered? && k < |licences[i].vehicles| && licences[i].vehicles[k].0 == t
  }

  ghost predicate Returned(licences: seq<Licence>, t: Token) {
    exists i: nat, k: nat :: ReturnedAt(licences, i, k, t)
  }

  lemma {:induction false} AddAllHolds(seen: map<Token, Reading>, vs: seq<(Token, Reading)>, t: Token)
    ensures t in AddAll(seen, vs) <==> t in seen || exists k :: 0 <= k < |vs| && vs[k].0 == t
    ensures t in seen && (forall k :: 0 <= k < |vs| ==> vs[k].0 != t) ==> AddAll(seen, vs)[t] == seen[t]
  {
    if vs != [] {
      AddAllHolds(seen, vs[..|vs| - 1], t);
    }
  }

  lemma {:induction false} AddAllKeepsLast(seen: map<Token, Reading>, vs: seq<(Token, Reading)>, k: nat)
    requires k < |vs| && forall j :: k < j < |vs| ==> vs[j].0 != vs[k].0
    ensures vs[k].0 in AddAll(seen, vs) && AddAll(seen, vs)[vs[k].0] == vs[k].1
  {
    if k < |vs| - 1 {
      AddAllKeepsLast(seen, vs[..|vs| - 1], k);
    }
  }

  /** The sweep holds exactly the vehicles some answering licence returned. */
  lemma {:induction false} SweptIsTheUnion(licences: seq<Licence>, t: Token)
    ensures t in Swept(licences) <==> Returned(licences, t)
  {
    if licences != [] {
      var n := |licences| - 1;
      var front, last := licences[..n], licences[n];
      SweptIsTheUnion(front, t);
      assert forall i: nat, k: nat | i < n :: ReturnedAt(front, i, k, t) <==> ReturnedAt(licences, i, k, t);
      if last.Answered? {
        AddAllHolds(Swept(front), last.vehicles, t);
        assert forall k: nat :: ReturnedAt(licences, n, k, t) <==> k < |last.vehicles| && last.vehicles[k].0 == t;
      }
      if Returned(front, t) {
        var i: nat, k: nat :| ReturnedAt(front, i, k, t);
        assert ReturnedAt(licences, i, k, t);
      }
    }
  }

  /** And of a vehicle returned more than once, the last reading in order. */
  lemma {:induction false} SweptKeepsTheLast(licences: seq<Licence>, i: nat, k: nat, t: Token)
    requires ReturnedAt(licences, i, k, t)
    requires forall i': nat, k': nat | ReturnedAt(licences, i', k', t) :: i' < i || (i' == i && k' <= k)
    ensures t in Swept(licences) && Swept(licences)[t] == licences[i].vehicles[k].1
    decreases |licences|
  {
    var n := |licences| - 1;
    var front, last := licences[..n], licences[n];
    if i < n {
      assert ReturnedAt(front, i, k, t);
      forall i': nat, k': nat | ReturnedAt(front, i', k', t) ensures i' < i || (i' == i && k' <= k) {
        assert ReturnedAt(licences, i', k', t);
      }
      SweptKeepsTheLast(front, i, k, t);
      if last.Answered? {
        forall j | 0 <= j < |last.vehicles| ensures last.vehicles[j].0 != t {
          assert !ReturnedAt(licences, n, j, t);
        }
        AddAllHolds(Swept(front), last.vehicles, t);
      }
    } else {
      forall j | k < j < |last.vehicles| ensures last.vehicles[j].0 != t {
        assert !ReturnedAt(licences, n, j, t);
      }
      AddAllKeepsLast(Swept(front), last.vehicles, k);
    }
  }

  /** The failures are counted one by one; a sweep is complete exactly when no licence failed. */
  lemma {:induction false} FailuresAreCounted(licences: seq<Licence>)
    ensures FailedCount(licences) == |set i: nat | i < |licences| && licences[i].Failed?|
    ensures FailedCount(licences) == 0 <==> forall i :: 0 <= i < |licences| ==> licences[i].Answered?
  {
    if licences != [] {
      var n := |licences| - 1;
      var front := licences[..n];
      FailuresAreCounted(front);
      var before, all := set i: nat | i < n && front[i].Failed?, set i: nat | i < |licences| && licences[i].Failed?;
      assert all == before + (if licences[n].Failed? then {n} else {});
    }
  }

  /** A run sees what the licences returned, and what identity-api could say about the entitled rest. */
  lemma SeenAre(s: Sweep, t: Token)
    ensures t in Seen(s) <==> Returned(s.licences, t) || (t in s.entitled && t in s.details)
    ensures Returned(s.licences, t) ==> t in Swept(s.licences) && Seen(s)[t] == Swept(s.licences)[t]
    ensures t in Seen(s) && !Returned(s.licences, t) ==> t in s.details && Seen(s)[t] == s.details[t]
  {
    hide Swept, Returned;
    SweptIsTheUnion(s.licences, t);
  }

  // ---- What a run writes ------------------------------------------------

  function NullIfEmpty(s: string): Option<string> { if s == "" then None else Some(s) }

  function OrEmpty(o: Option<string>): string { if o.None? then "" else o.value }

  function Coalesce(a: Option<string>, b: Option<string>): Option<string> { if a.Some? then a else b }

  /** The upsert of one vehicle: owner and definition are filled forward, the device is overwritten. */
  function Upserted(rows: Rows, t: Token, r: Reading, now: Time): Row {
    if t in rows then
      var p := rows[t];
      Row(Coalesce(NullIfEmpty(r.owner), p.owner), Coalesce(NullIfEmpty(r.definition), p.definition),
          r.device, p.firstSeen, now, None)
    else
      Row(NullIfEmpty(r.owner), NullIfEmpty(r.definition), r.device, now, now, None)
  }

  /** The log entry an upsert makes, if any. */
  function Logged(rows: Rows, t: Token, r: Reading, now: Time): seq<Change> {
    if r.owner == "" || (t in rows && OrEmpty(rows[t].owner) == r.owner) then []
    else [Change(t, if t in rows then Some(OrEmpty(rows[t].owner)) else None, r.owner, now)]
  }

  function LoggedAll(rows: Rows, tokens: seq<Token>, seen: map<Token, Reading>, now: Time): seq<Change>
    requires forall t :: t in tokens ==> t in seen
  {
    if tokens == [] then []
    else
      var last := tokens[|tokens| - 1];
      LoggedAll(rows, tokens[..|tokens| - 1], seen, now) + Logged(rows, last, seen[last], now)
  }

  function Marked(r: Row, now: Time): Row {
    if r.unseenSince.None? then r.(unseenSince := Some(now)) else r
  }

  /** The roster after one real run. */
  function Reconciled(rows: Rows, s: Sweep): Rows {
    var seen := Seen(s);
    map t | t in rows.Keys + seen.Keys ::
      if t in seen then Upserted(rows, t, seen[t], s.at)
      else if Complete(s) then Marked(rows[t], s.at)
      else rows[t]
  }

  ghost function LogAdditions(rows: Rows, s: Sweep): seq<Change> {
    SortedElements(Seen(s).Keys);
    LoggedAll(rows, Sorted(Seen(s).Keys), Seen(s), s.at)
  }

  function OwnerChangesOf(log: seq<Change>): seq<OwnerChange> {
    if log == [] then []
    else
      var front, c := OwnerChangesOf(log[..|log| - 1]), log[|log| - 1];
      if c.previous.Some? then front + [OwnerChange(c.token, c.previous.value, c.owner)] else front
  }

  function Unseen(rows: Rows, seen: map<Token, Reading>): set<Token> {
    set t | t in rows && rows[t].unseenSince.None? && t !in seen
  }

  /** The report, a function of what the run read: the same whether or not it writes. */
  ghost function ReportOf(rows: Rows, s: Sweep): Report {
    var seen := Seen(s);
    Report(
      FailedCount(s.licences),
      |seen|,
      |Gaps(s)|,
      |seen.Keys - rows.Keys|,
      |seen.Keys * rows.Keys|,
      OwnerChangesOf(LogAdditions(rows, s)),
      if Complete(s) then |Unseen(rows, seen)| else 0,
      |rows| == 0)
  }

  /** The upserts alone, one token at a time. */
  function Written(rows: Rows, tokens: seq<Token>, seen: map<Token, Reading>, now: Time): Rows
    requires forall t :: t in tokens ==> t in seen
  {
    if tokens == [] then rows
    else
      var last := tokens[|tokens| - 1];
      Written(rows, tokens[..|tokens| - 1], seen, now)[last := Upserted(rows, last, seen[last], now)]
  }

  lemma {:induction false} WrittenRow(rows: Rows, tokens: seq<Token>, seen: map<Token, Reading>, now: Time, t: Token)
    requires forall t :: t in tokens ==> t in seen
    ensures var w := Written(rows, tokens, seen, now);
            && (t in tokens ==> t in w && w[t] == Upserted(rows, t, seen[t], now))
            && (t !in tokens ==> (t in w <==> t in rows) && (t in rows ==> w[t] == rows[t]))
  {
    if tokens != [] {
      var front, last := tokens[..|tokens| - 1], tokens[|tokens| - 1];
      WrittenRow(rows, front, seen, now, t);
      assert tokens == front + [last];
    }
  }

  function CountIn(tokens: seq<Token>, known: set<Token>, want: bool): nat {
    if tokens == [] then 0
    else CountIn(tokens[..|tokens| - 1], known, want) + (if (tokens[|tokens| - 1] in known) == want then 1 else 0)
  }

  lemma ElementsStep(front: seq<Token>, last: Token)
    ensures Elements(front + [last]) == Elements(front) + {last}
  {
  }

  /** Counting inserts and updates along the token list counts the vehicles outside and inside the roster. */
  lemma {:induction false} CountsSplit(tokens: seq<Token>, known: set<Token>)
    requires forall i, j :: 0 <= i < j < |tokens| ==> tokens[i] != tokens[j]
    ensures CountIn(tokens, known, false) == |Elements(tokens) - known|
    ensures CountIn(tokens, known, true) == |Elements(tokens) * known|
  {
    if tokens != [] {
      var front, last := tokens[..|tokens| - 1], tokens[|tokens| - 1];
      var fewer := Elements(front);
      CountsSplit(front, known);
      assert last !in fewer;
      assert tokens == front + [last];
      ElementsStep(front, last);
      AddOne(fewer, last, known);
    }
  }

  lemma AddOne(fewer: set<Token>, last: Token, known: set<Token>)
    requires last !in fewer
    ensures |(fewer + {last}) - known| == |fewer - known| + (if last in known then 0 else 1)
    ensures |(fewer + {last}) * known| == |fewer * known| + (if last in known then 1 else 0)
  {
    if last in known {
      assert (fewer + {last}) - known == fewer - known;
      assert (fewer + {last}) * known == fewer * known + {last};
    } else {
      assert (fewer + {last}) - known == (fewer - known) + {last};
      assert (fewer + {last}) * known == fewer * known;
    }
  }

  lemma GapsAre(s: Sweep, got: set<Token>)
    requires forall t :: t in got <==> t in s.entitled && t !in Swept(s.licences) && t in s.details
    ensures Gaps(s).Keys == got && |Gaps(s)| == |got|
  {
    assert |Gaps(s)| == |Gaps(s).Keys|;
  }

  lemma SeenIs(s: Sweep, byToken: map<Token, Reading>, got: set<Token>)
    requires Gaps(s).Keys == got
    requires forall t :: t in byToken <==> t in Swept(s.licences) || t in got
    requires forall t :: t in byToken ==> byToken[t] == if t in got then s.details[t] else Swept(s.licences)[t]
    ensures byToken == Seen(s)
  {
  }

  /** The upserts and, after a complete sweep, the stamps make up the run. */
  lemma ReconciledFrom(rows: Rows, mid: Rows, final: Rows, s: Sweep)
    requires WrittenBy(rows, mid, Seen(s), s.at)
    requires final == if Complete(s) then map t | t in mid :: if t in Seen(s) then mid[t] else Marked(mid[t], s.at) else mid
    ensures final == Reconciled(rows, s)
  {
    assert final.Keys == mid.Keys == Reconciled(rows, s).Keys;
  }

  lemma UnseenIsUnmoved(rows: Rows, mid: Rows, seen: map<Token, Reading>, now: Time)
    requires WrittenBy(rows, mid, seen, now)
    ensures Unseen(mid, seen) == Unseen(rows, seen)
  {
  }

  /** What the upserts of a run leave, row by row. */
  ghost predicate WrittenBy(rows: Rows, rows': Rows, seen: map<Token, Reading>, now: Time) {
    && (forall t :: t in rows' <==> t in rows || t in seen)
    && (forall t :: t in rows' ==> rows'[t] == if t in seen then Upserted(rows, t, seen[t], now) else rows[t])
  }

  /** One vehicle's log entry and its reported owner change are the same event. */
  lemma OwnerChangesStep(soFar: seq<Change>, rows: Rows, t: Token, r: Reading, now: Time)
    ensures OwnerChangesOf(soFar + Logged(rows, t, r, now)) == OwnerChangesOf(soFar) +
            (if t in rows && OrEmpty(rows[t].owner) != r.owner && r.owner != "" then [OwnerChange(t, OrEmpty(rows[t].owner), r.owner)] else [])
  {
    var entry := Logged(rows, t, r, now);
    if entry == [] {
      assert soFar + entry == soFar;
    } else {
      assert (soFar + entry)[..|soFar + entry| - 1] == soFar;
    }
  }

  /** One more token in each of the loop's running results. */
  lemma PrefixStep(rows: Rows, tokens: seq<Token>, n: nat, seen: map<Token, Reading>, now: Time, known: set<Token>)
    requires n < |tokens| && forall t :: t in tokens ==> t in seen
    ensures var t := tokens[n];
            && CountIn(tokens[..n + 1], known, true) == CountIn(tokens[..n], known, true) + (if t in known then 1 else 0)
            && CountIn(tokens[..n + 1], known, false) == CountIn(tokens[..n], known, false) + (if t in known then 0 else 1)
            && LoggedAll(rows, tokens[..n + 1], seen, now) == LoggedAll(rows, tokens[..n], seen, now) + Logged(rows, t, seen[t], now)
            && Written(rows, tokens[..n + 1], seen, now) == Written(rows, tokens[..n], seen, now)[t := Upserted(rows, t, seen[t], now)]
  {
    assert tokens[..n + 1][..n] == tokens[..n] && tokens[..n + 1][n] == tokens[n];
  }

  lemma StartEmpty(rows: Rows, seen: map<Token, Reading>, now: Time, known: set<Token>)
    ensures CountIn([], known, true) == 0 && CountIn([], known, false) == 0
    ensures LoggedAll(rows, [], seen, now) == [] && Written(rows, [], seen, now) == rows && OwnerChangesOf([]) == []
  {
  }

  lemma UpsertedLooksAtOneRow(rows: Rows, rows': Rows, t: Token, r: Reading, now: Time)
    requires t in rows <==> t in rows'
    requires t in rows ==> rows[t] == rows'[t]
    ensures Upserted(rows, t, r, now) == Upserted(rows', t, r, now) && Logged(rows, t, r, now) == Logged(rows', t, r, now)
  {
  }

  lemma WrittenIsBy(rows: Rows, tokens: seq<Token>, seen: map<Token, Reading>, now: Time)
    requires forall t :: t in tokens <==> t in seen
    ensures WrittenBy(rows, Written(rows, tokens, seen, now), seen, now)
  {
    forall t
      ensures var w := Written(rows, tokens, seen, now);
              && (t in tokens ==> t in w && w[t] == Upserted(rows, t, seen[t], now))
              && (t !in tokens ==> (t in w <==> t in rows) && (t in rows ==> w[t] == rows[t]))
    {
      WrittenRow(rows, tokens, seen, now, t);
    }
  }

  // ---- The job ----------------------------------------------------------

  class RosterService {
    var rows: Rows
    var log: seq<Change>

    constructor ()
      ensures rows == map[] && log == []
    {
      rows, log := map[], [];
    }

    method SweepLicences(licences: seq<Licence>) returns (byToken: map<Token, Reading>, failed: nat)
      ensures byToken == Swept(licences) && failed == FailedCount(licences)
    {
      byToken, failed := map[], 0;
      for n := 0 to |licences|
        invariant byToken == Swept(licences[..n]) && failed == FailedCount(licences[..n])
      {
        assert licences[..n + 1][..n] == licences[..n];
        if licences[n].Failed? {
          failed := failed + 1;
        } else {
          var vs := licences[n].vehicles;
          for k := 0 to |vs|
            invariant byToken == AddAll(Swept(licences[..n]), vs[..k])
          {
            assert vs[..k + 1][..k] == vs[..k];
            byToken := byToken[vs[k].0 := vs[k].1];
          }
          assert vs[..|vs|] == vs;
        }
      }
      assert licences[..|licences|] == licences;
    }

    /** `fillEntitledGaps`: ask about each entitled vehicle the sweep missed; one that cannot be resolved is skipped. */
    method FillEntitledGaps(s: Sweep, swept: map<Token, Reading>) returns (byToken: map<Token, Reading>, filled: nat)
      requires swept == Swept(s.licences)
      ensures byToken == Seen(s) && filled == |Gaps(s)|
    {
      hide Swept, Sorted;
      var absent := set t | t in s.entitled && t !in swept;
      var missing := Sort(absent);
      SortedElements(absent);
      byToken, filled := swept, 0;
      ghost var got: set<Token> := {};
      for n := 0 to |missing|
        invariant forall t :: t in got <==> t in missing[..n] && t in s.details
        invariant forall t :: t in byToken <==> t in swept || t in got
        invariant forall t :: t in byToken ==> byToken[t] == if t in got then s.details[t] else swept[t]
        invariant filled == |got|
      {
        var t := missing[n];
        assert missing[..n + 1] == missing[..n] + [t];
        assert t !in missing[..n] && t in absent;
        if t in s.details {
          byToken := byToken[t := s.details[t]];
          got := got + {t};
          filled := filled + 1;
        }
      }
      assert missing[..|missing|] == missing;
      assert forall t :: t in missing <==> t in absent;
      GapsAre(s, got);
      SeenIs(s, byToken, got);
    }

    /** `upsert`: one vehicle's row, and a log entry when its owner was learned or changed. */
    method Upsert(t: Token, r: Reading, now: Time, isNew: bool, prevOwner: string)
      requires isNew <==> t !in rows
      requires !isNew ==> prevOwner == OrEmpty(rows[t].owner)
      modifies this
      ensures rows == old(rows)[t := Upserted(old(rows), t, r, now)]
      ensures log == old(log) + Logged(old(rows), t, r, now)
    {
      if isNew {
        rows := rows[t := Row(NullIfEmpty(r.owner), NullIfEmpty(r.definition), r.device, now, now, None)];
      } else {
        var p := rows[t];
        var owner := if r.owner != "" then Some(r.owner) else p.owner;
        var definition := if r.definition != "" then Some(r.definition) else p.definition;
        rows := rows[t := Row(owner, definition, r.device, p.firstSeen, now, None)];
      }
      if r.owner == "" || (!isNew && prevOwner == r.owner) {
        return;
      }
      log := log + [Change(t, if isNew then None else Some(prevOwner), r.owner, now)];
    }

    /** `markUnseen`: stamp rows this run did not return and that carry no stamp; a dry run only counts them. */
    method MarkUnseen(seen: map<Token, Reading>, now: Time, dryRun: bool) returns (n: nat)
      modifies this
      ensures log == old(log)
      ensures n == |Unseen(old(rows), seen)|
      ensures rows == if dryRun then old(rows)
                      else map t | t in old(rows) :: if t in seen then old(rows)[t] else Marked(old(rows)[t], now)
    {
      n := |Unseen(rows, seen)|;
      if !dryRun {
        rows := map t | t in rows :: if t !in seen && rows[t].unseenSince.None? then rows[t].(unseenSince := Some(now)) else rows[t];
      }
    }

    /** One pass of the loop: what it reports as an owner change, and what it writes unless dry. */
    method ApplyOne(t: Token, v: Reading, prev: Option<string>, now: Time, dryRun: bool) returns (change: seq<OwnerChange>)
      requires prev.Some? <==> t in rows
      requires t in rows ==> prev.value == OrEmpty(rows[t].owner)
      modifies this
      ensures forall soFar :: OwnerChangesOf(soFar + Logged(old(rows), t, v, now)) == OwnerChangesOf(soFar) + change
      ensures rows == if dryRun then old(rows) else old(rows)[t := Upserted(old(rows), t, v, now)]
      ensures log == if dryRun then old(log) else old(log) + Logged(old(rows), t, v, now)
    {
      change := [];
      if prev.Some? && prev.value != v.owner && v.owner != "" {
        change := [OwnerChange(t, prev.value, v.owner)];
      }
      forall soFar ensures OwnerChangesOf(soFar + Logged(rows, t, v, now)) == OwnerChangesOf(soFar) + change {
        OwnerChangesStep(soFar, rows, t, v, now);
      }
      if !dryRun {
        Upsert(t, v, now, prev.None?, if prev.Some? then prev.value else "");
      }
    }

    /** The per-vehicle loop: count, report and (unless dry) write each vehicle in token order. */
    method ApplyAll(tokens: seq<Token>, byToken: map<Token, Reading>, current: map<Token, string>, now: Time, dryRun: bool)
      returns (inserted: nat, updated: nat, changes: seq<OwnerChange>)
      requires forall t :: t in tokens ==> t in byToken
      requires forall i, j :: 0 <= i < j < |tokens| ==> tokens[i] != tokens[j]
      requires current == map t | t in rows :: OrEmpty(rows[t].owner)
      modifies this
      ensures inserted == CountIn(tokens, current.Keys, false) && updated == CountIn(tokens, current.Keys, true)
      ensures changes == OwnerChangesOf(LoggedAll(old(rows), tokens, byToken, now))
      ensures rows == if dryRun then old(rows) else Written(old(rows), tokens, byToken, now)
      ensures log == if dryRun then old(log) else old(log) + LoggedAll(old(rows), tokens, byToken, now)
    {
      hide CountIn, LoggedAll, Written, Upserted, Logged, OwnerChangesOf;
      StartEmpty(rows, byToken, now, current.Keys);
      inserted, updated, changes := 0, 0, [];
      ghost var logged: seq<Change> := [];
      for n := 0 to |tokens|
        invariant inserted == CountIn(tokens[..n], current.Keys, false) && updated == CountIn(tokens[..n], current.Keys, true)
        invariant logged == LoggedAll(old(rows), tokens[..n], byToken, now)
        invariant changes == OwnerChangesOf(logged)
        invariant rows == if dryRun then old(rows) else Written(old(rows), tokens[..n], byToken, now)
        invariant log == if dryRun then old(log) else old(log) + logged
      {
        var t := tokens[n];
        PrefixStep(old(rows), tokens, n, byToken, now, current.Keys);
        WrittenRow(old(rows), tokens[..n], byToken, now, t);
        UpsertedLooksAtOneRow(old(rows), rows, t, byToken[t], now);
        if t in current {
          updated := updated + 1;
        } else {
          inserted := inserted + 1;
        }
        ghost var entry := Logged(rows, t, byToken[t], now);
        var change := ApplyOne(t, byToken[t], if t in current then Some(current[t]) else None, now, dryRun);
        changes := changes + change;
        assert (old(log) + logged) + entry == old(log) + (logged + entry);
        logged := logged + entry;
      }
      assert tokens[..|tokens|] == tokens;
    }

    /** `Reconcile`. The report does not depend on `dryRun`; a dry run writes nothing. */
    method Reconcile(s: Sweep, dryRun: bool) returns (report: Report)
      modifies this
      ensures report == ReportOf(old(rows), s)
      ensures rows == if dryRun then old(rows) else Reconciled(old(rows), s)
      ensures log == if dryRun then old(log) else old(log) + LogAdditions(old(rows), s)
    {
      hide Reconciled, Written, WrittenBy, LoggedAll, OwnerChangesOf, CountIn, Sorted, Upserted, Unseen, Swept, Gaps, Seen, FailedCount;
      var firstRun := |rows| == 0;
      var swept, failed := SweepLicences(s.licences);
      var byToken, filled := FillEntitledGaps(s, swept);
      var tokens := Sort(byToken.Keys);
      SortedElements(byToken.Keys);
      var current := map t | t in rows :: OrEmpty(rows[t].owner);
      var inserted, updated, changes := ApplyAll(tokens, byToken, current, s.at, dryRun);
      CountsSplit(tokens, current.Keys);
      assert Elements(tokens) == byToken.Keys;
      assert current.Keys == old(rows).Keys;
      WrittenIsBy(old(rows), tokens, byToken, s.at);
      var marked := 0;
      ghost var mid := rows;
      if !dryRun {
        UnseenIsUnmoved(old(rows), mid, byToken, s.at);
      }
      if failed == 0 {
        marked := MarkUnseen(byToken, s.at, dryRun);
      }
      if !dryRun {
        ReconciledFrom(old(rows), mid, rows, s);
      }
      report := Report(failed, |byToken|, filled, inserted, updated, changes, marked, firstRun);
    }
  }
}

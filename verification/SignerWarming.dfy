/**
 Warming the signer cache out of band: what limited runs ask about, and that
 they come to an end.
 */
module SignerWarming {
  import opened Wrappers
  import opened Lists
  import opened SignerCache

  /** Asking what is cold about the cold owners changes nothing: the limited run and `Warm` agree. */
  lemma {:induction false} ColdIsIdempotent(owners: seq<Wallet>, rows: Rows, now: Time)
    ensures Cold(Cold(owners, rows, now), rows, now) == Cold(owners, rows, now)
  {
    if owners != [] {
      var front, last := owners[..|owners| - 1], owners[|owners| - 1];
      ColdIsIdempotent(front, rows, now);
      if !Known(rows, last, now) {
        assert (Cold(front, rows, now) + [last])[..|Cold(front, rows, now)|] == Cold(front, rows, now);
      }
    }
  }

  function Drop(s: seq<Wallet>, n: nat): seq<Wallet> {
    if n <= |s| then s[n..] else []
  }

  function Take(s: seq<Wallet>, n: nat): seq<Wallet> {
    if n <= |s| then s[..n] else s
  }

  /** Of these owners, exactly the first `n` are known. */
  ghost predicate ExactlyFirst(c: seq<Wallet>, rows: Rows, t: Time, n: nat) {
    forall i :: 0 <= i < |c| ==> (Known(rows, c[i], t) <==> i < n)
  }

  /** If the first `n` cold owners have become known and nothing else has changed, the rest is what is cold. */
  lemma {:induction false} ColdShrinks(owners: seq<Wallet>, rows: Rows, t: Time, rows': Rows, t': Time, n: nat)
    requires forall w :: w in owners && Known(rows, w, t) ==> Known(rows', w, t')
    requires ExactlyFirst(Cold(owners, rows, t), rows', t', n)
    ensures Cold(owners, rows', t') == Drop(Cold(owners, rows, t), n)
  {
    if owners != [] {
      var front, last := owners[..|owners| - 1], owners[|owners| - 1];
      var c, cf := Cold(owners, rows, t), Cold(front, rows, t);
      assert cf <= c;
      assert ExactlyFirst(cf, rows', t', n) by {
        assert forall i :: 0 <= i < |cf| ==> cf[i] == c[i];
      }
      ColdShrinks(front, rows, t, rows', t', n);
      assert last in owners;
      if !Known(rows, last, t) {
        assert c[|cf|] == last;
      }
    }
  }

  /** No owner's answer ages out between `start` and `horizon`. */
  ghost predicate Stable(owners: seq<Wallet>, rows: Rows, start: Time, horizon: Time) {
    forall w :: w in owners && Known(rows, w, start) ==> Known(rows, w, horizon)
  }

  /** One limited warm run in which every lookup succeeded and was recorded. */
  datatype WarmRun = WarmRun(at: Time, writes: seq<Write>)

  /** What a limited run asks about: the first `limit` cold owners, or all of them without a positive limit. */
  function Batch(owners: seq<Wallet>, rows: Rows, limit: int, at: Time): seq<Wallet> {
    var cold := Cold(owners, rows, at);
    if limit > 0 && |cold| > limit then cold[..limit] else cold
  }

  /** As many owners as one run can ask about. */
  function Size(limit: int, owners: seq<Wallet>): nat {
    if limit > 0 then limit else |owners|
  }

  lemma {:induction false} BatchIsTaken(owners: seq<Wallet>, rows: Rows, limit: int, at: Time)
    ensures |Cold(owners, rows, at)| <= |owners|
    ensures Batch(owners, rows, limit, at) == Take(Cold(owners, rows, at), Size(limit, owners))
  {
    if owners != [] {
      BatchIsTaken(owners[..|owners| - 1], rows, limit, at);
    }
  }

  ghost predicate Succeeded(run: WarmRun, batch: seq<Wallet>, start: Time, horizon: Time) {
    && start <= run.at <= horizon
    && (forall i :: 0 <= i < |run.writes| ==> run.writes[i].wallet in batch && run.at <= run.writes[i].at <= horizon)
    && (forall w :: w in batch ==> exists i :: 0 <= i < |run.writes| && run.writes[i].wallet == w)
  }

  lemma {:induction false} ReplayedTouches(rows: Rows, writes: seq<Write>, w: Wallet, from: Time)
    requires forall i :: 0 <= i < |writes| ==> from <= writes[i].at
    ensures (exists i :: 0 <= i < |writes| && writes[i].wallet == w) ==>
              w in Replayed(rows, writes) && from <= Replayed(rows, writes)[w].checkedAt
    ensures !(exists i :: 0 <= i < |writes| && writes[i].wallet == w) ==>
              (w in rows <==> w in Replayed(rows, writes)) && (w in rows ==> Replayed(rows, writes)[w] == rows[w])
  {
    if writes != [] {
      var front := writes[..|writes| - 1];
      ReplayedTouches(rows, front, w, from);
      assert forall i :: 0 <= i < |front| ==> front[i] == writes[i];
      if writes[|writes| - 1].wallet != w {
        assert (exists i :: 0 <= i < |writes| && writes[i].wallet == w) ==> exists i :: 0 <= i < |front| && front[i].wallet == w;
      }
    }
  }

  lemma KnownIsSteady(rows: Rows, w: Wallet, start: Time, horizon: Time, t: Time)
    requires Known(rows, w, start) ==> Known(rows, w, horizon)
    requires start <= t <= horizon
    ensures Known(rows, w, t) <==> Known(rows, w, start)
  {
  }

  lemma WarmRunShrinks(owners: seq<Wallet>, rows: Rows, limit: int, run: WarmRun, start: Time, horizon: Time, t: Time)
    requires NoRepeats(owners) && Stable(owners, rows, start, horizon)
    requires start <= t <= horizon < start + NEGATIVE_RECHECK_AFTER
    requires Succeeded(run, Batch(owners, rows, limit, run.at), start, horizon)
    ensures var rows' := Replayed(rows, run.writes);
            && Stable(owners, rows', start, horizon)
            && Cold(owners, rows', t) == Drop(Cold(owners, rows, run.at), Size(limit, owners))
  {
    var rows' := Replayed(rows, run.writes);
    var c, size := Cold(owners, rows, run.at), Size(limit, owners);
    var batch := Take(c, size);
    BatchIsTaken(owners, rows, limit, run.at);
    ColdElements(owners, rows, run.at);
    forall w | w in owners
      ensures w in batch ==> Known(rows', w, horizon)
      ensures w !in batch ==> (w in rows' <==> w in rows) && (w in rows ==> rows'[w] == rows[w])
    {
      ReplayedTouches(rows, run.writes, w, run.at);
    }
    forall i | 0 <= i < |c| ensures Known(rows', c[i], t) <==> i < size {
      assert c[i] in owners && !Known(rows, c[i], run.at);
      assert c[i] in batch <==> i < size;
      KnownIsSteady(rows, c[i], start, horizon, run.at);
      KnownIsSteady(rows, c[i], start, horizon, t);
    }
    ColdShrinks(owners, rows, run.at, rows', t, size);
  }

  ghost predicate Campaign(owners: seq<Wallet>, rows: Rows, limit: int, runs: seq<WarmRun>, start: Time, horizon: Time)
    decreases |runs|
  {
    runs == [] ||
    (&& Succeeded(runs[0], Batch(owners, rows, limit, runs[0].at), start, horizon)
     && Campaign(owners, Replayed(rows, runs[0].writes), limit, runs[1..], start, horizon))
  }

  ghost function AfterCampaign(rows: Rows, runs: seq<WarmRun>): Rows
    decreases |runs|
  {
    if runs == [] then rows else AfterCampaign(Replayed(rows, runs[0].writes), runs[1..])
  }

  /** Every owner asked about, run by run. */
  ghost function Asked(owners: seq<Wallet>, rows: Rows, limit: int, runs: seq<WarmRun>): seq<Wallet>
    decreases |runs|
  {
    if runs == [] then []
    else Batch(owners, rows, limit, runs[0].at) + Asked(owners, Replayed(rows, runs[0].writes), limit, runs[1..])
  }

  function Times(k: nat, limit: nat): nat {
    if k == 0 then 0 else limit + Times(k - 1, limit)
  }

  lemma TimesStep(k: nat, limit: nat)
    ensures Times(k, limit) == if k == 0 then 0 else limit + Times(k - 1, limit)
  {
  }

  lemma {:induction false} TimesIsProduct(k: nat, limit: nat)
    ensures Times(k, limit) == k * limit
  {
    if k > 0 {
      TimesIsProduct(k - 1, limit);
    }
  }

  lemma DropTake(s: seq<Wallet>, a: nat, b: nat)
    ensures Drop(s, 0) == s
    ensures Take(s, a) + Drop(s, a) == s
    ensures Drop(Drop(s, a), b) == Drop(s, a + b)
  {
  }

  lemma {:induction false} CampaignShrinks(owners: seq<Wallet>, rows: Rows, limit: int, runs: seq<WarmRun>, start: Time, horizon: Time, t: Time)
    requires NoRepeats(owners) && Stable(owners, rows, start, horizon)
    requires start <= t <= horizon < start + NEGATIVE_RECHECK_AFTER
    requires Campaign(owners, rows, limit, runs, start, horizon)
    ensures Asked(owners, rows, limit, runs) + Cold(owners, AfterCampaign(rows, runs), t) == Cold(owners, rows, start)
    ensures Cold(owners, AfterCampaign(rows, runs), t) == Drop(Cold(owners, rows, start), Times(|runs|, Size(limit, owners)))
    decreases |runs|
  {
    hide Stable, Cold, Drop, Take, Known, NoRepeats, Replayed, Times, Size, Batch;
    var c, size := Cold(owners, rows, start), Size(limit, owners);
    if runs == [] {
      ColdIsSteady(owners, rows, start, horizon, t);
      DropTake(c, 0, 0);
      TimesStep(0, size);
    } else {
      var rows', rest := Replayed(rows, runs[0].writes), runs[1..];
      ColdIsSteady(owners, rows, start, horizon, runs[0].at);
      BatchIsTaken(owners, rows, limit, runs[0].at);
      WarmRunShrinks(owners, rows, limit, runs[0], start, horizon, start);
      CampaignShrinks(owners, rows', limit, rest, start, horizon, t);
      DropTake(c, size, Times(|rest|, size));
      TimesStep(|runs|, size);
      var final := Cold(owners, AfterCampaign(rows', rest), t);
      assert Asked(owners, rows', limit, rest) + final == Drop(c, size);
      assert Asked(owners, rows, limit, runs) == Take(c, size) + Asked(owners, rows', limit, rest);
      assert Take(c, size) + Asked(owners, rows', limit, rest) + final == Take(c, size) + (Asked(owners, rows', limit, rest) + final);
    }
  }

  lemma ColdIsSteady(owners: seq<Wallet>, rows: Rows, start: Time, horizon: Time, t: Time)
    requires Stable(owners, rows, start, horizon) && start <= t <= horizon
    ensures Cold(owners, rows, t) == Cold(owners, rows, start)
  {
    ColdElements(owners, rows, start);
    var c := Cold(owners, rows, start);
    forall w | w in owners ensures Known(rows, w, t) <==> Known(rows, w, start) {
      KnownIsSteady(rows, w, start, horizon, t);
    }
    forall i | 0 <= i < |c| ensures Known(rows, c[i], t) <==> i < 0 {
      assert c[i] in owners;
    }
    ColdShrinks(owners, rows, start, rows, t, 0);
  }

  /**
   Within one freshness window, limited warm runs ask about the cold owners in
   order, each exactly once, and `limit` more of them are known after each run;
   nothing is cold exactly once the runs together reach their number. Without a
   limit one run is enough.
   */
  lemma WarmingConverges(owners: seq<Wallet>, rows: Rows, limit: int, runs: seq<WarmRun>, start: Time, horizon: Time, t: Time)
    requires NoRepeats(owners) && Stable(owners, rows, start, horizon)
    requires start <= t <= horizon < start + NEGATIVE_RECHECK_AFTER
    requires Campaign(owners, rows, limit, runs, start, horizon)
    ensures Asked(owners, rows, limit, runs) + Cold(owners, AfterCampaign(rows, runs), t) == Cold(owners, rows, start)
    ensures NoRepeats(Asked(owners, rows, limit, runs))
    ensures |runs| * Size(limit, owners) >= |Cold(owners, rows, start)| <==> Cold(owners, AfterCampaign(rows, runs), t) == []
  {
    hide Stable, Cold, Known, Campaign;
    CampaignShrinks(owners, rows, limit, runs, start, horizon, t);
    TimesIsProduct(|runs|, Size(limit, owners));
    ColdElements(owners, rows, start);
    var c, asked := Cold(owners, rows, start), Asked(owners, rows, limit, runs);
    forall i, j | 0 <= i < j < |asked| ensures asked[i] != asked[j] {
      assert c[i] == asked[i] && c[j] == asked[j];
    }
  }

  // ---- The command ------------------------------------------------------

  /** Every owner of the batch was answered and the answer stored, within the window, and nobody else wrote. */
  ghost predicate AllRecorded(batch: seq<Wallet>, events: seq<PoolEvent>, at: Time, horizon: Time) {
    && FromPool(batch, events)
    && (forall i :: 0 <= i < |events| ==> events[i].Mine? && events[i].lookup.Answer? && events[i].stored && at <= events[i].at <= horizon)
    && (forall w :: w in batch ==> exists i :: 0 <= i < |events| && events[i].Mine? && events[i].owner == w)
  }

  ghost predicate RunRecorded(owners: seq<Wallet>, rows: Rows, limit: int, events: seq<PoolEvent>, at: Time, horizon: Time) {
    at <= horizon && AllRecorded(Batch(owners, rows, limit, at), events, at, horizon)
  }

  /** Then the table's writes are the answers, one for one. */
  lemma {:induction false} WritesOfAnswers(events: seq<PoolEvent>)
    requires forall i :: 0 <= i < |events| ==> events[i].Mine? && events[i].lookup.Answer? && events[i].stored
    ensures |Writes(events)| == |events|
    ensures forall i :: 0 <= i < |events| ==> Writes(events)[i].wallet == events[i].owner && Writes(events)[i].at == events[i].at
    ensures FirstFailure(events).None?
  {
    if events != [] {
      WritesOfAnswers(events[..|events| - 1]);
    }
  }

  lemma RecordedBatchSucceeded(batch: seq<Wallet>, events: seq<PoolEvent>, at: Time, start: Time, horizon: Time)
    requires AllRecorded(batch, events, at, horizon) && start <= at <= horizon
    ensures Succeeded(WarmRun(at, Writes(events)), batch, start, horizon)
    ensures FirstFailure(events).None?
    ensures batch == [] ==> Writes(events) == []
  {
    WritesOfAnswers(events);
    assert batch == [] ==> Writes(events) == [];
    hide Writes;
    forall w | w in batch ensures exists i :: 0 <= i < |Writes(events)| && Writes(events)[i].wallet == w {
      var i :| 0 <= i < |events| && events[i].Mine? && events[i].owner == w;
      assert Writes(events)[i].wallet == w;
    }
  }

  function Listed(ws: seq<Wallet>): seq<Option<Wallet>> {
    if ws == [] then [] else Listed(ws[..|ws| - 1]) + [Some(ws[|ws| - 1])]
  }

  lemma {:induction false} AddressesOfListed(ws: seq<Wallet>)
    ensures Addresses(Listed(ws)) == ws
  {
    if ws != [] {
      var front, last := ws[..|ws| - 1], ws[|ws| - 1];
      AddressesOfListed(front);
      assert (Listed(front) + [Some(last)])[..|Listed(front)|] == Listed(front);
      assert ws == front + [last];
    }
  }

  lemma {:induction false} StillCold(ws: seq<Wallet>, rows: Rows, t: Time)
    requires forall w :: w in ws ==> !Known(rows, w, t)
    ensures Cold(ws, rows, t) == ws
  {
    if ws != [] {
      StillCold(ws[..|ws| - 1], rows, t);
    }
  }

  /** Handed the batch a little later, `Warm` finds exactly the batch to ask about. */
  lemma WarmAsksTheBatch(owners: seq<Wallet>, rows: Rows, limit: int, now: Time, later: Time)
    requires NoRepeats(owners) && now <= later
    ensures var batch := Batch(owners, rows, limit, now);
            Named(Listed(batch)) == batch && Cold(Named(Listed(batch)), rows, later) == batch
  {
    var batch := Batch(owners, rows, limit, now);
    ColdElements(owners, rows, now);
    AddressesOfListed(batch);
    DistinctOfDistinct(batch);
    assert forall w :: w in batch ==> w in Cold(owners, rows, now);
    StillCold(batch, rows, later);
  }

  /**
   The warm-up command: the cold set first, then the limit, then `Warm`. When
   every answer arrives and is stored, the run is one of the successful runs a
   campaign is made of.
   */
  method WarmFleet(service: SharedSignerService, owners: seq<Option<Wallet>>, limit: int, dryRun: bool,
                   now: Time, later: Time, storeUp: bool, mint: Mint, events: seq<PoolEvent>, ghost start: Time, ghost horizon: Time)
    returns (res: WarmResult, error: Option<Error>)
    requires now <= later && FromPool(Batch(Named(owners), service.rows, limit, now), events)
    modifies service
    ensures dryRun || !storeUp ==> service.rows == old(service.rows) && (error.Some? <==> !storeUp && Named(owners) != [])
    ensures !dryRun && storeUp ==>
              var batch := Batch(Named(owners), old(service.rows), limit, now);
              && res.cold == |batch|
              && service.rows == (if mint.Minted? && batch != [] then Replayed(old(service.rows), Writes(events)) else old(service.rows))
              && (error.Some? <==> batch != [] && (!mint.Minted? || FirstFailure(events) == Some(false)))
              && (error.None? ==> res.cold == res.positive + res.negative + res.failed)
    ensures !dryRun && storeUp && mint.Minted? && start <= now && RunRecorded(Named(owners), old(service.rows), limit, events, now, horizon) ==>
              && error.None? && service.rows == Replayed(old(service.rows), Writes(events))
              && Succeeded(WarmRun(now, Writes(events)), Batch(Named(owners), old(service.rows), limit, now), start, horizon)
  {
    hide Named, Cold, Writes, FirstFailure, Succeeded;
    res, error := WarmResult(0, 0, 0, 0), None;
    var r := service.ColdOwners(owners, now, storeUp);
    if r.Err? {
      return res, Some(r.error);
    }
    var batch := r.value;
    BatchIsTaken(Named(owners), service.rows, limit, now);
    if limit > 0 && |batch| > limit {
      batch := batch[..limit];
    }
    if dryRun {
      return;
    }
    NamedIsTheSet(owners);
    assert batch == Batch(Named(owners), old(service.rows), limit, now);
    WarmAsksTheBatch(Named(owners), service.rows, limit, now, later);
    if start <= now && RunRecorded(Named(owners), service.rows, limit, events, now, horizon) {
      RecordedBatchSucceeded(batch, events, now, start, horizon);
    }
    if batch == [] {
      return;
    }
    res, error := service.Warm(Listed(batch), later, storeUp, mint, events);
  }
}

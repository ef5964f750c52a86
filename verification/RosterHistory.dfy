/** What the roster's owner column, owner log and `unseen_since` mean over any history of successful runs. */
module RosterHistory {
  import opened Wrappers
  import opened Sorting
  import opened Roster

  datatype Db = Db(rows: Rows, log: seq<Change>)

  ghost function Step(db: Db, s: Sweep): Db {
    Db(Reconciled(db.rows, s), db.log + LogAdditions(db.rows, s))
  }

  /** The database after every run of a history, from an empty roster. */
  ghost function After(history: seq<Sweep>): Db {
    if history == [] then Db(map[], [])
    else Step(After(history[..|history| - 1]), history[|history| - 1])
  }

  // ---- The owner log replays --------------------------------------------

  /** One vehicle's log entries, oldest first. */
  function EntriesOf(log: seq<Change>, t: Token): seq<Change> {
    if log == [] then []
    else
      var front, c := EntriesOf(log[..|log| - 1], t), log[|log| - 1];
      if c.token == t then front + [c] else front
  }

  lemma {:induction false} EntriesOfConcat(a: seq<Change>, b: seq<Change>, t: Token)
    ensures EntriesOf(a + b, t) == EntriesOf(a, t) + EntriesOf(b, t)
  {
    if b == [] {
      assert a + b == a;
    } else {
      EntriesOfConcat(a, b[..|b| - 1], t);
      assert (a + b)[..|a + b| - 1] == a + b[..|b| - 1];
    }
  }

  lemma EntriesOfNothing(t: Token)
    ensures EntriesOf([], t) == []
  {
  }

  lemma EntriesOfOne(rows: Rows, last: Token, r: Reading, now: Time, t: Token)
    ensures EntriesOf(Logged(rows, last, r, now), t) == if last == t then Logged(rows, last, r, now) else []
  {
    var entry := Logged(rows, last, r, now);
    if entry != [] {
      assert entry[..0] == [];
    }
  }

  /** A run logs at most one entry for a vehicle: the one its upsert makes. */
  lemma {:induction false} EntriesOfRun(rows: Rows, tokens: seq<Token>, seen: map<Token, Reading>, now: Time, t: Token)
    requires forall t :: t in tokens ==> t in seen
    requires forall i, j :: 0 <= i < j < |tokens| ==> tokens[i] != tokens[j]
    ensures EntriesOf(LoggedAll(rows, tokens, seen, now), t) == if t in tokens then Logged(rows, t, seen[t], now) else []
  {
    hide Logged, EntriesOf;
    assert EntriesOf([], t) == [] by { EntriesOfNothing(t); }
    if tokens != [] {
      var front, last := tokens[..|tokens| - 1], tokens[|tokens| - 1];
      EntriesOfRun(rows, front, seen, now, t);
      var entry := Logged(rows, last, seen[last], now);
      EntriesOfOne(rows, last, seen[last], now, t);
      EntriesOfConcat(LoggedAll(rows, front, seen, now), entry, t);
      assert tokens == front + [last] && last !in front;
    }
  }

  lemma RunEntries(rows: Rows, s: Sweep, t: Token)
    ensures EntriesOf(LogAdditions(rows, s), t) == if t in Seen(s) then Logged(rows, t, Seen(s)[t], s.at) else []
  {
    hide Seen, Logged, LoggedAll;
    SortedElements(Seen(s).Keys);
    EntriesOfRun(rows, Sorted(Seen(s).Keys), Seen(s), s.at, t);
  }

  /** A vehicle's entries form a chain of distinct consecutive owners, and end in its owner column. */
  ghost predicate Chain(entries: seq<Change>) {
    && (forall i :: 0 <= i < |entries| ==> entries[i].owner != "")
    && (entries != [] ==> entries[0].previous == None || entries[0].previous == Some(""))
    && (forall i :: 0 < i < |entries| ==> entries[i].previous == Some(entries[i - 1].owner) && entries[i].owner != entries[i - 1].owner)
  }

  ghost predicate Replays(db: Db, t: Token) {
    var entries := EntriesOf(db.log, t);
    && Chain(entries)
    && (t !in db.rows ==> entries == [])
    && (t in db.rows ==> db.rows[t].owner == if entries == [] then None else Some(entries[|entries| - 1].owner))
  }

  lemma StepReplays(db: Db, s: Sweep, t: Token)
    requires Replays(db, t)
    ensures Replays(Step(db, s), t)
  {
    hide Seen, LogAdditions, EntriesOf, Complete;
    EntriesOfConcat(db.log, LogAdditions(db.rows, s), t);
    RunEntries(db.rows, s, t);
  }

  /**
   After any history, a vehicle's owner column is the new owner of its last log
   entry (NULL if it has none), each entry's previous owner is the entry
   before's new owner, and consecutive owners differ.
   */
  lemma {:induction false} OwnerLogReplays(history: seq<Sweep>, t: Token)
    ensures Replays(After(history), t)
  {
    if history != [] {
      OwnerLogReplays(history[..|history| - 1], t);
      StepReplays(After(history[..|history| - 1]), history[|history| - 1], t);
    }
  }

  /**
   The upsert and its log entry are two statements without a transaction. A run
   that stops between them leaves the log replaying exactly when there was
   nothing to log.
   */
  lemma InterruptedUpsert(db: Db, t: Token, r: Reading, now: Time)
    requires Replays(db, t)
    ensures Replays(Db(db.rows[t := Upserted(db.rows, t, r, now)], db.log), t) <==> Logged(db.rows, t, r, now) == []
  {
    hide EntriesOf;
    var entries := EntriesOf(db.log, t);
    assert entries != [] ==> entries[|entries| - 1].owner != "";
  }

  /**
   A run's log additions for a vehicle are exactly its reported owner change,
   or its first observation if the row is new and an owner was read.
   */
  lemma AdditionsAreReported(rows: Rows, s: Sweep, t: Token)
    ensures var mine := EntriesOf(LogAdditions(rows, s), t);
            && |mine| <= 1
            && (mine != [] ==> t in Seen(s) && mine[0] == Change(t, if t in rows then Some(OrEmpty(rows[t].owner)) else None, Seen(s)[t].owner, s.at))
            && (mine != [] && mine[0].previous.None? <==> t in Seen(s) && t !in rows && Seen(s)[t].owner != "")
            && (mine != [] && mine[0].previous.Some? <==>
                  t in Seen(s) && t in rows && Seen(s)[t].owner != "" && OrEmpty(rows[t].owner) != Seen(s)[t].owner)
            && ReportOf(rows, s).ownerChanges == OwnerChangesOf(LogAdditions(rows, s))
  {
    hide Seen, LogAdditions, EntriesOf, OwnerChangesOf;
    RunEntries(rows, s, t);
  }

  lemma {:induction false} ChangesOfLog(log: seq<Change>, c: OwnerChange)
    ensures c in OwnerChangesOf(log) <==> exists e :: e in log && e.previous == Some(c.previous) && e.token == c.token && e.owner == c.owner
  {
    if log != [] {
      var front, last := log[..|log| - 1], log[|log| - 1];
      ChangesOfLog(front, c);
      assert log == front + [last] && last in log;
      if e :| e in front && e.previous == Some(c.previous) && e.token == c.token && e.owner == c.owner {
        assert e in log;
      }
    }
  }

  lemma {:induction false} EntryOfLog(log: seq<Change>, e: Change)
    ensures e in EntriesOf(log, e.token) <==> e in log
  {
    if log != [] {
      EntryOfLog(log[..|log| - 1], e);
      assert log == log[..|log| - 1] + [log[|log| - 1]];
    }
  }

  /** The reported owner changes are exactly the known vehicles read with another, non-empty owner. */
  lemma OwnerChangesAreTheDifferences(rows: Rows, s: Sweep, c: OwnerChange)
    ensures c in ReportOf(rows, s).ownerChanges <==>
            && c.token in Seen(s) && c.token in rows
            && c.owner == Seen(s)[c.token].owner && c.owner != ""
            && c.previous == OrEmpty(rows[c.token].owner) && c.previous != c.owner
  {
    hide Seen, LogAdditions, EntriesOf, OwnerChangesOf;
    var log := LogAdditions(rows, s);
    var e := Change(c.token, Some(c.previous), c.owner, s.at);
    ChangesOfLog(log, c);
    RunEntries(rows, s, c.token);
    EntryOfLog(log, e);
    if x :| x in log && x.previous == Some(c.previous) && x.token == c.token && x.owner == c.owner {
      EntryOfLog(log, x);
    }
  }

  // ---- unseen_since -----------------------------------------------------

  /** The last run that saw the vehicle, -1 if none did. */
  function LastSeen(history: seq<Sweep>, t: Token): (i: int)
    ensures -1 <= i < |history|
  {
    if history == [] then -1
    else if t in Seen(history[|history| - 1]) then |history| - 1
    else LastSeen(history[..|history| - 1], t)
  }

  /** The time of the first complete run at or after position `i`. */
  function FirstComplete(history: seq<Sweep>, i: nat): Option<Time>
    decreases |history| - i
  {
    if i >= |history| then None
    else if Complete(history[i]) then Some(history[i].at)
    else FirstComplete(history, i + 1)
  }

  lemma {:induction false} FirstCompleteExtends(history: seq<Sweep>, s: Sweep, i: nat)
    requires i <= |history|
    ensures FirstComplete(history + [s], i) ==
            if FirstComplete(history, i).Some? then FirstComplete(history, i)
            else if Complete(s) then Some(s.at) else None
    decreases |history| - i
  {
    if i < |history| {
      FirstCompleteExtends(history, s, i + 1);
    }
  }

  /**
   Over any history: a vehicle has a row exactly when some run saw it, and its
   `unseen_since` is the time of the first complete run after the last one that
   saw it, NULL while there is none.
   */
  lemma {:induction false} UnseenSinceIsFirstMiss(history: seq<Sweep>, t: Token)
    ensures var rows := After(history).rows;
            && (t in rows <==> LastSeen(history, t) >= 0)
            && (t in rows ==> rows[t].unseenSince == FirstComplete(history, LastSeen(history, t) + 1))
  {
    hide Seen, Complete, LogAdditions;
    if history != [] {
      var front, s := history[..|history| - 1], history[|history| - 1];
      assert history == front + [s];
      UnseenSinceIsFirstMiss(front, t);
      if t !in Seen(s) && LastSeen(front, t) >= 0 {
        FirstCompleteExtends(front, s, LastSeen(front, t) + 1);
      }
    }
  }

  /** After a run no licence failed in, the unstamped vehicles are exactly those it saw; a partial run only clears stamps. */
  lemma StampsAfterRun(history: seq<Sweep>, s: Sweep, t: Token)
    ensures var before, after := After(history).rows, After(history + [s]).rows;
            && (Complete(s) && t in after ==> (after[t].unseenSince.None? <==> t in Seen(s)))
            && (!Complete(s) && t in before ==> t in after)
            && (!Complete(s) && t in before && t !in Seen(s) ==> after[t].unseenSince == before[t].unseenSince)
            && (!Complete(s) && t in before && t in Seen(s) ==> after[t].unseenSince.None?)
  {
    hide Seen, Complete, LogAdditions;
    assert (history + [s])[..|history + [s]| - 1] == history;
  }

  // ---- The other columns ------------------------------------------------

  /** The last definition any run read for the vehicle: an empty read does not count. */
  function LastDefinition(history: seq<Sweep>, t: Token): Option<string> {
    if history == [] then None
    else
      var s := history[|history| - 1];
      if t in Seen(s) && Seen(s)[t].definition != "" then Some(Seen(s)[t].definition)
      else LastDefinition(history[..|history| - 1], t)
  }

  function FirstSeenAt(history: seq<Sweep>, t: Token): Option<Time> {
    if history == [] then None
    else
      var earlier := FirstSeenAt(history[..|history| - 1], t);
      if earlier.None? && t in Seen(history[|history| - 1]) then Some(history[|history| - 1].at) else earlier
  }

  /**
   Over any history: the definition is filled forward, the device is what the
   last run that saw the vehicle read (even nothing), `reconciled_at` is that
   run's time and `first_seen_at` the first one's.
   */
  lemma {:induction false} ColumnsOverHistory(history: seq<Sweep>, t: Token)
    ensures var rows := After(history).rows;
            && (t in rows <==> LastSeen(history, t) >= 0)
            && (t in rows <==> FirstSeenAt(history, t).Some?)
            && (t !in rows ==> LastDefinition(history, t).None?)
            && (t in rows ==>
                  && t in Seen(history[LastSeen(history, t)])
                  && rows[t].device == Seen(history[LastSeen(history, t)])[t].device
                  && rows[t].reconciled == history[LastSeen(history, t)].at
                  && rows[t].definition == LastDefinition(history, t)
                  && Some(rows[t].firstSeen) == FirstSeenAt(history, t))
  {
    hide Seen, Complete, LogAdditions;
    if history != [] {
      ColumnsOverHistory(history[..|history| - 1], t);
    }
  }
}

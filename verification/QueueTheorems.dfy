/**
 What the sharing queue promises over whole runs: serial equivalence, exclusion
 and order, no erased document, and progress.
 */
module QueueTheorems {
  import opened Calendar
  import opened Sacd
  import opened VehicleChain
  import opened Jobs
  import opened Queue

  ghost predicate Reachable(chain0: Chain, s: State) {
    exists start, run :: Valid(Initial(chain0, start), run) && s == After(Initial(chain0, start), run)
  }

  lemma ReachableHasInv(chain0: Chain, s: State)
    requires Reachable(chain0, s)
    ensures Inv(chain0, s)
  {
    var start, run :| Valid(Initial(chain0, start), run) && s == After(Initial(chain0, start), run);
    ReachableInv(chain0, start, run);
  }

  // ---- Serial equivalence -----------------------------------------------

  /**
   In every reachable state of every interleaving, each vehicle is what running
   its jobs one at a time in id order, with the same answers, makes it; and
   each job that returned did so with the result it has in that serial run.
   */
  lemma Serializability(chain0: Chain, s: State, t: TokenId)
    requires Reachable(chain0, s)
    ensures VehicleAt(s.chain, t) == Serial(chain0, s.rows, t, |s.rows|)
    ensures forall j :: 0 <= j < |s.rows| && s.rows[j].outcome.Returned? ==>
              Replay(s.rows[j].args, s.rows[j].trace, Serial(chain0, s.rows, s.rows[j].args.token, j)).local
              == Done(s.rows[j].outcome.ok)
  {
    ReachableHasInv(chain0, s);
    forall j | 0 <= j < |s.rows| && s.rows[j].outcome.Returned?
      ensures Replay(s.rows[j].args, s.rows[j].trace, Serial(chain0, s.rows, s.rows[j].args.token, j)).local
              == Done(s.rows[j].outcome.ok)
    {
      hide Replay, Serial;
      assert LocalIsSerial(chain0, s, j);
    }
  }

  /**
   A revoke that returned success, with nothing of its vehicle begun after it,
   leaves its grantee without a grant: whatever shares were queued before it,
   and however they interleaved.
   */
  lemma RevokeIsFinal(chain0: Chain, s: State, j: nat, p: nat, at: int)
    requires Reachable(chain0, s) && j < |s.rows|
    requires s.rows[j].args.Revoke? && s.rows[j].outcome == Returned(true)
    requires forall k :: j < k < |s.rows| && s.rows[k].args.token == s.rows[j].args.token ==> s.rows[k].starts == 0
    ensures var r := CurrentGrant(VehicleAt(s.chain, s.rows[j].args.token), GranteeOf(s.rows[j].args));
            r == NO_RECORD && !GrantIsLive(r, at) && !Grants(r, p, at)
  {
    hide Step, Replay;
    var row := s.rows[j];
    var t := row.args.token;
    Serializability(chain0, s, t);
    ReachableHasInv(chain0, s);
    forall k | j < k < |s.rows| && s.rows[k].args.token == t ensures s.rows[k].trace == [] {
      assert JobOk(s, k);
    }
    SerialSkips(chain0, s.rows, t, j + 1, |s.rows|);
    RevokeLeavesNoGrant(row.args, row.trace, Serial(chain0, s.rows, t, j));
    RevokedGrantsNothing(NO_RECORD, p, at);
  }

  // ---- Exclusion and order ----------------------------------------------

  /**
   In every reachable state, crashes and rescues included: no two jobs of a
   vehicle are inside `doInner`, no job's inner work has started twice, and a
   job whose work has started follows only finished jobs of its vehicle.
   */
  lemma Exclusion(chain0: Chain, s: State)
    requires Reachable(chain0, s)
    ensures forall i, j :: i in s.workers && j in s.workers && s.workers[i].Inside? && s.workers[j].Inside? && i != j ==>
              i < |s.rows| && j < |s.rows| && s.rows[i].args.token != s.rows[j].args.token
    ensures forall j :: 0 <= j < |s.rows| ==> s.rows[j].starts <= 1
    ensures forall i, j :: 0 <= i < j < |s.rows| && s.rows[i].args.token == s.rows[j].args.token && s.rows[j].starts == 1 ==> s.rows[i].state == Finished
    ensures |s.workers| <= 4
  {
    ReachableHasInv(chain0, s);
    forall i, j | i in s.workers && j in s.workers && s.workers[i].Inside? && s.workers[j].Inside? && i != j
      ensures i < |s.rows| && j < |s.rows| && s.rows[i].args.token != s.rows[j].args.token
    {
      if s.rows[i].args.token == s.rows[j].args.token {
        InsideIsExclusive(s, i, j);
      }
    }
    forall j | 0 <= j < |s.rows| ensures s.rows[j].starts <= 1 {
      assert JobOk(s, j);
    }
  }

  /** The job is finished and an earlier job of its vehicle is not. */
  predicate OvertookEarlier(s: State, j: nat)
    requires j < |s.rows|
  {
    s.rows[j].state == Finished && EarlierUnfinished(s.rows, j)
  }

  /**
   Jobs of a vehicle finish in id order except one way: a job whose worker was
   lost at the gate is rescued while an earlier job is still queued. Such a job
   never started, received no answer and moved nothing.
   */
  lemma FinishOrder(chain0: Chain, s: State, j: nat)
    requires Reachable(chain0, s) && j < |s.rows|
    ensures OvertookEarlier(s, j) <==>
            s.rows[j].outcome == Discarded && s.rows[j].starts == 0 && EarlierUnfinished(s.rows, j)
    ensures OvertookEarlier(s, j) ==> s.rows[j].trace == []
  {
    ReachableHasInv(chain0, s);
    assert JobOk(s, j);
  }

  /** A job whose work never started is finished by its rescue and by nothing else. */
  lemma OnlyRescueFinishesUnstarted(s: State, a: Action, j: nat)
    requires Discipline(s) && Enabled(s, a) && j < |s.rows| && j < |Apply(s, a).rows|
    requires s.rows[j].state != Finished && Apply(s, a).rows[j].state == Finished && Apply(s, a).rows[j].starts == 0
    ensures a == Rescue(j)
  {
    hide Step, Timeout, Ordered;
    assert JobOk(s, j);
  }

  lemma RescueFinishes(s: State, j: nat)
    requires Discipline(s) && Enabled(s, Rescue(j)) && EarlierUnfinished(s.rows, j)
    ensures OvertookEarlier(Apply(s, Rescue(j)), j)
  {
    hide Ordered, Timeout;
    assert JobOk(s, j);
    var i: nat :| i < j && s.rows[i].args.token == s.rows[j].args.token && s.rows[i].state != Finished;
    assert Apply(s, Rescue(j)).rows[i] == s.rows[i];
  }

  /**
   The one step that makes a job overtake an earlier one: the rescue of that
   job, before its work has started, while an earlier one is unfinished.
   */
  lemma OvertakingStep(s: State, a: Action, j: nat)
    requires Discipline(s) && Enabled(s, a) && j < |s.rows| && !OvertookEarlier(s, j)
    ensures j < |Apply(s, a).rows|
    ensures OvertookEarlier(Apply(s, a), j) <==> a == Rescue(j) && s.rows[j].starts == 0 && EarlierUnfinished(s.rows, j)
  {
    StepGrows(s, a);
    StepKeepsDiscipline(s, a);
    var s' := Apply(s, a);
    if OvertookEarlier(s', j) {
      NothingComesUndone(s, s', j);
      OnlyRescueFinishesUnstarted(s, a, j);
    } else if a == Rescue(j) && EarlierUnfinished(s.rows, j) {
      RescueFinishes(s, j);
    }
  }

  lemma NothingComesUndone(s: State, s': State, j: nat)
    requires Grows(s.rows, s'.rows) && Discipline(s') && j < |s.rows| && OvertookEarlier(s', j) && !OvertookEarlier(s, j)
    ensures EarlierUnfinished(s.rows, j) && s.rows[j].state != Finished && s.rows[j].starts == 0 && s'.rows[j].starts == 0
  {
    assert JobOk(s', j);
  }

  /** No worker of the run is lost between being handed its job and passing the gate. */
  ghost predicate NoneLostAtGate(s: State, run: seq<Action>)
    requires Valid(s, run)
    decreases |run|
  {
    run == [] ||
    (var front, a := run[..|run| - 1], run[|run| - 1];
     NoneLostAtGate(s, front) && (a.Crash? ==> After(s, front).workers[a.job].Inside?))
  }

  /** Whoever holds a job that has not started is still at the gate, and only started jobs have finished. */
  ghost predicate Attended(s: State) {
    forall j :: 0 <= j < |s.rows| ==>
      && (s.rows[j].state == Working && s.rows[j].starts == 0 ==> j in s.workers)
      && (s.rows[j].state == Finished ==> s.rows[j].starts == 1)
  }

  lemma StepKeepsAttended(s: State, a: Action)
    requires Discipline(s) && Attended(s) && Enabled(s, a)
    requires a.Crash? ==> s.workers[a.job].Inside?
    ensures Attended(Apply(s, a))
  {
    hide Step;
    if a.Rescue? {
      RescuedWorkerIsGone(s, a.job);
    }
    if !a.Enqueue? && !a.Tick? {
      assert JobOk(s, a.job);
    }
  }

  lemma {:induction false} RunKeepsAttended(s: State, run: seq<Action>)
    requires Discipline(s) && Attended(s) && Valid(s, run) && NoneLostAtGate(s, run)
    ensures Attended(After(s, run))
    decreases |run|
  {
    hide Discipline, Attended, Enabled, Apply;
    if run != [] {
      var front := run[..|run| - 1];
      RunKeepsAttended(s, front);
      RunGrows(s, front);
      StepKeepsAttended(After(s, front), run[|run| - 1]);
    }
  }

  /** In every run that loses no worker at the gate, whatever else crashes, jobs of a vehicle finish in id order. */
  lemma FinishInOrder(chain0: Chain, start: int, run: seq<Action>, i: nat, j: nat)
    requires Valid(Initial(chain0, start), run) && NoneLostAtGate(Initial(chain0, start), run)
    ensures var rows := After(Initial(chain0, start), run).rows;
            i < j < |rows| && rows[i].args.token == rows[j].args.token && rows[j].state == Finished ==> rows[i].state == Finished
  {
    hide Valid, After, NoneLostAtGate;
    ReachableInv(chain0, start, run);
    RunKeepsAttended(Initial(chain0, start), run);
  }

  lemma Extend(s: State, run: seq<Action>, a: Action)
    requires Valid(s, run) && Enabled(After(s, run), a)
    ensures Valid(s, run + [a]) && After(s, run + [a]) == Apply(After(s, run), a)
  {
    hide Enabled, Apply;
    assert (run + [a])[..|run + [a]| - 1] == run;
  }

  /** The exception is real: two jobs for one vehicle, the second lost at the gate and rescued first. */
  lemma OvertakingHappens(chain0: Chain, start: int, a: Args, b: Args) returns (run: seq<Action>)
    requires a.token == b.token
    ensures Valid(Initial(chain0, start), run)
    ensures var s := After(Initial(chain0, start), run);
            |s.rows| == 2 && OvertookEarlier(s, 1) && s.rows[0].state == Available
  {
    hide Valid, After, Step, ApplyInner, ApplyLost;
    var s0 := Initial(chain0, start);
    assert Valid(s0, []) && After(s0, []) == s0 by { ValidNil(s0); }
    Extend(s0, [], Enqueue(a));
    Extend(s0, [] + [Enqueue(a)], Enqueue(b));
    run := [] + [Enqueue(a)] + [Enqueue(b)];
    Extend(s0, run, Fetch(1));
    run := run + [Fetch(1)];
    Extend(s0, run, Crash(1));
    run := run + [Crash(1)];
    assert After(s0, run).workers == map[];
    Extend(s0, run, Tick(start + RESCUE_AFTER + 1));
    run := run + [Tick(start + RESCUE_AFTER + 1)];
    Extend(s0, run, Rescue(1));
    run := run + [Rescue(1)];
    var s := After(s0, run);
    assert s.rows[0].args.token == s.rows[1].args.token && s.rows[0].state != Finished;
  }

  lemma ValidNil(s: State)
    ensures Valid(s, []) && After(s, []) == s
  {
  }

  // ---- No erased document -----------------------------------------------

  /** What one share step can do to the grant of any grantee of its vehicle. */
  lemma ShareStepKeepsDocument(a: Args, l: Local, v: Vehicle, i: Input, g: Address, now: int)
    requires a.Share? && Fits(l, i.answer)
    requires l.Start? || l.Publish? || l.ReadGrant? || l.Judge? || l.SendShare?
    requires l.SendShare? && l.source == "" ==> !GrantIsLive(CurrentGrant(v, GranteeOf(a)), now)
    requires GrantIsLive(CurrentGrant(v, g), now) && CurrentGrant(v, g).source != ""
    ensures CurrentGrant(Step(a, Running(l, v), i).vehicle, g).source != ""
  {
  }

  lemma {:induction false} ShareProgram(a: Args, trace: seq<Input>, v: Vehicle)
    requires a.Share?
    ensures var l := Replay(a, trace, v).local;
            l.Start? || l.Publish? || l.ReadGrant? || l.Judge? || l.SendShare? || l.Done?
  {
    if trace != [] {
      ShareProgram(a, trace[..|trace| - 1], v);
    }
  }

  /**
   No step that is not another job's, in any reachable state, turns a live
   grant that has a document into one that has none; a worker lost after its
   call landed included.
   */
  lemma ShareNeverErasesDocument(chain0: Chain, s: State, a: Action, t: TokenId, g: Address)
    requires Reachable(chain0, s) && Enabled(s, a)
    ensures var before := CurrentGrant(VehicleAt(s.chain, t), g);
            var after := CurrentGrant(VehicleAt(Apply(s, a).chain, t), g);
            (Answers(a) ==> s.rows[a.job].args.Share?) && GrantIsLive(before, s.now) && before.source != "" ==> after.source != ""
  {
    hide Step, Replay;
    ReachableHasInv(chain0, s);
    var before := CurrentGrant(VehicleAt(s.chain, t), g);
    if Answers(a) && s.rows[a.job].args.Share? && GrantIsLive(before, s.now) && before.source != "" && t == s.rows[a.job].args.token {
      var row := s.rows[a.job];
      assert LocalIsSerial(chain0, s, a.job);
      ShareProgram(row.args, row.trace, Serial(chain0, s.rows, t, a.job));
      ShareStepKeepsDocument(row.args, s.workers[a.job].local, VehicleAt(s.chain, t), a.input, g, s.now);
    }
  }

  // ---- Progress ---------------------------------------------------------

  /** Nothing is being worked: every row waits or is finished. */
  ghost predicate Quiescent(s: State) {
    s.workers == map[] && forall j :: 0 <= j < |s.rows| ==> s.rows[j].state != Working
  }

  /** A pass: from rest to rest, with every job unfinished at its start offered one attempt the gate could answer. */
  ghost predicate Pass(s: State, run: seq<Action>) {
    && Valid(s, run)
    && Quiescent(s)
    && Quiescent(After(s, run))
    && forall j :: 0 <= j < |s.rows| && s.rows[j].state != Finished ==> Gate(j, false) in run
  }

  /** Rows are only added, finished jobs stay finished, and started jobs stay started. */
  ghost predicate Grows(rows: seq<Row>, rows': seq<Row>) {
    && |rows| <= |rows'|
    && forall j :: 0 <= j < |rows| ==>
         && rows'[j].args == rows[j].args
         && (rows[j].state == Finished ==> rows'[j].state == Finished)
         && rows[j].starts <= rows'[j].starts
  }

  lemma StepGrows(s: State, a: Action)
    requires Discipline(s) && Enabled(s, a)
    ensures Grows(s.rows, Apply(s, a).rows)
  {
    hide Step, Timeout, Ordered;
    if !a.Enqueue? && !a.Tick? {
      assert JobOk(s, a.job);
    }
  }

  lemma {:induction false} RunGrows(s: State, run: seq<Action>)
    requires Discipline(s) && Valid(s, run)
    ensures Discipline(After(s, run)) && Grows(s.rows, After(s, run).rows)
    decreases |run|
  {
    hide Discipline, Enabled, Apply;
    if run != [] {
      var front := run[..|run| - 1];
      RunGrows(s, front);
      StepGrows(After(s, front), run[|run| - 1]);
      StepKeepsDiscipline(After(s, front), run[|run| - 1]);
    }
  }

  lemma {:induction false} Prefix(s: State, run: seq<Action>, n: nat)
    requires Valid(s, run) && n <= |run|
    ensures Valid(s, run[..n])
    ensures n < |run| ==> Enabled(After(s, run[..n]), run[n])
    decreases |run|
  {
    hide Enabled, Apply;
    if n < |run| {
      var front := run[..|run| - 1];
      if n < |front| {
        Prefix(s, front, n);
        assert front[..n] == run[..n];
      } else {
        assert front == run[..n];
      }
    } else {
      assert run[..n] == run;
    }
  }

  lemma {:induction false} SuffixGrows(s: State, run: seq<Action>, n: nat)
    requires Discipline(s) && Valid(s, run) && n <= |run|
    ensures Valid(s, run[..n]) && Grows(After(s, run[..n]).rows, After(s, run).rows)
    decreases |run|
  {
    hide Discipline, Enabled, Apply;
    if n == |run| {
      assert run[..n] == run;
    } else {
      var front := run[..|run| - 1];
      SuffixGrows(s, front, n);
      assert front[..n] == run[..n];
      RunGrows(s, front);
      StepGrows(After(s, front), run[|run| - 1]);
    }
  }

  /**
   The gate lets a job in exactly when it knows that no earlier job of the
   vehicle is unfinished. A held job is back in the queue, its attempt not
   counted, and nothing else has changed.
   */
  lemma GateLetsInIff(s: State, j: nat, dbError: bool)
    requires Discipline(s) && Enabled(s, Gate(j, dbError))
    ensures var s' := Apply(s, Gate(j, dbError));
            && s'.chain == s.chain && s'.now == s.now
            && (j in s'.workers <==> !dbError && !EarlierUnfinished(s.rows, j))
            && (j in s'.workers ==> s' == s.(rows := s.rows[j := s.rows[j].(starts := 1)], workers := s.workers[j := Inside(Start)]))
            && (j !in s'.workers ==> s' == s.(rows := s.rows[j := s.rows[j].(state := Available, attempts := 0)], workers := s.workers - {j}))
  {
    assert JobOk(s, j);
  }

  /** The lowest unfinished job of a vehicle is never held at the gate: nothing to deadlock on. */
  lemma LowestIsNeverHeld(s: State, j: nat)
    requires Enabled(s, Gate(j, false)) && !EarlierUnfinished(s.rows, j)
    ensures j in Apply(s, Gate(j, false)).workers && Apply(s, Gate(j, false)).workers[j] == Inside(Start)
    ensures Apply(s, Gate(j, false)).rows[j].starts == s.rows[j].starts + 1
  {
  }

  /** A pass finishes the lowest unfinished job of every vehicle that has one. */
  lemma PassFinishesLowest(s: State, run: seq<Action>, j: nat)
    requires Discipline(s) && Pass(s, run)
    requires j < |s.rows| && s.rows[j].state != Finished && !EarlierUnfinished(s.rows, j)
    ensures j < |After(s, run).rows| && After(s, run).rows[j].state == Finished
  {
    hide Apply, Valid, After;
    var n :| 0 <= n < |run| && run[n] == Gate(j, false);
    Prefix(s, run, n);
    var mid := After(s, run[..n]);
    RunGrows(s, run[..n]);
    assert !EarlierUnfinished(mid.rows, j);
    LowestIsNeverHeld(mid, j);
    StepGrows(mid, Gate(j, false));
    Extend(s, run[..n], Gate(j, false));
    assert run[..n] + [Gate(j, false)] == run[..n + 1];
    SuffixGrows(s, run, n + 1);
    RunGrows(s, run);
    var last := After(s, run);
    assert last.rows[j].starts >= After(s, run[..n + 1]).rows[j].starts >= 1;
    assert JobOk(last, j) && last.rows[j].state != Working;
  }

  /** Unfinished jobs of a vehicle among the first `n`. */
  function Backlog(rows: seq<Row>, t: TokenId, n: nat): nat
    requires n <= |rows|
  {
    if n == 0 then 0
    else Backlog(rows, t, n - 1) + (if rows[n - 1].args.token == t && rows[n - 1].state != Finished then 1 else 0)
  }

  lemma {:induction false} BacklogZero(rows: seq<Row>, t: TokenId, n: nat)
    requires n <= |rows|
    ensures Backlog(rows, t, n) == 0 <==>
            forall i :: 0 <= i < n && rows[i].args.token == t ==> rows[i].state == Finished
  {
    if n > 0 {
      BacklogZero(rows, t, n - 1);
    }
  }

  lemma {:induction false} FindLowest(rows: seq<Row>, t: TokenId, n: nat) returns (j: nat)
    requires n <= |rows| && Backlog(rows, t, n) > 0
    ensures j < n && rows[j].args.token == t && rows[j].state != Finished && !EarlierUnfinished(rows, j)
  {
    BacklogZero(rows, t, n - 1);
    if Backlog(rows, t, n - 1) > 0 {
      j := FindLowest(rows, t, n - 1);
    } else {
      j := n - 1;
    }
  }

  lemma {:induction false} BacklogDrops(rows: seq<Row>, rows': seq<Row>, t: TokenId, n: nat, j: nat)
    requires Grows(rows, rows') && n <= |rows|
    ensures Backlog(rows', t, n) <= Backlog(rows, t, n)
    ensures j < n && rows[j].args.token == t && rows[j].state != Finished && rows'[j].state == Finished
            ==> Backlog(rows', t, n) < Backlog(rows, t, n)
  {
    if n > 0 {
      BacklogDrops(rows, rows', t, n - 1, j);
    }
  }

  lemma PassShrinksBacklog(s: State, run: seq<Action>, t: TokenId, n: nat)
    requires Discipline(s) && Pass(s, run) && n <= |s.rows|
    ensures Discipline(After(s, run)) && n <= |After(s, run).rows|
    ensures Backlog(After(s, run).rows, t, n) <= Backlog(s.rows, t, n)
    ensures Backlog(s.rows, t, n) > 0 ==> Backlog(After(s, run).rows, t, n) < Backlog(s.rows, t, n)
  {
    hide Discipline, Apply;
    RunGrows(s, run);
    if Backlog(s.rows, t, n) > 0 {
      var j := FindLowest(s.rows, t, n);
      PassFinishesLowest(s, run, j);
      BacklogDrops(s.rows, After(s, run).rows, t, n, j);
    } else {
      BacklogDrops(s.rows, After(s, run).rows, t, n, 0);
    }
  }

  ghost predicate Passes(s: State, passes: seq<seq<Action>>)
    decreases |passes|
  {
    passes == [] || (Pass(s, passes[0]) && Passes(After(s, passes[0]), passes[1..]))
  }

  ghost function AfterPasses(s: State, passes: seq<seq<Action>>): State
    requires Passes(s, passes)
    decreases |passes|
  {
    if passes == [] then s else AfterPasses(After(s, passes[0]), passes[1..])
  }

  /**
   Draining: whatever is enqueued meanwhile, k passes finish at least k of the
   first n jobs of each vehicle, so as many passes as a vehicle had queued jobs
   finish all of them, although a snoozed job finishes nothing.
   */
  lemma {:induction false} PassesDrain(s: State, passes: seq<seq<Action>>, t: TokenId, n: nat)
    requires Discipline(s) && Passes(s, passes) && n <= |s.rows|
    ensures n <= |AfterPasses(s, passes).rows|
    ensures Backlog(AfterPasses(s, passes).rows, t, n)
            <= (if Backlog(s.rows, t, n) > |passes| then Backlog(s.rows, t, n) - |passes| else 0)
    ensures Backlog(s.rows, t, n) <= |passes| ==>
              forall i :: 0 <= i < n && AfterPasses(s, passes).rows[i].args.token == t
                          ==> AfterPasses(s, passes).rows[i].state == Finished
    decreases |passes|
  {
    hide Discipline;
    if passes != [] {
      PassShrinksBacklog(s, passes[0], t, n);
      PassesDrain(After(s, passes[0]), passes[1..], t, n);
    }
    BacklogZero(AfterPasses(s, passes).rows, t, n);
  }

  /** From rest, the lowest unfinished job of a vehicle can always be finished in three steps. */
  lemma NoDeadlock(chain0: Chain, s: State, j: nat, clock: Moment) returns (run: seq<Action>)
    requires Inv(chain0, s) && Quiescent(s) && Unix(clock) == s.now
    requires j < |s.rows| && s.rows[j].state != Finished && !EarlierUnfinished(s.rows, j)
    ensures Valid(s, run) && Quiescent(After(s, run))
    ensures j < |After(s, run).rows| && After(s, run).rows[j].state == Finished
  {
    hide Valid, After;
    ValidNil(s);
    assert |s.workers| == 0;
    Extend(s, [], Fetch(j));
    var s1 := Apply(s, Fetch(j));
    assert !EarlierUnfinished(s1.rows, j);
    Extend(s, [] + [Fetch(j)], Gate(j, false));
    var s2 := Apply(s1, Gate(j, false));
    var input := Input(clock, 0, Denied);
    Extend(s, [] + [Fetch(j)] + [Gate(j, false)], Inner(j, input));
    run := [] + [Fetch(j)] + [Gate(j, false)] + [Inner(j, input)];
    var s3 := Apply(s2, Inner(j, input));
    assert s3.workers == map[];
  }
}

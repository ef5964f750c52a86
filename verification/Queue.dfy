/**
 The sharing job queue as a concurrent step system: Postgres job rows, up to
 four workers behind `vehicleSequencer`, crashes, the stuck-job rescue, the
 clock and the chain. A row's id is its position, so ids are assigned in the
 order rows become visible.
 */
module Queue {
  import opened Wrappers
  import opened Calendar
  import opened Sacd
  import opened VehicleChain
  import opened Jobs

  const MAX_WORKERS := 4
  const MAX_ATTEMPTS := 1
  const RESCUE_AFTER := 20 * 60

  /** Each worker's `Timeout`, in seconds. */
  function Timeout(a: Args): int {
    if a.SharedOp? && a.op == TransferVehicle then 15 * 60 else 10 * 60
  }

  /** How long a UserOp is waited for: sixty polls, five seconds apart. */
  const RECEIPT_WINDOW := 60 * 5

  /** A job's timeout leaves room for its receipt windows, two for a transfer, and ends well before the rescue. */
  lemma TimeoutsFit(a: Args)
    ensures (if a.SharedOp? && a.op == TransferVehicle then 2 else 1) * RECEIPT_WINDOW + 5 * 60 <= Timeout(a) <= RESCUE_AFTER - 5 * 60
  {
  }

  /** Available covers River's available, pending, retryable and scheduled (snoozed) states. */
  datatype RowState = Available | Working | Finished

  datatype Outcome = NotYet | Returned(ok: bool) | TimedOut | Discarded

  /**
   One row of river_job. `starts` counts how often the job's inner work began
   and `trace` keeps every outside answer it received, in order; both are
   history the properties speak about, read by no step.
   */
  datatype Row = Row(
    args: Args,
    state: RowState,
    attempts: nat,
    attemptedAt: int,
    outcome: Outcome,
    starts: nat,
    trace: seq<Input>)

  /** A worker goroutine: at the sequencer's gate, or inside `doInner`. */
  datatype Worker = AtGate | Inside(local: Local)

  type Chain = map<TokenId, Vehicle>

  datatype State = State(rows: seq<Row>, workers: map<nat, Worker>, chain: Chain, now: int)

  const UNMINTED := Vehicle(None, 0, map[], {})

  function VehicleAt(c: Chain, t: TokenId): Vehicle {
    if t in c then c[t] else UNMINTED
  }

  /** `earlierUnfinishedJobQuery`. */
  predicate EarlierUnfinished(rows: seq<Row>, j: nat)
    requires j < |rows|
  {
    exists i: nat :: i < j && rows[i].args.token == rows[j].args.token && rows[i].state != Finished
  }

  // ---- Steps ------------------------------------------------------------

  datatype Action =
    | Enqueue(args: Args)
    | Fetch(job: nat)
    | Gate(job: nat, dbError: bool)
    | Inner(job: nat, input: Input)
    | Expire(job: nat)
    | ExpireAfter(job: nat, input: Input)
    | Crash(job: nat)
    | CrashAfter(job: nat, input: Input)
    | Rescue(job: nat)
    | Tick(to: int)

  /** The worker of this job is inside and waits for such an answer. */
  predicate CanAnswer(s: State, j: nat, i: Input) {
    && j < |s.rows| && j in s.workers && s.workers[j].Inside?
    && Fits(s.workers[j].local, i.answer) && Unix(i.clock) == s.now
  }

  predicate OutOfTime(s: State, j: nat)
    requires j < |s.rows|
  {
    s.now >= s.rows[j].attemptedAt + Timeout(s.rows[j].args)
  }

  predicate Enabled(s: State, a: Action) {
    match a
    case Enqueue(_) => true
    case Fetch(j) => j < |s.rows| && s.rows[j].state == Available && j !in s.workers && |s.workers| < MAX_WORKERS
    case Gate(j, _) => j < |s.rows| && j in s.workers && s.workers[j] == AtGate
    case Inner(j, i) => CanAnswer(s, j, i)
    case Expire(j) => j < |s.rows| && j in s.workers && s.workers[j].Inside? && OutOfTime(s, j)
    // The last answer takes effect, and the worker is gone before it can say so.
    case ExpireAfter(j, i) => CanAnswer(s, j, i) && OutOfTime(s, j)
    case CrashAfter(j, i) => CanAnswer(s, j, i)
    case Crash(j) => j in s.workers
    // The rescue sees only the row: it cannot tell a lost worker from a slow one.
    case Rescue(j) => j < |s.rows| && s.rows[j].state == Working && s.now > s.rows[j].attemptedAt + RESCUE_AFTER
    // A worker returns by its timeout.
    case Tick(to) => s.now <= to && forall j :: j in s.workers && j < |s.rows| ==> to <= s.rows[j].attemptedAt + Timeout(s.rows[j].args)
  }

  /** What becomes of a row whose attempt ended in an error or was rescued. */
  function AfterFailure(r: Row, o: Outcome): Row {
    if r.attempts >= MAX_ATTEMPTS then r.(state := Finished, outcome := o) else r.(state := Available)
  }

  function ApplyInner(s: State, j: nat, i: Input): State
    requires Enabled(s, Inner(j, i))
  {
    var row := s.rows[j];
    var t := row.args.token;
    var r := Step(row.args, Running(s.workers[j].local, VehicleAt(s.chain, t)), i);
    var row' := row.(trace := row.trace + [i]);
    var chain' := s.chain[t := r.vehicle];
    if r.local.Done? then
      State(s.rows[j := row'.(state := Finished, outcome := Returned(r.local.ok))], s.workers - {j}, chain', s.now)
    else
      State(s.rows[j := row'], s.workers[j := Inside(r.local)], chain', s.now)
  }

  /** The answer moves the vehicle, then the worker is lost; the row is left as it was, or settled as timed out. */
  function ApplyLost(s: State, j: nat, i: Input, settled: bool): State
    requires Enabled(s, Inner(j, i))
  {
    var row := s.rows[j].(trace := s.rows[j].trace + [i]);
    State(s.rows[j := if settled then AfterFailure(row, TimedOut) else row], s.workers - {j}, ApplyInner(s, j, i).chain, s.now)
  }

  function Apply(s: State, a: Action): State
    requires Enabled(s, a)
  {
    match a
    case Enqueue(args) => s.(rows := s.rows + [Row(args, Available, 0, 0, NotYet, 0, [])])
    case Fetch(j) =>
      var r := s.rows[j];
      s.(rows := s.rows[j := r.(state := Working, attempts := r.attempts + 1, attemptedAt := s.now)],
         workers := s.workers[j := AtGate])
    case Gate(j, dbError) =>
      var r := s.rows[j];
      if dbError || EarlierUnfinished(s.rows, j) then
        // JobSnooze: back to the queue, the attempt not counted.
        s.(rows := s.rows[j := r.(state := Available, attempts := if r.attempts > 0 then r.attempts - 1 else 0)],
           workers := s.workers - {j})
      else
        s.(rows := s.rows[j := r.(starts := r.starts + 1)], workers := s.workers[j := Inside(Start)])
    case Inner(j, i) => ApplyInner(s, j, i)
    case Expire(j) => s.(rows := s.rows[j := AfterFailure(s.rows[j], TimedOut)], workers := s.workers - {j})
    case ExpireAfter(j, i) => ApplyLost(s, j, i, true)
    case Crash(j) => s.(workers := s.workers - {j})
    case CrashAfter(j, i) => ApplyLost(s, j, i, false)
    case Rescue(j) => s.(rows := s.rows[j := AfterFailure(s.rows[j], Discarded)])
    case Tick(to) => s.(now := to)
  }

  predicate Valid(s: State, run: seq<Action>)
    decreases |run|, 0
  {
    run == [] || (Valid(s, run[..|run| - 1]) && Enabled(After(s, run[..|run| - 1]), run[|run| - 1]))
  }

  function After(s: State, run: seq<Action>): State
    requires Valid(s, run)
    decreases |run|, 1
  {
    if run == [] then s else Apply(After(s, run[..|run| - 1]), run[|run| - 1])
  }

  function Initial(chain: Chain, now: int): State {
    State([], map[], chain, now)
  }

  // ---- The serial reference ---------------------------------------------

  /**
   The vehicle after the first `n` rows, run one at a time in id order, each
   with the answers it received and nothing interleaved.
   */
  function Serial(chain: Chain, rows: seq<Row>, t: TokenId, n: nat): Vehicle
    requires n <= |rows|
  {
    if n == 0 then VehicleAt(chain, t)
    else if rows[n - 1].args.token == t then
      Replay(rows[n - 1].args, rows[n - 1].trace, Serial(chain, rows, t, n - 1)).vehicle
    else Serial(chain, rows, t, n - 1)
  }

  /** Only the arguments and answers of the vehicle's own rows matter. */
  lemma {:induction false} SerialFrame(chain: Chain, rows: seq<Row>, rows': seq<Row>, t: TokenId, n: nat)
    requires n <= |rows| && n <= |rows'|
    requires forall i :: 0 <= i < n ==> rows[i].args == rows'[i].args
    requires forall i :: 0 <= i < n && rows[i].args.token == t ==> rows[i].trace == rows'[i].trace
    ensures Serial(chain, rows, t, n) == Serial(chain, rows', t, n)
  {
    if n > 0 {
      SerialFrame(chain, rows, rows', t, n - 1);
    }
  }

  /** Rows that have received no answer do not move the vehicle. */
  lemma {:induction false} SerialSkips(chain: Chain, rows: seq<Row>, t: TokenId, m: nat, n: nat)
    requires m <= n <= |rows|
    requires forall i :: m <= i < n && rows[i].args.token == t ==> rows[i].trace == []
    ensures Serial(chain, rows, t, n) == Serial(chain, rows, t, m)
    decreases n
  {
    if m < n {
      SerialSkips(chain, rows, t, m, n - 1);
    }
  }

  // ---- The invariant ----------------------------------------------------

  predicate RowOk(r: Row) {
    && r.starts <= 1
    && (r.starts == 0 ==> r.trace == [])
    && match r.state
       case Available => r.attempts == 0 && r.starts == 0 && r.outcome == NotYet
       case Working => r.attempts == 1 && r.outcome == NotYet
       case Finished => r.outcome != NotYet && (r.outcome.Returned? || r.outcome.TimedOut? ==> r.starts == 1)
  }

  /** A worker belongs to a working row and is within its timeout; the gate has passed the job once or not yet. */
  predicate JobOk(s: State, j: nat)
    requires j < |s.rows|
  {
    && RowOk(s.rows[j])
    && (j in s.workers ==>
          && s.rows[j].state == Working
          && s.now <= s.rows[j].attemptedAt + Timeout(s.rows[j].args)
          && s.rows[j].starts == (if s.workers[j].AtGate? then 0 else 1))
  }

  ghost predicate JobsOk(s: State) {
    && |s.workers| <= MAX_WORKERS
    && (forall j :: j in s.workers ==> j < |s.rows|)
    && (forall j :: 0 <= j < |s.rows| ==> JobOk(s, j))
  }

  /** Once a job's inner work has begun, every earlier job of its vehicle is finished. */
  ghost predicate Ordered(rows: seq<Row>) {
    forall i, j :: 0 <= i < j < |rows| && rows[i].args.token == rows[j].args.token && rows[j].starts > 0
                   ==> rows[i].state == Finished
  }

  /** The chain holds what the serial run holds, vehicle by vehicle. */
  ghost predicate ChainIsSerial(chain0: Chain, s: State) {
    forall t :: VehicleAt(s.chain, t) == Serial(chain0, s.rows, t, |s.rows|)
  }

  /** Where a worker stands, and how a returned job ended, is where the serial run of that job ends. */
  ghost predicate LocalIsSerial(chain0: Chain, s: State, j: nat)
    requires j < |s.rows|
  {
    var r := s.rows[j];
    var serial := Replay(r.args, r.trace, Serial(chain0, s.rows, r.args.token, j)).local;
    && (j in s.workers && s.workers[j].Inside? ==> s.workers[j].local == serial && !serial.Done?)
    && (r.outcome.Returned? ==> serial == Done(r.outcome.ok))
  }

  ghost predicate LocalsAreSerial(chain0: Chain, s: State) {
    forall j :: 0 <= j < |s.rows| ==> LocalIsSerial(chain0, s, j)
  }

  /** A share about to send an empty source faces a record that is dead now. */
  ghost predicate ReadsAreCurrent(s: State) {
    forall j :: j in s.workers && j < |s.rows| && s.workers[j].Inside? && s.rows[j].args.Share? ==>
      var now := CurrentGrant(VehicleAt(s.chain, s.rows[j].args.token), GranteeOf(s.rows[j].args));
      match s.workers[j].local
      case Judge(_, _, seen) => seen == now
      case SendShare(_, _, source) => source == "" ==> !GrantIsLive(now, s.now)
      case _ => true
  }

  ghost predicate Discipline(s: State) {
    JobsOk(s) && Ordered(s.rows)
  }

  ghost predicate Inv(chain0: Chain, s: State) {
    Discipline(s) && ChainIsSerial(chain0, s) && LocalsAreSerial(chain0, s) && ReadsAreCurrent(s)
  }

  // ---- Queue discipline, step by step -----------------------------------

  /** The step concerns one job: other rows and workers are as they were, and the clock has not moved. */
  ghost predicate OnlyJob(s: State, s': State, j: nat) {
    && j < |s.rows| == |s'.rows|
    && s'.now == s.now
    && s'.rows[j].args == s.rows[j].args
    && s'.rows == s.rows[j := s'.rows[j]]
    && s'.workers - {j} == s.workers - {j}
  }

  lemma OnlyJobKeepsDiscipline(s: State, s': State, j: nat)
    requires Discipline(s) && OnlyJob(s, s', j)
    requires |s'.workers| <= MAX_WORKERS
    requires JobOk(s', j)
    requires s.rows[j].state == Finished ==> s'.rows[j].state == Finished
    requires s'.rows[j].starts > 0 ==> s.rows[j].starts > 0 || !EarlierUnfinished(s.rows, j)
    ensures Discipline(s')
  {
    hide RowOk, Timeout;
    forall k | 0 <= k < |s'.rows| && k != j ensures JobOk(s', k) {
      assert JobOk(s, k);
      assert k in s'.workers <==> k in s'.workers - {j};
      assert k in s.workers <==> k in s.workers - {j};
    }
    forall k | k in s'.workers ensures k < |s'.rows| {
      if k != j {
        assert k in s'.workers - {j};
      }
    }
    hide JobOk;
    OneRowKeepsOrder(s.rows, s'.rows, j);
  }

  lemma OneRowKeepsOrder(rows: seq<Row>, rows': seq<Row>, j: nat)
    requires Ordered(rows) && j < |rows| == |rows'| && rows' == rows[j := rows'[j]] && rows'[j].args == rows[j].args
    requires rows[j].state == Finished ==> rows'[j].state == Finished
    requires rows'[j].starts > 0 ==> rows[j].starts > 0 || !EarlierUnfinished(rows, j)
    ensures Ordered(rows')
  {
  }

  /** Every timeout is below the rescue age, so a row old enough to rescue has lost its worker. */
  lemma RescuedWorkerIsGone(s: State, j: nat)
    requires Discipline(s) && Enabled(s, Rescue(j))
    ensures j !in s.workers
  {
    assert JobOk(s, j);
  }

  lemma OneMoreWorker(workers: map<nat, Worker>, j: nat)
    requires j !in workers
    ensures |workers[j := AtGate]| == |workers| + 1 && workers[j := AtGate] - {j} == workers - {j}
  {
    assert workers[j := AtGate].Keys == workers.Keys + {j};
  }

  lemma FetchKeepsDiscipline(s: State, j: nat)
    requires Discipline(s) && Enabled(s, Fetch(j))
    ensures OnlyJob(s, Apply(s, Fetch(j)), j) && Discipline(Apply(s, Fetch(j)))
  {
    var s' := Apply(s, Fetch(j));
    assert JobOk(s, j);
    OneMoreWorker(s.workers, j);
    OnlyJobKeepsDiscipline(s, s', j);
  }

  lemma GateKeepsDiscipline(s: State, j: nat, dbError: bool)
    requires Discipline(s) && Enabled(s, Gate(j, dbError))
    ensures OnlyJob(s, Apply(s, Gate(j, dbError)), j) && Discipline(Apply(s, Gate(j, dbError)))
  {
    var s' := Apply(s, Gate(j, dbError));
    assert JobOk(s, j);
    if j in s'.workers {
      assert s'.workers.Keys == s.workers.Keys;
    } else {
      assert s'.workers.Keys == s.workers.Keys - {j};
    }
    OnlyJobKeepsDiscipline(s, s', j);
  }

  lemma LossKeepsDiscipline(s: State, a: Action)
    requires Discipline(s) && Enabled(s, a) && (a.Expire? || a.Crash? || a.Rescue?)
    ensures OnlyJob(s, Apply(s, a), a.job) && Discipline(Apply(s, a))
  {
    var s', j := Apply(s, a), a.job;
    assert JobOk(s, j);
    if a.Rescue? {
      RescuedWorkerIsGone(s, j);
    } else {
      assert s'.workers.Keys == s.workers.Keys - {j};
    }
    OnlyJobKeepsDiscipline(s, s', j);
  }

  lemma JobStepKeepsDiscipline(s: State, a: Action)
    requires Discipline(s) && Enabled(s, a) && (a.Fetch? || a.Gate? || a.Expire? || a.Crash? || a.Rescue?)
    ensures OnlyJob(s, Apply(s, a), a.job) && Discipline(Apply(s, a))
  {
    hide Discipline, OnlyJob;
    match a
    case Fetch(j) => FetchKeepsDiscipline(s, j);
    case Gate(j, dbError) => GateKeepsDiscipline(s, j, dbError);
    case _ => LossKeepsDiscipline(s, a);
  }

  lemma InnerKeepsDiscipline(s: State, j: nat, i: Input)
    requires Discipline(s) && Enabled(s, Inner(j, i))
    ensures OnlyJob(s, ApplyInner(s, j, i), j) && Discipline(ApplyInner(s, j, i))
  {
    hide Step;
    var s' := ApplyInner(s, j, i);
    assert JobOk(s, j);
    if j in s'.workers {
      assert s'.workers.Keys == s.workers.Keys;
    } else {
      assert s'.workers.Keys == s.workers.Keys - {j};
    }
    OnlyJobKeepsDiscipline(s, s', j);
  }

  lemma LostKeepsDiscipline(s: State, j: nat, i: Input, settled: bool)
    requires Discipline(s) && Enabled(s, Inner(j, i))
    ensures OnlyJob(s, ApplyLost(s, j, i, settled), j) && Discipline(ApplyLost(s, j, i, settled))
  {
    hide Step;
    var s' := ApplyLost(s, j, i, settled);
    assert JobOk(s, j);
    assert s'.workers.Keys == s.workers.Keys - {j};
    OnlyJobKeepsDiscipline(s, s', j);
  }

  lemma TickAndEnqueueKeepDiscipline(s: State, a: Action)
    requires Discipline(s) && Enabled(s, a) && (a.Tick? || a.Enqueue?)
    ensures Discipline(Apply(s, a))
  {
    forall j | 0 <= j < |s.rows| ensures JobOk(Apply(s, a), j) {
      assert JobOk(s, j);
    }
  }

  lemma StepKeepsDiscipline(s: State, a: Action)
    requires Discipline(s) && Enabled(s, a)
    ensures Discipline(Apply(s, a))
  {
    hide Discipline;
    match a
    case Enqueue(_) => TickAndEnqueueKeepDiscipline(s, a);
    case Tick(_) => TickAndEnqueueKeepDiscipline(s, a);
    case Inner(j, i) => InnerKeepsDiscipline(s, j, i);
    case ExpireAfter(j, i) => LostKeepsDiscipline(s, j, i, true);
    case CrashAfter(j, i) => LostKeepsDiscipline(s, j, i, false);
    case _ => JobStepKeepsDiscipline(s, a);
  }

  /** Two jobs inside `doInner` are never about the same vehicle. */
  lemma InsideIsExclusive(s: State, i: nat, j: nat)
    requires Discipline(s)
    requires i in s.workers && j in s.workers && s.workers[i].Inside? && s.workers[j].Inside?
    requires s.rows[i].args.token == s.rows[j].args.token
    ensures i == j
  {
    assert JobOk(s, i) && JobOk(s, j);
  }

  /** While a job is being worked, no later job of its vehicle has received an answer or returned. */
  lemma LaterJobsAreUntouched(s: State, j: nat, k: nat)
    requires Discipline(s) && j in s.workers && j < k < |s.rows|
    requires s.rows[k].args.token == s.rows[j].args.token
    ensures s.rows[k].trace == [] && !s.rows[k].outcome.Returned?
    ensures !(k in s.workers && s.workers[k].Inside?)
  {
    assert JobOk(s, j) && JobOk(s, k);
  }

  // ---- Agreement with the serial run, step by step ----------------------

  /** The same jobs with the same answers, and every worker inside either where it was or at its start. */
  ghost predicate Quiet(s: State, s': State) {
    && |s.rows| <= |s'.rows|
    && s'.chain == s.chain
    && s.now <= s'.now
    && (forall i :: 0 <= i < |s.rows| ==> s'.rows[i].args == s.rows[i].args && s'.rows[i].trace == s.rows[i].trace)
    && (forall i :: |s.rows| <= i < |s'.rows| ==> s'.rows[i].trace == [])
    && (forall i :: 0 <= i < |s'.rows| && s'.rows[i].outcome.Returned? ==>
          i < |s.rows| && s'.rows[i].outcome == s.rows[i].outcome)
    && (forall j :: j in s'.workers && s'.workers[j].Inside? ==>
          || (j in s.workers && s'.workers[j] == s.workers[j] && j < |s.rows|)
          || (j < |s.rows| && s'.workers[j] == Inside(Start) && s.rows[j].trace == []))
  }

  lemma QuietKeepsChain(chain0: Chain, s: State, s': State)
    requires ChainIsSerial(chain0, s) && Quiet(s, s')
    ensures ChainIsSerial(chain0, s')
  {
    hide Step;
    forall t ensures VehicleAt(s'.chain, t) == Serial(chain0, s'.rows, t, |s'.rows|) {
      SerialFrame(chain0, s.rows, s'.rows, t, |s.rows|);
      SerialSkips(chain0, s'.rows, t, |s.rows|, |s'.rows|);
    }
  }

  lemma QuietKeepsLocals(chain0: Chain, s: State, s': State)
    requires LocalsAreSerial(chain0, s) && Quiet(s, s')
    ensures LocalsAreSerial(chain0, s')
  {
    hide Step;
    forall j | 0 <= j < |s'.rows| ensures LocalIsSerial(chain0, s', j) {
      if j < |s.rows| {
        assert LocalIsSerial(chain0, s, j);
        SerialFrame(chain0, s.rows, s'.rows, s.rows[j].args.token, j);
      }
    }
  }

  lemma QuietKeepsReads(s: State, s': State)
    requires ReadsAreCurrent(s) && Quiet(s, s')
    ensures ReadsAreCurrent(s')
  {
  }

  /** A step in which some job's outside answer takes effect. */
  predicate Answers(a: Action) {
    a.Inner? || a.ExpireAfter? || a.CrashAfter?
  }

  lemma OtherStepsAreQuiet(s: State, a: Action)
    requires Discipline(s) && Enabled(s, a) && !Answers(a)
    ensures Quiet(s, Apply(s, a))
  {
    if !a.Enqueue? && !a.Tick? {
      assert JobOk(s, a.job);
    }
  }

  /** The vehicle a job inside sees is the serial one just before it, moved by its own answers. */
  lemma InsideSeesSerial(chain0: Chain, s: State, j: nat)
    requires Inv(chain0, s) && j in s.workers && s.workers[j].Inside?
    ensures var r := s.rows[j];
            Running(s.workers[j].local, VehicleAt(s.chain, r.args.token))
            == Replay(r.args, r.trace, Serial(chain0, s.rows, r.args.token, j))
  {
    hide Step, Replay, ReadsAreCurrent;
    var t := s.rows[j].args.token;
    forall k | j < k < |s.rows| && s.rows[k].args.token == t ensures s.rows[k].trace == [] {
      LaterJobsAreUntouched(s, j, k);
    }
    SerialSkips(chain0, s.rows, t, j + 1, |s.rows|);
    assert VehicleAt(s.chain, t) == Serial(chain0, s.rows, t, j + 1);
    assert LocalIsSerial(chain0, s, j);
  }

  /** An inner step is the serial run of its own job taking the same answer. */
  lemma InnerExtendsSerial(chain0: Chain, s: State, j: nat, i: Input)
    requires Inv(chain0, s) && Enabled(s, Inner(j, i))
    ensures var s' := ApplyInner(s, j, i);
            var row := s'.rows[j];
            var r := Replay(row.args, row.trace, Serial(chain0, s'.rows, row.args.token, j));
            && r.vehicle == VehicleAt(s'.chain, row.args.token)
            && (row.outcome.Returned? ==> r.local == Done(row.outcome.ok))
            && (j in s'.workers ==> s'.workers[j] == Inside(r.local) && !r.local.Done?)
  {
    hide Step;
    var s' := ApplyInner(s, j, i);
    var row, row' := s.rows[j], s'.rows[j];
    InsideSeesSerial(chain0, s, j);
    SerialFrame(chain0, s.rows, s'.rows, row.args.token, j);
    assert row'.trace[..|row'.trace| - 1] == row.trace;
    assert JobOk(s, j);
  }

  lemma InnerKeepsChain(chain0: Chain, s: State, j: nat, i: Input)
    requires Inv(chain0, s) && Enabled(s, Inner(j, i))
    ensures ChainIsSerial(chain0, ApplyInner(s, j, i))
  {
    hide Step, Replay, ReadsAreCurrent, LocalsAreSerial;
    var s' := ApplyInner(s, j, i);
    var t := s.rows[j].args.token;
    InnerExtendsSerial(chain0, s, j, i);
    forall k | j < k < |s'.rows| && s'.rows[k].args.token == t ensures s'.rows[k].trace == [] {
      LaterJobsAreUntouched(s, j, k);
    }
    forall t' ensures VehicleAt(s'.chain, t') == Serial(chain0, s'.rows, t', |s'.rows|) {
      if t' == t {
        SerialSkips(chain0, s'.rows, t, j + 1, |s'.rows|);
      } else {
        SerialFrame(chain0, s.rows, s'.rows, t', |s.rows|);
      }
    }
  }

  lemma InnerKeepsOtherLocal(chain0: Chain, s: State, j: nat, i: Input, k: nat)
    requires Discipline(s) && Enabled(s, Inner(j, i)) && k < |s.rows| && k != j
    requires LocalIsSerial(chain0, s, k)
    ensures LocalIsSerial(chain0, ApplyInner(s, j, i), k)
  {
    hide Step, Replay;
    var s' := ApplyInner(s, j, i);
    if k > j && s.rows[k].args.token == s.rows[j].args.token {
      LaterJobsAreUntouched(s, j, k);
    } else {
      SerialFrame(chain0, s.rows, s'.rows, s.rows[k].args.token, k);
    }
  }

  lemma InnerKeepsLocals(chain0: Chain, s: State, j: nat, i: Input)
    requires Inv(chain0, s) && Enabled(s, Inner(j, i))
    ensures LocalsAreSerial(chain0, ApplyInner(s, j, i))
  {
    hide Step, Replay, ReadsAreCurrent, ChainIsSerial;
    var s' := ApplyInner(s, j, i);
    forall k | 0 <= k < |s'.rows| ensures LocalIsSerial(chain0, s', k) {
      if k == j {
        InnerExtendsSerial(chain0, s, j, i);
      } else {
        InnerKeepsOtherLocal(chain0, s, j, i, k);
      }
    }
  }

  /** The reader's own next step: a judged record is the current one, and an empty source is chosen only over a dead one. */
  lemma ShareStepReads(a: Args, l: Local, v: Vehicle, i: Input, now: int)
    requires a.Share? && Fits(l, i.answer) && Unix(i.clock) == now
    requires l.Judge? ==> l.seen == CurrentGrant(v, GranteeOf(a))
    ensures var r := Step(a, Running(l, v), i);
            && (r.local.Judge? ==> r.local.seen == CurrentGrant(r.vehicle, GranteeOf(a)))
            && (r.local.SendShare? && r.local.source == "" ==> !GrantIsLive(CurrentGrant(r.vehicle, GranteeOf(a)), now))
  {
    if l.Publish? && i.answer.Published? {
      assert |"ipfs://" + i.answer.cid| >= 7;
    }
  }

  lemma InnerKeepsReads(chain0: Chain, s: State, j: nat, i: Input)
    requires Discipline(s) && ReadsAreCurrent(s) && Enabled(s, Inner(j, i))
    ensures ReadsAreCurrent(ApplyInner(s, j, i))
  {
    hide Step;
    var s' := ApplyInner(s, j, i);
    var t := s.rows[j].args.token;
    if s.rows[j].args.Share? {
      ShareStepReads(s.rows[j].args, s.workers[j].local, VehicleAt(s.chain, t), i, s.now);
    }
    forall k | k in s.workers && k != j && s.workers[k].Inside? ensures s.rows[k].args.token != t {
      if s.rows[k].args.token == t {
        InsideIsExclusive(s, j, k);
      }
    }
  }

  lemma InnerKeeps(chain0: Chain, s: State, j: nat, i: Input)
    requires Inv(chain0, s) && Enabled(s, Inner(j, i))
    ensures Inv(chain0, ApplyInner(s, j, i))
  {
    hide Step, ChainIsSerial, LocalsAreSerial, ReadsAreCurrent, Discipline;
    InnerKeepsDiscipline(s, j, i);
    InnerKeepsChain(chain0, s, j, i);
    InnerKeepsLocals(chain0, s, j, i);
    InnerKeepsReads(chain0, s, j, i);
  }

  lemma QuietKeeps(chain0: Chain, s: State, s': State)
    requires Inv(chain0, s) && Quiet(s, s') && Discipline(s')
    ensures Inv(chain0, s')
  {
    hide ChainIsSerial, LocalsAreSerial, ReadsAreCurrent, Discipline, Quiet;
    QuietKeepsChain(chain0, s, s');
    QuietKeepsLocals(chain0, s, s');
    QuietKeepsReads(s, s');
  }

  /** Losing the worker after the answer is the answer's step, and then a step that moves nothing. */
  lemma LostIsQuietAfterInner(s: State, j: nat, i: Input, settled: bool)
    requires Discipline(s) && Enabled(s, Inner(j, i))
    ensures Quiet(ApplyInner(s, j, i), ApplyLost(s, j, i, settled))
  {
    hide Step;
    assert JobOk(s, j);
  }

  lemma LostKeeps(chain0: Chain, s: State, j: nat, i: Input, settled: bool)
    requires Inv(chain0, s) && Enabled(s, Inner(j, i))
    ensures Inv(chain0, ApplyLost(s, j, i, settled))
  {
    InnerKeeps(chain0, s, j, i);
    LostKeepsDiscipline(s, j, i, settled);
    LostIsQuietAfterInner(s, j, i, settled);
    hide Inv, Discipline, Quiet, ApplyInner, ApplyLost;
    QuietKeeps(chain0, ApplyInner(s, j, i), ApplyLost(s, j, i, settled));
  }

  lemma StepKeeps(chain0: Chain, s: State, a: Action)
    requires Inv(chain0, s) && Enabled(s, a)
    ensures Inv(chain0, Apply(s, a))
  {
    hide Step, ChainIsSerial, LocalsAreSerial, ReadsAreCurrent, Discipline, Quiet;
    match a
    case Inner(j, i) => InnerKeeps(chain0, s, j, i);
    case ExpireAfter(j, i) => LostKeeps(chain0, s, j, i, true);
    case CrashAfter(j, i) => LostKeeps(chain0, s, j, i, false);
    case _ =>
      StepKeepsDiscipline(s, a);
      OtherStepsAreQuiet(s, a);
      QuietKeeps(chain0, s, Apply(s, a));
  }

  /** Every state of every run satisfies the invariant. */
  lemma {:induction false} RunKeeps(chain0: Chain, s: State, run: seq<Action>)
    requires Inv(chain0, s) && Valid(s, run)
    ensures Inv(chain0, After(s, run))
    decreases |run|
  {
    hide Inv;
    if run != [] {
      RunKeeps(chain0, s, run[..|run| - 1]);
      StepKeeps(chain0, After(s, run[..|run| - 1]), run[|run| - 1]);
    }
  }

  /** The invariant of every reachable state, from an idle queue over any chain. */
  lemma ReachableInv(chain0: Chain, start: int, run: seq<Action>)
    requires Valid(Initial(chain0, start), run)
    ensures Inv(chain0, After(Initial(chain0, start), run))
  {
    RunKeeps(chain0, Initial(chain0, start), run);
  }
}

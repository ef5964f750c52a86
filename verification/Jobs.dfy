/**
 The three job kinds of the sharing queue as small-step programs. Each step
 consumes one answer from outside (authorizer, publisher, chain read, bundler,
 signer gate, clock) and touches nothing but the worker's own locals and its
 own vehicle.
 */
module Jobs {
  import opened Wrappers
  import opened Calendar
  import opened Sacd
  import opened VehicleChain

  /** A wallet field as the job row carries it. */
  datatype Wallet = Blank | Malformed | Hex(address: Address)

  datatype Op = TransferVehicle | BurnSynthetic | BurnVehicleOp | GrantSacd | UnknownOp

  datatype Args =
    | Share(token: TokenId, grantee: Wallet, durationDays: int)
    | Revoke(token: TokenId, grantee: Wallet)
    | SharedOp(token: TokenId, op: Op, target: Wallet, synthetic: int)

  // ---- The typed operations ---------------------------------------------

  /** `SharedOpArgs.Validate`. */
  predicate Validate(a: Args)
    requires a.SharedOp?
  {
    && a.token > 0
    && match a.op
       case TransferVehicle => a.target.Hex? && a.target.address != 0 && a.synthetic == 0
       case BurnSynthetic => a.synthetic > 0 && a.target.Blank?
       case BurnVehicleOp => a.target.Blank? && a.synthetic == 0
       case GrantSacd => a.target.Blank? && a.synthetic == 0
       case UnknownOp => false
  }

  /** The four operations, each with exactly the fields it has. */
  datatype TypedOp =
    | Transfer(vehicle: TokenId, to: Address)
    | BurnDeviceOf(vehicle: TokenId, device: int)
    | Burn(vehicle: TokenId)
    | Grant(vehicle: TokenId)

  predicate Sensible(t: TypedOp) {
    t.vehicle > 0 && (t.Transfer? ==> t.to != 0) && (t.BurnDeviceOf? ==> t.device > 0)
  }

  function Encode(t: TypedOp): Args {
    match t
    case Transfer(v, to) => SharedOp(v, TransferVehicle, Hex(to), 0)
    case BurnDeviceOf(v, d) => SharedOp(v, BurnSynthetic, Blank, d)
    case Burn(v) => SharedOp(v, BurnVehicleOp, Blank, 0)
    case Grant(v) => SharedOp(v, GrantSacd, Blank, 0)
  }

  /** Validate admits exactly the encodings of the four typed operations, one operation each. */
  lemma ValidateIsTheEnum(a: Args)
    requires a.SharedOp?
    ensures Validate(a) <==> exists t :: Sensible(t) && Encode(t) == a
    ensures forall t, t' :: Encode(t) == a && Encode(t') == a ==> t == t'
  {
    if Validate(a) {
      var t := match a.op
        case TransferVehicle => Transfer(a.token, a.target.address)
        case BurnSynthetic => BurnDeviceOf(a.token, a.synthetic)
        case BurnVehicleOp => Burn(a.token)
        case _ => Grant(a.token);
      assert Sensible(t) && Encode(t) == a;
    }
  }

  // ---- Worker programs --------------------------------------------------

  datatype Answer =
    | Authorized(owner: Address, ownerMode: bool)
    | Denied
    | Published(cid: string)
    | PublishFailed
    | ReadOk
    | ReadFailed
    | ClockOnly
    | Delivered(delivery: Delivery)
    | MaySign(yes: bool)
    | ClientId(client: Option<Address>)

  /** One answer from outside, with the worker's clock at that moment. */
  datatype Input = Input(clock: Moment, fraction: Fraction, answer: Answer)

  /** Where a worker is inside `Work`, with the locals it holds there. */
  datatype Local =
    | Start
    | Publish(owner: Address, expiration: int)
    | ReadGrant(owner: Address, expiration: int)
    | Judge(owner: Address, expiration: int, seen: Record)
    | SendShare(owner: Address, expiration: int, source: string)
    | SendRevoke(owner: Address)
    | SendTransfer(owner: Address)
    | AskGate
    | ResolveClient(kernel: Address, chained: bool)
    | SendGrant(kernel: Address, client: Address, expiration: int, chained: bool)
    | SendBurnDevice(owner: Address)
    | SendBurnVehicle(owner: Address)
    | Done(ok: bool)

  /** The answers a worker can receive at each point. */
  predicate Fits(l: Local, a: Answer) {
    match l
    case Start => a.Authorized? || a.Denied?
    case Publish(_, _) => a.Published? || a.PublishFailed?
    case ReadGrant(_, _) => a.ReadOk? || a.ReadFailed?
    case Judge(_, _, _) => a.ClockOnly?
    case AskGate => a.MaySign?
    case ResolveClient(_, _) => a.ClientId?
    case Done(_) => false
    case _ => a.Delivered?
  }

  datatype Running = Running(local: Local, vehicle: Vehicle)

  /** The grantee of a share or a revoke; meaningful once the hex check has passed. */
  function GranteeOf(a: Args): Address {
    if !a.SharedOp? && a.grantee.Hex? then a.grantee.address else 0
  }

  function TargetOf(a: Args): Address {
    if a.SharedOp? && a.target.Hex? then a.target.address else 0
  }

  /** The first step: refuse a bad request, then act on what the authorizer says now. */
  function Begin(a: Args, i: Input): Local {
    match a
    case Share(_, g, days) =>
      if !g.Hex? || i.answer.Denied? || !i.answer.Authorized? then Done(false)
      else Publish(i.answer.owner, ExpirationFrom(i.clock, i.fraction, ShareDuration(days)))
    case Revoke(_, g) =>
      if !g.Hex? || i.answer.Denied? || !i.answer.Authorized? then Done(false)
      else SendRevoke(i.answer.owner)
    case SharedOp(_, op, _, _) =>
      if !Validate(a) || i.answer.Denied? || !i.answer.Authorized? then Done(false)
      else if i.answer.ownerMode then Done(false)
      else match op
           case TransferVehicle => if TargetOf(a) == i.answer.owner then AskGate else SendTransfer(i.answer.owner)
           case BurnSynthetic => SendBurnDevice(i.answer.owner)
           case BurnVehicleOp => SendBurnVehicle(i.answer.owner)
           case _ => ResolveClient(i.answer.owner, false)
  }

  function Deliver(r: Running, kernel: Address, call: Call, d: Delivery, onReceipt: Local, otherwise: Local): Running {
    var s := Send(r.vehicle, kernel, call, d);
    Running(if s.receipt then onReceipt else otherwise, s.vehicle)
  }

  /** One step of a worker. An answer that does not fit where it stands leaves it there. */
  function Step(a: Args, r: Running, i: Input): Running {
    if !Fits(r.local, i.answer) then r
    else match r.local
      case Start => r.(local := Begin(a, i))
      // sacdSource: publish; failing that, look at what would be overwritten.
      case Publish(owner, exp) =>
        if i.answer.Published? then r.(local := SendShare(owner, exp, "ipfs://" + i.answer.cid))
        else r.(local := ReadGrant(owner, exp))
      case ReadGrant(owner, exp) =>
        if i.answer.ReadFailed? then r.(local := Done(false))
        else r.(local := Judge(owner, exp, CurrentGrant(r.vehicle, GranteeOf(a))))
      case Judge(owner, exp, seen) =>
        if GrantIsLive(seen, Unix(i.clock)) then r.(local := Done(false))
        else r.(local := SendShare(owner, exp, ""))
      case SendShare(owner, exp, source) =>
        var call := SetPermissions(GranteeOf(a), Record(DEFAULT_PERMISSIONS, exp, source));
        Deliver(r, owner, call, i.answer.delivery, Done(true), Done(false))
      case SendRevoke(owner) =>
        var call := SetPermissions(GranteeOf(a), Record(NO_PERMISSIONS, REVOKED_EXPIRATION, ""));
        Deliver(r, owner, call, i.answer.delivery, Done(true), Done(false))
      // transferVehicle: the re-share after a landed transfer is best-effort.
      case SendTransfer(owner) =>
        Deliver(r, owner, TransferTo(TargetOf(a)), i.answer.delivery, AskGate, Done(false))
      case AskGate =>
        if i.answer.yes then r.(local := ResolveClient(TargetOf(a), true)) else r.(local := Done(true))
      case ResolveClient(kernel, chained) =>
        if i.answer.client.None? then r.(local := Done(chained))
        else r.(local := SendGrant(kernel, i.answer.client.value, ExpirationFrom(i.clock, i.fraction, 0), chained))
      case SendGrant(kernel, client, exp, chained) =>
        var call := SetPermissions(client, Record(FULL_PERMISSIONS, exp, ""));
        Deliver(r, kernel, call, i.answer.delivery, Done(true), Done(chained))
      case SendBurnDevice(owner) =>
        Deliver(r, owner, BurnDevice(if a.SharedOp? then a.synthetic else 0), i.answer.delivery, Done(true), Done(false))
      case SendBurnVehicle(owner) =>
        Deliver(r, owner, BurnVehicle, i.answer.delivery, Done(true), Done(false))
      case Done(_) => r
  }

  /** A whole (or interrupted) run of one job on its vehicle, from the answers it received. */
  function Replay(a: Args, trace: seq<Input>, v: Vehicle): Running {
    if trace == [] then Running(Start, v)
    else Step(a, Replay(a, trace[..|trace| - 1], v), trace[|trace| - 1])
  }

  // ---- Every program ends -----------------------------------------------

  /** How many answers a worker can still take. */
  function Remaining(l: Local): nat {
    match l
    case Start => 5
    case Publish(_, _) => 4
    case SendTransfer(_) => 4
    case ReadGrant(_, _) => 3
    case AskGate => 3
    case Judge(_, _, _) => 2
    case ResolveClient(_, _) => 2
    case Done(_) => 0
    case _ => 1
  }

  lemma StepDescends(a: Args, r: Running, i: Input)
    requires Fits(r.local, i.answer)
    ensures Remaining(Step(a, r, i).local) < Remaining(r.local)
  {
  }

  ghost predicate TraceFits(a: Args, trace: seq<Input>, v: Vehicle) {
    forall n :: 0 <= n < |trace| ==> Fits(Replay(a, trace[..n], v).local, trace[n].answer)
  }

  /** No job takes more than five answers: at most five steps from pick-up to `Done`. */
  lemma {:induction false} JobsAreShort(a: Args, trace: seq<Input>, v: Vehicle)
    requires TraceFits(a, trace, v)
    ensures |trace| + Remaining(Replay(a, trace, v).local) <= 5
  {
    if trace != [] {
      var n := |trace| - 1;
      var front := trace[..n];
      forall k | 0 <= k < |front| ensures Fits(Replay(a, front[..k], v).local, front[k].answer) {
        assert front[..k] == trace[..k];
      }
      JobsAreShort(a, front, v);
      StepDescends(a, Replay(a, front, v), trace[n]);
    }
  }

  // ---- What one job leaves behind ---------------------------------------

  /** What is true at each point of a revoke: it has written nothing, or exactly the revoked record. */
  ghost predicate RevokeReached(a: Args, r: Running)
    requires a.Revoke?
  {
    match r.local
    case Done(ok) => ok ==> a.grantee.Hex? && CurrentGrant(r.vehicle, GranteeOf(a)) == NO_RECORD
    case Start => true
    case SendRevoke(_) => a.grantee.Hex?
    case _ => false
  }

  /** A revoke that reports success has left the revoked record in force. */
  lemma {:induction false} RevokeLeavesNoGrant(a: Args, trace: seq<Input>, v: Vehicle)
    requires a.Revoke?
    ensures RevokeReached(a, Replay(a, trace, v))
  {
    if trace != [] {
      RevokeLeavesNoGrant(a, trace[..|trace| - 1], v);
    }
  }

  /** The expiration comes from the clock at authorization time, not from when the job was queued. */
  ghost predicate ExpiryAnchored(a: Args, trace: seq<Input>, expiration: int)
    requires a.Share?
  {
    exists n :: 0 <= n < |trace| && trace[n].answer.Authorized? && expiration == ExpirationFrom(trace[n].clock, trace[n].fraction, ShareDuration(a.durationDays))
  }

  /** The source is the document just published, or empty after a failed publish. */
  ghost predicate SourceAccounted(trace: seq<Input>, source: string) {
    if source == "" then exists n :: 0 <= n < |trace| && trace[n].answer.PublishFailed?
    else exists n :: 0 <= n < |trace| && trace[n].answer.Published? && source == "ipfs://" + trace[n].answer.cid
  }

  ghost predicate ShareReached(a: Args, trace: seq<Input>, r: Running)
    requires a.Share?
  {
    match r.local
    case Start => true
    case Publish(_, e) => a.grantee.Hex? && ExpiryAnchored(a, trace, e)
    case ReadGrant(_, e) => a.grantee.Hex? && ExpiryAnchored(a, trace, e) && SourceAccounted(trace, "")
    case Judge(_, e, _) => a.grantee.Hex? && ExpiryAnchored(a, trace, e) && SourceAccounted(trace, "")
    case SendShare(_, e, source) => a.grantee.Hex? && ExpiryAnchored(a, trace, e) && SourceAccounted(trace, source)
    case Done(ok) => ok ==> exists e, source ::
      CurrentGrant(r.vehicle, GranteeOf(a)) == Record(DEFAULT_PERMISSIONS, e, source) && ExpiryAnchored(a, trace, e) && SourceAccounted(trace, source)
    case _ => false
  }

  /** What was accounted for stays accounted for as more answers arrive. */
  lemma AccountsGrow(a: Args, trace: seq<Input>, i: Input, e: int, source: string)
    requires a.Share?
    ensures ExpiryAnchored(a, trace, e) ==> ExpiryAnchored(a, trace + [i], e)
    ensures SourceAccounted(trace, source) ==> SourceAccounted(trace + [i], source)
    ensures i.answer.Authorized? && e == ExpirationFrom(i.clock, i.fraction, ShareDuration(a.durationDays)) ==> ExpiryAnchored(a, trace + [i], e)
    ensures i.answer.PublishFailed? ==> SourceAccounted(trace + [i], "")
    ensures i.answer.Published? ==> SourceAccounted(trace + [i], "ipfs://" + i.answer.cid)
  {
    hide ExpirationFrom;
    var t := trace + [i];
    assert t[|trace|] == i && forall n :: 0 <= n < |trace| ==> t[n] == trace[n];
    if i.answer.Published? {
      assert |"ipfs://" + i.answer.cid| >= 7;
    }
  }

  lemma ShareStep(a: Args, trace: seq<Input>, r: Running, i: Input)
    requires a.Share? && ShareReached(a, trace, r)
    ensures ShareReached(a, trace + [i], Step(a, r, i))
  {
    hide ExpiryAnchored, SourceAccounted;
    match r.local
    case Start =>
      AccountsGrow(a, trace, i, ExpirationFrom(i.clock, i.fraction, ShareDuration(a.durationDays)), "");
    case Publish(_, e) => AccountsGrow(a, trace, i, e, "");
    case ReadGrant(_, e) => AccountsGrow(a, trace, i, e, "");
    case Judge(_, e, _) => AccountsGrow(a, trace, i, e, "");
    case SendShare(_, e, source) => AccountsGrow(a, trace, i, e, source);
    case Done(ok) =>
      if ok {
        var e, source :| CurrentGrant(r.vehicle, GranteeOf(a)) == Record(DEFAULT_PERMISSIONS, e, source)
                         && ExpiryAnchored(a, trace, e) && SourceAccounted(trace, source);
        AccountsGrow(a, trace, i, e, source);
      }
    case _ =>
  }

  /**
   A share that reports success leaves exactly the grant it was asked for: the
   default mask, an expiration anchored to when it was authorized, and the
   document it published, or none after a failed publish.
   */
  lemma {:induction false} ShareLeavesItsGrant(a: Args, trace: seq<Input>, v: Vehicle)
    requires a.Share?
    ensures ShareReached(a, trace, Replay(a, trace, v))
  {
    if trace != [] {
      hide Step, ShareReached;
      var front, i := trace[..|trace| - 1], trace[|trace| - 1];
      ShareLeavesItsGrant(a, front, v);
      ShareStep(a, front, Replay(a, front, v), i);
      assert trace == front + [i];
    } else {
      assert Replay(a, trace, v).local == Start;
    }
  }

  /** What the three single-call operations have done when they report success. */
  ghost predicate OpReached(a: Args, trace: seq<Input>, r: Running)
    requires a.SharedOp?
  {
    match r.local
    case Start => true
    case ResolveClient(_, chained) => a.op == GrantSacd && !chained
    case SendGrant(_, client, e, chained) => a.op == GrantSacd && !chained && GrantAccounted(trace, client, e)
    case SendBurnDevice(_) => a.op == BurnSynthetic
    case SendBurnVehicle(_) => a.op == BurnVehicleOp
    case Done(ok) => ok ==>
      && (a.op == GrantSacd ==> exists client, e :: GrantAccounted(trace, client, e) && CurrentGrant(r.vehicle, client) == Record(FULL_PERMISSIONS, e, ""))
      && (a.op == BurnSynthetic ==> a.synthetic in r.vehicle.burnedDevices)
      && (a.op == BurnVehicleOp ==> r.vehicle.owner == None)
    case _ => a.op == TransferVehicle
  }

  /** The grantee is the tenant's own client id and the grant is indefinite from when it was resolved. */
  ghost predicate GrantAccounted(trace: seq<Input>, client: Address, e: int) {
    exists n :: 0 <= n < |trace| && trace[n].answer == ClientId(Some(client)) && e == ExpirationFrom(trace[n].clock, trace[n].fraction, 0)
  }

  lemma GrantAccountsGrow(trace: seq<Input>, i: Input, client: Address, e: int)
    ensures GrantAccounted(trace, client, e) ==> GrantAccounted(trace + [i], client, e)
    ensures i.answer == ClientId(Some(client)) && e == ExpirationFrom(i.clock, i.fraction, 0) ==> GrantAccounted(trace + [i], client, e)
  {
    hide ExpirationFrom;
    var t := trace + [i];
    assert t[|trace|] == i && forall n :: 0 <= n < |trace| ==> t[n] == trace[n];
  }

  lemma OpStep(a: Args, trace: seq<Input>, r: Running, i: Input)
    requires a.SharedOp? && a.op != TransferVehicle && OpReached(a, trace, r)
    ensures OpReached(a, trace + [i], Step(a, r, i))
  {
    hide GrantAccounted;
    match r.local
    case ResolveClient(_, _) =>
      if i.answer.ClientId? && i.answer.client.Some? {
        GrantAccountsGrow(trace, i, i.answer.client.value, ExpirationFrom(i.clock, i.fraction, 0));
      }
    case SendGrant(_, client, e, _) =>
      GrantAccountsGrow(trace, i, client, e);
    case Done(ok) =>
      if ok && a.op == GrantSacd {
        var client, e :| GrantAccounted(trace, client, e) && CurrentGrant(r.vehicle, client) == Record(FULL_PERMISSIONS, e, "");
        GrantAccountsGrow(trace, i, client, e);
      }
    case _ =>
  }

  /** A grant_sacd, burn_synthetic or burn_vehicle that reports success has done what its name says. */
  lemma {:induction false} OperationsDoWhatTheySay(a: Args, trace: seq<Input>, v: Vehicle)
    requires a.SharedOp? && a.op != TransferVehicle
    ensures OpReached(a, trace, Replay(a, trace, v))
  {
    if trace != [] {
      hide Step, OpReached;
      var front, i := trace[..|trace| - 1], trace[|trace| - 1];
      OperationsDoWhatTheySay(a, front, v);
      OpStep(a, front, Replay(a, front, v), i);
      assert trace == front + [i];
    } else {
      assert Replay(a, trace, v).local == Start;
    }
  }

  /** A job none of whose calls was delivered has changed nothing: a refused share leaves the existing grant untouched. */
  lemma {:induction false} UndeliveredChangesNothing(a: Args, trace: seq<Input>, v: Vehicle)
    requires forall n :: 0 <= n < |trace| && trace[n].answer.Delivered? ==> trace[n].answer.delivery.Refused?
    ensures Replay(a, trace, v).vehicle == v
  {
    if trace != [] {
      UndeliveredChangesNothing(a, trace[..|trace| - 1], v);
    }
  }

  /** Only this record may differ. */
  ghost predicate TouchesOnly(v: Vehicle, v': Vehicle, k: (nat, Address)) {
    && v' == v.(records := v'.records)
    && v.records - {k} == v'.records - {k}
    && v.records.Keys <= v'.records.Keys
  }

  lemma ShareStepTouches(a: Args, r: Running, i: Input)
    requires a.Share? || a.Revoke?
    requires r.local.Start? || r.local.Publish? || r.local.ReadGrant? || r.local.Judge? || r.local.SendShare? || r.local.SendRevoke? || r.local.Done?
    ensures var r' := Step(a, r, i);
            && TouchesOnly(r.vehicle, r'.vehicle, (r.vehicle.version, GranteeOf(a)))
            && (r'.local.Publish? || r'.local.ReadGrant? || r'.local.Judge? || r'.local.SendShare? || r'.local.SendRevoke? || r'.local.Done? || r'.local.Start?)
  {
  }

  /** Shares and revokes write one grantee's record at the current version and nothing else. */
  lemma {:induction false} SharesTouchOneRecord(a: Args, trace: seq<Input>, v: Vehicle)
    requires a.Share? || a.Revoke?
    ensures var v', l := Replay(a, trace, v).vehicle, Replay(a, trace, v).local;
            && TouchesOnly(v, v', (v.version, GranteeOf(a)))
            && (l.Start? || l.Publish? || l.ReadGrant? || l.Judge? || l.SendShare? || l.SendRevoke? || l.Done?)
  {
    hide Step;
    if trace != [] {
      SharesTouchOneRecord(a, trace[..|trace| - 1], v);
      ShareStepTouches(a, Replay(a, trace[..|trace| - 1], v), trace[|trace| - 1]);
    }
  }

  /** Records are only ever written at versions the token has reached. */
  ghost predicate Tidy(v: Vehicle) {
    forall k :: k in v.records ==> k.0 <= v.version
  }

  /** No call leaves a record at a version the token has not reached. */
  lemma {:induction false} ReplayKeepsTidy(a: Args, trace: seq<Input>, v: Vehicle)
    requires Tidy(v)
    ensures Tidy(Replay(a, trace, v).vehicle)
  {
    if trace != [] {
      ReplayKeepsTidy(a, trace[..|trace| - 1], v);
    }
  }

  /** At most one grantee has a record at the current version. */
  ghost predicate OnlyGrantee(v: Vehicle, client: Address) {
    forall g :: g != client ==> CurrentGrant(v, g) == NO_RECORD
  }

  /** The authorizer said the vehicle already belongs to the target. */
  ghost predicate ToldAlready(trace: seq<Input>, target: Address) {
    exists n :: 0 <= n < |trace| && trace[n].answer.Authorized? && trace[n].answer.owner == target
  }

  /** The vehicle has just left another owner for the target. */
  ghost predicate JustMoved(v0: Vehicle, v: Vehicle, target: Address) {
    v0.owner.Some? && v0.owner != Some(target) && v == Execute(v0, TransferTo(target))
  }

  /** Between the two legs: just moved, or not touched on the authorizer's word. */
  ghost predicate BetweenLegs(a: Args, trace: seq<Input>, v0: Vehicle, v: Vehicle) {
    JustMoved(v0, v, TargetOf(a)) || (v == v0 && ToldAlready(trace, TargetOf(a)))
  }

  /** The re-share did not happen, or left the tenant's client the full indefinite grant and nothing else. */
  ghost predicate Reshared(trace: seq<Input>, v: Vehicle, v': Vehicle) {
    v' == v || exists client, e :: GrantAccounted(trace, client, e) && v' == Execute(v, SetPermissions(client, Record(FULL_PERMISSIONS, e, "")))
  }

  /** What a successful transfer has done, leg by leg. */
  ghost predicate TransferDone(a: Args, trace: seq<Input>, v0: Vehicle, v: Vehicle) {
    exists between :: BetweenLegs(a, trace, v0, between) && Reshared(trace, between, v)
  }

  ghost predicate TransferReached(a: Args, trace: seq<Input>, v0: Vehicle, r: Running) {
    match r.local
    case Start => r.vehicle == v0
    case SendTransfer(owner) => r.vehicle == v0 && owner != TargetOf(a)
    case AskGate => BetweenLegs(a, trace, v0, r.vehicle)
    case ResolveClient(_, chained) => chained && BetweenLegs(a, trace, v0, r.vehicle)
    case SendGrant(_, client, e, chained) => chained && BetweenLegs(a, trace, v0, r.vehicle) && GrantAccounted(trace, client, e)
    case Done(ok) => ok ==> TransferDone(a, trace, v0, r.vehicle)
    case _ => false
  }

  lemma ToldGrows(trace: seq<Input>, i: Input, target: Address)
    ensures ToldAlready(trace, target) ==> ToldAlready(trace + [i], target)
    ensures i.answer.Authorized? && i.answer.owner == target ==> ToldAlready(trace + [i], target)
  {
    var t := trace + [i];
    assert t[|trace|] == i && forall n :: 0 <= n < |trace| ==> t[n] == trace[n];
  }

  lemma TransferDoneGrows(a: Args, trace: seq<Input>, v0: Vehicle, v: Vehicle, i: Input)
    requires TransferDone(a, trace, v0, v)
    ensures TransferDone(a, trace + [i], v0, v)
  {
    hide ToldAlready, GrantAccounted, JustMoved;
    var between :| BetweenLegs(a, trace, v0, between) && Reshared(trace, between, v);
    ToldGrows(trace, i, TargetOf(a));
    if v != between {
      var client, e :| GrantAccounted(trace, client, e) && v == Execute(between, SetPermissions(client, Record(FULL_PERMISSIONS, e, "")));
      GrantAccountsGrow(trace, i, client, e);
    }
    assert BetweenLegs(a, trace + [i], v0, between) && Reshared(trace + [i], between, v);
  }

  lemma TransferStep(a: Args, trace: seq<Input>, v0: Vehicle, r: Running, i: Input)
    requires a.SharedOp? && a.op == TransferVehicle && TransferReached(a, trace, v0, r)
    ensures TransferReached(a, trace + [i], v0, Step(a, r, i))
  {
    hide ToldAlready, ExpirationFrom, GrantAccounted, TransferDone;
    ToldGrows(trace, i, TargetOf(a));
    match r.local
    case Done(ok) => if ok { TransferDoneGrows(a, trace, v0, r.vehicle, i); }
    case AskGate => ReshareEnds(a, trace + [i], v0, r.vehicle, 0, 0);
    case ResolveClient(_, _) =>
      ReshareEnds(a, trace + [i], v0, r.vehicle, 0, 0);
      if i.answer.ClientId? && i.answer.client.Some? {
        GrantAccountsGrow(trace, i, i.answer.client.value, ExpirationFrom(i.clock, i.fraction, 0));
      }
    case SendGrant(_, client, e, _) =>
      GrantAccountsGrow(trace, i, client, e);
      ReshareEnds(a, trace + [i], v0, r.vehicle, client, e);
    case _ =>
  }

  lemma ReshareEnds(a: Args, trace: seq<Input>, v0: Vehicle, between: Vehicle, client: Address, e: int)
    requires BetweenLegs(a, trace, v0, between)
    ensures TransferDone(a, trace, v0, between)
    ensures GrantAccounted(trace, client, e) ==>
              TransferDone(a, trace, v0, Execute(between, SetPermissions(client, Record(FULL_PERMISSIONS, e, ""))))
  {
    hide GrantAccounted, BetweenLegs;
    assert Reshared(trace, between, between);
    if GrantAccounted(trace, client, e) {
      assert Reshared(trace, between, Execute(between, SetPermissions(client, Record(FULL_PERMISSIONS, e, ""))));
    }
  }

  /** Every transfer, whatever the authorizer says and wherever the vehicle is. */
  lemma {:induction false} TransferReaches(a: Args, trace: seq<Input>, v0: Vehicle)
    requires a.SharedOp? && a.op == TransferVehicle
    ensures TransferReached(a, trace, v0, Replay(a, trace, v0))
  {
    if trace != [] {
      hide Step, TransferReached;
      var front, i := trace[..|trace| - 1], trace[|trace| - 1];
      TransferReaches(a, front, v0);
      TransferStep(a, front, v0, Replay(a, front, v0), i);
      assert trace == front + [i];
    }
  }

  /** Whenever the authorizer names an owner, it names the vehicle's. */
  ghost predicate TellsTheOwner(trace: seq<Input>, v: Vehicle) {
    forall n :: 0 <= n < |trace| && trace[n].answer.Authorized? ==> v.owner == Some(trace[n].answer.owner)
  }

  /**
   A transfer that reports success has moved the vehicle or was told that the
   target owns it already, and has then re-shared it to the tenant or not.
   Where it moved, every grant of the previous owner is left behind. Told the
   true owner, the vehicle is the target's at the end either way, and its
   version moved exactly when it was not the target's at the start.
   */
  lemma TransferLeavesOldGrantsBehind(a: Args, trace: seq<Input>, v0: Vehicle)
    requires a.SharedOp? && a.op == TransferVehicle
    ensures var r, target := Replay(a, trace, v0), Some(TargetOf(a));
            r.local == Done(true) ==>
              && TransferDone(a, trace, v0, r.vehicle)
              && (Tidy(v0) && r.vehicle.version != v0.version ==> r.vehicle.owner == target && exists client :: OnlyGrantee(r.vehicle, client))
              && (TellsTheOwner(trace, v0) ==> r.vehicle.owner == target && (r.vehicle.version != v0.version <==> v0.owner != target))
  {
    hide Step, Replay, GrantAccounted;
    TransferReaches(a, trace, v0);
    var r := Replay(a, trace, v0);
    if r.local == Done(true) {
      var between :| BetweenLegs(a, trace, v0, between) && Reshared(trace, between, r.vehicle);
      if Tidy(v0) && r.vehicle.version != v0.version {
        OldGrantsAreGone(trace, v0, between, r.vehicle, TargetOf(a));
      }
    }
  }

  lemma OldGrantsAreGone(trace: seq<Input>, v0: Vehicle, between: Vehicle, v: Vehicle, target: Address)
    requires Tidy(v0) && JustMoved(v0, between, target) && Reshared(trace, between, v)
    ensures exists client :: OnlyGrantee(v, client)
  {
    hide GrantAccounted;
    if v == between {
      assert OnlyGrantee(v, 0);
    } else {
      var client, e :| GrantAccounted(trace, client, e) && v == Execute(between, SetPermissions(client, Record(FULL_PERMISSIONS, e, "")));
      assert OnlyGrantee(v, client);
    }
  }

  /** A job asks the authorizer once, first, and never comes back to its start. */
  ghost predicate AskedOnce(trace: seq<Input>, l: Local) {
    && (trace == [] <==> l.Start?)
    && (forall n :: 0 < n < |trace| ==> !trace[n].answer.Authorized?)
    && (trace != [] && !trace[0].answer.Authorized? ==> l == Done(false))
  }

  /** Where a transfer's vehicle belongs, going by the one owner the authorizer named. */
  ghost predicate FollowsTheName(named: Address, target: Address, v0: Vehicle, r: Running) {
    if named == target then r.vehicle.owner == v0.owner && !r.local.SendTransfer?
    else match r.local
      case SendTransfer(owner) => owner == named && r.vehicle == v0
      case Done(ok) => ok ==> v0.owner == Some(named) && r.vehicle.owner == Some(target)
      case _ => v0.owner == Some(named) && r.vehicle.owner == Some(target)
  }

  ghost predicate TransferNamed(a: Args, trace: seq<Input>, v0: Vehicle, r: Running) {
    && AskedOnce(trace, r.local)
    && (trace == [] ==> r.vehicle == v0)
    && (trace != [] && trace[0].answer.Authorized? ==> FollowsTheName(trace[0].answer.owner, TargetOf(a), v0, r))
    && (r.local.Start? || r.local.SendTransfer? || r.local.AskGate? || r.local.ResolveClient? || r.local.SendGrant? || r.local.Done?)
  }

  lemma TransferNamedStep(a: Args, trace: seq<Input>, v0: Vehicle, r: Running, i: Input)
    requires a.SharedOp? && a.op == TransferVehicle && Fits(r.local, i.answer) && TransferNamed(a, trace, v0, r)
    ensures TransferNamed(a, trace + [i], v0, Step(a, r, i))
  {
    hide ExpirationFrom;
    var t := trace + [i];
    assert t[|trace|] == i && forall n :: 0 <= n < |trace| ==> t[n] == trace[n];
  }

  lemma {:induction false} TransferFollowsTheName(a: Args, trace: seq<Input>, v0: Vehicle)
    requires a.SharedOp? && a.op == TransferVehicle && TraceFits(a, trace, v0)
    ensures TransferNamed(a, trace, v0, Replay(a, trace, v0))
  {
    hide Step, TransferNamed, Fits;
    if trace == [] {
      assert TransferNamed(a, [], v0, Running(Start, v0)) by { NothingNamed(a, v0); }
    } else {
      var n := |trace| - 1;
      var front := trace[..n];
      forall k | 0 <= k < |front| ensures Fits(Replay(a, front[..k], v0).local, front[k].answer) {
        assert front[..k] == trace[..k];
      }
      TransferFollowsTheName(a, front, v0);
      TransferNamedStep(a, front, v0, Replay(a, front, v0), trace[n]);
      assert trace == front + [trace[n]];
    }
  }

  lemma NothingNamed(a: Args, v0: Vehicle)
    ensures TransferNamed(a, [], v0, Running(Start, v0))
  {
  }

  /** A transfer that reports success ends with the vehicle in the target's hands exactly when the authorizer named its owner. */
  lemma TransferEndsAtTargetIff(a: Args, trace: seq<Input>, v0: Vehicle)
    requires a.SharedOp? && a.op == TransferVehicle && TraceFits(a, trace, v0) && Replay(a, trace, v0).local == Done(true)
    ensures Replay(a, trace, v0).vehicle.owner == Some(TargetOf(a)) <==> TellsTheOwner(trace, v0)
  {
    hide Step, Replay;
    TransferFollowsTheName(a, trace, v0);
    assert TellsTheOwner(trace, v0) <==> v0.owner == Some(trace[0].answer.owner);
  }

  /**
   The authorizer's word is what the first leg turns on. Told that the target
   owns a vehicle that is another's, the job reports success and moves nothing.
   */
  lemma MisledTransferMovesNothing(a: Args, v0: Vehicle, clock: Moment)
    requires a.SharedOp? && a.op == TransferVehicle && Validate(a) && v0.owner != Some(TargetOf(a))
    ensures var trace := [Input(clock, 0, Authorized(TargetOf(a), false)), Input(clock, 0, MaySign(false))];
            Replay(a, trace, v0) == Running(Done(true), v0)
  {
    var first, second := Input(clock, 0, Authorized(TargetOf(a), false)), Input(clock, 0, MaySign(false));
    assert [first, second][..1] == [first] && [first][..0] == [];
    assert Replay(a, [first], v0) == Step(a, Running(Start, v0), first) == Running(AskGate, v0);
  }
}

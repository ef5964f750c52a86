/**
 When a sharing job succeeds and what it leaves, told from the answers it
 received without reference to the worker's steps: an independent account of
 the three job kinds that the step programs are proved to follow.
 */
module JobEndings {
  import opened Wrappers
  import opened Calendar
  import opened Sacd
  import opened VehicleChain
  import opened Jobs

  /** How a job ended and what it made of its vehicle; `None` while it waits for another answer. */
  datatype Ending = Ending(ok: bool, vehicle: Vehicle)

  /** The last call of a job decides it: success is a receipt. */
  function Sending(v: Vehicle, kernel: Address, call: Call, i: Input): Option<Ending> {
    if !i.answer.Delivered? then None
    else
      var s := Send(v, kernel, call, i.answer.delivery);
      Some(Ending(s.receipt, s.vehicle))
  }

  /** A share, told from its answers: authorize, publish, and only without a document read and judge what is there. */
  function ShareEnding(a: Args, t: seq<Input>, v: Vehicle): Option<Ending>
    requires a.Share?
  {
    if t == [] then None
    else if !a.grantee.Hex? || !t[0].answer.Authorized? then Some(Ending(false, v))
    else
      var owner, exp := t[0].answer.owner, ExpirationFrom(t[0].clock, t[0].fraction, ShareDuration(a.durationDays));
      if |t| == 1 then None
      else if t[1].answer.Published? then
        if |t| == 2 then None
        else Sending(v, owner, SetPermissions(a.grantee.address, Record(DEFAULT_PERMISSIONS, exp, "ipfs://" + t[1].answer.cid)), t[2])
      else if |t| == 2 then None
      else if t[2].answer.ReadFailed? then Some(Ending(false, v))
      else if |t| == 3 then None
      else if GrantIsLive(CurrentGrant(v, a.grantee.address), Unix(t[3].clock)) then Some(Ending(false, v))
      else if |t| == 4 then None
      else Sending(v, owner, SetPermissions(a.grantee.address, Record(DEFAULT_PERMISSIONS, exp, "")), t[4])
  }

  function RevokeEnding(a: Args, t: seq<Input>, v: Vehicle): Option<Ending>
    requires a.Revoke?
  {
    if t == [] then None
    else if !a.grantee.Hex? || !t[0].answer.Authorized? then Some(Ending(false, v))
    else if |t| == 1 then None
    else Sending(v, t[0].answer.owner, SetPermissions(a.grantee.address, NO_RECORD), t[1])
  }

  /** The second leg of a transfer, from its first answer on: whatever becomes of it, the transfer stands. */
  function ReshareEnding(target: Address, t: seq<Input>, v: Vehicle): Option<Ending> {
    if t == [] then None
    else if t[0].answer == MaySign(false) then Some(Ending(true, v))
    else if |t| == 1 then None
    else if t[1].answer == ClientId(None) then Some(Ending(true, v))
    else if |t| == 2 || !t[1].answer.ClientId? || !t[2].answer.Delivered? then None
    else
      var grant := Record(FULL_PERMISSIONS, ExpirationFrom(t[1].clock, t[1].fraction, 0), "");
      Some(Ending(true, Send(v, target, SetPermissions(t[1].answer.client.value, grant), t[2].answer.delivery).vehicle))
  }

  function OpEnding(a: Args, t: seq<Input>, v: Vehicle): Option<Ending>
    requires a.SharedOp?
  {
    if t == [] then None
    else if !Validate(a) || !t[0].answer.Authorized? || t[0].answer.ownerMode then Some(Ending(false, v))
    else
      var owner := t[0].answer.owner;
      match a.op
      case TransferVehicle =>
        if a.target.address == owner then ReshareEnding(owner, t[1..], v)
        else if |t| == 1 then None
        else
          var moved := Sending(v, owner, TransferTo(a.target.address), t[1]);
          if moved.Some? && moved.value.ok then ReshareEnding(a.target.address, t[2..], moved.value.vehicle) else moved
      case BurnSynthetic => if |t| == 1 then None else Sending(v, owner, BurnDevice(a.synthetic), t[1])
      case BurnVehicleOp => if |t| == 1 then None else Sending(v, owner, BurnVehicle, t[1])
      case UnknownOp => Some(Ending(false, v))
      case GrantSacd =>
        if |t| == 1 then None
        else if !t[1].answer.ClientId? || t[1].answer.client.None? then Some(Ending(false, v))
        else if |t| == 2 then None
        else
          var grant := Record(FULL_PERMISSIONS, ExpirationFrom(t[1].clock, t[1].fraction, 0), "");
          Sending(v, owner, SetPermissions(t[1].answer.client.value, grant), t[2])
  }

  /** The worker stands at `Done` exactly when the story has ended, and ended as it says. */
  ghost predicate EndsAs(r: Running, e: Option<Ending>) {
    if e.None? then !r.local.Done? else r == Running(Done(e.value.ok), e.value.vehicle)
  }

  /** One more answer: the worker waited for it, and took one step. */
  lemma Next(a: Args, trace: seq<Input>, v: Vehicle, n: nat)
    requires TraceFits(a, trace, v) && n < |trace|
    ensures Fits(Replay(a, trace[..n], v).local, trace[n].answer)
    ensures Replay(a, trace[..n + 1], v) == Step(a, Replay(a, trace[..n], v), trace[n])
    ensures n == 0 ==> Replay(a, trace[..0], v) == Running(Start, v)
    ensures n + 1 == |trace| ==> trace[..n + 1] == trace
  {
    hide Step;
    assert trace[..n + 1][..n] == trace[..n];
  }

  lemma AtStart(a: Args, v: Vehicle)
    ensures Replay(a, [], v) == Running(Start, v)
  {
  }

  // The steps of a share, one answer each.

  lemma ShareBegins(a: Args, v: Vehicle, i: Input)
    requires a.Share? && Fits(Start, i.answer)
    ensures Step(a, Running(Start, v), i) ==
            if a.grantee.Hex? && i.answer.Authorized?
            then Running(Publish(i.answer.owner, ExpirationFrom(i.clock, i.fraction, ShareDuration(a.durationDays))), v)
            else Running(Done(false), v)
  {
    hide ExpirationFrom;
  }

  lemma ShareLooks(a: Args, v: Vehicle, owner: Address, exp: int, seen: Record, i: Input)
    requires a.Share? && a.grantee.Hex?
    ensures Fits(Publish(owner, exp), i.answer) ==>
              Step(a, Running(Publish(owner, exp), v), i)
              == Running(if i.answer.Published? then SendShare(owner, exp, "ipfs://" + i.answer.cid) else ReadGrant(owner, exp), v)
    ensures Fits(ReadGrant(owner, exp), i.answer) ==>
              Step(a, Running(ReadGrant(owner, exp), v), i)
              == Running(if i.answer.ReadFailed? then Done(false) else Judge(owner, exp, CurrentGrant(v, a.grantee.address)), v)
    ensures Fits(Judge(owner, exp, seen), i.answer) ==>
              Step(a, Running(Judge(owner, exp, seen), v), i)
              == Running(if GrantIsLive(seen, Unix(i.clock)) then Done(false) else SendShare(owner, exp, ""), v)
  {
    hide Unix;
  }

  lemma ShareSends(a: Args, v: Vehicle, owner: Address, exp: int, source: string, i: Input)
    requires a.Share? && a.grantee.Hex? && i.answer.Delivered?
    ensures EndsAs(Step(a, Running(SendShare(owner, exp, source), v), i),
                   Sending(v, owner, SetPermissions(a.grantee.address, Record(DEFAULT_PERMISSIONS, exp, source)), i))
    ensures Step(a, Running(SendShare(owner, exp, source), v), i).local.Done?
  {
  }

  /** A share ends as its answers say, for every sequence of answers it can receive. */
  lemma ShareEndsAs(a: Args, trace: seq<Input>, v: Vehicle)
    requires a.Share? && TraceFits(a, trace, v)
    ensures EndsAs(Replay(a, trace, v), ShareEnding(a, trace, v))
  {
    hide ExpirationFrom, Replay, TraceFits, Step, Sending, GrantIsLive, CurrentGrant, Unix;
    if trace == [] {
      AtStart(a, v);
    } else {
      Next(a, trace, v, 0);
      ShareBegins(a, v, trace[0]);
      if |trace| > 1 {
        Next(a, trace, v, 1);
        var owner, exp := trace[0].answer.owner, ExpirationFrom(trace[0].clock, trace[0].fraction, ShareDuration(a.durationDays));
        ShareLooks(a, v, owner, exp, NO_RECORD, trace[1]);
        if |trace| > 2 {
          Next(a, trace, v, 2);
          if trace[1].answer.Published? {
            ShareSends(a, v, owner, exp, "ipfs://" + trace[1].answer.cid, trace[2]);
            OnlyOneCall(a, trace, v, 3);
          } else {
            ShareLooks(a, v, owner, exp, NO_RECORD, trace[2]);
            ShareJudges(a, trace, v, owner, exp);
          }
        }
      }
    }
  }

  /** Nothing comes after the end. */
  lemma OnlyOneCall(a: Args, trace: seq<Input>, v: Vehicle, n: nat)
    requires TraceFits(a, trace, v) && n <= |trace| && Replay(a, trace[..n], v).local.Done?
    ensures |trace| == n && trace[..n] == trace
  {
    hide Step;
    if n < |trace| {
      Next(a, trace, v, n);
    }
  }

  lemma ShareJudges(a: Args, trace: seq<Input>, v: Vehicle, owner: Address, exp: int)
    requires a.Share? && a.grantee.Hex? && TraceFits(a, trace, v) && |trace| > 2
    requires trace[0].answer.Authorized? && !trace[1].answer.Published? && owner == trace[0].answer.owner
    requires exp == ExpirationFrom(trace[0].clock, trace[0].fraction, ShareDuration(a.durationDays))
    requires Replay(a, trace[..3], v) ==
             Running(if trace[2].answer.ReadFailed? then Done(false) else Judge(owner, exp, CurrentGrant(v, a.grantee.address)), v)
    ensures EndsAs(Replay(a, trace, v), ShareEnding(a, trace, v))
  {
    hide ExpirationFrom, Replay, TraceFits, Step, Sending, GrantIsLive, CurrentGrant, Unix;
    if trace[2].answer.ReadFailed? {
      OnlyOneCall(a, trace, v, 3);
    } else if |trace| == 3 {
      assert trace[..3] == trace;
    } else {
      Next(a, trace, v, 3);
      ShareLooks(a, v, owner, exp, CurrentGrant(v, a.grantee.address), trace[3]);
      if GrantIsLive(CurrentGrant(v, a.grantee.address), Unix(trace[3].clock)) {
        OnlyOneCall(a, trace, v, 4);
      } else if |trace| > 4 {
        Next(a, trace, v, 4);
        ShareSends(a, v, owner, exp, "", trace[4]);
        OnlyOneCall(a, trace, v, 5);
      }
    }
  }

  /** So does a revoke. */
  lemma RevokeEndsAs(a: Args, trace: seq<Input>, v: Vehicle)
    requires a.Revoke? && TraceFits(a, trace, v)
    ensures EndsAs(Replay(a, trace, v), RevokeEnding(a, trace, v))
  {
    hide Replay, TraceFits;
    if trace == [] {
      AtStart(a, v);
    } else {
      Next(a, trace, v, 0);
      if |trace| > 1 {
        Next(a, trace, v, 1);
        OnlyOneCall(a, trace, v, 2);
      }
    }
  }

  // The steps of a typed operation.

  lemma OpBegins(a: Args, v: Vehicle, i: Input)
    requires a.SharedOp? && Fits(Start, i.answer)
    ensures var r := Step(a, Running(Start, v), i);
            if !Validate(a) || !i.answer.Authorized? || i.answer.ownerMode then r == Running(Done(false), v)
            else
              var owner := i.answer.owner;
              r.vehicle == v && match a.op
              case TransferVehicle => r.local == if a.target.address == owner then AskGate else SendTransfer(owner)
              case BurnSynthetic => r.local == SendBurnDevice(owner)
              case BurnVehicleOp => r.local == SendBurnVehicle(owner)
              case GrantSacd => r.local == ResolveClient(owner, false)
              case UnknownOp => true
  {
  }

  lemma OpSends(a: Args, v: Vehicle, owner: Address, i: Input)
    requires a.SharedOp? && i.answer.Delivered?
    ensures EndsAs(Step(a, Running(SendBurnDevice(owner), v), i), Sending(v, owner, BurnDevice(a.synthetic), i))
    ensures EndsAs(Step(a, Running(SendBurnVehicle(owner), v), i), Sending(v, owner, BurnVehicle, i))
    ensures Step(a, Running(SendBurnDevice(owner), v), i).local.Done? && Step(a, Running(SendBurnVehicle(owner), v), i).local.Done?
  {
  }

  lemma GrantSteps(a: Args, v: Vehicle, kernel: Address, chained: bool, i: Input, client: Address, exp: int)
    ensures Fits(ResolveClient(kernel, chained), i.answer) ==>
              Step(a, Running(ResolveClient(kernel, chained), v), i)
              == Running(if i.answer.client.None? then Done(chained)
                         else SendGrant(kernel, i.answer.client.value, ExpirationFrom(i.clock, i.fraction, 0), chained), v)
    ensures i.answer.Delivered? ==>
              var sent := Send(v, kernel, SetPermissions(client, Record(FULL_PERMISSIONS, exp, "")), i.answer.delivery);
              Step(a, Running(SendGrant(kernel, client, exp, chained), v), i) == Running(Done(sent.receipt || chained), sent.vehicle)
  {
    hide ExpirationFrom;
  }

  /** grant_sacd and the two burns end as their answers say. */
  lemma SingleOpEndsAs(a: Args, trace: seq<Input>, v: Vehicle)
    requires a.SharedOp? && a.op != TransferVehicle && TraceFits(a, trace, v)
    ensures EndsAs(Replay(a, trace, v), OpEnding(a, trace, v))
  {
    hide ExpirationFrom, Replay, TraceFits, Step, Send;
    if trace == [] {
      AtStart(a, v);
    } else {
      Next(a, trace, v, 0);
      OpBegins(a, v, trace[0]);
      if |trace| > 1 {
        Next(a, trace, v, 1);
        var owner := trace[0].answer.owner;
        if a.op == GrantSacd {
          GrantSteps(a, v, owner, false, trace[1], 0, 0);
          if |trace| > 2 {
            Next(a, trace, v, 2);
            GrantSteps(a, v, owner, false, trace[2], trace[1].answer.client.value, ExpirationFrom(trace[1].clock, trace[1].fraction, 0));
            OnlyOneCall(a, trace, v, 3);
          }
        } else {
          OpSends(a, v, owner, trace[1]);
          OnlyOneCall(a, trace, v, 2);
        }
      }
    }
  }

  /** A transfer's second leg, from wherever its first leg left it. */
  lemma ReshareEndsAs(a: Args, trace: seq<Input>, v: Vehicle, n: nat, u: Vehicle)
    requires a.SharedOp? && TraceFits(a, trace, v) && n <= |trace| && Replay(a, trace[..n], v) == Running(AskGate, u)
    ensures EndsAs(Replay(a, trace, v), ReshareEnding(TargetOf(a), trace[n..], u))
  {
    hide ExpirationFrom, Replay, TraceFits, Step, Send;
    if n == |trace| {
      assert trace[..n] == trace;
    } else {
      var t := trace[n..];
      assert t[0] == trace[n];
      Next(a, trace, v, n);
      GateStep(a, u, trace[n]);
      if !trace[n].answer.yes {
        OnlyOneCall(a, trace, v, n + 1);
      } else if n + 1 < |trace| {
        assert t[1] == trace[n + 1];
        Next(a, trace, v, n + 1);
        GrantSteps(a, u, TargetOf(a), true, trace[n + 1], 0, 0);
        if trace[n + 1].answer.client.None? {
          OnlyOneCall(a, trace, v, n + 2);
        } else if n + 2 < |trace| {
          assert t[2] == trace[n + 2];
          Next(a, trace, v, n + 2);
          GrantSteps(a, u, TargetOf(a), true, trace[n + 2], trace[n + 1].answer.client.value,
                     ExpirationFrom(trace[n + 1].clock, trace[n + 1].fraction, 0));
          OnlyOneCall(a, trace, v, n + 3);
        }
      }
    }
  }

  lemma GateStep(a: Args, v: Vehicle, i: Input)
    requires i.answer.MaySign?
    ensures Step(a, Running(AskGate, v), i) == Running(if i.answer.yes then ResolveClient(TargetOf(a), true) else Done(true), v)
  {
  }

  lemma TransferSends(a: Args, v: Vehicle, owner: Address, i: Input)
    requires a.SharedOp? && i.answer.Delivered?
    ensures Step(a, Running(SendTransfer(owner), v), i) ==
            (var sent := Send(v, owner, TransferTo(TargetOf(a)), i.answer.delivery);
             Running(if sent.receipt then AskGate else Done(false), sent.vehicle))
  {
  }

  /** A transfer ends as its answers say. */
  lemma TransferEndsAs(a: Args, trace: seq<Input>, v: Vehicle)
    requires a.SharedOp? && a.op == TransferVehicle && TraceFits(a, trace, v)
    ensures EndsAs(Replay(a, trace, v), OpEnding(a, trace, v))
  {
    hide ExpirationFrom, Replay, TraceFits, Step, Send, ReshareEnding;
    if trace == [] {
      AtStart(a, v);
    } else {
      Next(a, trace, v, 0);
      OpBegins(a, v, trace[0]);
      if !Validate(a) || !trace[0].answer.Authorized? || trace[0].answer.ownerMode {
        OnlyOneCall(a, trace, v, 1);
      } else if a.target.address == trace[0].answer.owner {
        ReshareEndsAs(a, trace, v, 1, v);
      } else if |trace| > 1 {
        Next(a, trace, v, 1);
        TransferSends(a, v, trace[0].answer.owner, trace[1]);
        var sent := Send(v, trace[0].answer.owner, TransferTo(TargetOf(a)), trace[1].answer.delivery);
        if sent.receipt {
          ReshareEndsAs(a, trace, v, 2, sent.vehicle);
        } else {
          OnlyOneCall(a, trace, v, 2);
        }
      }
    }
  }

  // ---- What that comes to -----------------------------------------------

  /**
   A share succeeds exactly when its grantee is an address, the authorizer
   named the vehicle's owner and the call was confirmed; it then leaves the
   default mask, an expiration counted from the first answer's clock and the
   published document or none, and nothing else changed.
   */
  lemma ShareSucceedsIff(a: Args, trace: seq<Input>, v: Vehicle)
    requires a.Share? && TraceFits(a, trace, v)
    ensures var r := Replay(a, trace, v);
            && (r.local == Done(true) <==>
                  && a.grantee.Hex? && |trace| >= 3 && trace[0].answer.Authorized? && v.owner == Some(trace[0].answer.owner)
                  && trace[|trace| - 1].answer == Delivered(Confirmed))
            && (r.local == Done(true) ==>
                  var source := if trace[1].answer.Published? then "ipfs://" + trace[1].answer.cid else "";
                  var exp := ExpirationFrom(trace[0].clock, trace[0].fraction, ShareDuration(a.durationDays));
                  r.vehicle == v.(records := v.records[(v.version, a.grantee.address) := Record(DEFAULT_PERMISSIONS, exp, source)]))
  {
    hide ExpirationFrom, Replay, Step, GrantIsLive, CurrentGrant, Sending, TraceFits, Unix;
    ShareEndsAs(a, trace, v);
    ShareTraceShape(a, trace, v);
    if |trace| > 2 {
      var exp := ExpirationFrom(trace[0].clock, trace[0].fraction, ShareDuration(a.durationDays));
      var source := if trace[1].answer.Published? then "ipfs://" + trace[1].answer.cid else "";
      SendingIff(v, trace[0].answer.owner, a.grantee.address, Record(DEFAULT_PERMISSIONS, exp, source), trace[|trace| - 1]);
      if |trace| == 3 && trace[1].answer.Published? {
        assert trace[|trace| - 1] == trace[2];
      } else if |trace| == 5 {
        assert trace[|trace| - 1] == trace[4] && source == "";
      } else {
        assert Replay(a, trace, v).local != Done(true);
      }
    }
  }

  /** A call is confirmed to its sender exactly when the sender owns the vehicle and the bundler returned a receipt. */
  lemma SendingIff(v: Vehicle, kernel: Address, grantee: Address, rec: Record, i: Input)
    ensures Sending(v, kernel, SetPermissions(grantee, rec), i).Some? <==> i.answer.Delivered?
    ensures i.answer.Delivered? ==>
              var e := Sending(v, kernel, SetPermissions(grantee, rec), i).value;
              && (e.ok <==> v.owner == Some(kernel) && i.answer == Delivered(Confirmed))
              && (e.ok ==> e.vehicle == v.(records := v.records[(v.version, grantee) := rec]))
  {
  }

  /** The answers a share can receive, in order. */
  lemma ShareTraceShape(a: Args, trace: seq<Input>, v: Vehicle)
    requires a.Share? && TraceFits(a, trace, v)
    ensures |trace| <= 5
    ensures |trace| > 0 ==> trace[0].answer.Authorized? || trace[0].answer.Denied?
    ensures |trace| > 1 ==> a.grantee.Hex? && trace[0].answer.Authorized? && (trace[1].answer.Published? || trace[1].answer.PublishFailed?)
    ensures |trace| > 2 ==> if trace[1].answer.Published? then trace[2].answer.Delivered? && |trace| == 3
                            else trace[2].answer.ReadOk? || trace[2].answer.ReadFailed?
    ensures |trace| > 3 ==> trace[2].answer.ReadOk? && trace[3].answer.ClockOnly?
    ensures |trace| > 4 ==> trace[4].answer.Delivered? && !GrantIsLive(CurrentGrant(v, a.grantee.address), Unix(trace[3].clock))
  {
    hide ExpirationFrom, Replay, TraceFits, Step, GrantIsLive, CurrentGrant, Unix;
    if trace != [] {
      Next(a, trace, v, 0);
      ShareBegins(a, v, trace[0]);
      if |trace| > 1 {
        Next(a, trace, v, 1);
        var owner, exp := trace[0].answer.owner, ExpirationFrom(trace[0].clock, trace[0].fraction, ShareDuration(a.durationDays));
        ShareLooks(a, v, owner, exp, NO_RECORD, trace[1]);
        if |trace| > 2 {
          Next(a, trace, v, 2);
          if trace[1].answer.Published? {
            ShareSends(a, v, owner, exp, "ipfs://" + trace[1].answer.cid, trace[2]);
            OnlyOneCall(a, trace, v, 3);
          } else {
            ShareLooks(a, v, owner, exp, NO_RECORD, trace[2]);
            if |trace| > 3 {
              Next(a, trace, v, 3);
              ShareLooks(a, v, owner, exp, CurrentGrant(v, a.grantee.address), trace[3]);
              if |trace| > 4 {
                Next(a, trace, v, 4);
                ShareSends(a, v, owner, exp, "", trace[4]);
                OnlyOneCall(a, trace, v, 5);
              }
            }
          }
        }
      }
    }
  }

  /** After a failed publish and a good read, a share is refused exactly when the grant it would overwrite is live at the judging clock. */
  lemma RefusedOverLiveGrantIff(a: Args, trace: seq<Input>, v: Vehicle)
    requires a.Share? && TraceFits(a, trace, v) && |trace| == 4
    ensures a.grantee.Hex? && trace[2].answer.ReadOk?
    ensures Replay(a, trace, v) == Running(Done(false), v) <==> GrantIsLive(CurrentGrant(v, a.grantee.address), Unix(trace[3].clock))
  {
    hide ExpirationFrom, Replay, Step, GrantIsLive, CurrentGrant, Unix;
    ShareEndsAs(a, trace, v);
    ShareTraceShape(a, trace, v);
  }

  /** A revoke succeeds exactly when its grantee is an address, the authorizer named the vehicle's owner and the call was confirmed. */
  lemma RevokeSucceedsIff(a: Args, trace: seq<Input>, v: Vehicle)
    requires a.Revoke? && TraceFits(a, trace, v)
    ensures var r := Replay(a, trace, v);
            && (r.local == Done(true) <==>
                  && a.grantee.Hex? && |trace| == 2 && trace[0].answer.Authorized? && v.owner == Some(trace[0].answer.owner)
                  && trace[1].answer == Delivered(Confirmed))
            && (r.local == Done(true) ==> r.vehicle == v.(records := v.records[(v.version, a.grantee.address) := NO_RECORD]))
  {
    hide Replay, TraceFits, Sending;
    RevokeEndsAs(a, trace, v);
    RevokeTraceShape(a, trace, v);
    if |trace| == 2 {
      SendingIff(v, trace[0].answer.owner, a.grantee.address, NO_RECORD, trace[1]);
    }
  }

  lemma RevokeTraceShape(a: Args, trace: seq<Input>, v: Vehicle)
    requires a.Revoke? && TraceFits(a, trace, v)
    ensures |trace| <= 2 && (|trace| == 2 ==> a.grantee.Hex? && trace[0].answer.Authorized? && trace[1].answer.Delivered?)
  {
    hide Replay, TraceFits;
    if |trace| > 1 {
      Next(a, trace, v, 0);
      Next(a, trace, v, 1);
      OnlyOneCall(a, trace, v, 2);
    }
  }

  /**
   grant_sacd and the two burns succeed exactly when the request is in order,
   the authorizer named the owner outside owner mode and the call was
   confirmed; only a device may be burned from a kernel that is not the
   vehicle's owner.
   */
  lemma SingleOpSucceedsIff(a: Args, trace: seq<Input>, v: Vehicle)
    requires a.SharedOp? && a.op != TransferVehicle && TraceFits(a, trace, v)
    ensures Replay(a, trace, v).local == Done(true) <==>
            && Validate(a) && |trace| == (if a.op == GrantSacd then 3 else 2)
            && trace[0].answer.Authorized? && !trace[0].answer.ownerMode
            && (a.op == BurnSynthetic || v.owner == Some(trace[0].answer.owner))
            && trace[|trace| - 1].answer == Delivered(Confirmed)
  {
    hide ExpirationFrom, Replay, TraceFits;
    SingleOpEndsAs(a, trace, v);
    SingleOpTraceShape(a, trace, v);
  }

  lemma SingleOpTraceShape(a: Args, trace: seq<Input>, v: Vehicle)
    requires a.SharedOp? && a.op != TransferVehicle && TraceFits(a, trace, v)
    ensures |trace| > 1 ==> Validate(a) && trace[0].answer.Authorized? && !trace[0].answer.ownerMode
    ensures |trace| > 1 ==> if a.op == GrantSacd then trace[1].answer.ClientId? else trace[1].answer.Delivered? && |trace| == 2
    ensures |trace| > 2 ==> trace[1].answer.client.Some? && trace[2].answer.Delivered? && |trace| == 3
  {
    hide ExpirationFrom, Replay, TraceFits, Step, Send;
    if |trace| > 1 {
      Next(a, trace, v, 0);
      OpBegins(a, v, trace[0]);
      Next(a, trace, v, 1);
      var owner := trace[0].answer.owner;
      if a.op == GrantSacd {
        GrantSteps(a, v, owner, false, trace[1], 0, 0);
        if |trace| > 2 {
          Next(a, trace, v, 2);
          GrantSteps(a, v, owner, false, trace[2], trace[1].answer.client.value, ExpirationFrom(trace[1].clock, trace[1].fraction, 0));
          OnlyOneCall(a, trace, v, 3);
        }
      } else {
        OpSends(a, v, owner, trace[1]);
        OnlyOneCall(a, trace, v, 2);
      }
    }
  }

  /** A typed operation on a vehicle the tenant's own AA wallet owns is refused, whatever it asks for. */
  lemma OwnerModeIsRefused(a: Args, trace: seq<Input>, v: Vehicle)
    requires a.SharedOp? && TraceFits(a, trace, v) && trace != [] && trace[0].answer.Authorized? && trace[0].answer.ownerMode
    ensures |trace| == 1 && Replay(a, trace, v) == Running(Done(false), v)
  {
    hide Replay, TraceFits, Step;
    Next(a, trace, v, 0);
    OpBegins(a, v, trace[0]);
    OnlyOneCall(a, trace, v, 1);
  }
}

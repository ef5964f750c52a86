/**
 Vehicle memberships: the paid term of one vehicle of one tenant. The two
 tables (`vehicle_memberships`, `vehicle_membership_moves`) change only by the
 four operations, each one transaction; status is computed from the clock on
 every read.
 */
module Memberships {
  import opened Wrappers
  import opened Calendar

  type Id = nat
  type Tenant = nat
  type Token = nat

  datatype Membership = Membership(
    tenant: Tenant,
    token: Token,
    term: nat,
    starts: Moment,
    expires: Moment,
    canceled: Option<Moment>)

  datatype MoveEntry = MoveEntry(id: Id, from: Token, to: Token)

  /** The tables, with each membership's creation vehicle kept as history. */
  datatype Tables = Tables(rows: map<Id, Membership>, moves: seq<MoveEntry>, origin: map<Id, Token>)

  /** What the tenants and vehicle_entitlements tables say while a request runs. */
  datatype World = World(tenants: set<Tenant>, explicit: set<Tenant>, entitled: set<(Tenant, Token)>)

  datatype StartsAt = Now | At(moment: Moment) | Unparseable

  /** `None` for a membership id that is not a uuid. */
  datatype Request =
    | Create(newId: Id, tenant: Tenant, token: Token, term: nat, startsAt: StartsAt)
    | Move(tenant: Tenant, id: Option<Id>, token: Token)
    | Renew(tenant: Tenant, id: Option<Id>, term: nat)
    | Cancel(tenant: Tenant, id: Option<Id>)

  datatype Error =
    | NotFound | NotEntitled | Exists | InvalidTerm | InvalidStartsAt | SameVehicle | TenantNotFound | NotExplicitMode

  const TERMS: set<nat> := {1, 12, 24, 36, 48}

  predicate Live(m: Membership) { m.canceled.None? }

  predicate Expired(m: Membership, now: Moment) { Unix(m.expires) <= Unix(now) }

  predicate On(m: Membership, tenant: Tenant, token: Token) {
    Live(m) && m.tenant == tenant && m.token == token
  }

  // ---- One request, as a function of the tables -------------------------

  /** Some unexpired live membership already covers the vehicle. */
  predicate Covered(rows: map<Id, Membership>, tenant: Tenant, token: Token, now: Moment) {
    exists id :: id in rows && On(rows[id], tenant, token) && !Expired(rows[id], now)
  }

  /** Lapsed memberships of the vehicle, superseded. */
  function Superseded(rows: map<Id, Membership>, tenant: Tenant, token: Token, now: Moment): map<Id, Membership> {
    map id | id in rows :: if On(rows[id], tenant, token) then rows[id].(canceled := Some(now)) else rows[id]
  }

  function Greatest(a: Moment, b: Moment): Moment {
    if Unix(a) >= Unix(b) then a else b
  }

  function Renewed(m: Membership, term: nat, now: Moment): Membership {
    m.(expires := AddMonths(Greatest(m.expires, now), term), term := term)
  }

  predicate Addressed(rows: map<Id, Membership>, tenant: Tenant, id: Option<Id>) {
    id.Some? && id.value in rows && rows[id.value].tenant == tenant && Live(rows[id.value])
  }

  /** Why a request is refused, if it is. */
  function Refusal(t: Tables, w: World, now: Moment, r: Request): Option<Error> {
    match r
    case Create(_, tenant, token, term, startsAt) =>
      if term !in TERMS then Some(InvalidTerm)
      else if startsAt.Unparseable? then Some(InvalidStartsAt)
      else if tenant !in w.tenants then Some(TenantNotFound)
      else if tenant !in w.explicit then Some(NotExplicitMode)
      else if (tenant, token) !in w.entitled then Some(NotEntitled)
      else if Covered(t.rows, tenant, token, now) then Some(Exists)
      else None
    case Move(tenant, id, token) =>
      if !Addressed(t.rows, tenant, id) then Some(NotFound)
      else if t.rows[id.value].token == token then Some(SameVehicle)
      else if (tenant, token) !in w.entitled then Some(NotEntitled)
      else if Covered(t.rows, tenant, token, now) then Some(Exists)
      else None
    case Renew(tenant, id, term) =>
      if term !in TERMS then Some(InvalidTerm)
      else if !Addressed(t.rows, tenant, id) then Some(NotFound)
      else None
    case Cancel(tenant, id) =>
      if !Addressed(t.rows, tenant, id) then Some(NotFound) else None
  }

  /** The tables after a request; a refused one changes nothing. */
  function Apply(t: Tables, w: World, now: Moment, r: Request): Tables {
    if Refusal(t, w, now, r).Some? then t
    else match r
      case Create(newId, tenant, token, term, startsAt) =>
        var starts := if startsAt.At? then startsAt.moment else now;
        Tables(Superseded(t.rows, tenant, token, now)[newId := Membership(tenant, token, term, starts, AddMonths(starts, term), None)],
               t.moves, t.origin[newId := token])
      case Move(tenant, id, token) =>
        var m := t.rows[id.value];
        Tables(Superseded(t.rows, tenant, token, now)[id.value := m.(token := token)],
               t.moves + [MoveEntry(id.value, m.token, token)], t.origin)
      case Renew(tenant, id, term) =>
        t.(rows := t.rows[id.value := Renewed(t.rows[id.value], term, now)])
      case Cancel(tenant, id) =>
        t.(rows := t.rows[id.value := t.rows[id.value].(canceled := Some(now))])
  }

  /** Every live membership of the vehicle has run out. */
  ghost predicate AllLapsed(rows: map<Id, Membership>, tenant: Tenant, token: Token, now: Moment) {
    forall id :: id in rows && rows[id].tenant == tenant && rows[id].token == token && rows[id].canceled.None? ==> Unix(rows[id].expires) <= Unix(now)
  }

  /** A live membership of that tenant. */
  ghost predicate Own(rows: map<Id, Membership>, tenant: Tenant, id: Option<Id>) {
    id.Some? && id.value in rows && rows[id.value].tenant == tenant && rows[id.value].canceled.None?
  }

  /** Exactly when each request is granted. */
  lemma GrantedIff(t: Tables, w: World, now: Moment, r: Request)
    ensures Refusal(t, w, now, r).None? <==>
            match r
            case Create(_, tenant, token, term, startsAt) =>
              && (term == 1 || term == 12 || term == 24 || term == 36 || term == 48) && !startsAt.Unparseable?
              && tenant in w.tenants && tenant in w.explicit && (tenant, token) in w.entitled && AllLapsed(t.rows, tenant, token, now)
            case Move(tenant, id, token) =>
              && Own(t.rows, tenant, id) && t.rows[id.value].token != token
              && (tenant, token) in w.entitled && AllLapsed(t.rows, tenant, token, now)
            case Renew(tenant, id, term) =>
              (term == 1 || term == 12 || term == 24 || term == 36 || term == 48) && Own(t.rows, tenant, id)
            case Cancel(tenant, id) => Own(t.rows, tenant, id)
  {
    hide Unix;
  }

  /** And a refusal names something that stood in the way. */
  lemma RefusalIsTrue(t: Tables, w: World, now: Moment, r: Request)
    requires Refusal(t, w, now, r).Some?
    ensures match Refusal(t, w, now, r).value
            case InvalidTerm => (r.Create? || r.Renew?) && r.term !in {1, 12, 24, 36, 48}
            case InvalidStartsAt => r.Create? && r.startsAt.Unparseable?
            case TenantNotFound => r.Create? && r.tenant !in w.tenants
            case NotExplicitMode => r.Create? && r.tenant in w.tenants && r.tenant !in w.explicit
            case NotEntitled => (r.Create? || r.Move?) && (r.tenant, r.token) !in w.entitled
            case Exists => (r.Create? || r.Move?) && !AllLapsed(t.rows, r.tenant, r.token, now)
            case SameVehicle => r.Move? && Own(t.rows, r.tenant, r.id) && t.rows[r.id.value].token == r.token
            case NotFound => !r.Create? && !Own(t.rows, r.tenant, r.id)
  {
    hide Unix;
  }

  /** A lapsed live row of the vehicle is canceled, every other row is as it was. */
  ghost predicate MakesRoom(before: map<Id, Membership>, after: map<Id, Membership>, tenant: Tenant, token: Token, now: Moment, except: Id) {
    forall id :: id in before && id != except ==>
      && id in after
      && after[id] == if before[id].tenant == tenant && before[id].token == token && before[id].canceled.None?
                      then before[id].(canceled := Some(now)) else before[id]
  }

  /** What a granted request writes, row by row: the term bought runs from its start, a renewal from the expiry or, once that has passed, from now. */
  lemma GrantedDoes(t: Tables, w: World, now: Moment, r: Request)
    requires Refusal(t, w, now, r).None? && FreshIds(t, r)
    ensures var t' := Apply(t, w, now, r);
            match r
            case Create(newId, tenant, token, term, startsAt) =>
              var starts := if startsAt.At? then startsAt.moment else now;
              && t'.rows.Keys == t.rows.Keys + {newId} && t'.moves == t.moves
              && t'.rows[newId] == Membership(tenant, token, term, starts, AddMonths(starts, term), None)
              && MakesRoom(t.rows, t'.rows, tenant, token, now, newId)
            case Move(tenant, id, token) =>
              && t'.rows.Keys == t.rows.Keys && id.Some? && id.value in t.rows
              && t'.moves == t.moves + [MoveEntry(id.value, t.rows[id.value].token, token)]
              && t'.rows[id.value] == t.rows[id.value].(token := token)
              && MakesRoom(t.rows, t'.rows, tenant, token, now, id.value)
            case Renew(tenant, id, term) =>
              && id.Some? && id.value in t.rows && t'.moves == t.moves
              && var was := t.rows[id.value];
                 t'.rows == t.rows[id.value := was.(term := term, expires := AddMonths(if Unix(was.expires) < Unix(now) then now else was.expires, term))]
            case Cancel(tenant, id) =>
              && id.Some? && id.value in t.rows && t'.moves == t.moves
              && t'.rows == t.rows[id.value := t.rows[id.value].(canceled := Some(now))]
  {
    hide Unix, AddMonths;
  }

  // ---- The invariant ----------------------------------------------------

  /** At most one uncanceled row per (tenant, vehicle): the partial unique index. */
  ghost predicate OneLive(rows: map<Id, Membership>) {
    forall i, j :: i in rows && j in rows && Live(rows[i]) && On(rows[j], rows[i].tenant, rows[i].token) ==> i == j
  }

  function MovesOf(moves: seq<MoveEntry>, id: Id): seq<MoveEntry> {
    if moves == [] then []
    else
      var front, e := MovesOf(moves[..|moves| - 1], id), moves[|moves| - 1];
      if e.id == id then front + [e] else front
  }

  /** The entries lead from one vehicle to the other, each starting where the last ended. */
  ghost predicate Trail(from: Token, entries: seq<MoveEntry>, to: Token) {
    && to == (if entries == [] then from else entries[|entries| - 1].to)
    && (entries != [] ==> entries[0].from == from)
    && (forall i :: 0 <= i < |entries| ==> entries[i].from != entries[i].to)
    && (forall i :: 0 < i < |entries| ==> entries[i].from == entries[i - 1].to)
  }

  ghost predicate Trails(t: Tables) {
    && t.origin.Keys == t.rows.Keys
    && (forall i :: 0 <= i < |t.moves| ==> t.moves[i].id in t.rows)
    && (forall id :: id in t.rows ==> Trail(t.origin[id], MovesOf(t.moves, id), t.rows[id].token))
  }

  ghost predicate Valid(t: Tables) {
    OneLive(t.rows) && Trails(t)
  }

  /** gen_random_uuid gives an id no row has. */
  predicate FreshIds(t: Tables, r: Request) {
    r.Create? ==> r.newId !in t.rows
  }

  lemma MovesOfAppend(moves: seq<MoveEntry>, e: MoveEntry, id: Id)
    ensures MovesOf(moves + [e], id) == MovesOf(moves, id) + (if e.id == id then [e] else [])
  {
    assert (moves + [e])[..|moves + [e]| - 1] == moves;
  }

  lemma {:induction false} NoMovesYet(moves: seq<MoveEntry>, id: Id)
    requires forall i :: 0 <= i < |moves| ==> moves[i].id != id
    ensures MovesOf(moves, id) == []
  {
    if moves != [] {
      NoMovesYet(moves[..|moves| - 1], id);
    }
  }

  lemma ApplyKeepsOneLive(t: Tables, w: World, now: Moment, r: Request)
    requires OneLive(t.rows) && FreshIds(t, r)
    ensures OneLive(Apply(t, w, now, r).rows)
  {
    hide AddMonths, Unix;
  }

  /** A request that moves nothing keeps every trail. */
  lemma SameVehiclesKeepTrails(t: Tables, t': Tables)
    requires Trails(t) && t'.moves == t.moves && t'.origin == t.origin && t'.rows.Keys == t.rows.Keys
    requires forall id :: id in t.rows ==> t'.rows[id].token == t.rows[id].token
    ensures Trails(t')
  {
    hide Trail, MovesOf;
  }

  lemma CreateKeepsTrails(t: Tables, rows: map<Id, Membership>, id: Id, m: Membership)
    requires Trails(t) && id !in t.rows && rows.Keys == t.rows.Keys
    requires forall k :: k in t.rows ==> rows[k].token == t.rows[k].token
    ensures Trails(Tables(rows[id := m], t.moves, t.origin[id := m.token]))
  {
    NoMovesYet(t.moves, id);
    hide MovesOf;
  }

  lemma MoveKeepsTrails(t: Tables, rows: map<Id, Membership>, id: Id, m: Membership)
    requires Trails(t) && id in t.rows && rows.Keys == t.rows.Keys && m.token != t.rows[id].token
    requires forall k :: k in t.rows ==> rows[k].token == t.rows[k].token
    ensures Trails(Tables(rows[id := m], t.moves + [MoveEntry(id, t.rows[id].token, m.token)], t.origin))
  {
    hide MovesOf, Trail;
    var e := MoveEntry(id, t.rows[id].token, m.token);
    var t' := Tables(rows[id := m], t.moves + [e], t.origin);
    forall k | k in t'.rows ensures Trail(t'.origin[k], MovesOf(t'.moves, k), t'.rows[k].token) {
      assert Trail(t.origin[k], MovesOf(t.moves, k), t.rows[k].token);
      MovesOfAppend(t.moves, e, k);
      if k == id {
        TrailExtends(t.origin[k], MovesOf(t.moves, k), e);
      } else {
        assert MovesOf(t.moves, k) + [] == MovesOf(t.moves, k);
      }
    }
  }

  lemma TrailExtends(from: Token, entries: seq<MoveEntry>, e: MoveEntry)
    requires Trail(from, entries, e.from) && e.from != e.to
    ensures Trail(from, entries + [e], e.to)
  {
    var all := entries + [e];
    assert all[|entries|] == e;
    forall i | 0 < i < |all| ensures all[i].from == all[i - 1].to {
      assert all[i - 1] == entries[i - 1];
    }
  }

  lemma ApplyKeepsTrails(t: Tables, w: World, now: Moment, r: Request)
    requires Trails(t) && FreshIds(t, r)
    ensures Trails(Apply(t, w, now, r))
  {
    hide AddMonths, Unix, Covered, Trails;
    if Refusal(t, w, now, r).None? {
      match r
      case Create(id, tenant, token, _, _) =>
        CreateKeepsTrails(t, Superseded(t.rows, tenant, token, now), id, Apply(t, w, now, r).rows[id]);
      case Move(tenant, id, token) =>
        MoveKeepsTrails(t, Superseded(t.rows, tenant, token, now), id.value, t.rows[id.value].(token := token));
      case Renew(_, _, _) =>
        SameVehiclesKeepTrails(t, Apply(t, w, now, r));
      case Cancel(_, _) =>
        SameVehiclesKeepTrails(t, Apply(t, w, now, r));
    }
  }

  // ---- The service ------------------------------------------------------

  class MembershipService {
    var rows: map<Id, Membership>
    var moves: seq<MoveEntry>
    ghost var origin: map<Id, Token>

    ghost function State(): Tables
      reads this
    {
      Tables(rows, moves, origin)
    }

    constructor ()
      ensures State() == Tables(map[], [], map[])
    {
      rows, moves, origin := map[], [], map[];
    }

    /** `supersedeOrRefuse`: an unexpired membership refuses the write, a lapsed one is canceled. */
    method SupersedeOrRefuse(tenant: Tenant, token: Token, now: Moment) returns (clear: bool)
      requires OneLive(rows)
      modifies this`rows
      ensures clear <==> !Covered(old(rows), tenant, token, now)
      ensures rows == if clear then Superseded(old(rows), tenant, token, now) else old(rows)
      ensures clear ==> rows.Keys == old(rows).Keys && forall id :: id in rows ==>
                rows[id] == if On(old(rows)[id], tenant, token) then old(rows)[id].(canceled := Some(now)) else old(rows)[id]
    {
      hide Unix;
      if id :| id in rows && On(rows[id], tenant, token) {
        if !Expired(rows[id], now) {
          return false;
        }
        rows := rows[id := rows[id].(canceled := Some(now))];
        assert forall k :: k in old(rows) && On(old(rows)[k], tenant, token) ==> k == id;
      }
      clear := true;
    }

    method Create(w: World, now: Moment, newId: Id, tenant: Tenant, token: Token, term: nat, startsAt: StartsAt)
      returns (r: Result<Id, Error>)
      requires Valid(State()) && newId !in rows
      modifies this
      ensures var q := Request.Create(newId, tenant, token, term, startsAt);
              && State() == Apply(old(State()), w, now, q)
              && r == (var e := Refusal(old(State()), w, now, q); if e.Some? then Err(e.value) else Ok(newId))
      ensures r.Ok? ==>
                var starts := if startsAt.At? then startsAt.moment else now;
                newId in rows && rows[newId] == Membership(tenant, token, term, starts, AddMonths(starts, term), None)
      ensures Valid(State())
    {
      hide Unix, AddMonths, Superseded, Covered, Trails, OneLive;
      ghost var q := Request.Create(newId, tenant, token, term, startsAt);
      ApplyKeepsOneLive(State(), w, now, q);
      ApplyKeepsTrails(State(), w, now, q);
      if term !in TERMS {
        return Err(InvalidTerm);
      }
      var starts := now;
      match startsAt {
        case Now =>
        case At(m) => starts := m;
        case Unparseable => return Err(InvalidStartsAt);
      }
      if tenant !in w.tenants {
        return Err(TenantNotFound);
      }
      if tenant !in w.explicit {
        return Err(NotExplicitMode);
      }
      if (tenant, token) !in w.entitled {
        return Err(NotEntitled);
      }
      var clear := SupersedeOrRefuse(tenant, token, now);
      if !clear {
        return Err(Exists);
      }
      rows := rows[newId := Membership(tenant, token, term, starts, AddMonths(starts, term), None)];
      origin := origin[newId := token];
      r := Ok(newId);
    }

    method Move(w: World, now: Moment, tenant: Tenant, id: Option<Id>, token: Token) returns (r: Result<Id, Error>)
      requires Valid(State())
      modifies this
      ensures var q := Request.Move(tenant, id, token);
              && State() == Apply(old(State()), w, now, q)
              && r == (var e := Refusal(old(State()), w, now, q); if e.Some? then Err(e.value) else Ok(id.value))
      ensures Valid(State())
    {
      hide Unix, AddMonths, Superseded, Covered, Trails, OneLive;
      ghost var q := Request.Move(tenant, id, token);
      ApplyKeepsOneLive(State(), w, now, q);
      ApplyKeepsTrails(State(), w, now, q);
      if id.None? || id.value !in rows || rows[id.value].tenant != tenant || rows[id.value].canceled.Some? {
        return Err(NotFound);
      }
      var m := rows[id.value];
      if m.token == token {
        return Err(SameVehicle);
      }
      if (tenant, token) !in w.entitled {
        return Err(NotEntitled);
      }
      var clear := SupersedeOrRefuse(tenant, token, now);
      if !clear {
        return Err(Exists);
      }
      rows := rows[id.value := m.(token := token)];
      moves := moves + [MoveEntry(id.value, m.token, token)];
      r := Ok(id.value);
    }

    method Renew(w: World, now: Moment, tenant: Tenant, id: Option<Id>, term: nat) returns (r: Result<Id, Error>)
      requires Valid(State())
      modifies this
      ensures var q := Request.Renew(tenant, id, term);
              && State() == Apply(old(State()), w, now, q)
              && r == (var e := Refusal(old(State()), w, now, q); if e.Some? then Err(e.value) else Ok(id.value))
      ensures r.Ok? ==>
                id.Some? && id.value in old(rows) &&
                var was := old(rows)[id.value];
                rows == old(rows)[id.value := was.(term := term, expires := AddMonths(if Unix(was.expires) < Unix(now) then now else was.expires, term))]
      ensures Valid(State())
    {
      hide Trails, OneLive;
      ghost var q := Request.Renew(tenant, id, term);
      ApplyKeepsOneLive(State(), w, now, q);
      ApplyKeepsTrails(State(), w, now, q);
      if term !in TERMS {
        return Err(InvalidTerm);
      }
      if id.None? || id.value !in rows || rows[id.value].tenant != tenant || rows[id.value].canceled.Some? {
        return Err(NotFound);
      }
      var m := rows[id.value];
      var from := if Unix(m.expires) >= Unix(now) then m.expires else now;
      rows := rows[id.value := m.(expires := AddMonths(from, term), term := term)];
      r := Ok(id.value);
    }

    method Cancel(w: World, now: Moment, tenant: Tenant, id: Option<Id>) returns (r: Result<Id, Error>)
      requires Valid(State())
      modifies this
      ensures var q := Request.Cancel(tenant, id);
              && State() == Apply(old(State()), w, now, q)
              && r == (var e := Refusal(old(State()), w, now, q); if e.Some? then Err(e.value) else Ok(id.value))
      ensures r.Ok? ==>
                id.Some? && id.value in old(rows) && rows == old(rows)[id.value := old(rows)[id.value].(canceled := Some(now))]
      ensures Valid(State())
    {
      hide Trails, OneLive;
      ghost var q := Request.Cancel(tenant, id);
      ApplyKeepsOneLive(State(), w, now, q);
      ApplyKeepsTrails(State(), w, now, q);
      if id.None? || id.value !in rows || rows[id.value].tenant != tenant || rows[id.value].canceled.Some? {
        return Err(NotFound);
      }
      rows := rows[id.value := rows[id.value].(canceled := Some(now))];
      r := Ok(id.value);
    }
  }

  // ---- Whole runs -------------------------------------------------------

  datatype Event = Event(world: World, now: Moment, request: Request)

  function After(history: seq<Event>): Tables {
    if history == [] then Tables(map[], [], map[])
    else
      var e := history[|history| - 1];
      Apply(After(history[..|history| - 1]), e.world, e.now, e.request)
  }

  ghost predicate Legal(history: seq<Event>)
    decreases |history|
  {
    history == [] ||
    (Legal(history[..|history| - 1]) && FreshIds(After(history[..|history| - 1]), history[|history| - 1].request))
  }

  /** Over any history: one live row per (tenant, vehicle), and every move log leads from creation to the current vehicle. */
  lemma {:induction false} HistoryKeepsValid(history: seq<Event>)
    requires Legal(history)
    ensures Valid(After(history))
    decreases |history|
  {
    if history != [] {
      var front, e := history[..|history| - 1], history[|history| - 1];
      HistoryKeepsValid(front);
      ApplyKeepsOneLive(After(front), e.world, e.now, e.request);
      ApplyKeepsTrails(After(front), e.world, e.now, e.request);
    }
  }

  /**
   What one request can do to an existing membership: its tenant and start never
   change, its expiry never moves back and Move keeps it exactly, only its own
   Move changes its vehicle, and an unexpired one ends only by its own Cancel.
   */
  lemma RequestEffect(t: Tables, w: World, now: Moment, r: Request, id: Id)
    requires id in t.rows && FreshIds(t, r)
    ensures var t' := Apply(t, w, now, r);
            && id in t'.rows
            && t'.rows[id].tenant == t.rows[id].tenant && t'.rows[id].starts == t.rows[id].starts
            && Unix(t.rows[id].expires) <= Unix(t'.rows[id].expires)
            && (!r.Renew? ==> t'.rows[id].expires == t.rows[id].expires)
            && (t'.rows[id].token != t.rows[id].token ==> r.Move? && r.id == Some(id))
            && (Live(t.rows[id]) && !Live(t'.rows[id]) && !Expired(t.rows[id], now) ==> r.Cancel? && r.id == Some(id))
            && (!Live(t.rows[id]) ==> t'.rows[id] == t.rows[id])
  {
    hide Unix;
    if r.Renew? && Refusal(t, w, now, r).None? && r.id == Some(id) {
      AddMonthsIncreases(Greatest(t.rows[id].expires, now), r.term);
    }
  }

  /** Paid time is never shortened: over any history an expiry only grows, and a canceled row is frozen. */
  lemma {:induction false} ExpiryNeverDecreases(history: seq<Event>, n: nat, id: Id)
    requires Legal(history) && n <= |history| && id in After(history[..n]).rows
    ensures id in After(history).rows
    ensures Unix(After(history[..n]).rows[id].expires) <= Unix(After(history).rows[id].expires)
    ensures !Live(After(history[..n]).rows[id]) ==> After(history).rows[id] == After(history[..n]).rows[id]
    decreases |history|
  {
    if n == |history| {
      assert history[..n] == history;
    } else {
      var front, e := history[..|history| - 1], history[|history| - 1];
      assert front[..n] == history[..n];
      ExpiryNeverDecreases(front, n, id);
      RequestEffect(After(front), e.world, e.now, e.request, id);
    }
  }

  // ---- Renewals ---------------------------------------------------------

  /** The request at this position renews the membership. */
  predicate RenewsAt(history: seq<Event>, i: nat, id: Id)
    requires i < |history|
    ensures RenewsAt(history, i, id) ==> history[i].request.Renew?
  {
    var e := history[i];
    e.request.Renew? && e.request.id == Some(id) && Refusal(After(history[..i]), e.world, e.now, e.request).None?
  }

  /** The terms bought for a membership from a position of the history on. */
  function TermsBought(history: seq<Event>, n: nat, id: Id): seq<nat>
    decreases |history|
  {
    if |history| <= n then []
    else
      var last := |history| - 1;
      TermsBought(history[..last], n, id) + (if RenewsAt(history, last, id) then [history[last].request.term] else [])
  }

  /** Each renewal of the membership from there on is made before the expiry it extends. */
  ghost predicate AllEarly(history: seq<Event>, n: nat, id: Id) {
    forall i :: n <= i < |history| && RenewsAt(history, i, id) ==>
      id in After(history[..i]).rows && Unix(history[i].now) <= Unix(After(history[..i]).rows[id].expires)
  }

  /** What the last request did to an expiry: its own renewal, made early, added the term; nothing else moves it. */
  lemma EarlyRenewalAdds(history: seq<Event>, id: Id)
    requires history != [] && Legal(history) && id in After(history[..|history| - 1]).rows
    ensures id in After(history).rows
    ensures var last := |history| - 1;
            var was, now := After(history[..last]).rows[id].expires, After(history).rows[id].expires;
            if !RenewsAt(history, last, id) then now == was
            else Unix(history[last].now) <= Unix(was) ==> now == AddMonths(was, history[last].request.term)
  {
    hide Unix, AddMonths, After;
    assert After(history) == Apply(After(history[..|history| - 1]), history[|history| - 1].world, history[|history| - 1].now, history[|history| - 1].request) by {
      AfterLast(history);
    }
  }

  lemma AfterLast(history: seq<Event>)
    requires history != []
    ensures var e := history[|history| - 1];
            After(history) == Apply(After(history[..|history| - 1]), e.world, e.now, e.request)
  {
    hide Apply;
  }

  lemma AddTermsLast(s: Moment, terms: seq<nat>, term: nat)
    ensures AddTerms(s, terms + [term]) == AddMonths(AddTerms(s, terms), term)
  {
    assert (terms + [term])[..|terms|] == terms;
  }

  lemma AllEarlyPrefix(history: seq<Event>, n: nat, id: Id)
    requires history != [] && AllEarly(history, n, id)
    ensures AllEarly(history[..|history| - 1], n, id)
  {
    hide After, Unix, RenewsAt;
    var front := history[..|history| - 1];
    forall i | n <= i < |front| && RenewsAt(front, i, id)
      ensures id in After(front[..i]).rows && Unix(front[i].now) <= Unix(After(front[..i]).rows[id].expires)
    {
      assert front[..i] == history[..i];
      assert RenewsAt(history, i, id) by { RenewsInPrefix(history, i, id); }
    }
  }

  lemma RenewsInPrefix(history: seq<Event>, i: nat, id: Id)
    requires i < |history| - 1
    ensures RenewsAt(history[..|history| - 1], i, id) <==> RenewsAt(history, i, id)
  {
    hide After, Refusal;
    assert history[..|history| - 1][..i] == history[..i];
  }

  /** However other requests lie between, early renewals add their terms to the expiry one by one. */
  lemma {:induction false} EarlyRenewalsAddTerms(history: seq<Event>, n: nat, id: Id)
    requires Legal(history) && n <= |history| && id in After(history[..n]).rows && AllEarly(history, n, id)
    ensures id in After(history).rows
    ensures After(history).rows[id].expires == AddTerms(After(history[..n]).rows[id].expires, TermsBought(history, n, id))
    decreases |history|
  {
    hide Unix, AddMonths, After, RenewsAt, AddTerms;
    if n == |history| {
      assert history[..n] == history;
      NoTerms(After(history[..n]).rows[id].expires);
    } else {
      var last := |history| - 1;
      var front := history[..last];
      assert front[..n] == history[..n];
      AllEarlyPrefix(history, n, id);
      EarlyRenewalsAddTerms(front, n, id);
      EarlyRenewalAdds(history, id);
      if RenewsAt(history, last, id) {
        AddTermsLast(After(history[..n]).rows[id].expires, TermsBought(front, n, id), history[last].request.term);
      } else {
        assert TermsBought(front, n, id) + [] == TermsBought(front, n, id);
      }
    }
  }

  lemma NoTerms(s: Moment)
    ensures AddTerms(s, []) == s
  {
  }

  /**
   However a customer splits a term into early renewals, and whatever else
   happens meanwhile, the membership ends in the same calendar month as if the
   whole term had been bought at once, never later and at most three days
   earlier.
   */
  lemma EarlyRenewalsBound(history: seq<Event>, n: nat, id: Id)
    requires Legal(history) && n <= |history| && id in After(history[..n]).rows && AllEarly(history, n, id)
    ensures id in After(history).rows
    ensures var split, once := After(history).rows[id].expires, AddMonths(After(history[..n]).rows[id].expires, Sum(TermsBought(history, n, id)));
            && split.month == once.month && split.sec == once.sec
            && Unix(split) <= Unix(once) <= Unix(split) + 3 * 86400
  {
    hide Unix, AddMonths, After, Legal, AllEarly, TermsBought;
    EarlyRenewalsAddTerms(history, n, id);
    RenewalChainBound(After(history[..n]).rows[id].expires, TermsBought(history, n, id));
  }

  // ---- Reads ------------------------------------------------------------

  datatype Status = Canceled | ExpiredStatus | ExpiringSoon | Active

  const EXPIRING_SOON_DAYS := 30

  function StatusOf(m: Membership, now: Moment): Status {
    if m.canceled.Some? then Canceled
    else if Unix(m.expires) <= Unix(now) then ExpiredStatus
    else if Unix(m.expires) <= Unix(now) + EXPIRING_SOON_DAYS * 86400 then ExpiringSoon
    else Active
  }

  /** The four statuses: canceled wins, then expired, then within thirty days of it. */
  lemma StatusIs(m: Membership, now: Moment)
    ensures StatusOf(m, now) == Canceled <==> m.canceled.Some?
    ensures StatusOf(m, now) == Active <==> m.canceled.None? && Unix(now) + 30 * 86400 < Unix(m.expires)
    ensures StatusOf(m, now) == ExpiringSoon <==> m.canceled.None? && Unix(now) < Unix(m.expires) <= Unix(now) + 30 * 86400
    ensures StatusOf(m, now) == ExpiredStatus <==> m.canceled.None? && Unix(m.expires) <= Unix(now)
  {
    hide Unix;
  }

  /** The rows `List` returns for a tenant. */
  function Listed(rows: map<Id, Membership>, tenant: Tenant): set<Id> {
    set id | id in rows && rows[id].tenant == tenant && Live(rows[id])
  }

  /** The token ids `ActiveTokenIDs` returns for a tenant. */
  function ActiveTokens(rows: map<Id, Membership>, tenant: Tenant, now: Moment): set<Token> {
    set id | id in rows && rows[id].tenant == tenant && Live(rows[id]) && Unix(rows[id].expires) > Unix(now) :: rows[id].token
  }

  function PaidIds(rows: map<Id, Membership>, tenant: Tenant, now: Moment): set<Id> {
    set id | id in Listed(rows, tenant) && (StatusOf(rows[id], now) == Active || StatusOf(rows[id], now) == ExpiringSoon)
  }

  /**
   At one clock value the gate and the console agree: a token is active exactly
   when List shows a membership of it as active or expiring soon, and then it
   shows exactly one.
   */
  lemma ReadsAgree(rows: map<Id, Membership>, tenant: Tenant, now: Moment, token: Token)
    requires OneLive(rows)
    ensures token in ActiveTokens(rows, tenant, now) <==> exists id :: id in PaidIds(rows, tenant, now) && rows[id].token == token
    ensures forall i, j :: i in PaidIds(rows, tenant, now) && j in PaidIds(rows, tenant, now) && rows[i].token == rows[j].token ==> i == j
  {
    hide Unix;
    if id :| id in PaidIds(rows, tenant, now) && rows[id].token == token {
      assert id in rows && Live(rows[id]);
    }
  }

  // ---- Writes seen through the reads ------------------------------------

  /**
   After a Create or a Renew that went through, the vehicle reads as paid
   exactly when the term reaches past now; a renewal always does.
   */
  lemma PurchaseIsVisible(t: Tables, w: World, now: Moment, r: Request)
    requires Valid(t) && FreshIds(t, r) && Refusal(t, w, now, r).None?
    ensures r.Create? ==>
              var starts := if r.startsAt.At? then r.startsAt.moment else now;
              (r.token in ActiveTokens(Apply(t, w, now, r).rows, r.tenant, now) <==> Unix(now) < Unix(AddMonths(starts, r.term)))
    ensures r.Renew? ==> t.rows[r.id.value].token in ActiveTokens(Apply(t, w, now, r).rows, r.tenant, now)
    ensures r.Move? ==>
              (r.token in ActiveTokens(Apply(t, w, now, r).rows, r.tenant, now) <==> !Expired(t.rows[r.id.value], now))
  {
    hide Unix, AddMonths, Trails;
    var rows := Apply(t, w, now, r).rows;
    ApplyKeepsOneLive(t, w, now, r);
    match r
    case Create(id, _, _, _, _) => assert Live(rows[id]) && rows[id].tenant == r.tenant && rows[id].token == r.token;
    case Renew(_, id, _) =>
      AddMonthsIncreases(Greatest(t.rows[id.value].expires, now), r.term);
      assert Live(rows[id.value]);
    case Move(_, id, _) => assert Live(rows[id.value]) && rows[id.value].token == r.token;
    case Cancel(_, _) =>
  }

  /** Cancel and Move free the vehicle's slot at once: no membership of it is left to refuse the next Create. */
  lemma SlotIsFreed(t: Tables, w: World, now: Moment, r: Request, later: Moment)
    requires Valid(t) && Refusal(t, w, now, r).None? && (r.Cancel? || r.Move?)
    ensures var was := t.rows[r.id.value];
            !Covered(Apply(t, w, now, r).rows, was.tenant, was.token, later)
            && was.token !in ActiveTokens(Apply(t, w, now, r).rows, was.tenant, later)
  {
    hide Unix, AddMonths, Trails;
  }
}

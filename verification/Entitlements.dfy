/**
 Vehicle entitlements: which customer tenant may see which vehicle. Assign
 batches run vehicle by vehicle, each insert under its own savepoint and the
 one-active-holder index, interleaved with other batches and revokes.
 */
module Entitlements {
  import opened Wrappers

  type Tenant = nat
  type Token = nat

  datatype TenantInfo = TenantInfo(parent: Option<Tenant>, explicit: bool)

  type Tenants = map<Tenant, TenantInfo>

  /** A row per (tenant, vehicle) ever entitled; true while it is in force (revoked_at IS NULL). */
  type Table = map<(Tenant, Token), bool>

  predicate Holds(table: Table, tenant: Tenant, token: Token) {
    (tenant, token) in table && table[(tenant, token)]
  }

  /** Another tenant's row in force is what the unique index collides with. */
  predicate HeldByOther(table: Table, tenant: Tenant, token: Token) {
    exists k :: k in table && k.1 == token && k.0 != tenant && table[k]
  }

  /** At most one active holder per vehicle. */
  ghost predicate OneHolder(table: Table) {
    forall a, b :: a in table && b in table && table[a] && table[b] && a.1 == b.1 ==> a == b
  }

  /** The upsert under its savepoint: refused by the index, or the row (back) in force. */
  function Inserted(table: Table, tenant: Tenant, token: Token): Option<Table> {
    if HeldByOther(table, tenant, token) then None else Some(table[(tenant, token) := true])
  }

  function Revoked(table: Table, tenant: Tenant, token: Token): Table {
    if Holds(table, tenant, token) then table[(tenant, token) := false] else table
  }

  /** A holder that the read at the start of a batch counts as a conflict: an explicit-mode sibling. */
  predicate Sibling(tenants: Tenants, tenant: Tenant, other: Tenant) {
    && tenant in tenants && other in tenants && other != tenant
    && tenants[tenant].parent.Some? && tenants[other].parent == tenants[tenant].parent
    && tenants[other].explicit
  }

  /** `conflictingHolders`, as the set of conflicting vehicles. */
  function Conflicts(tenants: Tenants, table: Table, tenant: Tenant, tokens: seq<Token>): set<Token> {
    set k | k in table && table[k] && k.1 in tokens && Sibling(tenants, tenant, k.0) :: k.1
  }

  // ---- Splitting a batch ------------------------------------------------

  /** `whole` interleaves the two lists, each kept in order, nothing lost and nothing added. */
  predicate Splits(whole: seq<Token>, kept: seq<Token>, refused: seq<Token>)
    decreases |whole|
  {
    if whole == [] then kept == [] && refused == []
    else
      var front, last := whole[..|whole| - 1], whole[|whole| - 1];
      || (kept != [] && kept[|kept| - 1] == last && Splits(front, kept[..|kept| - 1], refused))
      || (refused != [] && refused[|refused| - 1] == last && Splits(front, kept, refused[..|refused| - 1]))
  }

  lemma SplitsNothing()
    ensures Splits([], [], [])
  {
  }

  lemma SplitsExtend(whole: seq<Token>, kept: seq<Token>, refused: seq<Token>, token: Token)
    requires Splits(whole, kept, refused)
    ensures Splits(whole + [token], kept + [token], refused)
    ensures Splits(whole + [token], kept, refused + [token])
  {
    assert (whole + [token])[..|whole + [token]| - 1] == whole;
    assert (kept + [token])[..|kept + [token]| - 1] == kept;
    assert (refused + [token])[..|refused + [token]| - 1] == refused;
  }

  /** In particular every vehicle, with every repetition, has exactly one verdict. */
  lemma {:induction false} SplitsConserve(whole: seq<Token>, kept: seq<Token>, refused: seq<Token>)
    requires Splits(whole, kept, refused)
    ensures multiset(whole) == multiset(kept) + multiset(refused)
    decreases |whole|
  {
    if whole != [] {
      var front, last := whole[..|whole| - 1], whole[|whole| - 1];
      assert whole == front + [last];
      if kept != [] && kept[|kept| - 1] == last && Splits(front, kept[..|kept| - 1], refused) {
        SplitsConserve(front, kept[..|kept| - 1], refused);
        assert kept == kept[..|kept| - 1] + [last];
      } else {
        SplitsConserve(front, kept, refused[..|refused| - 1]);
        assert refused == refused[..|refused| - 1] + [last];
      }
    }
  }

  // ---- Concurrent batches -----------------------------------------------

  /** An Assign call in progress. `conflicts` is what its read at the start found. */
  datatype Batch = Batch(
    tenant: Tenant,
    tokens: seq<Token>,
    conflicts: set<Token>,
    granted: seq<Token>,
    rejected: seq<Token>)

  datatype State = State(table: Table, batches: seq<Batch>)

  datatype Action =
    | Begin(tenant: Tenant, tokens: seq<Token>)
    | AssignNext(batch: nat)
    | Revoke(tenant: Tenant, token: Token)

  function Done(b: Batch): nat { |b.granted| + |b.rejected| }

  predicate Enabled(tenants: Tenants, s: State, a: Action) {
    match a
    case Begin(tenant, _) => tenant in tenants && tenants[tenant].explicit
    case AssignNext(n) => n < |s.batches| && Done(s.batches[n]) < |s.batches[n].tokens|
    case Revoke(_, _) => true
  }

  /** One vehicle of a batch: refused on the read's word or by the index, otherwise in force. */
  function Judge(table: Table, b: Batch, token: Token): (Table, Batch) {
    if token in b.conflicts then (table, b.(rejected := b.rejected + [token]))
    else
      var inserted := Inserted(table, b.tenant, token);
      if inserted.None? then (table, b.(rejected := b.rejected + [token]))
      else (inserted.value, b.(granted := b.granted + [token]))
  }

  function Apply(tenants: Tenants, s: State, a: Action): State
    requires Enabled(tenants, s, a)
  {
    match a
    case Begin(tenant, tokens) =>
      s.(batches := s.batches + [Batch(tenant, tokens, Conflicts(tenants, s.table, tenant, tokens), [], [])])
    case AssignNext(n) =>
      var b := s.batches[n];
      var (table, b') := Judge(s.table, b, b.tokens[Done(b)]);
      State(table, s.batches[n := b'])
    case Revoke(tenant, token) => s.(table := Revoked(s.table, tenant, token))
  }

  predicate Valid(tenants: Tenants, s: State, run: seq<Action>)
    decreases |run|, 0
  {
    run == [] || (Valid(tenants, s, run[..|run| - 1]) && Enabled(tenants, After(tenants, s, run[..|run| - 1]), run[|run| - 1]))
  }

  function After(tenants: Tenants, s: State, run: seq<Action>): State
    requires Valid(tenants, s, run)
    decreases |run|, 1
  {
    if run == [] then s else Apply(tenants, After(tenants, s, run[..|run| - 1]), run[|run| - 1])
  }

  predicate BatchOk(b: Batch) {
    Done(b) <= |b.tokens| && Splits(b.tokens[..Done(b)], b.granted, b.rejected)
  }

  ghost predicate Inv(s: State) {
    OneHolder(s.table) && forall n :: 0 <= n < |s.batches| ==> BatchOk(s.batches[n])
  }

  lemma JudgeKeeps(table: Table, b: Batch)
    requires OneHolder(table) && BatchOk(b) && Done(b) < |b.tokens|
    ensures var r := Judge(table, b, b.tokens[Done(b)]);
            OneHolder(r.0) && BatchOk(r.1)
  {
    hide Splits;
    var k := Done(b);
    var token := b.tokens[k];
    assert b.tokens[..k + 1] == b.tokens[..k] + [token];
    SplitsExtend(b.tokens[..k], b.granted, b.rejected, token);
  }

  lemma StepKeeps(tenants: Tenants, s: State, a: Action)
    requires Inv(s) && Enabled(tenants, s, a)
    ensures Inv(Apply(tenants, s, a))
  {
    hide Judge, BatchOk, Conflicts;
    match a
    case Begin(tenant, tokens) => FreshBatchOk(Batch(tenant, tokens, Conflicts(tenants, s.table, tenant, tokens), [], []));
    case AssignNext(n) => JudgeKeeps(s.table, s.batches[n]);
    case Revoke(_, _) =>
  }

  lemma FreshBatchOk(b: Batch)
    requires b.granted == [] && b.rejected == []
    ensures BatchOk(b)
  {
    assert b.tokens[..0] == [];
  }

  /**
   In every interleaving of per-vehicle steps of concurrent batches and
   revokes: each vehicle has at most one active holder, and every batch has
   split what it has processed, in order and duplicates included, into granted
   and rejected.
   */
  lemma {:induction false} Exclusivity(tenants: Tenants, s: State, run: seq<Action>)
    requires Inv(s) && Valid(tenants, s, run)
    ensures Inv(After(tenants, s, run))
    decreases |run|
  {
    hide Inv, Apply, Enabled;
    if run != [] {
      Exclusivity(tenants, s, run[..|run| - 1]);
      StepKeeps(tenants, After(tenants, s, run[..|run| - 1]), run[|run| - 1]);
    }
  }

  /** A finished batch has given every vehicle of its input exactly one verdict. */
  lemma FinishedBatchConserves(tenants: Tenants, s: State, run: seq<Action>, n: nat)
    requires Inv(s) && Valid(tenants, s, run) && n < |After(tenants, s, run).batches|
    ensures var b := After(tenants, s, run).batches[n];
            Done(b) == |b.tokens| ==>
              Splits(b.tokens, b.granted, b.rejected) && multiset(b.tokens) == multiset(b.granted) + multiset(b.rejected)
  {
    Exclusivity(tenants, s, run);
    var b := After(tenants, s, run).batches[n];
    if Done(b) == |b.tokens| {
      assert b.tokens[..Done(b)] == b.tokens;
      SplitsConserve(b.tokens, b.granted, b.rejected);
    }
  }

  /** A rejection names a vehicle somebody else held, at the read or at the step, and leaves the table alone. */
  lemma RejectionIsJustified(table: Table, b: Batch, token: Token)
    ensures var r := Judge(table, b, token);
            && (r.1.rejected == b.rejected + [token] <==> token in b.conflicts || HeldByOther(table, b.tenant, token))
            && (r.1.rejected != b.rejected ==> r.0 == table)
            && (r.1.granted != b.granted ==> Holds(r.0, b.tenant, token))
            && forall k :: k in table && k != (b.tenant, token) ==> k in r.0 && r.0[k] == table[k]
  {
    assert |b.rejected + [token]| != |b.rejected| && |b.granted + [token]| != |b.granted|;
  }

  /** The index stands in the way exactly when some other tenant holds the vehicle. */
  lemma HeldByOtherIff(table: Table, tenant: Tenant, token: Token)
    ensures HeldByOther(table, tenant, token) <==> exists other :: other != tenant && Holds(table, other, token)
  {
    if k :| k in table && k.1 == token && k.0 != tenant && table[k] {
      assert Holds(table, k.0, token);
    }
    if other :| other != tenant && Holds(table, other, token) {
      assert (other, token).0 != tenant && (other, token).1 == token;
    }
  }

  /** A vehicle is judged by its holder: the tenant's own, or nobody's, is granted unless the read found a conflict. */
  lemma GrantedIff(table: Table, b: Batch, token: Token)
    ensures Judge(table, b, token).1.granted == b.granted + [token] <==>
            token !in b.conflicts && forall other :: Holds(table, other, token) ==> other == b.tenant
  {
    HeldByOtherIff(table, b.tenant, token);
    RejectionIsJustified(table, b, token);
    assert b.granted + [token] != b.granted && b.rejected + [token] != b.rejected;
  }

  /** The read finds exactly the asked-for vehicles that another explicit-mode customer of the same operator holds. */
  lemma ConflictsAre(tenants: Tenants, table: Table, tenant: Tenant, tokens: seq<Token>, token: Token)
    ensures token in Conflicts(tenants, table, tenant, tokens) <==>
            && token in tokens && tenant in tenants && tenants[tenant].parent.Some?
            && exists other :: other in tenants && other != tenant && tenants[other].parent == tenants[tenant].parent && tenants[other].explicit
                               && Holds(table, other, token)
  {
    if token in Conflicts(tenants, table, tenant, tokens) {
      var k :| k in table && table[k] && k.1 in tokens && Sibling(tenants, tenant, k.0) && k.1 == token;
      assert Holds(table, k.0, token);
    }
    if token in tokens && tenant in tenants && tenants[tenant].parent.Some? {
      if other :| other in tenants && other != tenant && tenants[other].parent == tenants[tenant].parent && tenants[other].explicit
                  && Holds(table, other, token) {
        assert Sibling(tenants, tenant, other) && (other, token).1 == token && (other, token).0 == other;
      }
    }
  }

  lemma ConflictIsHeld(tenants: Tenants, table: Table, tenant: Tenant, tokens: seq<Token>, token: Token)
    requires token in Conflicts(tenants, table, tenant, tokens)
    ensures HeldByOther(table, tenant, token)
  {
  }

  /** The step of a run at which a batch gets a vehicle. */
  ghost predicate GrantsAt(tenants: Tenants, s: State, run: seq<Action>, m: nat, n: nat, token: Token)
    requires Valid(tenants, s, run)
  {
    && m < |run| && run[m] == AssignNext(n)
    && Valid(tenants, s, run[..m]) && Enabled(tenants, After(tenants, s, run[..m]), run[m])
    && var before, after := After(tenants, s, run[..m]), Apply(tenants, After(tenants, s, run[..m]), run[m]);
       after.batches[n].granted == before.batches[n].granted + [token]
  }

  /** Every vehicle in a batch's granted list got there at some step. */
  lemma {:induction false} GrantedAtSomeStep(tenants: Tenants, s: State, run: seq<Action>, n: nat, token: Token) returns (m: nat)
    requires s.batches == [] && Valid(tenants, s, run) && n < |After(tenants, s, run).batches|
    requires token in After(tenants, s, run).batches[n].granted
    ensures GrantsAt(tenants, s, run, m, n, token)
    decreases |run|
  {
    hide Judge;
    var front, a := run[..|run| - 1], run[|run| - 1];
    var before := After(tenants, s, front);
    if n < |before.batches| && token in before.batches[n].granted {
      m := GrantedAtSomeStep(tenants, s, front, n, token);
      assert front[..m] == run[..m];
    } else {
      m := |front|;
      assert a == AssignNext(n);
      JudgedOne(before.table, before.batches[n], before.batches[n].tokens[Done(before.batches[n])], token);
    }
  }

  lemma JudgedOne(table: Table, b: Batch, next: Token, token: Token)
    requires token in Judge(table, b, next).1.granted && token !in b.granted
    ensures Judge(table, b, next).1.granted == b.granted + [token]
  {
  }

  /** A vehicle held at some point of a run is held at its end unless its holder is revoked in between. */
  lemma {:induction false} HeldUntilRevoked(tenants: Tenants, s: State, run: seq<Action>, m: nat, tenant: Tenant, token: Token)
    requires Valid(tenants, s, run) && m <= |run| && Valid(tenants, s, run[..m])
    requires Holds(After(tenants, s, run[..m]).table, tenant, token)
    ensures Holds(After(tenants, s, run).table, tenant, token) || Revoke(tenant, token) in run[m..]
    decreases |run|
  {
    if m == |run| {
      assert run[..m] == run;
    } else {
      var front, a := run[..|run| - 1], run[|run| - 1];
      assert front[..m] == run[..m] && run[m..] == front[m..] + [a];
      HeldUntilRevoked(tenants, s, front, m, tenant, token);
    }
  }

  /** A vehicle a tenant does not hold stays so until some step grants it to that tenant. */
  lemma {:induction false} UnheldUntilGranted(tenants: Tenants, s: State, run: seq<Action>, m: nat, tenant: Tenant, token: Token)
    requires Valid(tenants, s, run) && m <= |run| && Valid(tenants, s, run[..m])
    requires !Holds(After(tenants, s, run[..m]).table, tenant, token)
    ensures !Holds(After(tenants, s, run).table, tenant, token) || exists i: nat :: m <= i < |run| && GivesAt(tenants, s, run, i, tenant, token)
    decreases |run|
  {
    hide Judge;
    if m == |run| {
      assert run[..m] == run;
    } else {
      var n := |run| - 1;
      var front, a := run[..n], run[n];
      assert front[..m] == run[..m];
      UnheldUntilGranted(tenants, s, front, m, tenant, token);
      var before := After(tenants, s, front);
      if Holds(before.table, tenant, token) {
        var i: nat :| m <= i < |front| && GivesAt(tenants, s, front, i, tenant, token);
        assert front[..i] == run[..i];
        assert GivesAt(tenants, s, run, i, tenant, token);
      } else if Holds(After(tenants, s, run).table, tenant, token) {
        assert a.AssignNext?;
        JudgeGives(before.table, before.batches[a.batch], tenant, token);
        assert GivesAt(tenants, s, run, n, tenant, token);
      }
    }
  }

  /** The step at this position judges this vehicle, for a batch of this tenant, and the tenant holds it afterwards. */
  ghost predicate GivesAt(tenants: Tenants, s: State, run: seq<Action>, i: nat, tenant: Tenant, token: Token)
    requires Valid(tenants, s, run)
  {
    && i < |run| && run[i].AssignNext? && Valid(tenants, s, run[..i]) && Enabled(tenants, After(tenants, s, run[..i]), run[i])
    && var b := After(tenants, s, run[..i]).batches[run[i].batch];
       b.tenant == tenant && b.tokens[Done(b)] == token && Holds(Apply(tenants, After(tenants, s, run[..i]), run[i]).table, tenant, token)
  }

  lemma JudgeGives(table: Table, b: Batch, tenant: Tenant, token: Token)
    requires Done(b) < |b.tokens| && !Holds(table, tenant, token) && Holds(Judge(table, b, b.tokens[Done(b)]).0, tenant, token)
    ensures b.tenant == tenant && b.tokens[Done(b)] == token
  {
  }

  /** A vehicle its holder loses and nobody is given afterwards is held by nobody at the end. */
  lemma RevokedStaysFree(tenants: Tenants, s: State, run: seq<Action>, m: nat, tenant: Tenant, token: Token, other: Tenant)
    requires Inv(s) && Valid(tenants, s, run) && m < |run| && run[m] == Revoke(tenant, token) && Valid(tenants, s, run[..m])
    requires Holds(After(tenants, s, run[..m]).table, tenant, token)
    requires forall i: nat, t | m < i < |run| :: !GivesAt(tenants, s, run, i, t, token)
    ensures !Holds(After(tenants, s, run).table, other, token)
  {
    hide Judge;
    var before := After(tenants, s, run[..m]);
    Exclusivity(tenants, s, run[..m]);
    assert run[..m + 1][..m] == run[..m] && run[..m + 1][m] == run[m];
    assert Valid(tenants, s, run[..m + 1]) && After(tenants, s, run[..m + 1]).table == Revoked(before.table, tenant, token);
    assert !Holds(Revoked(before.table, tenant, token), other, token) by {
      if Holds(before.table, other, token) {
        assert (other, token) in before.table && (tenant, token) in before.table;
      }
    }
    UnheldUntilGranted(tenants, s, run, m + 1, other, token);
  }

  /** What a step of a batch granted is held at the end of the run, unless it is revoked after that step: no rejection undoes it. */
  lemma AssignedStaysHeld(tenants: Tenants, s: State, run: seq<Action>, m: nat, n: nat, token: Token)
    requires Valid(tenants, s, run) && GrantsAt(tenants, s, run, m, n, token)
    ensures var tenant := After(tenants, s, run[..m]).batches[n].tenant;
            Holds(After(tenants, s, run).table, tenant, token) || Revoke(tenant, token) in run[m + 1..]
  {
    var before := After(tenants, s, run[..m]);
    var b := before.batches[n];
    assert run[..m + 1][..m] == run[..m] && run[..m + 1][m] == run[m];
    RejectionIsJustified(before.table, b, b.tokens[Done(b)]);
    assert b.granted + [token] != b.granted && (b.granted + [token])[|b.granted|] == token;
    assert Valid(tenants, s, run[..m + 1]) && Holds(After(tenants, s, run[..m + 1]).table, b.tenant, token);
    HeldUntilRevoked(tenants, s, run, m + 1, b.tenant, token);
  }

  // ---- One batch, as the service runs it --------------------------------

  /** What other transactions do between two statements of a batch. */
  datatype Foreign = TheyAssign(tenant: Tenant, token: Token) | TheyRevoke(tenant: Tenant, token: Token)

  function TheyDid(table: Table, events: seq<Foreign>): Table {
    if events == [] then table
    else
      var before := TheyDid(table, events[..|events| - 1]);
      match events[|events| - 1]
      case TheyAssign(tenant, token) =>
        var inserted := Inserted(before, tenant, token);
        if inserted.Some? then inserted.value else before
      case TheyRevoke(tenant, token) => Revoked(before, tenant, token)
  }

  /** The first vehicles of a batch, judged one by one with others' work before each. */
  function JudgeAll(table: Table, b: Batch, between: seq<seq<Foreign>>): (Table, Batch)
    requires |between| <= |b.tokens|
  {
    if between == [] then (table, b)
    else
      var n := |between| - 1;
      var (table', b') := JudgeAll(table, b, between[..n]);
      Judge(TheyDid(table', between[n]), b', b.tokens[n])
  }

  class EntitlementService {
    var table: Table

    constructor ()
      ensures table == map[] && OneHolder(table)
    {
      table := map[];
    }

    method RevokeOne(tenant: Tenant, token: Token) returns (found: bool)
      requires OneHolder(table)
      modifies this
      ensures found <==> Holds(old(table), tenant, token)
      ensures table == Revoked(old(table), tenant, token) && OneHolder(table)
      ensures !Holds(table, tenant, token)
      ensures table.Keys == old(table).Keys && forall k :: k in table && k != (tenant, token) ==> table[k] == old(table)[k]
    {
      found := (tenant, token) in table && table[(tenant, token)];
      if found {
        table := table[(tenant, token) := false];
      }
    }

    method InsertOne(tenant: Tenant, token: Token) returns (ok: bool)
      requires OneHolder(table)
      modifies this
      ensures ok <==> Inserted(old(table), tenant, token).Some?
      ensures table == if ok then Inserted(old(table), tenant, token).value else old(table)
      ensures ok <==> forall other :: Holds(old(table), other, token) ==> other == tenant
      ensures ok ==> Holds(table, tenant, token)
      ensures forall k :: k != (tenant, token) ==> (k in table <==> k in old(table)) && (k in table ==> table[k] == old(table)[k])
      ensures OneHolder(table)
    {
      HeldByOtherIff(table, tenant, token);
      ok := !HeldByOther(table, tenant, token);
      if ok {
        table := table[(tenant, token) := true];
      }
    }

    method Interfere(events: seq<Foreign>)
      requires OneHolder(table)
      modifies this
      ensures table == TheyDid(old(table), events) && OneHolder(table)
    {
      for i := 0 to |events|
        invariant table == TheyDid(old(table), events[..i]) && OneHolder(table)
      {
        assert events[..i + 1][..i] == events[..i];
        match events[i] {
          case TheyAssign(tenant, token) => var _ := InsertOne(tenant, token);
          case TheyRevoke(tenant, token) => var _ := RevokeOne(tenant, token);
        }
      }
      assert events[..|events|] == events;
    }

    /** One vehicle: skip it on the read's word, otherwise try the insert under its savepoint. */
    method AssignOne(tenant: Tenant, token: Token, conflicts: set<Token>, ghost b: Batch) returns (ok: bool)
      requires OneHolder(table) && b.tenant == tenant && b.conflicts == conflicts
      modifies this
      ensures (table, if ok then b.(granted := b.granted + [token]) else b.(rejected := b.rejected + [token]))
              == Judge(old(table), b, token)
      ensures OneHolder(table)
    {
      hide OneHolder;
      if token in conflicts {
        return false;
      }
      ok := InsertOne(tenant, token);
    }

    /** `Assign`, with arbitrary other transactions before each vehicle. */
    method Assign(tenants: Tenants, tenant: Tenant, tokens: seq<Token>, between: seq<seq<Foreign>>)
      returns (refused: bool, granted: seq<Token>, rejected: seq<Token>)
      requires OneHolder(table) && |between| == |tokens|
      modifies this
      ensures OneHolder(table)
      ensures refused <==> tokens != [] && !(tenant in tenants && tenants[tenant].explicit)
      ensures refused ==> table == old(table) && granted == [] && rejected == []
      ensures !refused ==> Splits(tokens, granted, rejected)
      ensures !refused && tokens != [] ==>
                var conflicts := Conflicts(tenants, old(table), tenant, tokens);
                (table, Batch(tenant, tokens, conflicts, granted, rejected))
                == JudgeAll(old(table), Batch(tenant, tokens, conflicts, [], []), between)
    {
      hide OneHolder, Conflicts, TheyDid, Splits, Judge;
      refused, granted, rejected := false, [], [];
      SplitsNothing();
      if tokens == [] {
        return;
      }
      if tenant !in tenants || !tenants[tenant].explicit {
        refused := true;
        return;
      }
      var conflicts := Conflicts(tenants, table, tenant, tokens);
      ghost var start := Batch(tenant, tokens, conflicts, [], []);
      assert tokens[..0] == [] && between[..0] == [];
      for i := 0 to |tokens|
        invariant OneHolder(table)
        invariant Splits(tokens[..i], granted, rejected)
        invariant (table, Batch(tenant, tokens, conflicts, granted, rejected)) == JudgeAll(old(table), start, between[..i])
      {
        Interfere(between[i]);
        var token := tokens[i];
        assert tokens[..i + 1] == tokens[..i] + [token];
        assert between[..i + 1][..i] == between[..i];
        SplitsExtend(tokens[..i], granted, rejected, token);
        var ok := AssignOne(tenant, token, conflicts, Batch(tenant, tokens, conflicts, granted, rejected));
        if ok {
          granted := granted + [token];
        } else {
          rejected := rejected + [token];
        }
      }
      assert tokens[..|tokens|] == tokens && between[..|between|] == between;
    }
  }
}

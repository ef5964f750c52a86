/**
 The two backfill merges: one membership folded across every source row that
 mentions it, and fleet groups with their vehicle memberships folded across
 both source systems. What each fold must be is stated without reference to
 the order of the rows.
 */
module Backfill {
  import opened Wrappers
  import opened Lists

  type Time = int

  // ---- Memberships of people --------------------------------------------

  /** One source's view of a membership. */
  datatype SourceRow = SourceRow(
    role: string,
    perms: seq<string>,
    unrestricted: bool,
    groups: seq<string>,
    email: Option<string>,
    lastLogin: Option<Time>)

  datatype Access = Access(
    role: string,
    perms: set<string>,
    unrestricted: bool,
    groups: set<string>,
    email: Option<string>,
    lastLogin: Option<Time>)

  function RoleRank(role: string): nat {
    if role == "owner" then 3 else if role == "admin" then 2 else 1
  }

  function Later(a: Option<Time>, b: Option<Time>): Option<Time> {
    if b.Some? && (a.None? || b.value > a.value) then b else a
  }

  const NO_ACCESS := Access("", {}, false, {}, None, None)

  function Merge(a: Access, r: SourceRow): Access {
    Access(
      if a.role == "" || RoleRank(r.role) > RoleRank(a.role) then r.role else a.role,
      a.perms + Elements(r.perms),
      a.unrestricted || r.unrestricted,
      a.groups + Elements(r.groups),
      if a.email.None? then r.email else a.email,
      Later(a.lastLogin, r.lastLogin))
  }

  function Fold(rows: seq<SourceRow>): Access {
    if rows == [] then NO_ACCESS else Merge(Fold(rows[..|rows| - 1]), rows[|rows| - 1])
  }

  /** The scope column: NULL for unrestricted, otherwise the union, which may be empty. */
  function ScopeArg(a: Access): Option<set<string>> {
    if a.unrestricted then None else Some(a.groups)
  }

  /** The loop that marks each string of a list in a set. */
  method AddEach(had: set<string>, add: seq<string>) returns (all: set<string>)
    ensures all == had + Elements(add)
  {
    all := had;
    for i := 0 to |add|
      invariant all == had + Elements(add[..i])
    {
      assert add[..i + 1] == add[..i] + [add[i]];
      all := all + {add[i]};
    }
    assert add[..|add|] == add;
  }

  /** `memberAccess`, merged in place. */
  class MemberAccess {
    var role: string
    var perms: set<string>
    var unrestricted: bool
    var groups: set<string>
    var email: Option<string>
    var lastLogin: Option<Time>

    function View(): Access
      reads this
    {
      Access(role, perms, unrestricted, groups, email, lastLogin)
    }

    constructor ()
      ensures View() == NO_ACCESS
    {
      role, perms, unrestricted, groups, email, lastLogin := "", {}, false, {}, None, None;
    }

    method MergeRow(r: SourceRow)
      modifies this
      ensures View() == Merge(old(View()), r)
    {
      if role == "" || RoleRank(r.role) > RoleRank(role) {
        role := r.role;
      }
      perms := AddEach(perms, r.perms);
      if r.unrestricted {
        unrestricted := true;
      }
      groups := AddEach(groups, r.groups);
      if email.None? && r.email.Some? {
        email := r.email;
      }
      if r.lastLogin.Some? && (lastLogin.None? || r.lastLogin.value > lastLogin.value) {
        lastLogin := r.lastLogin;
      }
    }
  }

  /** What a merged membership must be, row order aside. */
  ghost predicate MergesAll(a: Access, rows: seq<SourceRow>) {
    MergesGrants(a, rows) && MergesRole(a, rows) && MergesLogin(a, rows)
  }

  ghost predicate MergesGrants(a: Access, rows: seq<SourceRow>) {
    && (forall p :: p in a.perms <==> exists r :: r in rows && p in r.perms)
    && (forall g :: g in a.groups <==> exists r :: r in rows && g in r.groups)
    && (a.unrestricted <==> exists r :: r in rows && r.unrestricted)
  }

  ghost predicate MergesRole(a: Access, rows: seq<SourceRow>) {
    && (forall r :: r in rows ==> RoleRank(r.role) <= RoleRank(a.role))
    && (RoleRank(a.role) == 1 || exists r :: r in rows && RoleRank(r.role) == RoleRank(a.role))
  }

  ghost predicate MergesLogin(a: Access, rows: seq<SourceRow>) {
    && (a.lastLogin.Some? ==> exists r :: r in rows && r.lastLogin == a.lastLogin)
    && (forall r :: r in rows && r.lastLogin.Some? ==> a.lastLogin.Some? && r.lastLogin.value <= a.lastLogin.value)
  }

  lemma {:induction false} FoldMergesAll(rows: seq<SourceRow>)
    ensures MergesAll(Fold(rows), rows)
  {
    hide MergesAll, Merge;
    if rows == [] {
      NothingMerged();
    } else {
      var front, last := rows[..|rows| - 1], rows[|rows| - 1];
      FoldMergesAll(front);
      MergeOneMore(Fold(front), front, last);
      assert rows == front + [last];
    }
  }

  lemma NothingMerged()
    ensures MergesAll(NO_ACCESS, [])
  {
  }

  lemma MergeOneMore(a: Access, front: seq<SourceRow>, last: SourceRow)
    requires MergesAll(a, front)
    ensures MergesAll(Merge(a, last), front + [last])
  {
    GrantsOneMore(a, front, last);
    RoleOneMore(a, front, last);
    LoginOneMore(a, front, last);
    hide MergesGrants, MergesRole, MergesLogin;
  }

  lemma GrantsOneMore(a: Access, front: seq<SourceRow>, last: SourceRow)
    requires MergesGrants(a, front)
    ensures MergesGrants(Merge(a, last), front + [last])
  {
    var rows := front + [last];
    assert forall r :: r in rows <==> r in front || r == last;
    assert last in rows;
  }

  lemma RoleOneMore(a: Access, front: seq<SourceRow>, last: SourceRow)
    requires MergesRole(a, front)
    ensures MergesRole(Merge(a, last), front + [last])
  {
    var rows := front + [last];
    assert forall r :: r in rows <==> r in front || r == last;
    assert last in rows;
  }

  lemma LoginOneMore(a: Access, front: seq<SourceRow>, last: SourceRow)
    requires MergesLogin(a, front)
    ensures MergesLogin(Merge(a, last), front + [last])
  {
    var rows := front + [last];
    assert forall r :: r in rows <==> r in front || r == last;
    assert last in rows;
  }

  /**
   Reading the same rows in any order, any number of times, gives the same
   permissions, scope, last login and role rank.
   */
  lemma MemberMergeIsOrderFree(a: seq<SourceRow>, b: seq<SourceRow>)
    requires forall r :: r in a <==> r in b
    ensures Fold(a).perms == Fold(b).perms && ScopeArg(Fold(a)) == ScopeArg(Fold(b)) && Fold(a).groups == Fold(b).groups
    ensures Fold(a).lastLogin == Fold(b).lastLogin && RoleRank(Fold(a).role) == RoleRank(Fold(b).role)
  {
    hide Fold;
    FoldMergesAll(a);
    FoldMergesAll(b);
    MergedIsDetermined(Fold(a), a, Fold(b), b);
  }

  lemma MergedIsDetermined(x: Access, a: seq<SourceRow>, y: Access, b: seq<SourceRow>)
    requires forall r :: r in a <==> r in b
    requires MergesAll(x, a) && MergesAll(y, b)
    ensures x.perms == y.perms && x.groups == y.groups && x.unrestricted == y.unrestricted
    ensures x.lastLogin == y.lastLogin && RoleRank(x.role) == RoleRank(y.role)
  {
    assert x.unrestricted <==> exists r :: r in b && r.unrestricted;
  }

  // What does follow reading order: the address, and the label of a plain member.

  /** The first row read that has an email address. */
  ghost predicate EmailAt(rows: seq<SourceRow>, i: nat) {
    i < |rows| && rows[i].email.Some? && forall j :: 0 <= j < i ==> rows[j].email.None?
  }

  lemma {:induction false} FirstEmailWins(rows: seq<SourceRow>, i: nat)
    requires EmailAt(rows, i)
    ensures Fold(rows).email == rows[i].email
    decreases |rows|
  {
    var front := rows[..|rows| - 1];
    if i < |front| {
      FirstEmailWins(front, i);
    } else {
      EmailIsSomeRows(front);
    }
  }

  lemma {:induction false} EmailIsSomeRows(rows: seq<SourceRow>)
    ensures if Fold(rows).email.Some? then exists r :: r in rows && r.email == Fold(rows).email else forall r :: r in rows ==> r.email.None?
  {
    if rows != [] {
      hide RoleRank, Elements, Later;
      var front, last := rows[..|rows| - 1], rows[|rows| - 1];
      EmailIsSomeRows(front);
      assert rows == front + [last] && last in rows;
      if r :| r in front && r.email == Fold(front).email {
        assert r in rows;
      }
    }
  }

  /** The merged address is the same in every reading order exactly when no two rows carry different ones. */
  lemma EmailIsOrderFreeIff(a: seq<SourceRow>)
    ensures (forall b :: multiset(b) == multiset(a) ==> Fold(b).email == Fold(a).email) <==>
            (forall r, q :: r in a && q in a && r.email.Some? && q.email.Some? ==> r.email == q.email)
  {
    hide Fold;
    if forall r, q :: r in a && q in a && r.email.Some? && q.email.Some? ==> r.email == q.email {
      forall b | multiset(b) == multiset(a) ensures Fold(b).email == Fold(a).email {
        SameElements(a, b);
        EmailIsSomeRows(a);
        EmailIsSomeRows(b);
      }
    } else {
      var r, q :| r in a && q in a && r.email.Some? && q.email.Some? && r.email != q.email;
      var b := MovedToFront(a, r);
      var c := MovedToFront(a, q);
      FirstEmailWins([r] + b, 0);
      FirstEmailWins([q] + c, 0);
    }
  }

  /** The first row read that has a role label of the highest rank. */
  ghost predicate RoleAt(rows: seq<SourceRow>, i: nat) {
    && i < |rows| && rows[i].role != ""
    && (forall j :: 0 <= j < |rows| ==> RoleRank(rows[j].role) <= RoleRank(rows[i].role))
    && (forall j :: 0 <= j < i ==> rows[j].role == "" || RoleRank(rows[j].role) < RoleRank(rows[i].role))
  }

  lemma {:induction false} FirstBestRoleWins(rows: seq<SourceRow>, i: nat)
    requires RoleAt(rows, i)
    ensures Fold(rows).role == rows[i].role
    decreases |rows|
  {
    var front := rows[..|rows| - 1];
    if i < |front| {
      FirstBestRoleWins(front, i);
    } else {
      RoleIsSomeRows(front);
    }
  }

  lemma {:induction false} RoleIsSomeRows(rows: seq<SourceRow>)
    ensures if Fold(rows).role != "" then exists r :: r in rows && r.role == Fold(rows).role else forall r :: r in rows ==> r.role == ""
  {
    if rows != [] {
      hide RoleRank, Elements, Later;
      var front, last := rows[..|rows| - 1], rows[|rows| - 1];
      RoleIsSomeRows(front);
      assert rows == front + [last] && last in rows;
      if r :| r in front && r.role == Fold(front).role {
        assert r in rows;
      }
    }
  }

  /** An owner's row makes the label "owner"; failing that, an admin's makes it "admin"; failing both it is neither. */
  lemma HighestLabelWins(rows: seq<SourceRow>)
    ensures Fold(rows).role == "owner" <==> exists r :: r in rows && r.role == "owner"
    ensures Fold(rows).role == "admin" <==> (exists r :: r in rows && r.role == "admin") && forall r :: r in rows ==> r.role != "owner"
  {
    hide Fold;
    FoldMergesAll(rows);
    RoleIsSomeRows(rows);
  }

  /** The scope is unrestricted exactly when some row says so, otherwise exactly the groups of the rows. */
  lemma ScopeIs(rows: seq<SourceRow>)
    ensures ScopeArg(Fold(rows)).None? <==> exists r :: r in rows && r.unrestricted
    ensures ScopeArg(Fold(rows)).Some? ==> forall g :: g in ScopeArg(Fold(rows)).value <==> exists r :: r in rows && g in r.groups
  {
    hide Fold;
    FoldMergesAll(rows);
  }

  /** Some row is an owner's or an admin's. */
  ghost predicate AnyRanked(rows: seq<SourceRow>) {
    exists r :: r in rows && RoleRank(r.role) > 1
  }

  ghost predicate LabelsAgree(rows: seq<SourceRow>) {
    forall r, q :: r in rows && q in rows && r.role != "" && q.role != "" ==> r.role == q.role
  }

  /**
   The merged label is the same in every reading order exactly when some row is
   an owner's or an admin's, or no two rows carry different labels.
   */
  lemma RoleLabelIsOrderFreeIff(a: seq<SourceRow>)
    ensures (forall b :: multiset(b) == multiset(a) ==> Fold(b).role == Fold(a).role) <==> AnyRanked(a) || LabelsAgree(a)
  {
    hide Fold;
    FoldMergesAll(a);
    if AnyRanked(a) || LabelsAgree(a) {
      forall b | multiset(b) == multiset(a) ensures Fold(b).role == Fold(a).role {
        SameElements(a, b);
        MemberMergeIsOrderFree(a, b);
        RoleIsSomeRows(a);
        RoleIsSomeRows(b);
      }
    } else {
      var r, q :| r in a && q in a && r.role != "" && q.role != "" && r.role != q.role;
      ReadFirstLabels(a, r);
      ReadFirstLabels(a, q);
    }
  }

  /** Among plain members, whoever is read first gives the label. */
  lemma ReadFirstLabels(a: seq<SourceRow>, r: SourceRow)
    requires r in a && r.role != "" && RoleRank(Fold(a).role) == 1
    ensures exists b :: multiset(b) == multiset(a) && Fold(b).role == r.role
  {
    hide Fold;
    var rest := MovedToFront(a, r);
    var b := [r] + rest;
    SameElements(a, b);
    MemberMergeIsOrderFree(a, b);
    FoldMergesAll(b);
    assert forall j :: 0 <= j < |b| ==> b[j] in b && RoleRank(b[j].role) <= 1;
    FirstBestRoleWins(b, 0);
  }

  /** Migrating removes no access: the merged membership has at least what any one row has. */
  lemma MergeNeverRemoves(rows: seq<SourceRow>, r: SourceRow)
    requires r in rows
    ensures Elements(r.perms) <= Fold(rows).perms && RoleRank(r.role) <= RoleRank(Fold(rows).role)
    ensures r.unrestricted ==> ScopeArg(Fold(rows)) == None
    ensures ScopeArg(Fold(rows)).Some? ==> Elements(r.groups) <= ScopeArg(Fold(rows)).value
  {
    FoldMergesAll(rows);
  }

  // ---- Fleet groups -----------------------------------------------------

  datatype SrcGroup = SrcGroup(id: string, tenant: string, name: string, color: string, created: Time, updated: Time, source: string)

  datatype MergedGroup = MergedGroup(group: SrcGroup, sources: nat)

  function CountOf(rows: seq<SrcGroup>, id: string): nat {
    if rows == [] then 0 else CountOf(rows[..|rows| - 1], id) + (if rows[|rows| - 1].id == id then 1 else 0)
  }

  /** Two rows claim one id for different tenants. */
  ghost predicate Disagree(rows: seq<SrcGroup>) {
    exists a, b :: a in rows && b in rows && a.id == b.id && a.tenant != b.tenant
  }

  /** What the merged group of an id must be, row order aside: earliest creation, latest update, metadata of a latest row. */
  ghost predicate IsMerge(rows: seq<SrcGroup>, id: string, m: MergedGroup) {
    && m.group.id == id
    && m.sources == CountOf(rows, id)
    && (forall r :: r in rows && r.id == id ==> r.tenant == m.group.tenant && m.group.created <= r.created && r.updated <= m.group.updated)
    && (exists r :: r in rows && r.id == id && r.created == m.group.created)
    && (exists r :: r in rows && r.id == id && SameMetadata(r, m.group))
  }

  predicate SameMetadata(r: SrcGroup, g: SrcGroup) {
    r.updated == g.updated && r.name == g.name && r.color == g.color && r.source == g.source
  }

  ghost predicate MergesGroups(rows: seq<SrcGroup>, merged: map<string, MergedGroup>) {
    && (forall id :: id in merged <==> exists r :: r in rows && r.id == id)
    && (forall id :: id in merged ==> IsMerge(rows, id, merged[id]))
  }

  /** Folding one more row of a known id into its merged group. */
  function Absorb(cur: MergedGroup, g: SrcGroup): MergedGroup {
    var a := if g.updated > cur.group.updated
             then cur.group.(name := g.name, color := g.color, updated := g.updated, source := g.source)
             else cur.group;
    MergedGroup(if g.created < a.created then a.(created := g.created) else a, cur.sources + 1)
  }

  lemma {:induction false} NoneCounted(rows: seq<SrcGroup>, id: string)
    requires forall r :: r in rows ==> r.id != id
    ensures CountOf(rows, id) == 0
  {
    if rows != [] {
      NoneCounted(rows[..|rows| - 1], id);
    }
  }

  lemma CountStep(rows: seq<SrcGroup>, g: SrcGroup, id: string)
    ensures CountOf(rows + [g], id) == CountOf(rows, id) + (if g.id == id then 1 else 0)
  {
    assert (rows + [g])[..|rows + [g]| - 1] == rows;
  }

  lemma AbsorbKeeps(rows: seq<SrcGroup>, cur: MergedGroup, g: SrcGroup)
    requires IsMerge(rows, g.id, cur) && cur.group.tenant == g.tenant
    ensures IsMerge(rows + [g], g.id, Absorb(cur, g))
  {
    hide CountOf;
    CountStep(rows, g, g.id);
    var m := Absorb(cur, g);
    var c :| c in rows && c.id == g.id && c.created == cur.group.created;
    var d :| d in rows && d.id == g.id && SameMetadata(d, cur.group);
    var c' := if g.created < cur.group.created then g else c;
    var d' := if g.updated > cur.group.updated then g else d;
    assert c' in rows + [g] && c'.id == g.id && c'.created == m.group.created;
    assert d' in rows + [g] && d'.id == g.id && SameMetadata(d', m.group);
  }

  lemma FirstOfItsId(rows: seq<SrcGroup>, g: SrcGroup)
    requires forall r :: r in rows ==> r.id != g.id
    ensures IsMerge(rows + [g], g.id, MergedGroup(g, 1))
  {
    NoneCounted(rows, g.id);
    CountStep(rows, g, g.id);
    assert g in rows + [g];
  }

  lemma OthersKeep(rows: seq<SrcGroup>, g: SrcGroup, id: string, m: MergedGroup)
    requires IsMerge(rows, id, m) && id != g.id
    ensures IsMerge(rows + [g], id, m)
  {
    hide CountOf;
    CountStep(rows, g, id);
    var c :| c in rows && c.id == id && c.created == m.group.created;
    var d :| d in rows && d.id == id && SameMetadata(d, m.group);
    assert c in rows + [g] && d in rows + [g];
  }

  function AddGroup(merged: map<string, MergedGroup>, g: SrcGroup): map<string, MergedGroup> {
    merged[g.id := if g.id in merged then Absorb(merged[g.id], g) else MergedGroup(g, 1)]
  }

  /** The rows folded one by one, as read. */
  function FoldGroups(rows: seq<SrcGroup>): map<string, MergedGroup> {
    if rows == [] then map[] else AddGroup(FoldGroups(rows[..|rows| - 1]), rows[|rows| - 1])
  }

  lemma AddGroupKeeps(front: seq<SrcGroup>, merged: map<string, MergedGroup>, g: SrcGroup)
    requires MergesGroups(front, merged)
    requires g.id in merged ==> merged[g.id].group.tenant == g.tenant
    ensures MergesGroups(front + [g], AddGroup(merged, g))
  {
    hide IsMerge, Absorb;
    if g.id in merged {
      AbsorbKeeps(front, merged[g.id], g);
    } else {
      FirstOfItsId(front, g);
    }
    forall id | id in merged && id != g.id ensures IsMerge(front + [g], id, merged[id]) {
      OthersKeep(front, g, id, merged[id]);
    }
    GroupsOneMore(front, g, AddGroup(merged, g));
  }

  /** `mergeGroups`: refuses exactly on a tenant disagreement, otherwise folds every row into its id. */
  method MergeGroups(rows: seq<SrcGroup>) returns (r: Option<map<string, MergedGroup>>)
    ensures r.None? <==> Disagree(rows)
    ensures r.Some? ==> r.value == FoldGroups(rows) && MergesGroups(rows, r.value)
  {
    hide MergesGroups, Disagree;
    var merged: map<string, MergedGroup> := map[];
    assert MergesGroups([], merged) by { NoGroups(); }
    for n := 0 to |rows|
      invariant MergesGroups(rows[..n], merged) && merged == FoldGroups(rows[..n])
    {
      var g := rows[n];
      assert rows[..n + 1] == rows[..n] + [g] && rows[..n + 1][..n] == rows[..n];
      if g.id in merged && merged[g.id].group.tenant != g.tenant {
        ClaimsDiffer(rows, n, merged);
        return None;
      }
      AddGroupKeeps(rows[..n], merged, g);
      if g.id !in merged {
        merged := merged[g.id := MergedGroup(g, 1)];
      } else {
        var cur := merged[g.id].group;
        if g.updated > cur.updated {
          cur := cur.(name := g.name, color := g.color, updated := g.updated, source := g.source);
        }
        if g.created < cur.created {
          cur := cur.(created := g.created);
        }
        merged := merged[g.id := MergedGroup(cur, merged[g.id].sources + 1)];
      }
    }
    assert rows[..|rows|] == rows;
    AgreeWhenMerged(rows, merged);
    r := Some(merged);
  }

  lemma NoGroups()
    ensures MergesGroups([], map[])
  {
  }

  lemma GroupsOneMore(front: seq<SrcGroup>, g: SrcGroup, merged: map<string, MergedGroup>)
    requires forall id :: id in merged <==> id == g.id || exists r :: r in front && r.id == id
    requires forall id :: id in merged ==> IsMerge(front + [g], id, merged[id])
    ensures MergesGroups(front + [g], merged)
  {
    hide IsMerge;
    var rows := front + [g];
    assert g in rows;
    forall id ensures id in merged <==> exists r :: r in rows && r.id == id {
      if id in merged && id != g.id {
        var r :| r in front && r.id == id;
        assert r in rows;
      }
    }
  }

  lemma ClaimsDiffer(rows: seq<SrcGroup>, n: nat, merged: map<string, MergedGroup>)
    requires n < |rows| && MergesGroups(rows[..n], merged)
    requires rows[n].id in merged && merged[rows[n].id].group.tenant != rows[n].tenant
    ensures Disagree(rows)
  {
    var cur := merged[rows[n].id];
    assert IsMerge(rows[..n], rows[n].id, cur);
    var c :| c in rows[..n] && c.id == rows[n].id && c.created == cur.group.created;
    assert c in rows && rows[n] in rows && c.tenant == cur.group.tenant;
  }

  lemma AgreeWhenMerged(rows: seq<SrcGroup>, merged: map<string, MergedGroup>)
    requires MergesGroups(rows, merged)
    ensures !Disagree(rows)
  {
    hide IsMerge;
    forall a, b | a in rows && b in rows && a.id == b.id ensures a.tenant == b.tenant {
      assert a.id in merged;
      OneTenant(rows, a.id, merged[a.id], a, b);
    }
  }

  lemma OneTenant(rows: seq<SrcGroup>, id: string, m: MergedGroup, a: SrcGroup, b: SrcGroup)
    requires IsMerge(rows, id, m) && a in rows && b in rows && a.id == id && b.id == id
    ensures a.tenant == b.tenant
  {
  }

  /** No row of its id was updated later. */
  ghost predicate Latest(rows: seq<SrcGroup>, a: SrcGroup) {
    a in rows && forall r :: r in rows && r.id == a.id ==> r.updated <= a.updated
  }

  /** Where several rows of an id are its latest, they carry the same metadata. */
  ghost predicate TiesAgree(rows: seq<SrcGroup>) {
    forall a, b :: Latest(rows, a) && Latest(rows, b) && a.id == b.id ==> SameMetadata(a, b)
  }

  lemma {:induction false} CountIsMultiplicity(a: seq<SrcGroup>, b: seq<SrcGroup>, id: string)
    requires multiset(a) == multiset(b)
    ensures CountOf(a, id) == CountOf(b, id)
    decreases |a|
  {
    if a == [] {
      assert |multiset(b)| == |b|;
    } else {
      var front, last := a[..|a| - 1], a[|a| - 1];
      assert a == front + [last];
      var k := WithoutOne(front, last, b);
      CountIsMultiplicity(front, b[..k] + b[k + 1..], id);
      CountConcat(b[..k] + [last], b[k + 1..], id);
      CountConcat(b[..k], b[k + 1..], id);
      CountStep(b[..k], last, id);
    }
  }

  lemma {:induction false} CountConcat(a: seq<SrcGroup>, b: seq<SrcGroup>, id: string)
    ensures CountOf(a + b, id) == CountOf(a, id) + CountOf(b, id)
  {
    if b == [] {
      assert a + b == a;
    } else {
      CountConcat(a, b[..|b| - 1], id);
      assert a + b == (a + b[..|b| - 1]) + [b[|b| - 1]];
      CountStep(a + b[..|b| - 1], b[|b| - 1], id);
    }
  }

  lemma MergeIsDetermined(a: seq<SrcGroup>, b: seq<SrcGroup>, id: string, m: MergedGroup, m': MergedGroup)
    requires forall r :: r in a <==> r in b
    requires CountOf(a, id) == CountOf(b, id) && TiesAgree(a)
    requires IsMerge(a, id, m) && IsMerge(b, id, m')
    ensures m == m'
  {
    hide CountOf;
    var c :| c in a && c.id == id && c.created == m.group.created;
    var c' :| c' in b && c'.id == id && c'.created == m'.group.created;
    var d :| d in a && d.id == id && SameMetadata(d, m.group);
    var d' :| d' in b && d'.id == id && SameMetadata(d', m'.group);
    assert d.updated == d'.updated;
    assert Latest(a, d) && Latest(a, d');
    assert SameMetadata(d, d');
  }

  lemma DisagreementIsOrderFree(a: seq<SrcGroup>, b: seq<SrcGroup>)
    requires multiset(a) == multiset(b)
    ensures Disagree(a) <==> Disagree(b)
  {
    SameElements(a, b);
  }

  lemma {:induction false} FoldGroupsMerges(rows: seq<SrcGroup>)
    requires !Disagree(rows)
    ensures MergesGroups(rows, FoldGroups(rows))
  {
    hide IsMerge, AddGroup;
    if rows == [] {
      NoGroups();
    } else {
      var front, g := rows[..|rows| - 1], rows[|rows| - 1];
      assert rows == front + [g];
      FoldGroupsMerges(front);
      var merged := FoldGroups(front);
      if g.id in merged && merged[g.id].group.tenant != g.tenant {
        ClaimsDiffer(rows, |front|, merged);
      }
      AddGroupKeeps(front, merged, g);
    }
  }

  lemma AgreedTiesAreOrderFree(a: seq<SrcGroup>, b: seq<SrcGroup>)
    requires multiset(a) == multiset(b) && !Disagree(a) && TiesAgree(a)
    ensures FoldGroups(a) == FoldGroups(b)
  {
    hide IsMerge, FoldGroups;
    SameElements(a, b);
    DisagreementIsOrderFree(a, b);
    FoldGroupsMerges(a);
    FoldGroupsMerges(b);
    var merged, merged' := FoldGroups(a), FoldGroups(b);
    forall id | id in merged ensures id in merged' && merged[id] == merged'[id] {
      CountIsMultiplicity(a, b, id);
      MergeIsDetermined(a, b, id, merged[id], merged'[id]);
    }
    assert merged.Keys == merged'.Keys;
  }

  /** The first row read among the latest of its id. */
  ghost predicate WinsAt(rows: seq<SrcGroup>, i: nat, id: string) {
    && i < |rows| && rows[i].id == id
    && (forall j :: 0 <= j < |rows| && rows[j].id == id ==> rows[j].updated <= rows[i].updated)
    && (forall j :: 0 <= j < i && rows[j].id == id ==> rows[j].updated < rows[i].updated)
  }

  lemma {:induction false} SomeRowWins(rows: seq<SrcGroup>, id: string) returns (i: nat)
    requires exists r :: r in rows && r.id == id
    ensures WinsAt(rows, i, id)
  {
    var front, last := rows[..|rows| - 1], rows[|rows| - 1];
    assert rows == front + [last];
    i := |front|;
    if r :| r in front && r.id == id {
      var k := SomeRowWins(front, id);
      assert rows[k] == front[k];
      if last.id != id || last.updated <= front[k].updated {
        i := k;
      }
    }
  }

  lemma {:induction false} FoldedIds(rows: seq<SrcGroup>, id: string)
    ensures id in FoldGroups(rows) <==> exists r :: r in rows && r.id == id
  {
    if rows != [] {
      var front, last := rows[..|rows| - 1], rows[|rows| - 1];
      assert rows == front + [last];
      FoldedIds(front, id);
    }
  }

  /** Whatever the order, the metadata is that of the first row read among the latest of the id. */
  lemma {:induction false} FirstLatestWins(rows: seq<SrcGroup>, i: nat, id: string)
    requires WinsAt(rows, i, id)
    ensures id in FoldGroups(rows) && SameMetadata(rows[i], FoldGroups(rows)[id].group)
    decreases |rows|
  {
    var front, last := rows[..|rows| - 1], rows[|rows| - 1];
    assert rows == front + [last];
    FoldedIds(front, id);
    if i < |front| {
      assert front[i] == rows[i];
      FirstLatestWins(front, i, id);
    } else if id in FoldGroups(front) {
      var k := SomeRowWins(front, id);
      assert front[k] == rows[k];
      FirstLatestWins(front, k, id);
    }
  }

  lemma ReadFirstWins(rows: seq<SrcGroup>, r: SrcGroup) returns (b: seq<SrcGroup>)
    requires Latest(rows, r)
    ensures multiset(b) == multiset(rows)
    ensures r.id in FoldGroups(b) && SameMetadata(r, FoldGroups(b)[r.id].group)
  {
    var rest := MovedToFront(rows, r);
    b := [r] + rest;
    assert WinsAt(b, 0, r.id) by {
      forall j | 0 <= j < |b| && b[j].id == r.id ensures b[j].updated <= r.updated {
        assert j == 0 || b[j] == rest[j - 1];
        assert b[j] in rows;
      }
    }
    FirstLatestWins(b, 0, r.id);
  }

  /**
   For rows that no tenants dispute, the result is the same in every reading
   order exactly when the latest rows of each id carry the same metadata.
   */
  lemma GroupMergeIsOrderFreeIff(a: seq<SrcGroup>)
    requires !Disagree(a)
    ensures TiesAgree(a) <==> forall b :: multiset(b) == multiset(a) ==> FoldGroups(b) == FoldGroups(a)
  {
    hide FoldGroups, Disagree;
    if TiesAgree(a) {
      forall b | multiset(b) == multiset(a) ensures FoldGroups(b) == FoldGroups(a) {
        AgreedTiesAreOrderFree(a, b);
      }
    } else {
      var r, q :| Latest(a, r) && Latest(a, q) && r.id == q.id && !SameMetadata(r, q);
      var b := ReadFirstWins(a, r);
      var c := ReadFirstWins(a, q);
      assert FoldGroups(b) != FoldGroups(c);
    }
  }

  /** A tie that disagrees: the same two rows, read in either order, merge into two different groups. */
  lemma TiesFollowReadingOrder(g: SrcGroup, name: string)
    requires name != g.name
    ensures var h := g.(name := name);
            && multiset([g, h]) == multiset([h, g])
            && g.id in FoldGroups([g, h]) && FoldGroups([g, h])[g.id].group.name == g.name
            && g.id in FoldGroups([h, g]) && FoldGroups([h, g])[g.id].group.name == name
  {
    hide FoldGroups;
    var h := g.(name := name);
    FirstLatestWins([g, h], 0, g.id);
    FirstLatestWins([h, g], 0, g.id);
  }

  // ---- Vehicles in groups -----------------------------------------------

  datatype GroupMembership = GroupMembership(tenant: string, token: nat, group: string, created: Time)

  type MembKey = (string, nat, string)

  function KeyOf(m: GroupMembership): MembKey { (m.tenant, m.token, m.group) }

  /** The row's group is known and belongs to the row's tenant. */
  predicate Placed(m: GroupMembership, merged: map<string, MergedGroup>) {
    m.group in merged && merged[m.group].group.tenant == m.tenant
  }

  /** The union of the rows, each with its earliest creation. */
  ghost predicate IsUnion(rows: seq<GroupMembership>, out: map<MembKey, Time>) {
    && (forall k :: k in out <==> exists m :: m in rows && KeyOf(m) == k)
    && (forall m :: m in rows ==> KeyOf(m) in out && out[KeyOf(m)] <= m.created)
    && (forall k :: k in out ==> exists m :: m in rows && KeyOf(m) == k && m.created == out[k])
  }

  /** `mergeMemberships`: refuses exactly when some row is not placed, otherwise the union with the earliest creation. */
  method MergeMemberships(rows: seq<GroupMembership>, merged: map<string, MergedGroup>) returns (r: Option<map<MembKey, Time>>)
    ensures r.None? <==> exists m :: m in rows && !Placed(m, merged)
    ensures r.Some? ==> IsUnion(rows, r.value)
  {
    var out: map<MembKey, Time> := map[];
    for n := 0 to |rows|
      invariant forall m :: m in rows[..n] ==> Placed(m, merged)
      invariant IsUnion(rows[..n], out)
    {
      var m := rows[n];
      assert rows[..n + 1] == rows[..n] + [m];
      assert m in rows;
      if m.group !in merged || merged[m.group].group.tenant != m.tenant {
        return None;
      }
      UnionOneMore(rows[..n], out, m);
      if KeyOf(m) !in out || m.created < out[KeyOf(m)] {
        out := out[KeyOf(m) := m.created];
      }
    }
    assert rows[..|rows|] == rows;
    r := Some(out);
  }

  lemma UnionOneMore(front: seq<GroupMembership>, out: map<MembKey, Time>, m: GroupMembership)
    requires IsUnion(front, out)
    ensures IsUnion(front + [m], if KeyOf(m) !in out || m.created < out[KeyOf(m)] then out[KeyOf(m) := m.created] else out)
  {
    hide KeyOf;
    var rows := front + [m];
    var out' := if KeyOf(m) !in out || m.created < out[KeyOf(m)] then out[KeyOf(m) := m.created] else out;
    assert m in rows;
    forall k | k in out' ensures exists x :: x in rows && KeyOf(x) == k && x.created == out'[k] {
      if k in out && out[k] == out'[k] {
        var x :| x in front && KeyOf(x) == k && x.created == out[k];
        assert x in rows;
      }
    }
    forall k ensures k in out' <==> exists x :: x in rows && KeyOf(x) == k {
      if x :| x in rows && KeyOf(x) == k {
        if x in front {
          assert k in out;
        }
      }
    }
  }

  /** Any order, any repetition: the union is determined by the set of rows. */
  lemma UnionIsOrderFree(a: seq<GroupMembership>, b: seq<GroupMembership>, out: map<MembKey, Time>, out': map<MembKey, Time>)
    requires forall m :: m in a <==> m in b
    requires IsUnion(a, out) && IsUnion(b, out')
    ensures out == out'
  {
    hide KeyOf;
    assert forall k :: k in out <==> k in out';
    forall k | k in out ensures out[k] == out'[k] {
      var x :| x in a && KeyOf(x) == k && x.created == out[k];
      var y :| y in b && KeyOf(y) == k && y.created == out'[k];
    }
  }

  // ---- Name collisions --------------------------------------------------

  /** The composite key: tenant, NUL, name. */
  function NameKey(g: SrcGroup): string { g.tenant + "\0" + g.name }

  /** A tenant id never contains NUL, so the composite key is the pair. */
  lemma NameKeyIsInjective(g: SrcGroup, h: SrcGroup)
    requires '\0' !in g.tenant && '\0' !in h.tenant
    ensures NameKey(g) == NameKey(h) <==> g.tenant == h.tenant && g.name == h.name
  {
    if NameKey(g) == NameKey(h) {
      var k, a, b := NameKey(g), |g.tenant|, |h.tenant|;
      assert k[a] == '\0' && forall i :: 0 <= i < a ==> k[i] == g.tenant[i];
      assert k[b] == '\0' && forall i :: 0 <= i < b ==> k[i] == h.tenant[i];
      assert forall i :: 0 <= i < a ==> k[i] != '\0';
      assert forall i :: 0 <= i < b ==> k[i] != '\0';
      assert a == b;
      assert k[..a] == g.tenant && k[..b] == h.tenant;
      assert k[a + 1..] == g.name && k[b + 1..] == h.name;
    }
  }

  /** `checkNameCollisions`: refuses exactly when two ids of one tenant share a name. */
  method CheckNameCollisions(merged: map<string, MergedGroup>) returns (collision: bool)
    requires forall id :: id in merged ==> '\0' !in merged[id].group.tenant
    ensures collision <==> exists i, j :: i in merged && j in merged && i != j
                                          && merged[i].group.tenant == merged[j].group.tenant && merged[i].group.name == merged[j].group.name
  {
    var byName: map<string, string> := map[];
    var rest := merged.Keys;
    while rest != {}
      invariant rest <= merged.Keys
      invariant forall id :: id in merged && id !in rest ==> NameKey(merged[id].group) in byName && byName[NameKey(merged[id].group)] == id
      invariant forall k :: k in byName ==> byName[k] in merged && byName[k] !in rest && NameKey(merged[byName[k]].group) == k
    {
      hide NameKey;
      var id :| id in rest;
      rest := rest - {id};
      var k := NameKey(merged[id].group);
      if k in byName {
        NameKeyIsInjective(merged[id].group, merged[byName[k]].group);
        return true;
      }
      byName := byName[k := id];
    }
    forall i, j | i in merged && j in merged && i != j
      ensures !(merged[i].group.tenant == merged[j].group.tenant && merged[i].group.name == merged[j].group.name)
    {
      NameKeyIsInjective(merged[i].group, merged[j].group);
    }
    collision := false;
  }
}

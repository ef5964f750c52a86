/**
 Email invitations: a single-use state machine over the invitations table, and
 the membership an accept writes. Token hashes are an injective stand-in for
 SHA-256, so a row carries the secret itself; times are microseconds.
 */
module Invitations {
  import opened Wrappers
  import opened Lists

  type Id = nat
  type Tenant = nat
  type Wallet = nat
  type Secret = nat
  type Time = int

  const SECOND := 1000000
  const HOUR := 3600 * SECOND

  // ---- Scope: three values that must not collapse -----------------------

  /** What the membership and invitation columns hold: NULL, or a (possibly empty) array. */
  datatype Scope = Unrestricted | Groups(ids: seq<string>)

  /** The raw JSON a write body carries. */
  datatype RawScope = Absent | Null | Array(ids: seq<string>) | Malformed

  function ScopeJson(s: Scope): RawScope {
    if s.Unrestricted? then Null else Array(s.ids)
  }

  function DecodeScope(raw: RawScope): Option<Scope> {
    match raw
    case Null => Some(Unrestricted)
    case Array(ids) => Some(Groups(ids))
    case _ => None
  }

  /** The invite's scope becomes the membership's verbatim; only null is unrestricted, and nothing else decodes. */
  lemma ScopeRoundTrip(s: Scope, raw: RawScope)
    ensures DecodeScope(ScopeJson(s)) == Some(s)
    ensures DecodeScope(raw) == Some(s) <==> raw == ScopeJson(s)
    ensures DecodeScope(ScopeJson(Groups([]))) != Some(Unrestricted)
  {
  }

  // ---- Roles and permissions --------------------------------------------

  const OWNER := "owner"
  const ADMIN := "admin"
  const MEMBER := "member"

  function RolePermissions(role: string): seq<string> {
    if role == OWNER then ["manage_members", "manage_settings"] else []
  }

  function RoleRank(role: string): nat {
    if role == OWNER then 3 else if role == ADMIN then 2 else if role == MEMBER then 1 else 0
  }

  /** `unionStrings`. */
  method UnionStrings(a: seq<string>, b: seq<string>) returns (out: seq<string>)
    ensures out == Distinct(a + b)
  {
    out := [];
    var seen: set<string> := {};
    var all := a + b;
    for n := 0 to |all|
      invariant out == Distinct(all[..n])
      invariant forall p :: p in seen <==> p in out
    {
      assert all[..n + 1][..n] == all[..n];
      if all[n] !in seen {
        seen := seen + {all[n]};
        out := out + [all[n]];
      }
    }
    assert all[..|all|] == all;
  }

  // ---- Tables and requests ----------------------------------------------

  datatype Status = Pending | Accepted | Revoked

  datatype Invitation = Invitation(
    tenant: Tenant,
    email: string,
    role: string,
    secret: Secret,
    status: Status,
    expires: Time,
    scope: Scope,
    invitee: Option<Wallet>)

  datatype Member = Member(role: string, permissions: seq<string>, scope: Scope)

  datatype State = State(invitations: map<Id, Invitation>, members: map<(Tenant, Wallet), Member>, minted: set<Secret>)

  datatype Request =
    | Create(newId: Id, secret: Secret, tenant: Tenant, email: string, inviter: bool, role: string, scope: RawScope,
             tenantExists: bool, groupsExist: bool)
    | Revoke(tenant: Tenant, id: Option<Id>)
    | Resend(tenant: Tenant, id: Option<Id>, secret: Secret)
    | Accept(presented: Option<Secret>, wallet: Option<Wallet>, allowed: bool, tenantExists: bool)

  datatype Event = Event(now: Time, expiryHours: nat, request: Request)

  /** Expiry is compared as the wire renders it, truncated to the second. */
  function Truncated(t: Time): Time { t - t % SECOND }

  predicate PendingTo(inv: Invitation, tenant: Tenant, email: string) {
    inv.tenant == tenant && inv.email == email && inv.status == Pending
  }

  function PendingFor(invitations: map<Id, Invitation>, tenant: Tenant, email: string): set<Id> {
    set id | id in invitations && PendingTo(invitations[id], tenant, email)
  }

  /** A new invite revokes every pending one for the same address. */
  function Superseded(invitations: map<Id, Invitation>, tenant: Tenant, email: string): map<Id, Invitation> {
    map id | id in invitations ::
      if id in PendingFor(invitations, tenant, email) then invitations[id].(status := Revoked) else invitations[id]
  }

  function CreateAccepted(r: Request): bool
    requires r.Create?
  {
    r.email != "" && r.inviter && DecodeScope(r.scope).Some? && r.tenantExists && (r.groupsExist || r.scope.Null? || r.role == OWNER)
  }

  /** The row Create inserts: the role is owner or member, and an owner is never restricted. */
  function NewInvitation(e: Event): Invitation
    requires e.request.Create? && CreateAccepted(e.request)
  {
    var r := e.request;
    var role := if r.role == OWNER then OWNER else MEMBER;
    var scope := if role == OWNER then Unrestricted else DecodeScope(r.scope).value;
    Invitation(r.tenant, r.email, role, r.secret, Pending, e.now + e.expiryHours * HOUR, scope, None)
  }

  predicate Addressed(s: State, tenant: Tenant, id: Option<Id>) {
    id.Some? && id.value in s.invitations && s.invitations[id.value].tenant == tenant && s.invitations[id.value].status == Pending
  }

  /** An accept of this invitation goes through. */
  predicate Acceptable(s: State, e: Event, id: Id) {
    && e.request.Accept? && e.request.presented.Some? && e.request.wallet.Some? && e.request.allowed && e.request.tenantExists
    && id in s.invitations && s.invitations[id].secret == e.request.presented.value
    && s.invitations[id].status == Pending
    && e.now <= Truncated(s.invitations[id].expires)
  }

  /** The membership an accept writes: what the wallet had, merged with what the invite gives. */
  function Merged(had: Option<Member>, inv: Invitation): Member {
    var given := RolePermissions(inv.role);
    var scope := DecodeScope(ScopeJson(inv.scope)).value;
    if had.None? then Member(inv.role, given, scope)
    else Member(if RoleRank(had.value.role) > RoleRank(inv.role) then had.value.role else inv.role,
                Distinct(had.value.permissions + given), scope)
  }

  function MemberAt(s: State, key: (Tenant, Wallet)): Option<Member> {
    if key in s.members then Some(s.members[key]) else None
  }

  function AcceptedState(s: State, e: Event, id: Id): State
    requires Acceptable(s, e, id)
  {
    var inv := s.invitations[id];
    var key := (inv.tenant, e.request.wallet.value);
    s.(invitations := s.invitations[id := inv.(status := Accepted, invitee := e.request.wallet)],
       members := s.members[key := Merged(MemberAt(s, key), inv)])
  }

  /** The state after one request; a refused one changes nothing but the tokens minted. */
  ghost function Apply(s: State, e: Event): State {
    match e.request
    case Create(newId, secret, tenant, email, _, _, _, _, _) =>
      if CreateAccepted(e.request) then
        State(Superseded(s.invitations, tenant, email)[newId := NewInvitation(e)], s.members, s.minted + {secret})
      else s
    case Revoke(tenant, id) =>
      if Addressed(s, tenant, id) then s.(invitations := s.invitations[id.value := s.invitations[id.value].(status := Revoked)]) else s
    case Resend(tenant, id, secret) =>
      var s' := s.(minted := s.minted + {secret});
      if Addressed(s, tenant, id) then
        s'.(invitations := s.invitations[id.value := s.invitations[id.value].(secret := secret, expires := e.now + e.expiryHours * HOUR)])
      else s'
    case Accept(_, _, _, _) =>
      if exists id :: Acceptable(s, e, id) then
        var id :| Acceptable(s, e, id);
        AcceptedState(s, e, id)
      else s
  }

  /** New ids and freshly generated tokens are new. */
  predicate FreshNames(s: State, r: Request) {
    && (r.Create? ==> r.newId !in s.invitations && r.secret !in s.minted)
    && (r.Resend? ==> r.secret !in s.minted)
  }

  /** The unique index on token_hash. */
  ghost predicate UniqueSecrets(s: State) {
    && (forall id :: id in s.invitations ==> s.invitations[id].secret in s.minted)
    && (forall i, j :: i in s.invitations && j in s.invitations && s.invitations[i].secret == s.invitations[j].secret ==> i == j)
  }

  /** Expiry is cut to the whole second. */
  lemma TruncatedIs(t: Time)
    ensures Truncated(t) % 1000000 == 0 && t - 1000000 < Truncated(t) <= t
  {
  }

  /** Only an owner's invite carries capabilities; an owner outranks an admin, an admin a member, a member anything else. */
  lemma RolesAre(role: string)
    ensures forall p :: p in RolePermissions(role) <==> role == "owner" && (p == "manage_members" || p == "manage_settings")
    ensures RoleRank(role) <= RoleRank("owner") && (role != "owner" ==> RoleRank(role) <= RoleRank("admin") < RoleRank("owner"))
    ensures role != "owner" && role != "admin" ==> RoleRank(role) <= RoleRank("member") < RoleRank("admin")
    ensures role != "owner" && role != "admin" && role != "member" ==> RoleRank(role) < RoleRank("member")
  {
  }

  /** When an invite is created, the row it makes, and that every earlier pending one of the address is dead. */
  lemma CreateDoes(s: State, e: Event)
    requires e.request.Create? && FreshNames(s, e.request)
    ensures var r, s' := e.request, Apply(s, e);
            var asked := r.scope.Null? || r.scope.Array?;
            if r.email == "" || !r.inviter || !asked || !r.tenantExists || (r.scope.Array? && r.role != "owner" && !r.groupsExist) then s' == s
            else
              var role := if r.role == "owner" then "owner" else "member";
              var scope := if r.role == "owner" || r.scope.Null? then Unrestricted else Groups(r.scope.ids);
              && s'.invitations.Keys == s.invitations.Keys + {r.newId} && s'.members == s.members
              && s'.invitations[r.newId]
                 == Invitation(r.tenant, r.email, role, r.secret, Pending, e.now + e.expiryHours * 3600 * 1000000, scope, None)
              && forall id :: id in s.invitations ==>
                   s'.invitations[id] == if s.invitations[id].tenant == r.tenant && s.invitations[id].email == r.email && s.invitations[id].status == Pending
                                         then s.invitations[id].(status := Revoked) else s.invitations[id]
  {
  }

  /** A revoke or resend reaches a pending invitation of the tenant that asks, and nothing else. */
  lemma RevokeAndResendDo(s: State, e: Event)
    requires e.request.Revoke? || e.request.Resend?
    ensures var r, s' := e.request, Apply(s, e);
            && s'.members == s.members && s'.invitations.Keys == s.invitations.Keys
            && forall id :: id in s.invitations ==>
                 var was := s.invitations[id];
                 s'.invitations[id] ==
                   if r.id != Some(id) || was.tenant != r.tenant || was.status != Pending then was
                   else if r.Revoke? then was.(status := Revoked)
                   else was.(secret := r.secret, expires := e.now + e.expiryHours * 3600 * 1000000)
  {
  }

  lemma ApplyKeepsUnique(s: State, e: Event)
    requires UniqueSecrets(s) && FreshNames(s, e.request)
    ensures UniqueSecrets(Apply(s, e))
  {
  }

  // ---- Whole runs -------------------------------------------------------

  ghost function After(history: seq<Event>): State {
    if history == [] then State(map[], map[], {})
    else Apply(After(history[..|history| - 1]), history[|history| - 1])
  }

  ghost predicate Legal(history: seq<Event>)
    decreases |history|
  {
    history == [] ||
    (Legal(history[..|history| - 1]) && FreshNames(After(history[..|history| - 1]), history[|history| - 1].request))
  }

  lemma {:induction false} HistoryKeepsUnique(history: seq<Event>)
    requires Legal(history)
    ensures UniqueSecrets(After(history))
    decreases |history|
  {
    if history != [] {
      HistoryKeepsUnique(history[..|history| - 1]);
      ApplyKeepsUnique(After(history[..|history| - 1]), history[|history| - 1]);
    }
  }

  /** Only one link is live per address, and an owner's invite is never restricted. */
  ghost predicate WellKept(s: State) {
    && (forall i, j | i in s.invitations && j in s.invitations && s.invitations[i].status == Pending ::
          PendingTo(s.invitations[j], s.invitations[i].tenant, s.invitations[i].email) ==> i == j)
    && (forall id :: id in s.invitations ==>
          && (s.invitations[id].role == OWNER || s.invitations[id].role == MEMBER)
          && (s.invitations[id].role == OWNER ==> s.invitations[id].scope.Unrestricted?))
  }

  /** A change of one invitation that leaves its address, role and scope, and makes nothing pending again. */
  lemma OneChangeKeepsWell(s: State, s': State, id: Id)
    requires WellKept(s) && id in s.invitations
    requires s'.invitations.Keys == s.invitations.Keys
    requires forall k :: k in s.invitations && k != id ==> s'.invitations[k] == s.invitations[k]
    requires var a, b := s.invitations[id], s'.invitations[id];
             b.tenant == a.tenant && b.email == a.email && b.role == a.role && b.scope == a.scope && (b.status == Pending ==> a.status == Pending)
    ensures WellKept(s')
  {
  }

  lemma CreateKeepsWell(s: State, e: Event)
    requires WellKept(s) && FreshNames(s, e.request) && e.request.Create?
    ensures WellKept(Apply(s, e))
  {
  }

  lemma ApplyKeepsWell(s: State, e: Event)
    requires WellKept(s) && FreshNames(s, e.request)
    ensures WellKept(Apply(s, e))
  {
    hide WellKept;
    var s' := Apply(s, e);
    match e.request
    case Create(_, _, _, _, _, _, _, _, _) => CreateKeepsWell(s, e);
    case Revoke(tenant, id) =>
      if Addressed(s, tenant, id) {
        OneChangeKeepsWell(s, s', id.value);
      }
    case Resend(tenant, id, _) =>
      if Addressed(s, tenant, id) {
        OneChangeKeepsWell(s, s', id.value);
      } else {
        SameInvitationsKeepWell(s, s');
      }
    case Accept(_, _, _, _) =>
      if id :| Acceptable(s, e, id) && s' == AcceptedState(s, e, id) {
        OneChangeKeepsWell(s, s', id);
      }
  }

  lemma SameInvitationsKeepWell(s: State, s': State)
    requires WellKept(s) && s'.invitations == s.invitations
    ensures WellKept(s')
  {
  }

  /** Over any sequential history. */
  lemma {:induction false} HistoryKeepsWell(history: seq<Event>)
    requires Legal(history)
    ensures WellKept(After(history))
    decreases |history|
  {
    hide WellKept;
    if history != [] {
      HistoryKeepsWell(history[..|history| - 1]);
      ApplyKeepsWell(After(history[..|history| - 1]), history[|history| - 1]);
    } else {
      NothingIsWellKept();
    }
  }

  lemma NothingIsWellKept()
    ensures WellKept(State(map[], map[], {}))
  {
  }

  /** One request can only move an invitation out of pending, and never touches one that has left it. */
  lemma StatusOnlyLeavesPending(s: State, e: Event, id: Id)
    requires id in s.invitations && FreshNames(s, e.request)
    ensures var s' := Apply(s, e);
            && id in s'.invitations
            && s'.invitations[id].tenant == s.invitations[id].tenant && s'.invitations[id].role == s.invitations[id].role
            && s'.invitations[id].scope == s.invitations[id].scope
            && (s.invitations[id].status != Pending ==> s'.invitations[id] == s.invitations[id])
  {
  }

  lemma {:induction false} SettledForever(history: seq<Event>, n: nat, id: Id)
    requires Legal(history) && n <= |history| && id in After(history[..n]).invitations
    ensures id in After(history).invitations
    ensures After(history[..n]).invitations[id].status != Pending ==> After(history).invitations[id] == After(history[..n]).invitations[id]
    decreases |history|
  {
    if n == |history| {
      assert history[..n] == history;
    } else {
      var front := history[..|history| - 1];
      assert front[..n] == history[..n];
      SettledForever(front, n, id);
      StatusOnlyLeavesPending(After(front), history[|history| - 1], id);
    }
  }

  /** The event that accepts an invitation. */
  ghost predicate AcceptsAt(history: seq<Event>, n: nat, id: Id)
    requires n < |history|
  {
    Acceptable(After(history[..n]), history[n], id)
  }

  lemma {:induction false} LegalPrefix(history: seq<Event>, n: nat)
    requires Legal(history) && n <= |history|
    ensures Legal(history[..n])
    decreases |history|
  {
    if n == |history| {
      assert history[..n] == history;
    } else {
      assert history[..|history| - 1][..n] == history[..n];
      LegalPrefix(history[..|history| - 1], n);
    }
  }

  /** An acceptable invitation is the one the accept settles: tokens name one invitation each. */
  lemma AcceptSettles(s: State, e: Event, id: Id)
    requires UniqueSecrets(s) && Acceptable(s, e, id)
    ensures Apply(s, e) == AcceptedState(s, e, id)
  {
  }

  lemma AcceptIsRecorded(history: seq<Event>, m: nat, id: Id)
    requires Legal(history) && m < |history| && AcceptsAt(history, m, id)
    ensures id in After(history[..m + 1]).invitations && After(history[..m + 1]).invitations[id].status == Accepted
  {
    hide Apply, UniqueSecrets;
    LegalPrefix(history, m);
    HistoryKeepsUnique(history[..m]);
    AcceptSettles(After(history[..m]), history[m], id);
    hide Legal;
    assert history[..m + 1][..m] == history[..m];
  }

  /** Once accepted, accepted for good. */
  lemma AcceptedStays(history: seq<Event>, m: nat, n: nat, id: Id)
    requires Legal(history) && m < n <= |history| && AcceptsAt(history, m, id)
    ensures id in After(history[..n]).invitations && After(history[..n]).invitations[id].status == Accepted
  {
    hide *;
    AcceptIsRecorded(history, m, id);
    LegalPrefix(history, n);
    assert history[..n][..m + 1] == history[..m + 1];
    SettledForever(history[..n], m + 1, id);
  }

  /** Single use: no invitation is accepted twice in any history. */
  lemma AcceptedAtMostOnce(history: seq<Event>, m: nat, n: nat, id: Id)
    requires Legal(history) && m < n < |history|
    ensures !(AcceptsAt(history, m, id) && AcceptsAt(history, n, id))
  {
    hide Apply, After, Legal;
    if AcceptsAt(history, m, id) {
      AcceptedStays(history, m, n, id);
    }
  }

  /** The token last minted for an invitation, and when it runs out, read off the history. */
  ghost function LastMinted(history: seq<Event>, id: Id): Option<(Secret, Time)> {
    if history == [] then None
    else
      var front, e := history[..|history| - 1], history[|history| - 1];
      if e.request.Create? && e.request.newId == id && CreateAccepted(e.request) then
        Some((e.request.secret, e.now + e.expiryHours * HOUR))
      else if e.request.Resend? && e.request.id == Some(id) && Addressed(After(front), e.request.tenant, e.request.id) then
        Some((e.request.secret, e.now + e.expiryHours * HOUR))
      else LastMinted(front, id)
  }

  lemma {:induction false} RowHoldsLastMinted(history: seq<Event>, id: Id)
    requires Legal(history)
    ensures id in After(history).invitations <==> LastMinted(history, id).Some?
    ensures id in After(history).invitations ==>
              LastMinted(history, id) == Some((After(history).invitations[id].secret, After(history).invitations[id].expires))
    decreases |history|
  {
    if history != [] {
      RowHoldsLastMinted(history[..|history| - 1], id);
    }
  }

  /**
   An accept goes through only with the token last minted for the invitation,
   no later than the second that token's expiry falls in; every earlier link is
   dead.
   */
  lemma AcceptNeedsLastToken(history: seq<Event>, n: nat, id: Id)
    requires Legal(history) && n < |history| && AcceptsAt(history, n, id)
    ensures var minted := LastMinted(history[..n], id);
            && minted.Some? && history[n].request.presented == Some(minted.value.0)
            && history[n].now <= Truncated(minted.value.1) <= minted.value.1
  {
    LegalPrefix(history, n);
    RowHoldsLastMinted(history[..n], id);
  }

  /**
   An accept goes through exactly when the invitation is pending, a known wallet
   presents its last minted token within its second, the caller may accept for
   the tenant, and the tenant exists.
   */
  lemma AcceptIff(history: seq<Event>, n: nat, id: Id)
    requires Legal(history) && n < |history|
    ensures var r, s, minted := history[n].request, After(history[..n]), LastMinted(history[..n], id);
            AcceptsAt(history, n, id) <==>
            && r.Accept? && r.wallet.Some? && r.allowed && r.tenantExists
            && minted.Some? && r.presented == Some(minted.value.0) && history[n].now <= Truncated(minted.value.1)
            && id in s.invitations && s.invitations[id].status == Pending
  {
    LegalPrefix(history, n);
    RowHoldsLastMinted(history[..n], id);
    hide Legal, After, LastMinted;
  }

  /** An invitation that has left pending is never accepted again. */
  lemma SettledNeverAccepted(history: seq<Event>, n: nat, m: nat, id: Id)
    requires Legal(history) && n <= m < |history|
    requires id in After(history[..n]).invitations && After(history[..n]).invitations[id].status != Pending
    ensures !AcceptsAt(history, m, id)
  {
    LegalPrefix(history, m);
    assert history[..m][..n] == history[..n];
    hide Legal, After;
    SettledForever(history[..m], n, id);
  }

  /** So a revoked invitation, and one that a newer invite to the address replaced, can never be accepted. */
  lemma RevokedNeverAccepted(history: seq<Event>, n: nat, m: nat, id: Id)
    requires Legal(history) && n < m < |history| && id in After(history[..n]).invitations
    requires var was, r := After(history[..n]).invitations[id], history[n].request;
             || (r.Revoke? && r.tenant == was.tenant && r.id == Some(id))
             || (r.Create? && CreateAccepted(r) && r.tenant == was.tenant && r.email == was.email)
    ensures !AcceptsAt(history, m, id)
  {
    LegalPrefix(history, n + 1);
    assert history[..n + 1][..n] == history[..n] && history[..n + 1][n] == history[n];
    assert FreshNames(After(history[..n]), history[n].request);
    assert After(history[..n + 1]) == Apply(After(history[..n]), history[n]);
    hide Legal, After;
    if history[n].request.Revoke? {
      RevokeAndResendDo(After(history[..n]), history[n]);
    } else {
      CreateDoes(After(history[..n]), history[n]);
    }
    hide Apply;
    SettledNeverAccepted(history, n + 1, m, id);
  }

  /**
   What the written membership is: every permission the wallet had and every
   one the role gives, nothing else; the higher of the two role ranks; and the
   invite's scope as stored. No other membership changes.
   */
  lemma AcceptMerges(s: State, e: Event, id: Id, p: string)
    requires UniqueSecrets(s) && Acceptable(s, e, id)
    ensures var inv := s.invitations[id];
            var key := (inv.tenant, e.request.wallet.value);
            var before, after := MemberAt(s, key), Apply(s, e).members;
            && key in after
            && (p in after[key].permissions <==> p in RolePermissions(inv.role) || (before.Some? && p in before.value.permissions))
            && RoleRank(after[key].role) >= RoleRank(inv.role)
            && (before.Some? ==> RoleRank(after[key].role) >= RoleRank(before.value.role))
            && (after[key].role == inv.role || (before.Some? && after[key].role == before.value.role))
            && after[key].scope == inv.scope
            && (forall k :: k != key ==> MemberAt(Apply(s, e), k) == MemberAt(s, k))
            && Apply(s, e).invitations == s.invitations[id := inv.(status := Accepted, invitee := e.request.wallet)]
  {
    AcceptSettles(s, e, id);
    var inv := s.invitations[id];
    var before := MemberAt(s, (inv.tenant, e.request.wallet.value));
    if before.Some? {
      DistinctIsTheSet(before.value.permissions + RolePermissions(inv.role));
    }
  }

  // ---- The service ------------------------------------------------------

  class InvitationService {
    var invitations: map<Id, Invitation>
    var members: map<(Tenant, Wallet), Member>
    ghost var minted: set<Secret>

    ghost function View(): State
      reads this
    {
      State(invitations, members, minted)
    }

    constructor ()
      ensures View() == State(map[], map[], {})
    {
      invitations, members, minted := map[], map[], {};
    }

    method Create(e: Event) returns (ok: bool)
      requires e.request.Create? && FreshNames(View(), e.request) && UniqueSecrets(View())
      modifies this
      ensures View() == Apply(old(View()), e) && UniqueSecrets(View())
      ensures ok <==> CreateAccepted(e.request)
    {
      ApplyKeepsUnique(View(), e);
      hide UniqueSecrets;
      var r := e.request;
      if r.email == "" || !r.inviter {
        return false;
      }
      var role := if r.role == OWNER then OWNER else MEMBER;
      var decoded := DecodeScope(r.scope);
      if decoded.None? {
        return false;
      }
      var scope := decoded.value;
      if role == OWNER {
        scope := Unrestricted;
      }
      if (!scope.Unrestricted? && !r.groupsExist) || !r.tenantExists {
        return false;
      }
      var prior := PendingFor(invitations, r.tenant, r.email);
      invitations := map id | id in invitations :: if id in prior then invitations[id].(status := Revoked) else invitations[id];
      invitations := invitations[r.newId := Invitation(r.tenant, r.email, role, r.secret, Pending, e.now + e.expiryHours * HOUR, scope, None)];
      minted := minted + {r.secret};
      ok := true;
    }

    method Revoke(e: Event)
      requires e.request.Revoke? && UniqueSecrets(View())
      modifies this
      ensures View() == Apply(old(View()), e) && UniqueSecrets(View())
    {
      ApplyKeepsUnique(View(), e);
      hide UniqueSecrets;
      var id := e.request.id;
      if id.Some? && id.value in invitations && invitations[id.value].tenant == e.request.tenant && invitations[id.value].status == Pending {
        invitations := invitations[id.value := invitations[id.value].(status := Revoked)];
      }
    }

    method Resend(e: Event) returns (ok: bool)
      requires e.request.Resend? && FreshNames(View(), e.request) && UniqueSecrets(View())
      modifies this
      ensures View() == Apply(old(View()), e) && UniqueSecrets(View())
      ensures ok <==> Addressed(old(View()), e.request.tenant, e.request.id)
    {
      ApplyKeepsUnique(View(), e);
      hide UniqueSecrets;
      var id := e.request.id;
      minted := minted + {e.request.secret};
      ok := id.Some? && id.value in invitations && invitations[id.value].tenant == e.request.tenant && invitations[id.value].status == Pending;
      if ok {
        var inv := invitations[id.value];
        invitations := invitations[id.value := inv.(secret := e.request.secret, expires := e.now + e.expiryHours * HOUR)];
      }
    }

    /** `Accept`: resolve the token, check, merge the membership and mark the row, in one transaction. */
    method Accept(e: Event) returns (ok: bool)
      requires e.request.Accept? && UniqueSecrets(View())
      modifies this
      ensures View() == Apply(old(View()), e) && UniqueSecrets(View())
      ensures ok <==> exists id :: Acceptable(old(View()), e, id)
    {
      ApplyKeepsUnique(View(), e);
      var r := e.request;
      if r.presented.None? || r.wallet.None? {
        return false;
      }
      if id :| id in invitations && invitations[id].secret == r.presented.value {
        var inv := invitations[id];
        ghost var before := View();
        assert forall k :: Acceptable(before, e, k) ==> k == id;
        if !r.allowed || inv.status != Pending || Truncated(inv.expires) < e.now || !r.tenantExists {
          return false;
        }
        assert Acceptable(before, e, id);
        AcceptSettles(before, e, id);
        var key := (inv.tenant, r.wallet.value);
        var role, permissions, scope := inv.role, RolePermissions(inv.role), DecodeScope(ScopeJson(inv.scope));
        if key in members {
          permissions := UnionStrings(members[key].permissions, permissions);
          if RoleRank(members[key].role) > RoleRank(role) {
            role := members[key].role;
          }
        }
        members := members[key := Member(role, permissions, scope.value)];
        invitations := invitations[id := inv.(status := Accepted, invitee := r.wallet)];
        ok := true;
      } else {
        ok := false;
      }
    }
  }
}

/**
 Whose licence reaches which tenant, asked three ways: the effective credential
 (credentials.go), the caller scope check (scope.go) and the per-row filter of
 the login listing (wallet_tenants.go).
 */
module Scope {
  import opened Wrappers

  type Tenant = nat
  type ClientId = string

  datatype TenantRow = TenantRow(parent: Option<Tenant>, operator: bool, active: bool, fleetLite: bool)

  /** The tables. A tenant has at most one credential row; a row may lack a client id. */
  datatype Db = Db(
    tenants: map<Tenant, TenantRow>,
    credentials: map<Tenant, Option<ClientId>>,
    delegations: set<(Tenant, Tenant)>,
    memberships: set<(Tenant, nat)>)

  datatype Caller = Caller(tenant: Tenant, isService: bool)

  predicate HoldsLicence(db: Db, t: Tenant) {
    t in db.credentials && db.credentials[t].Some?
  }

  // ---- credentials.go: effectiveWithKey ---------------------------------

  datatype Effective = Holder(tenant: Tenant, client: ClientId) | NoCredential | TenantNotFound

  /** The join's candidate rows: the tenant's own credential and its parent's, with a client id. */
  function Candidates(db: Db, t: Tenant): set<Tenant> {
    if t !in db.tenants then {}
    else set h | h in db.credentials && db.credentials[h].Some? && (h == t || db.tenants[t].parent == Some(h))
  }

  /** ORDER BY (own row first) LIMIT 1. */
  function EffectiveCredential(db: Db, t: Tenant): Effective {
    if t in Candidates(db, t) then Holder(t, db.credentials[t].value)
    else if Candidates(db, t) != {} then
      var h := db.tenants[t].parent.value;
      Holder(h, db.credentials[h].value)
    else if t in db.tenants then NoCredential
    else TenantNotFound
  }

  // ---- scope.go: CallerMayAccess ----------------------------------------

  /** The LEFT JOIN row of a child parented to the caller whose client id is NULL. */
  predicate ChildWithoutLicence(db: Db, caller: Tenant, subject: Tenant) {
    && subject in db.tenants
    && db.tenants[subject].parent == Some(caller)
    && (subject !in db.credentials || db.credentials[subject].None?)
  }

  function CallerMayAccess(db: Db, caller: Option<Caller>, subject: Option<Tenant>): Result<bool, ()> {
    if caller.None? then Ok(false)
    else if caller.value.isService then Ok(true)
    else if subject.None? then Err(())
    else if caller.value.tenant == subject.value then Ok(true)
    else Ok(ChildWithoutLicence(db, caller.value.tenant, subject.value) || (caller.value.tenant, subject.value) in db.delegations)
  }

  // ---- wallet_tenants.go: ListTenantsForWallet --------------------------

  datatype Surface = Unfiltered | FleetLite | B2B | Unknown

  datatype ListError = CallerRequired | WalletRequired | InvalidSurface

  predicate OnSurface(r: TenantRow, s: Surface) {
    match s
    case Unfiltered => true
    case FleetLite => r.active && r.fleetLite
    case B2B => r.operator
    case Unknown => false
  }

  /** The SQL scope filter as that query writes it: NOT EXISTS over credential rows with a client id. */
  predicate RowInScope(db: Db, caller: Caller, t: Tenant)
    requires t in db.tenants
  {
    || caller.isService
    || t == caller.tenant
    || (db.tenants[t].parent == Some(caller.tenant) && !(exists h :: h in db.credentials && h == t && db.credentials[h].Some?))
    || (caller.tenant, t) in db.delegations
  }

  /** The listing never offers a row whose detail read would be refused, and drops none that would be allowed. */
  lemma RowInScopeIsTheCheck(db: Db, caller: Caller, t: Tenant)
    requires t in db.tenants
    ensures RowInScope(db, caller, t) <==> CallerMayAccess(db, Some(caller), Some(t)) == Ok(true)
  {
  }

  /** The memberships a login listing must name: those of the wallet, on the surface, that the caller may ask about one by one. */
  ghost predicate Disclosed(db: Db, caller: Caller, wallet: nat, surface: Surface, t: Tenant) {
    && (t, wallet) in db.memberships && t in db.tenants
    && (surface.FleetLite? ==> db.tenants[t].active && db.tenants[t].fleetLite)
    && (surface.B2B? ==> db.tenants[t].operator)
    && CallerMayAccess(db, Some(caller), Some(t)) == Ok(true)
  }

  method ListTenantsForWallet(db: Db, caller: Option<Caller>, wallet: Option<nat>, surface: Surface)
    returns (r: Result<set<Tenant>, ListError>)
    ensures caller.None? ==> r == Err(CallerRequired)
    ensures caller.Some? && wallet.None? ==> r == Err(WalletRequired)
    ensures caller.Some? && wallet.Some? && surface.Unknown? ==> r == Err(InvalidSurface)
    ensures caller.Some? && wallet.Some? && !surface.Unknown? ==>
              r.Ok? && forall t :: t in r.value <==> Disclosed(db, caller.value, wallet.value, surface, t)
  {
    if caller.None? {
      return Err(CallerRequired);
    }
    if wallet.None? {
      return Err(WalletRequired);
    }
    if surface.Unknown? {
      return Err(InvalidSurface);
    }
    var listed: set<Tenant> := {};
    var rows := db.memberships;
    while rows != {}
      invariant rows <= db.memberships
      invariant forall t :: t in listed <==> (t, wallet.value) !in rows && Disclosed(db, caller.value, wallet.value, surface, t)
    {
      hide RowInScope, CallerMayAccess;
      var m :| m in rows;
      rows := rows - {m};
      if m.1 == wallet.value && m.0 in db.tenants {
        RowInScopeIsTheCheck(db, caller.value, m.0);
        if OnSurface(db.tenants[m.0], surface) && RowInScope(db, caller.value, m.0) {
          listed := listed + {m.0};
        }
      }
    }
    r := Ok(listed);
  }

  // ---- One rule ---------------------------------------------------------

  /** The credential found is the one stored with its holder: the tenant itself if it has one, else its parent. */
  lemma EffectiveIs(db: Db, t: Tenant)
    ensures match EffectiveCredential(db, t)
            case Holder(h, client) =>
              t in db.tenants && h in db.credentials && db.credentials[h] == Some(client)
              && (if HoldsLicence(db, t) then h == t else db.tenants[t].parent == Some(h))
            case NoCredential =>
              t in db.tenants && !HoldsLicence(db, t) && (db.tenants[t].parent.Some? ==> !HoldsLicence(db, db.tenants[t].parent.value))
            case TenantNotFound => t !in db.tenants
  {
    if t in db.tenants && db.tenants[t].parent.Some? && HoldsLicence(db, db.tenants[t].parent.value) {
      assert db.tenants[t].parent.value in Candidates(db, t);
    }
  }

  /**
   For a caller that holds a licence, the scope check admits exactly the
   existing tenants whose effective credential is the caller's own, and those
   it holds a delegation over.
   */
  lemma ScopeIsEffectiveCredential(db: Db, caller: Caller, subject: Tenant)
    requires !caller.isService && HoldsLicence(db, caller.tenant) && subject in db.tenants
    ensures CallerMayAccess(db, Some(caller), Some(subject)) == Ok(true) <==>
            (EffectiveCredential(db, subject).Holder? && EffectiveCredential(db, subject).tenant == caller.tenant)
            || (caller.tenant, subject) in db.delegations
  {
    assert Candidates(db, subject) <= {subject} + (if db.tenants[subject].parent.Some? then {db.tenants[subject].parent.value} else {});
  }

  /**
   Exactly when the two rules agree on a subject: they part only for a caller
   that holds no licence itself, asking about itself or a child without one,
   over which it has no delegation.
   */
  lemma RulesAgreeIff(db: Db, caller: Caller, subject: Tenant)
    requires !caller.isService && subject in db.tenants
    ensures (CallerMayAccess(db, Some(caller), Some(subject)) == Ok(true) <==>
             (EffectiveCredential(db, subject).Holder? && EffectiveCredential(db, subject).tenant == caller.tenant)
             || (caller.tenant, subject) in db.delegations)
            <==>
            (|| HoldsLicence(db, caller.tenant)
             || (caller.tenant, subject) in db.delegations
             || (subject != caller.tenant && !ChildWithoutLicence(db, caller.tenant, subject)))
  {
    assert Candidates(db, subject) <= {subject} + (if db.tenants[subject].parent.Some? then {db.tenants[subject].parent.value} else {});
  }
}

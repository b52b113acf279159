/** The access rule documented on the `@RequireAnyRole` annotation: the caller
    must hold any of the listed roles, and a listed role that is tenant
    specific counts only for the tenant passed to the secured method. */
module Security {
  import opened Wrappers
  import opened Domain

  /** A user role. Whether a role is tenant specific is a property of the
      role itself (`UserRole.isTenantSpecific()`). */
  datatype Role = Role(name: string, tenantSpecific: bool)

  const SysAdmin := Role("SYSADMIN", false)
  const TenantAdmin := Role("TENANT_ADMIN", true)
  const TenantUser := Role("TENANT_USER", true)

  /** The roles required by both member-summary endpoints. */
  const SummaryRoles := [SysAdmin, TenantAdmin, TenantUser]

  /** One role granted to the caller, optionally scoped to a tenant. */
  datatype Grant = Grant(role: Role, scope: Option<Tenant>)

  /** Does the caller hold `role` for a secured method whose `Tenant`
      parameter is `tenant` (absent when the method has none)? A global role
      is held through any grant of it; a tenant-specific role only through a
      grant scoped to that very tenant, so never when there is no tenant. */
  predicate Holds(grants: set<Grant>, role: Role, tenant: Option<Tenant>) {
    if role.tenantSpecific then
      tenant.Some? && Grant(role, tenant) in grants
    else
      exists g | g in grants :: g.role == role
  }

  /** The decision for `@RequireAnyRole(value)`: the listed roles are tried
      in turn and access is granted as soon as one is held. */
  predicate RequireAnyRole(value: seq<Role>, grants: set<Grant>, tenant: Option<Tenant>)
    decreases |value|
  {
    |value| > 0 && (Holds(grants, value[0], tenant) || RequireAnyRole(value[1..], grants, tenant))
  }

  /** Reference definition of the rule over the SET of required roles. */
  predicate Allowed(required: set<Role>, grants: set<Grant>, tenant: Option<Tenant>) {
    exists r | r in required :: Holds(grants, r, tenant)
  }

  /** The roles named by an annotation's `value()` array. */
  function Listed(value: seq<Role>): set<Role> {
    set r | r in value
  }

  /** The caller holds no grant of any listed role, whatever its scope. */
  ghost predicate HoldsNoneOf(value: seq<Role>, grants: set<Grant>) {
    forall i, g | 0 <= i < |value| && g in grants :: g.role != value[i]
  }

  /** The decision is the set-based reference rule applied to the listed roles. */
  lemma {:induction false} RequireAnyRoleIsAllowed(value: seq<Role>, grants: set<Grant>, tenant: Option<Tenant>)
    ensures RequireAnyRole(value, grants, tenant) == Allowed(Listed(value), grants, tenant)
    decreases |value|
  {
    if |value| > 0 {
      RequireAnyRoleIsAllowed(value[1..], grants, tenant);
      assert Listed(value) == {value[0]} + Listed(value[1..]);
    }
  }

  /** Order and repetition in `value()` do not matter: two role lists that
      name the same roles give the same decision. */
  lemma OrderAndRepetitionIrrelevant(v1: seq<Role>, v2: seq<Role>, grants: set<Grant>, tenant: Option<Tenant>)
    requires forall r :: r in v1 <==> r in v2
    ensures RequireAnyRole(v1, grants, tenant) == RequireAnyRole(v2, grants, tenant)
  {
    RequireAnyRoleIsAllowed(v1, grants, tenant);
    RequireAnyRoleIsAllowed(v2, grants, tenant);
    assert Listed(v1) == Listed(v2);
  }

  /** Holding any single listed role is enough. */
  lemma {:induction false} AnyListedRoleSuffices(value: seq<Role>, grants: set<Grant>, tenant: Option<Tenant>, i: nat)
    requires i < |value| && Holds(grants, value[i], tenant)
    ensures RequireAnyRole(value, grants, tenant)
    decreases i
  {
    if i > 0 {
      AnyListedRoleSuffices(value[1..], grants, tenant, i - 1);
    }
  }

  /** A caller who holds none of the listed roles is denied, whatever the tenant. */
  lemma {:induction false} DeniedWithoutListedRole(value: seq<Role>, grants: set<Grant>, tenant: Option<Tenant>)
    requires HoldsNoneOf(value, grants)
    ensures !RequireAnyRole(value, grants, tenant)
    decreases |value|
  {
    if |value| > 0 {
      assert HoldsNoneOf(value[1..], grants) by {
        forall i, g | 0 <= i < |value[1..]| && g in grants ensures g.role != value[1..][i] {
          assert value[1..][i] == value[i + 1];
        }
      }
      DeniedWithoutListedRole(value[1..], grants, tenant);
    }
  }

  /** When every listed role is tenant specific, access is granted exactly
      when the caller has one of them granted for the method's tenant. */
  lemma {:induction false} TenantSpecificJudgedAgainstTenant(value: seq<Role>, grants: set<Grant>, t: Tenant)
    requires forall i :: 0 <= i < |value| ==> value[i].tenantSpecific
    ensures RequireAnyRole(value, grants, Some(t)) <==>
            exists i :: 0 <= i < |value| && Grant(value[i], Some(t)) in grants
    decreases |value|
  {
    if |value| > 0 {
      TenantSpecificJudgedAgainstTenant(value[1..], grants, t);
      if exists i :: 0 <= i < |value| && Grant(value[i], Some(t)) in grants {
        var i :| 0 <= i < |value| && Grant(value[i], Some(t)) in grants;
        if i > 0 {
          assert value[1..][i - 1] == value[i];
        }
      }
      if exists i :: 0 <= i < |value[1..]| && Grant(value[1..][i], Some(t)) in grants {
        var i :| 0 <= i < |value[1..]| && Grant(value[1..][i], Some(t)) in grants;
        assert value[1..][i] == value[i + 1];
      }
    }
  }

  /** A method without a `Tenant` parameter can never satisfy a requirement
      whose roles are all tenant specific. */
  lemma {:induction false} TenantSpecificNeedsTenant(value: seq<Role>, grants: set<Grant>)
    requires forall i :: 0 <= i < |value| ==> value[i].tenantSpecific
    ensures !RequireAnyRole(value, grants, None)
    decreases |value|
  {
    if |value| > 0 {
      TenantSpecificNeedsTenant(value[1..], grants);
    }
  }

  /** Listed roles that are not tenant specific are matched without
      reference to any tenant. */
  lemma {:induction false} GlobalRolesIgnoreTenant(value: seq<Role>, grants: set<Grant>, t1: Option<Tenant>, t2: Option<Tenant>)
    requires forall i :: 0 <= i < |value| ==> !value[i].tenantSpecific
    ensures RequireAnyRole(value, grants, t1) == RequireAnyRole(value, grants, t2)
    decreases |value|
  {
    if |value| > 0 {
      GlobalRolesIgnoreTenant(value[1..], grants, t1, t2);
    }
  }

  /** A system administrator may read the summaries of any tenant. */
  lemma SysAdminReadsAnyTenant(grants: set<Grant>, scope: Option<Tenant>, t: Tenant)
    requires Grant(SysAdmin, scope) in grants
    ensures RequireAnyRole(SummaryRoles, grants, Some(t))
  {
  }

  /** Listing the roles of `a` and then those of `b` grants access exactly
      when either list alone would. */
  lemma {:induction false} RequireAnyRoleSplit(a: seq<Role>, b: seq<Role>, grants: set<Grant>, tenant: Option<Tenant>)
    ensures RequireAnyRole(a + b, grants, tenant) == (RequireAnyRole(a, grants, tenant) || RequireAnyRole(b, grants, tenant))
    decreases |a|
  {
    if |a| > 0 {
      assert (a + b)[0] == a[0];
      assert (a + b)[1..] == a[1..] + b;
      RequireAnyRoleSplit(a[1..], b, grants, tenant);
    } else {
      assert a + b == b;
    }
  }

  /** The full rule of the member-summary endpoints: access to tenant `t` is
      granted exactly when the caller is a system administrator, with any
      scope, or is tenant administrator or tenant user of `t` itself. */
  lemma SummaryAccessRule(grants: set<Grant>, t: Tenant)
    ensures RequireAnyRole(SummaryRoles, grants, Some(t)) <==>
            || (exists s :: Grant(SysAdmin, s) in grants)
            || Grant(TenantAdmin, Some(t)) in grants
            || Grant(TenantUser, Some(t)) in grants
  {
    RequireAnyRoleSplit([SysAdmin], [TenantAdmin, TenantUser], grants, Some(t));
    assert SummaryRoles == [SysAdmin] + [TenantAdmin, TenantUser];
    TenantSpecificJudgedAgainstTenant([TenantAdmin, TenantUser], grants, t);
    assert RequireAnyRole([SysAdmin], grants, Some(t)) == Holds(grants, SysAdmin, Some(t));
    if Holds(grants, SysAdmin, Some(t)) {
      var g :| g in grants && g.role == SysAdmin;
      assert Grant(SysAdmin, g.scope) in grants;
    }
    var listed := [TenantAdmin, TenantUser];
    if Grant(TenantUser, Some(t)) in grants {
      assert Grant(listed[1], Some(t)) in grants;
    }
    if Grant(TenantAdmin, Some(t)) in grants {
      assert Grant(listed[0], Some(t)) in grants;
    }
  }

  /** A caller without a system-administrator grant and without a tenant
      administrator or tenant user grant for `b` may not read the summaries of
      `b`, whatever roles it holds for other tenants. */
  lemma DeniedWithoutGrantForTenant(grants: set<Grant>, b: Tenant)
    requires forall s :: Grant(SysAdmin, s) !in grants
    requires Grant(TenantAdmin, Some(b)) !in grants && Grant(TenantUser, Some(b)) !in grants
    ensures !RequireAnyRole(SummaryRoles, grants, Some(b))
  {
    SummaryAccessRule(grants, b);
  }
}

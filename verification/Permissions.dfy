/** What a user may do, and hand out, in the session's acting tenant (`deps.py`), over the
    module vocabulary of `permissions.py`. The permission catalogue is a parameter. */
module Permissions {
  import opened Options
  import opened Uuids

  type Permission = string
  type ModuleName = string

  datatype Role = Role(tenant: Uuid, permissions: set<Permission>)

  datatype User = User(id: Uuid, isSuperuser: bool, roles: set<Uuid>)

  // The rows the resolution reads: roles, the admin flag of each membership, and the
  // disabled modules of each tenant.
  datatype World = World(
    catalogue: set<Permission>,
    roles: map<Uuid, Role>,
    links: map<(Uuid, Uuid), bool>,
    disabled: map<Uuid, set<ModuleName>>)

  const DEFAULT_TENANT_ID := Uuid(0)

  const CORE_MODULES: set<ModuleName> := {"tenants", "users", "roles", "billing"}

  // `permission.split(":", 1)[0]`
  function ModuleOf(permission: Permission): ModuleName {
    if permission == [] || permission[0] == ':' then []
    else [permission[0]] + ModuleOf(permission[1..])
  }

  function FilterByModules(permissions: set<Permission>, disabled: set<ModuleName>): set<Permission> {
    set p | p in permissions && ModuleOf(p) !in disabled
  }

  predicate IsActingTenantAdmin(w: World, user: User, acting: Option<Uuid>) {
    acting.Some? && (user.id, acting.value) in w.links && w.links[(user.id, acting.value)]
  }

  // The default tenant stands in only here, where it grants nothing by itself.
  function EffectiveRoleIds(w: World, user: User, acting: Option<Uuid>): set<Uuid> {
    var tenant := if acting.Some? then acting.value else DEFAULT_TENANT_ID;
    set id | id in user.roles && id in w.roles && w.roles[id].tenant == tenant
  }

  function DisabledModules(w: World, acting: Option<Uuid>): set<ModuleName> {
    if acting.Some? && acting.value in w.disabled then w.disabled[acting.value] - CORE_MODULES else {}
  }

  // The role rows the filtered statement returns.
  function LoadedRoles(w: World, ids: set<Uuid>, acting: Option<Uuid>): map<Uuid, Role> {
    map id | id in ids && id in w.roles && (acting.Some? ==> w.roles[id].tenant == acting.value) :: w.roles[id]
  }

  function GrantedBy(roles: map<Uuid, Role>): set<Permission> {
    set id, p | id in roles && p in roles[id].permissions :: p
  }

  function Resolved(w: World, user: User, acting: Option<Uuid>): set<Permission> {
    if user.isSuperuser || IsActingTenantAdmin(w, user, acting) then w.catalogue
    else GrantedBy(LoadedRoles(w, EffectiveRoleIds(w, user, acting), acting))
  }

  /** `_resolve_permissions` */
  method ResolvePermissions(w: World, user: User, acting: Option<Uuid>) returns (r: set<Permission>)
    ensures r == Resolved(w, user, acting)
  {
    if user.isSuperuser { return w.catalogue; }
    var ids := EffectiveRoleIds(w, user, acting);
    var granted: set<Permission> := {};
    if ids != {} {
      var roles := LoadedRoles(w, ids, acting);
      var waiting := roles.Keys;
      while waiting != {}
        invariant waiting <= roles.Keys
        invariant granted == GrantedBy(roles - waiting)
        decreases waiting
      {
        var id :| id in waiting;
        ghost var before := roles - waiting;
        granted := granted + roles[id].permissions;
        waiting := waiting - {id};
        assert roles - waiting == before[id := roles[id]];
        GrantedExtends(before, id, roles[id]);
      }
      assert roles - {} == roles;
    }
    if IsActingTenantAdmin(w, user, acting) { return w.catalogue; }
    return granted;
  }

  lemma GrantedExtends(roles: map<Uuid, Role>, id: Uuid, role: Role)
    requires id !in roles
    ensures GrantedBy(roles[id := role]) == GrantedBy(roles) + role.permissions
  {
    var more := roles[id := role];
    forall p ensures p in GrantedBy(more) <==> p in GrantedBy(roles) || p in role.permissions {
      if p in role.permissions { assert id in more && p in more[id].permissions; }
      if p in GrantedBy(roles) {
        var i :| i in roles && p in roles[i].permissions;
        assert i in more && p in more[i].permissions;
      }
    }
  }

  function Effective(w: World, user: User, acting: Option<Uuid>): set<Permission> {
    var resolved := Resolved(w, user, acting);
    if user.isSuperuser then resolved else FilterByModules(resolved, DisabledModules(w, acting))
  }

  function Grantable(w: World, user: User, acting: Option<Uuid>): set<Permission> {
    Resolved(w, user, acting)
  }

  // ---------------------------------------------------------------------------
  // The module vocabulary
  // ---------------------------------------------------------------------------

  /** The module is everything before the first colon, and all of a string without one. */
  lemma {:induction false} ModuleOfIsPrefix(permission: Permission)
    ensures var m := ModuleOf(permission);
            && m <= permission && ':' !in m
            && (m == permission || permission[|m|] == ':')
  {
    if permission != [] && permission[0] != ':' {
      ModuleOfIsPrefix(permission[1..]);
      assert permission == [permission[0]] + permission[1..];
    }
  }

  // ---------------------------------------------------------------------------
  // What the module switch does
  // ---------------------------------------------------------------------------

  function WithSwitch(w: World, tenant: Uuid, off: set<ModuleName>): World {
    w.(disabled := w.disabled[tenant := off])
  }

  // What a disabled set leaves of the permissions a user holds: core modules cannot be off.
  predicate Leaves(off: set<ModuleName>, user: User, p: Permission) {
    user.isSuperuser || ModuleOf(p) in CORE_MODULES || ModuleOf(p) !in off
  }

  /** The switch is an intersection: a permission is effective iff it is grantable and its
      module is on, is core, or the user is a superuser. So turning off two sets of modules
      leaves what turning off each leaves, and turning off more only takes access away. */
  lemma EffectiveIsGrantableMinusDisabled(w: World, user: User, tenant: Uuid, x: set<ModuleName>, y: set<ModuleName>)
    ensures tenant in w.disabled ==>
              Effective(w, user, Some(tenant))
              == set p | p in Grantable(w, user, Some(tenant)) && Leaves(w.disabled[tenant], user, p)
    ensures tenant !in w.disabled ==> Effective(w, user, Some(tenant)) == Grantable(w, user, Some(tenant))
    ensures Effective(WithSwitch(w, tenant, x + y), user, Some(tenant))
            == Effective(WithSwitch(w, tenant, x), user, Some(tenant))
               * Effective(WithSwitch(w, tenant, y), user, Some(tenant))
    ensures x <= y ==> Effective(WithSwitch(w, tenant, y), user, Some(tenant))
                       <= Effective(WithSwitch(w, tenant, x), user, Some(tenant))
  {
    SwitchLeavesRoles(w, user, tenant, x + y);
    SwitchLeavesRoles(w, user, tenant, x);
    SwitchLeavesRoles(w, user, tenant, y);
    hide Resolved, ModuleOf;
  }

  lemma SwitchLeavesRoles(w: World, user: User, tenant: Uuid, off: set<ModuleName>)
    ensures Resolved(WithSwitch(w, tenant, off), user, Some(tenant)) == Resolved(w, user, Some(tenant))
  {
  }

  function Toggle(w: World, tenant: Uuid, name: ModuleName): World {
    if tenant !in w.disabled then w
    else
      var off := w.disabled[tenant];
      w.(disabled := w.disabled[tenant := if name in off then off - {name} else off + {name}])
  }

  function ToggleAll(w: World, tenant: Uuid, names: seq<ModuleName>): (r: World)
    ensures r.disabled.Keys == w.disabled.Keys
    decreases |names|
  {
    if names == [] then w else ToggleAll(Toggle(w, tenant, names[0]), tenant, names[1..])
  }

  lemma {:induction false} TogglesTouchOneSwitch(w: World, tenant: Uuid, names: seq<ModuleName>)
    ensures var t := ToggleAll(w, tenant, names);
            && t == w.(disabled := t.disabled)
            && forall other :: other in w.disabled && other != tenant ==> t.disabled[other] == w.disabled[other]
    decreases |names|
  {
    if names != [] { TogglesTouchOneSwitch(Toggle(w, tenant, names[0]), tenant, names[1..]); }
  }

  /** Any run of toggles that returns to the same disabled set restores exactly the previous
      access, in that tenant and in every other; along it nothing grantable is lost. */
  lemma TogglesRestoreAccess(w: World, tenant: Uuid, names: seq<ModuleName>, user: User, acting: Option<Uuid>)
    requires tenant in w.disabled
    ensures Grantable(ToggleAll(w, tenant, names), user, acting) == Grantable(w, user, acting)
    ensures ToggleAll(w, tenant, names).disabled[tenant] == w.disabled[tenant] || acting != Some(tenant) ==>
              Effective(ToggleAll(w, tenant, names), user, acting) == Effective(w, user, acting)
  {
    TogglesTouchOneSwitch(w, tenant, names);
  }

  // ---------------------------------------------------------------------------
  // Other tenants do not matter
  // ---------------------------------------------------------------------------

  // Two worlds with the same catalogue and the same rows of one tenant for one user.
  ghost predicate SameTenant(x: World, y: World, user: User, tenant: Uuid) {
    && x.catalogue == y.catalogue
    && (forall id :: id in user.roles ==>
         ((id in x.roles && x.roles[id].tenant == tenant) <==> (id in y.roles && y.roles[id].tenant == tenant)))
    && (forall id :: id in user.roles && id in x.roles && id in y.roles && x.roles[id].tenant == tenant ==>
         x.roles[id] == y.roles[id])
    && ((user.id, tenant) in x.links <==> (user.id, tenant) in y.links)
    && ((user.id, tenant) in x.links ==> x.links[(user.id, tenant)] == y.links[(user.id, tenant)])
    && (tenant in x.disabled <==> tenant in y.disabled)
    && (tenant in x.disabled ==> x.disabled[tenant] == y.disabled[tenant])
  }

  /** A decision in one tenant depends on no role, membership or switch of another. */
  lemma OtherTenantsDoNotMatter(x: World, y: World, user: User, tenant: Uuid)
    requires SameTenant(x, y, user, tenant)
    ensures Grantable(x, user, Some(tenant)) == Grantable(y, user, Some(tenant))
    ensures Effective(x, user, Some(tenant)) == Effective(y, user, Some(tenant))
  {
    var acting := Some(tenant);
    assert EffectiveRoleIds(x, user, acting) == EffectiveRoleIds(y, user, acting);
    var ids := EffectiveRoleIds(x, user, acting);
    assert LoadedRoles(x, ids, acting) == LoadedRoles(y, ids, acting);
  }

  /** Without an acting tenant no module is disabled and no membership grants the admin
      capability: a plain user holds the roles of the default tenant, and nothing else. */
  lemma NoActingTenant(w: World, user: User)
    requires !user.isSuperuser
    ensures Effective(w, user, None) == Grantable(w, user, None)
    ensures forall p :: p in Effective(w, user, None) <==>
              exists id :: id in user.roles && id in w.roles && w.roles[id].tenant == DEFAULT_TENANT_ID
                           && p in w.roles[id].permissions
  {
    var ids := EffectiveRoleIds(w, user, None);
    assert FilterByModules(Resolved(w, user, None), {}) == Resolved(w, user, None);
    forall p ensures p in Resolved(w, user, None) <==>
              exists id :: id in user.roles && id in w.roles && w.roles[id].tenant == DEFAULT_TENANT_ID
                           && p in w.roles[id].permissions {
      if id :| id in user.roles && id in w.roles && w.roles[id].tenant == DEFAULT_TENANT_ID
               && p in w.roles[id].permissions {
        assert id in LoadedRoles(w, ids, None) && p in LoadedRoles(w, ids, None)[id].permissions;
      }
    }
  }
}

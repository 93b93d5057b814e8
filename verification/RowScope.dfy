/** Row scoping (access.go): the table gate, and the compiler from access mode,
    schema and session to a SQL predicate with positional arguments. Predicates
    have a meaning over rows; record shares, live memberships and global role
    grants are sets of facts in the database. */
module RowScope {
  import opened Wrappers

  /** A tenant key as text: "" and "0" both mean no tenant. */
  datatype Gid = Blank | Zero | Gid(key: int)

  predicate IsGroup(g: Gid) { g.Gid? }

  datatype RoleName = NoRole | AdminRole | Named(name: int)

  type Permission = int
  type Email = int

  datatype Session = Session(
    user: int, role: RoleName, roles: seq<RoleName>, permissions: set<Permission>, globalAdmin: bool,
    connectorGrant: bool, group: Gid, actingAs: Gid, verifiedEmail: Option<Email>)
  {
    predicate IsAdmin() { role.AdminRole? || globalAdmin }
    /** Not acting as a tenant, and not a connector's grant. */
    predicate Bypass() { !connectorGrant && IsAdmin() && actingAs.Blank? }
    function Effective(): Gid { if IsGroup(actingAs) && IsAdmin() then actingAs else group }
    predicate HasEffective() { IsGroup(Effective()) }
  }

  datatype Op = Read | Write | Update | Delete

  datatype Action = View | Edit | Remove | Other

  function OpFor(a: Action): Op {
    match a
    case Edit => Update
    case Remove => Delete
    case _ => Read
  }

  datatype Rule = Rule(emailKeyed: bool, parent: bool)

  /** A declared mode; None is a member-of declaration that does not parse, and a
      blank owner_or_role names no role at all. */
  datatype Mode =
    | Off | Anon | Everyone | AdminOnly | Self | Group
    | Role(roles: seq<RoleName>)
    | Perm(permission: Permission)
    | MemberOf(rule: Option<Rule>)
    | OwnerOrRole(blank: bool, tierRoles: seq<RoleName>)
    | UnknownMode

  datatype Table = Table(
    loaded: bool, hasUser: bool, hasKey: bool, shared: bool, orgTable: bool, hasJoin: bool, joinPointsHere: bool)

  /** A table the schema does not describe has no known columns. */
  predicate TableOk(t: Table) { !t.loaded ==> !t.hasUser && !t.hasKey && !t.hasJoin }

  datatype Key = ForOp(op: Op) | All

  /** The access: block as it bears on one table: its own rules and the default
      rules; groups tells whether the app declares a tenant key. */
  datatype Access = Access(
    groups: bool, own: map<Key, Mode>, defaults: map<Key, Mode>, rolesDeclared: bool,
    granting: map<Permission, seq<RoleName>>)

  function DeclaredMode(a: Access, op: Op): Option<Mode> {
    if ForOp(op) in a.own then Some(a.own[ForOp(op)])
    else if All in a.own then Some(a.own[All])
    else if ForOp(op) in a.defaults then Some(a.defaults[ForOp(op)])
    else if All in a.defaults then Some(a.defaults[All])
    else None
  }

  predicate Grouped(a: Access, t: Table) { a.groups && t.hasKey }

  function ModeFor(a: Access, t: Table, op: Op): Mode {
    var declared := DeclaredMode(a, op);
    if declared.Some? then declared.value
    else if t.hasUser then Self
    else if Grouped(a, t) then Group
    else AdminOnly
  }

  // ---- the database facts and the predicates over rows ------------------------

  datatype Row = Row(id: Gid, owner: Option<int>, tenant: Option<Gid>, join: Option<Gid>)

  datatype Arg = UserArg(user: int) | GroupArg(group: Gid) | EmailArg(email: Email) | TableArg | RoleArg(role: RoleName) | NullArg

  datatype Db = Db(
    shares: set<(Email, Action, Gid)>, members: set<(Arg, Gid)>, globalGrants: set<(int, RoleName)>)

  datatype Pred =
    | Zero0
    | One1
    | KeyIs
    | UserIs
    | IdIs
    | Shared(action: Action)
    | Member(onId: bool)
    | GlobalGrant(roles: nat)
    | Both(left: Pred, right: Pred)
    | Either(left: Pred, right: Pred)

  function Slots(p: Pred): nat {
    match p
    case Zero0 => 0
    case One1 => 0
    case KeyIs => 1
    case UserIs => 1
    case IdIs => 1
    case Shared(_) => 2
    case Member(_) => 1
    case GlobalGrant(n) => 1 + n
    case Both(l, r) => Slots(l) + Slots(r)
    case Either(l, r) => Slots(l) + Slots(r)
  }

  /** Meaning of a predicate whose placeholders take the arguments in order; a
      NULL on either side of = is never true. */
  predicate Eval(p: Pred, args: seq<Arg>, db: Db, row: Row)
    requires |args| == Slots(p)
  {
    match p
    case Zero0 => false
    case One1 => true
    case KeyIs => args[0].GroupArg? && row.tenant == Some(args[0].group)
    case UserIs => args[0].UserArg? && row.owner == Some(args[0].user)
    case IdIs => args[0].GroupArg? && row.id == args[0].group
    case Shared(action) => args[0].TableArg? && args[1].EmailArg? && (args[1].email, action, row.id) in db.shares
    case Member(onId) =>
      !args[0].NullArg? && (if onId then (args[0], row.id) in db.members
                            else row.join.Some? && (args[0], row.join.value) in db.members)
    case GlobalGrant(n) =>
      args[0].UserArg? && exists k :: 1 <= k < |args| && args[k].RoleArg? && (args[0].user, args[k].role) in db.globalGrants
    case Both(l, r) => Eval(l, args[..Slots(l)], db, row) && Eval(r, args[Slots(l)..], db, row)
    case Either(l, r) => Eval(l, args[..Slots(l)], db, row) || Eval(r, args[Slots(l)..], db, row)
  }

  /** A predicate with its arguments. */
  datatype Compiled = Compiled(pred: Pred, args: seq<Arg>)

  predicate Fits(c: Compiled) { |c.args| == Slots(c.pred) }

  predicate Holds(c: Compiled, db: Db, row: Row)
    requires Fits(c)
  {
    Eval(c.pred, c.args, db, row)
  }

  function AndThen(l: Compiled, r: Compiled): (c: Compiled)
    requires Fits(l) && Fits(r)
    ensures Fits(c)
  {
    Compiled(Both(l.pred, r.pred), l.args + r.args)
  }

  function OrElse(l: Compiled, r: Compiled): (c: Compiled)
    requires Fits(l) && Fits(r)
    ensures Fits(c)
  {
    Compiled(Either(l.pred, r.pred), l.args + r.args)
  }

  lemma AndThenMeans(l: Compiled, r: Compiled, db: Db, row: Row)
    requires Fits(l) && Fits(r)
    ensures Holds(AndThen(l, r), db, row) <==> Holds(l, db, row) && Holds(r, db, row)
  {
    assert (l.args + r.args)[..Slots(l.pred)] == l.args && (l.args + r.args)[Slots(l.pred)..] == r.args;
  }

  lemma OrElseMeans(l: Compiled, r: Compiled, db: Db, row: Row)
    requires Fits(l) && Fits(r)
    ensures Holds(OrElse(l, r), db, row) <==> Holds(l, db, row) || Holds(r, db, row)
  {
    assert (l.args + r.args)[..Slots(l.pred)] == l.args && (l.args + r.args)[Slots(l.pred)..] == r.args;
  }

  // ---- the parts the compiler combines ----------------------------------------

  predicate HasAnyRole(s: Session, wanted: seq<RoleName>) {
    s.IsAdmin() || exists r :: r in wanted && !r.NoRole? && (s.role == r || r in s.roles)
  }

  /** The session's user id; null for an unverified address, which is a member of
      nothing. */
  function UserValue(rule: Rule, s: Session): Arg {
    if !rule.emailKeyed then UserArg(s.user)
    else if s.verifiedEmail.Some? then EmailArg(s.verifiedEmail.value)
    else NullArg
  }

  function AclFilter(s: Session, action: Action): (c: Compiled)
    ensures Fits(c)
  {
    if s.verifiedEmail.None? then Compiled(Zero0, [])
    else Compiled(Shared(action), [TableArg, EmailArg(s.verifiedEmail.value)])
  }

  function RoleArgs(roles: seq<RoleName>): seq<Arg> { seq(|roles|, i requires 0 <= i < |roles| => RoleArg(roles[i])) }

  /** The "role-holder sees every row" tier of a table without a tenant column;
      None when the session holds none of the roles. */
  function GlobalRoleTier(s: Session, roles: seq<RoleName>): (c: Option<Compiled>)
    ensures c.Some? ==> Fits(c.value)
  {
    if !HasAnyRole(s, roles) then None
    else if s.IsAdmin() || !s.HasEffective() then Some(Compiled(One1, []))
    else if s.role in roles then Some(Compiled(One1, []))
    else if roles == [] then None
    else Some(Compiled(GlobalGrant(|roles|), [UserArg(s.user)] + RoleArgs(roles)))
  }

  /** The tier as it is built: one pass over the role list, stopping at the
      primary role. */
  method BuildGlobalRoleTier(s: Session, roles: seq<RoleName>) returns (c: Option<Compiled>)
    requires NoRole !in roles
    ensures c == GlobalRoleTier(s, roles)
  {
    if !HasAnyRole(s, roles) {
      return None;
    }
    if s.IsAdmin() || !s.HasEffective() {
      return Some(Compiled(One1, []));
    }
    var wanted: seq<RoleName> := [];
    var args := [UserArg(s.user)];
    for i := 0 to |roles|
      invariant wanted == roles[..i] && args == [UserArg(s.user)] + RoleArgs(roles[..i])
      invariant s.role !in roles[..i]
    {
      if roles[i] == s.role {
        return Some(Compiled(One1, []));
      }
      assert roles[..i + 1] == roles[..i] + [roles[i]];
      wanted := wanted + [roles[i]];
      args := args + [RoleArg(roles[i])];
    }
    assert roles[..|roles|] == roles;
    if |wanted| == 0 {
      return None;
    }
    return Some(Compiled(GlobalGrant(|wanted|), args));
  }

  predicate TenantRoot(a: Access, t: Table) { a.groups && t.orgTable && !t.hasKey }

  function Granting(a: Access, p: Permission): seq<RoleName> { if p in a.granting then a.granting[p] else [] }

  /** The roles a role: or perm: gate is satisfied through. */
  function GateRoles(a: Access, m: Mode): Option<seq<RoleName>> {
    match m
    case Role(roles) => Some(roles)
    case Perm(p) => Some(Granting(a, p))
    case _ => None
  }

  /** The column a membership joins on: false the join column, true the id. */
  function JoinOnId(t: Table, r: Rule): Option<bool> {
    if r.parent then Some(true)
    else if t.hasJoin then Some(false)
    else if t.joinPointsHere then Some(true)
    else None
  }

  function Tenanted(a: Access, t: Table, s: Session, c: Compiled): (r: Compiled)
    requires Fits(c)
    ensures Fits(r)
  {
    if Grouped(a, t) && s.HasEffective() then AndThen(Compiled(KeyIs, [GroupArg(s.Effective())]), c) else c
  }

  function MemberOfPredicate(a: Access, t: Table, r: Rule, s: Session, action: Action): (c: Compiled)
    ensures Fits(c)
  {
    var onId := JoinOnId(t, r);
    if onId.None? then Compiled(Zero0, [])
    else Tenanted(a, t, s, OrElse(Compiled(Member(onId.value), [UserValue(r, s)]), AclFilter(s, action)))
  }

  function OwnerOrShared(s: Session, action: Action): (c: Compiled)
    ensures Fits(c)
  {
    OrElse(Compiled(UserIs, [UserArg(s.user)]), AclFilter(s, action))
  }

  function TieredPredicate(a: Access, t: Table, roles: seq<RoleName>, s: Session, action: Action): (c: Compiled)
    ensures Fits(c)
  {
    if Grouped(a, t) && s.HasEffective() && HasAnyRole(s, roles) then Compiled(KeyIs, [GroupArg(s.Effective())])
    else
      var acl := AclFilter(s, action);
      var tier := if Grouped(a, t) then None else GlobalRoleTier(s, roles);
      var withTier := if tier.Some? then OrElse(tier.value, acl) else acl;
      Tenanted(a, t, s, if t.hasUser then OrElse(Compiled(UserIs, [UserArg(s.user)]), withTier) else withTier)
  }

  function TenantRootScope(a: Access, t: Table, s: Session, op: Op): (c: Option<Compiled>)
    ensures c.Some? ==> Fits(c.value)
  {
    var roles := GateRoles(a, ModeFor(a, t, op));
    if !TenantRoot(a, t) || roles.None? then None
    else if !s.actingAs.Blank? then Some(Compiled(IdIs, [GroupArg(s.Effective())]))
    else
      var tier := GlobalRoleTier(s, roles.value);
      if tier.None? then None
      else if tier.value.pred.One1? then tier
      else Some(OrElse(Compiled(IdIs, [GroupArg(s.Effective())]), tier.value))
  }

  // ---- rowScopeClause ----------------------------------------------------------

  datatype Clause = Bypass | Unscoped | Scoped(c: Compiled)

  predicate ClauseOk(c: Clause) { c.Scoped? ==> Fits(c.c) }

  /** The single source of truth for per-row scoping. */
  function RowScopeClause(a: Access, t: Table, session: Option<Session>, action: Action): (c: Clause)
    ensures ClauseOk(c)
  {
    if session.None? then Unscoped
    else
      var s := session.value;
      var mode := ModeFor(a, t, OpFor(action));
      if s.Bypass() then Bypass
      else if mode.MemberOf? && mode.rule.Some? then Scoped(MemberOfPredicate(a, t, mode.rule.value, s, action))
      else if mode.OwnerOrRole? && mode.tierRoles != [] then Scoped(TieredPredicate(a, t, mode.tierRoles, s, action))
      else if DeclaredMode(a, OpFor(action)) == Some(Self) && t.hasUser then
        Scoped(Tenanted(a, t, s, OwnerOrShared(s, action)))
      else if Grouped(a, t) && s.HasEffective() then Scoped(Compiled(KeyIs, [GroupArg(s.Effective())]))
      else
        var root := TenantRootScope(a, t, s, OpFor(action));
        if root.Some? then Scoped(root.value)
        else if t.hasUser then Scoped(OwnerOrShared(s, action))
        else if Grouped(a, t) then Scoped(AclFilter(s, action))
        else Unscoped
  }

  predicate InScope(a: Access, t: Table, session: Option<Session>, action: Action, db: Db, row: Row) {
    var c := RowScopeClause(a, t, session, action);
    c.Bypass? || c.Unscoped? || Holds(c.c, db, row)
  }

  // ---- the table gate ----------------------------------------------------------

  /** AccessConfig.Allowed; None is an anonymous caller, and no target is a list
      or a create. */
  predicate Allowed(a: Access, m: Mode, session: Option<Session>, target: Option<int>) {
    match m
    case Off => false
    case Anon => true
    case Everyone => session.Some?
    case AdminOnly => session.Some? && session.value.IsAdmin()
    case Self => session.Some? && (target.None? || target.value == session.value.user || session.value.IsAdmin())
    case Group => session.Some? && (session.value.IsAdmin() || IsGroup(session.value.group))
    case Role(roles) => session.Some? && HasAnyRole(session.value, roles)
    case Perm(p) => session.Some? && a.rolesDeclared && p in session.value.permissions
    case MemberOf(rule) => rule.Some? && session.Some?
    case OwnerOrRole(blank, _) => !blank && session.Some?
    case UnknownMode => false
  }

  predicate ColumnScoped(m: Mode) { m.Self? || m.Group? || m.MemberOf? || m.OwnerOrRole? }

  /** A role held through a platform-global source. */
  predicate HoldsGlobally(s: Session, db: Db, roles: seq<RoleName>) {
    s.IsAdmin() || exists r :: r in roles && !r.NoRole? && (r == s.role || (s.user, r) in db.globalGrants)
  }

  /** globalRoleTier, evaluated. */
  predicate SessionHoldsGlobalRole(s: Session, db: Db, roles: seq<RoleName>) {
    var tier := GlobalRoleTier(s, roles);
    tier.Some? && Holds(tier.value, db, Row(Blank, None, None, None))
  }

  predicate TableModeAllowed(a: Access, t: Table, op: Op, mode: Mode, session: Option<Session>, target: Option<int>, db: Db) {
    var bypass := session.Some? && session.value.Bypass();
    if ColumnScoped(mode) && !t.loaded && !bypass then false
    else if mode.MemberOf? && mode.rule.Some? && JoinOnId(t, mode.rule.value).None? && !bypass then false
    else if (mode.Self? || mode.Group?) && !(t.hasUser || Grouped(a, t)) && !bypass then false
    else
      var judged := if mode.OwnerOrRole? && op.Write? && !mode.blank && !t.hasUser then Role(mode.tierRoles) else mode;
      if !Allowed(a, judged, session, target) then false
      else if session.None? || !a.groups || t.hasKey || t.shared then true
      else
        var roles := GateRoles(a, judged);
        if roles.None? || SessionHoldsGlobalRole(session.value, db, roles.value) then true
        else !op.Write? && session.value.HasEffective() && TenantRoot(a, t)
  }

  // ---- what a loaded session carries --------------------------------------------

  /** Roles are the primary one, live global grants, and with a tenant the grants
      and the membership role of that tenant; "0" loads its grants like a tenant.
      Permissions come from held roles only. */
  predicate Loaded(a: Access, s: Session, db: Db) {
    && (s.Effective().Blank? ==>
          forall r: RoleName :: r in s.roles && !r.NoRole? ==> r == s.role || (s.user, r) in db.globalGrants)
    && (forall g :: g in db.globalGrants && g.0 == s.user && !g.1.NoRole? ==> g.1 in s.roles)
    && (forall p :: p in s.permissions ==> HasAnyRole(s, Granting(a, p)))
  }

  predicate RolesNamed(roles: seq<RoleName>) { NoRole !in roles }

  lemma TierMeansGlobal(a: Access, s: Session, db: Db, roles: seq<RoleName>, row: Row)
    requires Loaded(a, s, db) && RolesNamed(roles)
    ensures (GlobalRoleTier(s, roles).Some? && Holds(GlobalRoleTier(s, roles).value, db, row))
        <==> HoldsGlobally(s, db, roles) || (s.Effective().Zero? && HasAnyRole(s, roles))
  {
    var tier := GlobalRoleTier(s, roles);
    if tier.Some? && tier.value.pred.GlobalGrant? {
      var args := tier.value.args;
      assert args[0] == UserArg(s.user);
      forall k | 1 <= k < |args| ensures args[k] == RoleArg(roles[k - 1]) {
      }
      if HoldsGlobally(s, db, roles) {
        var r :| r in roles && !r.NoRole? && (r == s.role || (s.user, r) in db.globalGrants);
        var i :| 0 <= i < |roles| && roles[i] == r;
        assert args[i + 1] == RoleArg(r);
      }
    }
  }

  predicate IsShared(s: Session, action: Action, db: Db, row: Row) {
    s.verifiedEmail.Some? && (s.verifiedEmail.value, action, row.id) in db.shares
  }

  predicate IsMember(t: Table, r: Rule, s: Session, db: Db, row: Row) {
    var onId := JoinOnId(t, r);
    && onId.Some? && !UserValue(r, s).NullArg?
    && (if onId.value then (UserValue(r, s), row.id) in db.members
        else row.join.Some? && (UserValue(r, s), row.join.value) in db.members)
  }

  predicate InTenant(s: Session, row: Row) { row.tenant == Some(s.Effective()) }

  lemma AclMeans(s: Session, action: Action, db: Db, row: Row)
    ensures Holds(AclFilter(s, action), db, row) <==> IsShared(s, action, db, row)
  {
  }

  lemma OwnerOrSharedMeans(s: Session, action: Action, db: Db, row: Row)
    ensures Holds(OwnerOrShared(s, action), db, row) <==> row.owner == Some(s.user) || IsShared(s, action, db, row)
  {
    AclMeans(s, action, db, row);
    OrElseMeans(Compiled(UserIs, [UserArg(s.user)]), AclFilter(s, action), db, row);
  }

  lemma TenantedMeans(a: Access, t: Table, s: Session, c: Compiled, db: Db, row: Row)
    requires Fits(c)
    ensures Holds(Tenanted(a, t, s, c), db, row)
        <==> Holds(c, db, row) && (Grouped(a, t) && s.HasEffective() ==> InTenant(s, row))
  {
    AndThenMeans(Compiled(KeyIs, [GroupArg(s.Effective())]), c, db, row);
  }

  /** member-of: members and shares, and inside the tenant on a keyed table. */
  lemma MemberOfMeans(a: Access, t: Table, r: Rule, s: Session, action: Action, db: Db, row: Row)
    ensures Holds(MemberOfPredicate(a, t, r, s, action), db, row)
        <==> JoinOnId(t, r).Some? && (IsMember(t, r, s, db, row) || IsShared(s, action, db, row)) &&
             (Grouped(a, t) && s.HasEffective() ==> InTenant(s, row))
  {
    var onId := JoinOnId(t, r);
    if onId.Some? {
      var member := Compiled(Member(onId.value), [UserValue(r, s)]);
      AclMeans(s, action, db, row);
      OrElseMeans(member, AclFilter(s, action), db, row);
      TenantedMeans(a, t, s, OrElse(member, AclFilter(s, action)), db, row);
    }
  }

  /** Whether the role tier of an un-grouped table is open: the role is held
      globally, or the session's tenant is the blank-like "0", whose grants were
      loaded although it counts as no tenant. */
  predicate TierOpen(s: Session, db: Db, roles: seq<RoleName>) {
    HoldsGlobally(s, db, roles) || (s.Effective().Zero? && HasAnyRole(s, roles))
  }

  /** owner_or_role, every table shape: a role-holder sees the whole tenant of a
      keyed table; otherwise one's own rows, shared rows and, without a tenant
      column, every row exactly when the tier is open. */
  lemma TieredMeans(a: Access, t: Table, roles: seq<RoleName>, s: Session, action: Action, db: Db, row: Row)
    requires Loaded(a, s, db) && RolesNamed(roles)
    ensures Holds(TieredPredicate(a, t, roles, s, action), db, row) <==>
            if Grouped(a, t) && s.HasEffective() then
              InTenant(s, row) &&
              (HasAnyRole(s, roles) || (t.hasUser && row.owner == Some(s.user)) || IsShared(s, action, db, row))
            else
              (t.hasUser && row.owner == Some(s.user)) || IsShared(s, action, db, row) ||
              (!Grouped(a, t) && TierOpen(s, db, roles))
  {
    if !(Grouped(a, t) && s.HasEffective() && HasAnyRole(s, roles)) {
      var acl := AclFilter(s, action);
      AclMeans(s, action, db, row);
      var tier := if Grouped(a, t) then None else GlobalRoleTier(s, roles);
      if !Grouped(a, t) {
        TierMeansGlobal(a, s, db, roles, row);
      }
      var withTier := acl;
      if tier.Some? {
        OrElseMeans(tier.value, acl, db, row);
        withTier := OrElse(tier.value, acl);
      }
      var user := Compiled(UserIs, [UserArg(s.user)]);
      OrElseMeans(user, withTier, db, row);
      TenantedMeans(a, t, s, if t.hasUser then OrElse(user, withTier) else withTier, db, row);
    }
  }

  // ---- tenant isolation --------------------------------------------------------

  /** Every access mode, every keyed table, every session with a tenant that does
      not bypass: a row in scope carries that tenant's key. */
  lemma RowsStayInTenant(a: Access, t: Table, s: Session, action: Action, db: Db, row: Row)
    requires Grouped(a, t) && s.HasEffective() && !s.Bypass()
    requires InScope(a, t, Some(s), action, db, row)
    ensures InTenant(s, row)
  {
    var mode := ModeFor(a, t, OpFor(action));
    if mode.MemberOf? && mode.rule.Some? {
      MemberOfMeans(a, t, mode.rule.value, s, action, db, row);
    } else if mode.OwnerOrRole? && mode.tierRoles != [] {
      TieredStaysInTenant(a, t, mode.tierRoles, s, action, db, row);
    } else if DeclaredMode(a, OpFor(action)) == Some(Self) && t.hasUser {
      TenantedMeans(a, t, s, OwnerOrShared(s, action), db, row);
    }
  }

  lemma TieredStaysInTenant(a: Access, t: Table, roles: seq<RoleName>, s: Session, action: Action, db: Db, row: Row)
    requires Grouped(a, t) && s.HasEffective() && Holds(TieredPredicate(a, t, roles, s, action), db, row)
    ensures InTenant(s, row)
  {
    if !HasAnyRole(s, roles) {
      var acl := AclFilter(s, action);
      TenantedMeans(a, t, s, if t.hasUser then OrElse(Compiled(UserIs, [UserArg(s.user)]), acl) else acl, db, row);
    }
  }

  /** A session without a tenant reaches on a keyed table only rows it owns, rows
      shared with it and rows it is a member of. */
  lemma WithoutTenantOnlyOwn(a: Access, t: Table, s: Session, action: Action, db: Db, row: Row)
    requires Grouped(a, t) && !s.HasEffective() && !s.Bypass()
    requires InScope(a, t, Some(s), action, db, row)
    ensures var mode := ModeFor(a, t, OpFor(action));
            || (t.hasUser && row.owner == Some(s.user)) || IsShared(s, action, db, row)
            || (mode.MemberOf? && mode.rule.Some? && IsMember(t, mode.rule.value, s, db, row))
  {
    var mode := ModeFor(a, t, OpFor(action));
    if mode.MemberOf? && mode.rule.Some? {
      MemberOfMeans(a, t, mode.rule.value, s, action, db, row);
    } else if mode.OwnerOrRole? && mode.tierRoles != [] {
      var acl := AclFilter(s, action);
      AclMeans(s, action, db, row);
      OrElseMeans(Compiled(UserIs, [UserArg(s.user)]), acl, db, row);
    } else {
      OwnerOrSharedMeans(s, action, db, row);
      AclMeans(s, action, db, row);
    }
  }

  /** A declared self stays owner-only on a keyed table, and inside the tenant;
      the undeclared default of the same name is tenant-wide there. */
  lemma DeclaredSelfIsOwnerOnly(a: Access, t: Table, s: Session, action: Action, db: Db, row: Row)
    requires Grouped(a, t) && t.hasUser && s.HasEffective() && !s.Bypass()
    requires ModeFor(a, t, OpFor(action)).Self?
    ensures InScope(a, t, Some(s), action, db, row) <==>
            InTenant(s, row) &&
            (DeclaredMode(a, OpFor(action)).Some? ==> row.owner == Some(s.user) || IsShared(s, action, db, row))
  {
    OwnerOrSharedMeans(s, action, db, row);
    TenantedMeans(a, t, s, OwnerOrShared(s, action), db, row);
  }

  // ---- roles held inside one tenant ----------------------------------------------

  /** The gate and the row predicate together. */
  predicate Reaches(a: Access, t: Table, s: Session, action: Action, db: Db, row: Row) {
    && TableModeAllowed(a, t, OpFor(action), ModeFor(a, t, OpFor(action)), Some(s), None, db)
    && InScope(a, t, Some(s), action, db, row)
  }

  /** In a groups app, on a table without the tenant key that is not shared, a
      role: or perm: holder whose role is not global reaches at most its own
      tenant's row of the tenant root. */
  lemma TenantRoleReachesOwnRootOnly(a: Access, t: Table, s: Session, action: Action, db: Db, row: Row)
    requires a.groups && !t.hasKey && !t.shared && !s.Bypass() && Loaded(a, s, db)
    requires var roles := GateRoles(a, ModeFor(a, t, OpFor(action)));
             roles.Some? && RolesNamed(roles.value) && !TierOpen(s, db, roles.value)
    requires Reaches(a, t, s, action, db, row)
    ensures TenantRoot(a, t) && s.HasEffective() && row.id == s.Effective()
  {
    var roles := GateRoles(a, ModeFor(a, t, OpFor(action))).value;
    TierMeansGlobal(a, s, db, roles, Row(Blank, None, None, None));
    TierMeansGlobal(a, s, db, roles, row);
    assert HasAnyRole(s, roles);
    var tier := GlobalRoleTier(s, roles);
    if tier.Some? {
      OrElseMeans(Compiled(IdIs, [GroupArg(s.Effective())]), tier.value, db, row);
    }
  }

  /** Both directions on the tenant root for a caller not acting as a tenant: own
      tenant row, or every row when the role is held globally. */
  lemma TenantRootReach(a: Access, t: Table, s: Session, action: Action, db: Db, row: Row)
    requires TenantRoot(a, t) && !t.shared && !s.Bypass() && s.actingAs.Blank? && Loaded(a, s, db)
    requires var mode := ModeFor(a, t, OpFor(action));
             && GateRoles(a, mode).Some? && RolesNamed(GateRoles(a, mode).value)
             && Allowed(a, mode, Some(s), None)
    ensures Reaches(a, t, s, action, db, row) <==>
            TierOpen(s, db, GateRoles(a, ModeFor(a, t, OpFor(action))).value) ||
            (s.HasEffective() && row.id == s.Effective())
  {
    var roles := GateRoles(a, ModeFor(a, t, OpFor(action))).value;
    TierMeansGlobal(a, s, db, roles, Row(Blank, None, None, None));
    TierMeansGlobal(a, s, db, roles, row);
    var tier := GlobalRoleTier(s, roles);
    if tier.Some? {
      OrElseMeans(Compiled(IdIs, [GroupArg(s.Effective())]), tier.value, db, row);
    }
  }

  /** An owner_or_role tier of an un-grouped table widens to a row that is neither
      one's own nor shared exactly when the tier is open. */
  lemma TierWidensIffGlobal(a: Access, t: Table, s: Session, action: Action, db: Db, row: Row)
    requires !Grouped(a, t) && !s.Bypass() && Loaded(a, s, db)
    requires var mode := ModeFor(a, t, OpFor(action));
             mode.OwnerOrRole? && mode.tierRoles != [] && RolesNamed(mode.tierRoles)
    requires row.owner != Some(s.user) && !IsShared(s, action, db, row)
    ensures InScope(a, t, Some(s), action, db, row)
        <==> TierOpen(s, db, ModeFor(a, t, OpFor(action)).tierRoles)
  {
    TieredMeans(a, t, ModeFor(a, t, OpFor(action)).tierRoles, s, action, db, row);
  }

  /** With the tenant "0" a tier opens although the role is held in no global
      way: its grants are loaded as a tenant's, but it counts as no tenant. */
  lemma ZeroTenantOpensTier(user: int, role: int)
    ensures var s := Session(user, NoRole, [Named(role)], {}, false, false, Gid.Zero, Blank, None);
            var db := Db({}, {}, {});
            var access := Access(true, map[All := OwnerOrRole(false, [Named(role)])], map[], false, map[]);
            var t := Table(true, false, false, false, false, false, false);
            && Loaded(access, s, db) && !HoldsGlobally(s, db, [Named(role)])
            && forall row :: Reaches(access, t, s, View, db, row)
  {
    var s := Session(user, NoRole, [Named(role)], {}, false, false, Gid.Zero, Blank, None);
    var db := Db({}, {}, {});
    var access := Access(true, map[All := OwnerOrRole(false, [Named(role)])], map[], false, map[]);
    var t := Table(true, false, false, false, false, false, false);
    assert Named(role) in [Named(role)];
    assert HasAnyRole(s, [Named(role)]);
    forall row ensures InScope(access, t, Some(s), View, db, row) {
      TieredMeans(access, t, [Named(role)], s, View, db, row);
    }
  }

  /** Behind the gate, a mode whose scope is built from columns always has one: no
      such mode leaves a signed-in caller unscoped, but for an owner_or_role list
      without a single role name. */
  lemma ColumnModesAreScoped(a: Access, t: Table, s: Session, action: Action, db: Db)
    requires TableOk(t) && !s.Bypass()
    requires ColumnScoped(ModeFor(a, t, OpFor(action)))
    requires TableModeAllowed(a, t, OpFor(action), ModeFor(a, t, OpFor(action)), Some(s), None, db)
    ensures var mode := ModeFor(a, t, OpFor(action));
            RowScopeClause(a, t, Some(s), action).Scoped? <==>
            !(mode.OwnerOrRole? && mode.tierRoles == [] && !t.hasUser && !Grouped(a, t))
  {
  }

  /** And such a list does: a signed-in user without any role reaches every row. */
  lemma EmptyRoleListIsUnscoped(user: int)
    ensures var s := Session(user, NoRole, [], {}, false, false, Blank, Blank, None);
            var access := Access(false, map[All := OwnerOrRole(false, [])], map[], false, map[]);
            var t := Table(true, false, false, false, false, false, false);
            Loaded(access, s, Db({}, {}, {})) && forall row :: Reaches(access, t, s, View, Db({}, {}, {}), row)
  {
  }

  /** Creating a row of an un-grouped, unshared table under a role: or perm: mode,
      or under owner_or_role without an owner column, takes a global role. */
  lemma CreateNeedsGlobalRole(a: Access, t: Table, s: Session, mode: Mode, db: Db)
    requires a.groups && !t.hasKey && !t.shared && t.loaded && Loaded(a, s, db)
    requires mode.Role? || (mode.OwnerOrRole? && !mode.blank && !t.hasUser)
    requires RolesNamed(if mode.Role? then mode.roles else mode.tierRoles)
    ensures TableModeAllowed(a, t, Write, mode, Some(s), None, db)
        <==> TierOpen(s, db, if mode.Role? then mode.roles else mode.tierRoles)
  {
    var roles := if mode.Role? then mode.roles else mode.tierRoles;
    TierMeansGlobal(a, s, db, roles, Row(Blank, None, None, None));
    if TierOpen(s, db, roles) && !s.IsAdmin() {
      if HoldsGlobally(s, db, roles) {
        var r :| r in roles && !r.NoRole? && (r == s.role || (s.user, r) in db.globalGrants);
        assert r == s.role || r in s.roles;
      }
      assert HasAnyRole(s, roles);
    }
  }

  // ---- whose eyes --------------------------------------------------------------------

  /** Only an administrator is ever unscoped, and neither while acting as a tenant nor
      through a connector's grant; only an administrator acts as a tenant, and then
      sees that tenant's rows alone. */
  lemma ActingAsIsScoped(a: Access, t: Table, s: Session, action: Action, db: Db, row: Row)
    ensures RowScopeClause(a, t, Some(s), action).Bypass? <==>
            (s.role.AdminRole? || s.globalAdmin) && !s.connectorGrant && s.actingAs.Blank?
    ensures s.Effective() == if (s.role.AdminRole? || s.globalAdmin) && s.actingAs.Gid? then s.actingAs else s.group
    ensures a.groups && t.hasKey && s.IsAdmin() && s.actingAs.Gid? && InScope(a, t, Some(s), action, db, row) ==>
              row.tenant == Some(s.actingAs)
  {
    if a.groups && t.hasKey && s.IsAdmin() && s.actingAs.Gid? && InScope(a, t, Some(s), action, db, row) {
      RowsStayInTenant(a, t, s, action, db, row);
    }
  }

  // ---- which rule governs ----------------------------------------------------------

  /** The most specific rule governs: the table's own rule for the operation, then
      its rule for all, then the app's default for the operation, then its default
      for all; a rule anywhere below says nothing. With no rule at all a table is
      its rows' owners', else its tenants', else the administrators'. */
  lemma MostSpecificRuleGoverns(a: Access, t: Table, op: Op, m: Mode)
    ensures a.own == map[] && a.defaults == map[] ==>
              && (ModeFor(a, t, op).Self? <==> t.hasUser)
              && (ModeFor(a, t, op).Group? <==> !t.hasUser && a.groups && t.hasKey)
              && (ModeFor(a, t, op).AdminOnly? <==> !t.hasUser && !(a.groups && t.hasKey))
    ensures DeclaredMode(a, op).Some? ==> ModeFor(a, t, op) == DeclaredMode(a, op).value
    ensures DeclaredMode(a.(own := a.own[ForOp(op) := m]), op) == Some(m)
    ensures ForOp(op) !in a.own ==> DeclaredMode(a.(own := a.own[All := m]), op) == Some(m)
    ensures ForOp(op) !in a.own && All !in a.own ==> DeclaredMode(a.(defaults := a.defaults[ForOp(op) := m]), op) == Some(m)
    ensures ForOp(op) !in a.own && All !in a.own && ForOp(op) !in a.defaults ==>
              DeclaredMode(a.(defaults := a.defaults[All := m]), op) == Some(m)
    ensures DeclaredMode(a.(own := map[], defaults := map[]), op).None?
    ensures forall other: Op :: other != op ==> DeclaredMode(a.(own := a.own[ForOp(other) := m]), op) == DeclaredMode(a, op)
  {
  }

  // ---- the gate, mode by mode --------------------------------------------------------

  /** An administrator, or someone who holds one of the named roles. */
  predicate HoldsOne(s: Session, roles: seq<RoleName>) {
    s.role.AdminRole? || s.globalAdmin || exists r :: r in roles && !r.NoRole? && (s.role == r || r in s.roles)
  }

  /** Whether the columns a mode scopes by are there, or the caller needs none. */
  predicate Scopable(a: Access, t: Table, session: Option<Session>) {
    (session.Some? && session.value.Bypass()) || (t.loaded && (t.hasUser || (a.groups && t.hasKey)))
  }

  /** The modes that name no role: off admits nobody, anon anybody, everyone exactly
      those signed in, admin exactly administrators, self and group exactly where
      there is a column to scope by, on one's own row or inside a tenant, and an
      administrator besides. */
  lemma GateOfPlainModes(a: Access, t: Table, op: Op, mode: Mode, session: Option<Session>, target: Option<int>, db: Db)
    ensures var pass := TableModeAllowed(a, t, op, mode, session, target, db);
            && (mode.Off? || mode.UnknownMode? ==> !pass)
            && (mode.Anon? ==> pass)
            && (mode.Everyone? ==> (pass <==> session.Some?))
            && (mode.AdminOnly? ==> (pass <==> session.Some? && (session.value.role.AdminRole? || session.value.globalAdmin)))
            && (mode.Self? ==>
                  (pass <==> session.Some? && Scopable(a, t, session) &&
                             (target.None? || target.value == session.value.user || session.value.IsAdmin())))
            && (mode.Group? ==>
                  (pass <==> session.Some? && Scopable(a, t, session) &&
                             (session.value.IsAdmin() || session.value.group.Gid?)))
            && (session.None? && !mode.Anon? ==> !pass)
  {
  }

  /** Where roles held inside a tenant count: without groups, on a table with the
      tenant key, and on a shared one. */
  predicate TenantRolesCount(a: Access, t: Table) { !a.groups || t.hasKey || t.shared }

  /** The modes that name roles or permissions: role: takes one of its roles, perm:
      a permission some role grants, owner_or_role: any signed-in caller of a table
      the schema describes, but a create without an owner column one of its roles,
      member-of: any signed-in caller of a table the rule can scope. Where roles held
      inside a tenant do not count, role: and perm: take a global one, or, except to
      create, a tenant on the tenant root. */
  lemma GateOfRoleModes(a: Access, t: Table, op: Op, mode: Mode, s: Session, target: Option<int>, db: Db)
    requires Loaded(a, s, db)
    requires mode.Role? ==> RolesNamed(mode.roles)
    requires mode.Perm? ==> RolesNamed(Granting(a, mode.permission))
    requires mode.OwnerOrRole? ==> RolesNamed(mode.tierRoles)
    ensures var pass := TableModeAllowed(a, t, op, mode, Some(s), target, db);
            && (mode.Role? ==>
                  (pass <==> HoldsOne(s, mode.roles) &&
                             (TenantRolesCount(a, t) || TierOpen(s, db, mode.roles) ||
                              (!op.Write? && s.HasEffective() && TenantRoot(a, t)))))
            && (mode.Perm? ==>
                  (pass <==> a.rolesDeclared && mode.permission in s.permissions &&
                             (TenantRolesCount(a, t) || TierOpen(s, db, Granting(a, mode.permission)) ||
                              (!op.Write? && s.HasEffective() && TenantRoot(a, t)))))
            && (mode.MemberOf? ==>
                  (pass <==> mode.rule.Some? &&
                             (s.Bypass() || (t.loaded && JoinOnId(t, mode.rule.value).Some?))))
            && (mode.OwnerOrRole? && mode.blank ==> !pass)
            && (mode.OwnerOrRole? && !mode.blank && (t.hasUser || !op.Write?) ==> (pass <==> s.Bypass() || t.loaded))
            && (mode.OwnerOrRole? && !mode.blank && !t.hasUser && op.Write? ==>
                  (pass <==> (s.Bypass() || t.loaded) && HoldsOne(s, mode.tierRoles) &&
                             (TenantRolesCount(a, t) || TierOpen(s, db, mode.tierRoles))))
  {
    var nowhere := Row(Blank, None, None, None);
    match mode {
      case Role(roles) => TierMeansGlobal(a, s, db, roles, nowhere);
      case Perm(p) => TierMeansGlobal(a, s, db, Granting(a, p), nowhere);
      case OwnerOrRole(_, roles) => TierMeansGlobal(a, s, db, roles, nowhere);
      case _ =>
    }
  }

  /** Nobody but an administrator reaches any row of an admin table, by read, update
      or delete, and with no rule at all that is every table without an owner column
      and without the tenant key. */
  lemma AdminTablesAreAdmins(a: Access, t: Table, s: Session, action: Action, db: Db, row: Row)
    requires Reaches(a, t, s, action, db, row)
    requires ModeFor(a, t, OpFor(action)).AdminOnly? ||
             (DeclaredMode(a, OpFor(action)).None? && !t.hasUser && !(a.groups && t.hasKey))
    ensures s.IsAdmin()
  {
  }

  // ---- who sees a row ------------------------------------------------------------------

  predicate Owns(t: Table, s: Session, row: Row) { t.hasUser && row.owner == Some(s.user) }

  /** On a keyed table a session with a tenant stays inside it. */
  predicate InsideTenant(a: Access, t: Table, s: Session, row: Row) {
    a.groups && t.hasKey && s.HasEffective() ==> row.tenant == Some(s.Effective())
  }

  /** The reference: who sees a row past the gate, for every mode and table. */
  predicate Sees(a: Access, t: Table, s: Session, action: Action, db: Db, row: Row) {
    var mode, keyed := ModeFor(a, t, OpFor(action)), a.groups && t.hasKey;
    var mine := Owns(t, s, row) || IsShared(s, action, db, row);
    if s.Bypass() then true
    else if mode.MemberOf? && mode.rule.Some? then
      JoinOnId(t, mode.rule.value).Some? && InsideTenant(a, t, s, row) &&
      (IsMember(t, mode.rule.value, s, db, row) || IsShared(s, action, db, row))
    else if mode.OwnerOrRole? && mode.tierRoles != [] then
      InsideTenant(a, t, s, row) &&
      (mine || (if keyed then s.HasEffective() && HasAnyRole(s, mode.tierRoles) else TierOpen(s, db, mode.tierRoles)))
    else if DeclaredMode(a, OpFor(action)) == Some(Self) && t.hasUser then InsideTenant(a, t, s, row) && mine
    else if keyed && s.HasEffective() then row.tenant == Some(s.Effective())
    else if TenantRoot(a, t) && GateRoles(a, mode).Some? && (!s.actingAs.Blank? || HasAnyRole(s, GateRoles(a, mode).value)) then
      row.id == s.Effective() || (s.actingAs.Blank? && TierOpen(s, db, GateRoles(a, mode).value))
    else if t.hasUser || keyed then mine
    else true
  }

  /** A mode whose scope the compiler builds before it looks at the table alone. */
  predicate OwnScope(a: Access, t: Table, action: Action) {
    var mode := ModeFor(a, t, OpFor(action));
    || (mode.MemberOf? && mode.rule.Some?) || (mode.OwnerOrRole? && mode.tierRoles != [])
    || (DeclaredMode(a, OpFor(action)) == Some(Self) && t.hasUser)
  }

  lemma OwnScopeMeans(a: Access, t: Table, s: Session, action: Action, db: Db, row: Row)
    requires Loaded(a, s, db) && OwnScope(a, t, action)
    requires var mode := ModeFor(a, t, OpFor(action)); mode.OwnerOrRole? ==> RolesNamed(mode.tierRoles)
    ensures InScope(a, t, Some(s), action, db, row) <==> Sees(a, t, s, action, db, row)
  {
    var mode := ModeFor(a, t, OpFor(action));
    if mode.MemberOf? && mode.rule.Some? {
      MemberOfMeans(a, t, mode.rule.value, s, action, db, row);
    } else if mode.OwnerOrRole? && mode.tierRoles != [] {
      TieredMeans(a, t, mode.tierRoles, s, action, db, row);
    } else {
      OwnerOrSharedMeans(s, action, db, row);
      TenantedMeans(a, t, s, OwnerOrShared(s, action), db, row);
    }
  }

  lemma TableScopeMeans(a: Access, t: Table, s: Session, action: Action, db: Db, row: Row)
    requires Loaded(a, s, db) && !OwnScope(a, t, action)
    requires var mode := ModeFor(a, t, OpFor(action));
             GateRoles(a, mode).Some? ==> RolesNamed(GateRoles(a, mode).value)
    ensures InScope(a, t, Some(s), action, db, row) <==> Sees(a, t, s, action, db, row)
  {
    AclMeans(s, action, db, row);
    OwnerOrSharedMeans(s, action, db, row);
    if GateRoles(a, ModeFor(a, t, OpFor(action))).Some? {
      RootMeans(a, t, s, OpFor(action), db, row);
    }
  }

  /** The compiled predicate with its arguments lets exactly those rows through. */
  lemma ScopeMeans(a: Access, t: Table, s: Session, action: Action, db: Db, row: Row)
    requires Loaded(a, s, db)
    requires var mode := ModeFor(a, t, OpFor(action));
             && (mode.OwnerOrRole? ==> RolesNamed(mode.tierRoles))
             && (GateRoles(a, mode).Some? ==> RolesNamed(GateRoles(a, mode).value))
    ensures InScope(a, t, Some(s), action, db, row) <==> Sees(a, t, s, action, db, row)
  {
    if OwnScope(a, t, action) {
      OwnScopeMeans(a, t, s, action, db, row);
    } else {
      TableScopeMeans(a, t, s, action, db, row);
    }
  }

  lemma RootMeans(a: Access, t: Table, s: Session, op: Op, db: Db, row: Row)
    requires Loaded(a, s, db)
    requires var roles := GateRoles(a, ModeFor(a, t, op)); roles.Some? && RolesNamed(roles.value)
    ensures var roles, root := GateRoles(a, ModeFor(a, t, op)).value, TenantRootScope(a, t, s, op);
            && (root.Some? <==> TenantRoot(a, t) && (!s.actingAs.Blank? || HasAnyRole(s, roles)))
            && (root.Some? ==>
                  (Holds(root.value, db, row) <==>
                   row.id == s.Effective() || (s.actingAs.Blank? && TierOpen(s, db, roles))))
  {
    var roles := GateRoles(a, ModeFor(a, t, op)).value;
    TierMeansGlobal(a, s, db, roles, row);
    var tier := GlobalRoleTier(s, roles);
    if tier.Some? {
      OrElseMeans(Compiled(IdIs, [GroupArg(s.Effective())]), tier.value, db, row);
    }
  }
}

/** The access snapshot built from the role tables, against the relational join and the simple access service. */
module ProjectAccess {
  import opened Common
  import opened Characters

  datatype Project = Project(id: Id, slug: string, name: string, active: bool)

  datatype Role = Role(id: Id, project: Id, code: string)

  datatype Permission = Permission(id: Id, code: string)

  datatype RolePermission = RolePermission(role: Id, permission: Id)

  datatype MemberRole = MemberRole(member: Id, role: Id)

  datatype Member = Member(id: Id, project: Id, account: Id, active: bool)

  datatype Db = Db(
    projects: seq<Project>, roles: seq<Role>, permissions: seq<Permission>,
    rolePermissions: seq<RolePermission>, memberRoles: seq<MemberRole>, members: seq<Member>)

  datatype Membership = Membership(account: Id, project: Id, active: bool, roles: set<string>, permissions: set<string>)

  datatype Snapshot = Snapshot(projects: map<Id, Project>, memberships: seq<Membership>, permissionCodes: set<string>)

  datatype Principal = Principal(account: Id, active: bool, superAdmin: bool)

  datatype Summary = Summary(id: Id, slug: string, name: string, roles: set<string>, permissions: set<string>)

  /** `None`, a raised permission error, or the project. */
  datatype Access = NoProject | Forbidden | Granted(summary: Summary)

  // --- The relational meaning -------------------------------------------------------------

  /** Primary keys of the tables that become dictionaries. */
  predicate PrimaryKeys(db: Db) {
    && (forall i, j | 0 <= i < j < |db.projects| :: db.projects[i].id != db.projects[j].id)
    && (forall i, j | 0 <= i < j < |db.roles| :: db.roles[i].id != db.roles[j].id)
  }

  /** The unique constraint on (project, account). */
  predicate UniqueMembers(db: Db) {
    forall i, j | 0 <= i < j < |db.members| ::
      !(db.members[i].project == db.members[j].project && db.members[i].account == db.members[j].account)
  }

  /** One of the first n permission rows has this id and code. */
  predicate HasCode(db: Db, permission: Id, code: string, n: nat)
    requires n <= |db.permissions|
  {
    exists p | 0 <= p < n :: db.permissions[p].id == permission && db.permissions[p].code == code
  }

  predicate GrantsBy(db: Db, role: Id, code: string, b: nat)
    requires b < |db.rolePermissions|
  {
    db.rolePermissions[b].role == role && HasCode(db, db.rolePermissions[b].permission, code, |db.permissions|)
  }

  predicate GrantsIn(db: Db, role: Id, code: string, n: nat)
    requires n <= |db.rolePermissions|
  {
    exists b | 0 <= b < n :: GrantsBy(db, role, code, b)
  }

  /** The join of role permissions and permissions has this role and code. */
  predicate RoleGrants(db: Db, role: Id, code: string) { GrantsIn(db, role, code, |db.rolePermissions|) }

  predicate Bound(db: Db, member: Id, role: Id) {
    exists b | 0 <= b < |db.memberRoles| :: db.memberRoles[b] == MemberRole(member, role)
  }

  /** The member is bound to this role, and the role belongs to the member's project. */
  predicate Holds(db: Db, member: Member, r: int) {
    0 <= r < |db.roles| && db.roles[r].project == member.project && Bound(db, member.id, db.roles[r].id)
  }

  predicate HasPermission(db: Db, member: Member, code: string) {
    exists r | 0 <= r < |db.roles| :: Holds(db, member, r) && RoleGrants(db, db.roles[r].id, code)
  }

  predicate HasRole(db: Db, member: Member, code: string) {
    exists r | 0 <= r < |db.roles| :: Holds(db, member, r) && db.roles[r].code == code
  }

  predicate IsActiveProject(db: Db, id: Id) {
    exists i | 0 <= i < |db.projects| :: db.projects[i].id == id && db.projects[i].active
  }

  ghost predicate Reflects(db: Db, member: Member, m: Membership) {
    && m.account == member.account && m.project == member.project && m.active == member.active
    && (forall code :: code in m.permissions <==> HasPermission(db, member, code))
    && (forall code :: code in m.roles <==> HasRole(db, member, code))
  }

  /** What a loaded snapshot says about the tables. */
  ghost predicate Loaded(db: Db, s: Snapshot) {
    && (forall i | 0 <= i < |db.projects| ::
        db.projects[i].id in s.projects && s.projects[db.projects[i].id] == db.projects[i])
    && (forall id | id in s.projects :: exists i ::
        0 <= i < |db.projects| && db.projects[i] == s.projects[id] && db.projects[i].id == id)
    && |s.memberships| == |db.members|
    && (forall i | 0 <= i < |db.members| :: Reflects(db, db.members[i], s.memberships[i]))
    && (forall code :: code in s.permissionCodes <==>
        exists i :: 0 <= i < |db.permissions| && db.permissions[i].code == code)
  }

  // --- Loading ------------------------------------------------------------------------------

  predicate Listed(byRole: map<Id, set<string>>, role: Id, code: string) { role in byRole && code in byRole[role] }

  /** `permissions_by_role_id` from the join of role permissions and permissions. */
  method IndexPermissions(db: Db) returns (byRole: map<Id, set<string>>)
    ensures forall role, code :: Listed(byRole, role, code) <==> RoleGrants(db, role, code)
  {
    hide HasCode, Listed;
    byRole := map[];
    assert forall role, code :: !Listed(byRole, role, code) by {
      NothingListed();
    }
    for b := 0 to |db.rolePermissions|
      invariant forall role, code :: Listed(byRole, role, code) <==> GrantsIn(db, role, code, b)
    {
      ghost var done := byRole;
      byRole := AddCodes(db, db.rolePermissions[b], byRole);
      forall role, code
        ensures Listed(byRole, role, code) <==> GrantsIn(db, role, code, b + 1)
      {
        assert Listed(done, role, code) <==> GrantsIn(db, role, code, b);
        assert GrantsIn(db, role, code, b + 1) <==> GrantsIn(db, role, code, b) || GrantsBy(db, role, code, b);
      }
    }
  }

  lemma NothingListed()
    ensures forall role, code :: !Listed(map[], role, code)
  {}

  /** The joined rows of one role permission. */
  method AddCodes(db: Db, binding: RolePermission, byRole: map<Id, set<string>>) returns (more: map<Id, set<string>>)
    ensures forall role, code :: Listed(more, role, code) <==>
              Listed(byRole, role, code)
                || (role == binding.role && HasCode(db, binding.permission, code, |db.permissions|))
  {
    more := byRole;
    for p := 0 to |db.permissions|
      invariant forall role, code :: Listed(more, role, code) <==>
                  Listed(byRole, role, code) || (role == binding.role && HasCode(db, binding.permission, code, p))
    {
      ghost var done := more;
      if db.permissions[p].id == binding.permission {
        var codes := if binding.role in more then more[binding.role] else {};
        more := more[binding.role := codes + {db.permissions[p].code}];
      }
      forall role, code
        ensures Listed(more, role, code) <==>
                Listed(byRole, role, code) || (role == binding.role && HasCode(db, binding.permission, code, p + 1))
      {
        HasCodeNext(db, binding.permission, code, p);
        hide HasCode;
        assert Listed(done, role, code) <==>
               Listed(byRole, role, code) || (role == binding.role && HasCode(db, binding.permission, code, p));
      }
    }
  }

  lemma HasCodeNext(db: Db, permission: Id, code: string, p: nat)
    requires p < |db.permissions|
    ensures HasCode(db, permission, code, p + 1) <==>
            HasCode(db, permission, code, p) || (db.permissions[p].id == permission && db.permissions[p].code == code)
  {}

  /** `role_ids_by_member_id` */
  method IndexBindings(db: Db) returns (byMember: map<Id, set<Id>>)
    ensures forall member, role :: (member in byMember && role in byMember[member]) <==> Bound(db, member, role)
  {
    byMember := map[];
    for b := 0 to |db.memberRoles|
      invariant forall member, role :: (member in byMember && role in byMember[member]) <==>
                  exists i :: 0 <= i < b && db.memberRoles[i] == MemberRole(member, role)
    {
      var binding := db.memberRoles[b];
      var roles := if binding.member in byMember then byMember[binding.member] else {};
      byMember := byMember[binding.member := roles + {binding.role}];
    }
  }

  method IndexRoles(db: Db) returns (byId: map<Id, Role>)
    requires PrimaryKeys(db)
    ensures forall r | 0 <= r < |db.roles| :: db.roles[r].id in byId && byId[db.roles[r].id] == db.roles[r]
    ensures forall id | id in byId :: exists r :: 0 <= r < |db.roles| && db.roles[r] == byId[id] && db.roles[r].id == id
  {
    byId := map[];
    for k := 0 to |db.roles|
      invariant forall r | 0 <= r < k :: db.roles[r].id in byId && byId[db.roles[r].id] == db.roles[r]
      invariant forall id | id in byId :: exists r :: 0 <= r < k && db.roles[r] == byId[id] && db.roles[r].id == id
    {
      byId := byId[db.roles[k].id := db.roles[k]];
    }
  }

  method IndexProjects(db: Db) returns (byId: map<Id, Project>)
    requires PrimaryKeys(db)
    ensures forall i | 0 <= i < |db.projects| :: db.projects[i].id in byId && byId[db.projects[i].id] == db.projects[i]
    ensures forall id | id in byId :: exists i ::
            0 <= i < |db.projects| && db.projects[i] == byId[id] && db.projects[i].id == id
  {
    byId := map[];
    for k := 0 to |db.projects|
      invariant forall i | 0 <= i < k :: db.projects[i].id in byId && byId[db.projects[i].id] == db.projects[i]
      invariant forall id | id in byId :: exists i ::
                0 <= i < k && db.projects[i] == byId[id] && db.projects[i].id == id
    {
      byId := byId[db.projects[k].id := db.projects[k]];
    }
  }

  /** One membership: the member's roles of its own project, their codes and their permissions. */
  method BuildMembership(
    db: Db, member: Member, rolesById: map<Id, Role>, byRole: map<Id, set<string>>, byMember: map<Id, set<Id>>)
    returns (m: Membership)
    requires forall r | 0 <= r < |db.roles| :: db.roles[r].id in rolesById && rolesById[db.roles[r].id] == db.roles[r]
    requires forall id | id in rolesById :: exists r ::
             0 <= r < |db.roles| && db.roles[r] == rolesById[id] && db.roles[r].id == id
    requires forall role, code :: Listed(byRole, role, code) <==> RoleGrants(db, role, code)
    requires forall m, role :: (m in byMember && role in byMember[m]) <==> Bound(db, m, role)
    ensures Reflects(db, member, m)
  {
    hide RoleGrants, Bound, HasPermission, HasRole;
    var bound := if member.id in byMember then byMember[member.id] else {};
    var roleIds := set id | id in bound && id in rolesById && rolesById[id].project == member.project;
    var roles := set id | id in roleIds :: rolesById[id].code;
    var permissions := set id, code | id in roleIds && id in byRole && code in byRole[id] :: code;
    HeldRoles(db, member, rolesById, byMember, roleIds);
    HeldPermissions(db, member, byRole, roleIds, permissions);
    HeldCodes(db, member, rolesById, roleIds, roles);
    m := Membership(member.account, member.project, member.active, roles, permissions);
  }

  ghost predicate AreHeld(db: Db, member: Member, roleIds: set<Id>) {
    && (forall r | Holds(db, member, r) :: db.roles[r].id in roleIds)
    && (forall id | id in roleIds :: exists r :: Holds(db, member, r) && db.roles[r].id == id)
  }

  lemma HeldPermissions(
    db: Db, member: Member, byRole: map<Id, set<string>>, roleIds: set<Id>, permissions: set<string>)
    requires AreHeld(db, member, roleIds)
    requires forall role, code :: Listed(byRole, role, code) <==> RoleGrants(db, role, code)
    requires forall code :: code in permissions <==> exists id :: id in roleIds && id in byRole && code in byRole[id]
    ensures forall code :: code in permissions <==> HasPermission(db, member, code)
  {
    hide RoleGrants, Holds;
    forall code
      ensures code in permissions <==> HasPermission(db, member, code)
    {
      if HasPermission(db, member, code) {
        var r :| 0 <= r < |db.roles| && Holds(db, member, r) && RoleGrants(db, db.roles[r].id, code);
        assert db.roles[r].id in roleIds && Listed(byRole, db.roles[r].id, code);
      }
      if code in permissions {
        var id :| id in roleIds && id in byRole && code in byRole[id];
        assert Listed(byRole, id, code);
        HolderInRange(db, member, roleIds, id);
      }
    }
  }

  lemma HolderInRange(db: Db, member: Member, roleIds: set<Id>, id: Id)
    requires AreHeld(db, member, roleIds) && id in roleIds
    ensures exists r :: 0 <= r < |db.roles| && Holds(db, member, r) && db.roles[r].id == id
  {}

  lemma HeldCodes(db: Db, member: Member, rolesById: map<Id, Role>, roleIds: set<Id>, roles: set<string>)
    requires forall r | 0 <= r < |db.roles| :: db.roles[r].id in rolesById && rolesById[db.roles[r].id] == db.roles[r]
    requires AreHeld(db, member, roleIds)
    requires forall code :: code in roles <==>
             exists id :: id in roleIds && id in rolesById && rolesById[id].code == code
    ensures forall code :: code in roles <==> HasRole(db, member, code)
  {
    hide Holds;
    forall code
      ensures code in roles <==> HasRole(db, member, code)
    {
      if HasRole(db, member, code) {
        var r :| 0 <= r < |db.roles| && Holds(db, member, r) && db.roles[r].code == code;
        assert db.roles[r].id in roleIds && rolesById[db.roles[r].id].code == code;
      }
      if code in roles {
        var id :| id in roleIds && id in rolesById && rolesById[id].code == code;
        HolderInRange(db, member, roleIds, id);
        var r :| 0 <= r < |db.roles| && Holds(db, member, r) && db.roles[r].id == id;
        assert db.roles[r].code == code;
      }
    }
  }

  lemma HeldRoles(db: Db, member: Member, rolesById: map<Id, Role>, byMember: map<Id, set<Id>>, roleIds: set<Id>)
    requires forall r | 0 <= r < |db.roles| :: db.roles[r].id in rolesById && rolesById[db.roles[r].id] == db.roles[r]
    requires forall id | id in rolesById :: exists r ::
             0 <= r < |db.roles| && db.roles[r] == rolesById[id] && db.roles[r].id == id
    requires forall m, role :: (m in byMember && role in byMember[m]) <==> Bound(db, m, role)
    requires forall id :: id in roleIds <==>
               member.id in byMember && id in byMember[member.id] && id in rolesById
                 && rolesById[id].project == member.project
    ensures AreHeld(db, member, roleIds)
  {
    hide Bound;
    forall id | id in roleIds
      ensures exists r :: Holds(db, member, r) && db.roles[r].id == id
    {
      var r :| 0 <= r < |db.roles| && db.roles[r] == rolesById[id] && db.roles[r].id == id;
      assert Bound(db, member.id, id);
      assert Holds(db, member, r);
    }
  }

  /** The loaded snapshot grants a permission exactly when a role of the member's own project does. */
  method Load(db: Db) returns (s: Snapshot)
    requires PrimaryKeys(db)
    ensures Loaded(db, s)
  {
    var projects := IndexProjects(db);
    var rolesById := IndexRoles(db);
    var codes := set i | 0 <= i < |db.permissions| :: db.permissions[i].code;
    var byRole := IndexPermissions(db);
    var byMember := IndexBindings(db);
    var memberships: seq<Membership> := [];
    hide Reflects, PrimaryKeys, Bound, RoleGrants;
    for i := 0 to |db.members|
      invariant |memberships| == i
      invariant forall j | 0 <= j < i :: Reflects(db, db.members[j], memberships[j])
    {
      var m := BuildMembership(db, db.members[i], rolesById, byRole, byMember);
      memberships := memberships + [m];
    }
    s := Snapshot(projects, memberships, codes);
  }

  // --- Asking the snapshot ------------------------------------------------------------------------

  function SummaryOf(project: Project, roles: set<string>, permissions: set<string>): Summary {
    Summary(project.id, project.slug, project.name, roles, permissions)
  }

  predicate IsMembership(m: Membership, account: Id, project: Id) {
    m.account == account && m.project == project && m.active
  }

  predicate FirstMembership(s: Snapshot, account: Id, project: Id, i: int) {
    && 0 <= i < |s.memberships|
    && IsMembership(s.memberships[i], account, project)
    && forall j | 0 <= j < i :: !IsMembership(s.memberships[j], account, project)
  }

  /** The answer the snapshot owes: nothing for an unusable project, everything to a super admin, else what the first
      active membership of the account says. */
  ghost predicate Answers(s: Snapshot, principal: Principal, project: Id, required: string, access: Access) {
    if !principal.active || project !in s.projects || !s.projects[project].active then access == NoProject
    else if principal.superAdmin then
      access == Granted(SummaryOf(s.projects[project], {"super_admin"}, s.permissionCodes))
    else if access == NoProject then
      forall i | 0 <= i < |s.memberships| :: !IsMembership(s.memberships[i], principal.account, project)
    else exists i | 0 <= i < |s.memberships| ::
      && FirstMembership(s, principal.account, project, i)
      && access == if required in s.memberships[i].permissions
                   then Granted(SummaryOf(s.projects[project], s.memberships[i].roles, s.memberships[i].permissions))
                   else Forbidden
  }

  /** The first active membership of the account in the project decides. */
  method GetProjectForAccount(s: Snapshot, principal: Principal, project: Id, required: string) returns (access: Access)
    ensures Answers(s, principal, project, required, access)
  {
    if !principal.active || project !in s.projects || !s.projects[project].active {
      return NoProject;
    }
    if principal.superAdmin {
      return Granted(SummaryOf(s.projects[project], {"super_admin"}, s.permissionCodes));
    }
    for i := 0 to |s.memberships|
      invariant forall j | 0 <= j < i :: !IsMembership(s.memberships[j], principal.account, project)
    {
      var m := s.memberships[i];
      if m.account == principal.account && m.project == project && m.active {
        assert FirstMembership(s, principal.account, project, i);
        if required !in m.permissions {
          return Forbidden;
        }
        return Granted(SummaryOf(s.projects[project], m.roles, m.permissions));
      }
    }
    access := NoProject;
  }

  ghost predicate SortedBySlug(list: seq<Summary>) {
    forall i, j | 0 <= i < j < |list| :: LexLeq(list[i].slug, list[j].slug)
  }

  function InsertBySlug(x: Summary, list: seq<Summary>): seq<Summary> {
    if list == [] || (LexLeq(x.slug, list[0].slug) && x.slug != list[0].slug) then [x] + list
    else [list[0]] + InsertBySlug(x, list[1..])
  }

  lemma {:induction false} InsertSorted(x: Summary, list: seq<Summary>)
    requires SortedBySlug(list)
    ensures SortedBySlug(InsertBySlug(x, list))
    ensures multiset(InsertBySlug(x, list)) == multiset(list) + multiset{x}
  {
    hide LexLeq;
    if list == [] {
    } else if LexLeq(x.slug, list[0].slug) && x.slug != list[0].slug {
      forall i | 0 <= i < |list|
        ensures LexLeq(x.slug, list[i].slug)
      {
        if i > 0 {
          LexTransitive(x.slug, list[0].slug, list[i].slug);
        }
      }
    } else {
      InsertSorted(x, list[1..]);
      LexTotal(x.slug, list[0].slug);
      var rest := InsertBySlug(x, list[1..]);
      assert list == [list[0]] + list[1..];
      forall i | 0 <= i < |rest|
        ensures LexLeq(list[0].slug, rest[i].slug)
      {
        assert rest[i] in multiset(rest);
        assert rest[i] == x || rest[i] in list[1..];
        LexTotal(list[0].slug, list[0].slug);
      }
    }
  }

  /** No two entries are about the same project. */
  ghost predicate OncePerProject(list: seq<Summary>) {
    forall i, j | 0 <= i < j < |list| :: list[i].id != list[j].id
  }

  lemma {:induction false} InsertOnce(x: Summary, list: seq<Summary>)
    requires OncePerProject(list) && forall y | y in list :: y.id != x.id
    ensures OncePerProject(InsertBySlug(x, list))
    ensures forall y | y in InsertBySlug(x, list) :: y in list || y == x
  {
    hide LexLeq;
    if list != [] && !(LexLeq(x.slug, list[0].slug) && x.slug != list[0].slug) {
      assert list == [list[0]] + list[1..];
      assert forall y | y in list[1..] :: y in list;
      InsertOnce(x, list[1..]);
      var rest := InsertBySlug(x, list[1..]);
      forall i | 0 <= i < |rest|
        ensures rest[i].id != list[0].id
      {
        if rest[i] in list[1..] {
          var k :| 0 <= k < |list[1..]| && list[1..][k] == rest[i];
          assert list[k + 1].id != list[0].id;
        }
      }
    }
  }

  /** The unique constraint, as the snapshot sees it. */
  ghost predicate UniqueMemberships(s: Snapshot) {
    forall i, j | 0 <= i < j < |s.memberships| ::
      !(s.memberships[i].account == s.memberships[j].account && s.memberships[i].project == s.memberships[j].project)
  }

  lemma LoadedUnique(db: Db, s: Snapshot)
    requires UniqueMembers(db) && Loaded(db, s)
    ensures UniqueMemberships(s)
  {
    hide HasPermission, HasRole;
    forall i | 0 <= i < |db.members|
      ensures s.memberships[i].account == db.members[i].account && s.memberships[i].project == db.members[i].project
    {
      assert Reflects(db, db.members[i], s.memberships[i]);
    }
  }

  ghost predicate Shows(s: Snapshot, principal: Principal, x: Summary) {
    && principal.active && x.id in s.projects && s.projects[x.id].active
    && if principal.superAdmin then x == SummaryOf(s.projects[x.id], {"super_admin"}, s.permissionCodes)
       else exists i :: 0 <= i < |s.memberships| && IsMembership(s.memberships[i], principal.account, x.id)
                        && x == SummaryOf(s.projects[x.id], s.memberships[i].roles, s.memberships[i].permissions)
  }

  ghost predicate KeysMatch(s: Snapshot) { forall id | id in s.projects :: s.projects[id].id == id }

  /** The visible projects, each in order of its slug, and once when memberships are unique. */
  method ListVisibleProjects(s: Snapshot, principal: Principal) returns (visible: seq<Summary>)
    requires KeysMatch(s)
    ensures SortedBySlug(visible)
    ensures principal.superAdmin || UniqueMemberships(s) ==> OncePerProject(visible)
    ensures forall x :: x in visible <==> Shows(s, principal, x)
  {
    visible := [];
    if !principal.active {
      return;
    }
    if principal.superAdmin {
      visible := ListAll(s);
      return;
    }
    for i := 0 to |s.memberships|
      invariant SortedBySlug(visible)
      invariant UniqueMemberships(s) ==> OncePerProject(visible)
      invariant forall x :: x in visible <==>
                  && x.id in s.projects && s.projects[x.id].active
                  && exists j :: 0 <= j < i && IsMembership(s.memberships[j], principal.account, x.id)
                       && x == SummaryOf(s.projects[x.id], s.memberships[j].roles, s.memberships[j].permissions)
    {
      var m := s.memberships[i];
      if m.account != principal.account || !m.active || m.project !in s.projects || !s.projects[m.project].active {
        continue;
      }
      var added := SummaryOf(s.projects[m.project], m.roles, m.permissions);
      ghost var before := visible;
      if UniqueMemberships(s) {
        NotYetListed(s, principal, i, visible);
        InsertOnce(added, visible);
      }
      InsertSorted(added, visible);
      visible := InsertBySlug(added, visible);
      Inserted(added, before);
    }
  }

  lemma Inserted(x: Summary, list: seq<Summary>)
    requires multiset(InsertBySlug(x, list)) == multiset(list) + multiset{x}
    ensures forall y :: y in InsertBySlug(x, list) <==> y in list || y == x
  {
    hide InsertBySlug;
    var after := InsertBySlug(x, list);
    forall y
      ensures y in after <==> y in list || y == x
    {
      assert y in after <==> y in multiset(after);
      assert y in list <==> y in multiset(list);
    }
  }

  lemma NotYetListed(s: Snapshot, principal: Principal, i: nat, visible: seq<Summary>)
    requires UniqueMemberships(s) && i < |s.memberships| && s.memberships[i].account == principal.account
    requires forall x | x in visible :: exists j ::
             0 <= j < i && IsMembership(s.memberships[j], principal.account, x.id)
    ensures forall x | x in visible :: x.id != s.memberships[i].project
  {}

  method ListAll(s: Snapshot) returns (visible: seq<Summary>)
    requires KeysMatch(s)
    ensures SortedBySlug(visible) && OncePerProject(visible)
    ensures forall x :: x in visible <==>
              && x.id in s.projects && s.projects[x.id].active
              && x == SummaryOf(s.projects[x.id], {"super_admin"}, s.permissionCodes)
  {
    visible := [];
    var rest := s.projects.Keys;
    while rest != {}
      invariant rest <= s.projects.Keys
      invariant SortedBySlug(visible) && OncePerProject(visible)
      invariant forall x :: x in visible <==>
                  && x.id in s.projects && x.id !in rest && s.projects[x.id].active
                  && x == SummaryOf(s.projects[x.id], {"super_admin"}, s.permissionCodes)
      decreases |rest|
    {
      var id :| id in rest;
      rest := rest - {id};
      if s.projects[id].active {
        var added := SummaryOf(s.projects[id], {"super_admin"}, s.permissionCodes);
        ghost var before := visible;
        InsertOnce(added, visible);
        InsertSorted(added, visible);
        visible := InsertBySlug(added, visible);
        Inserted(added, before);
      }
    }
  }

  // --- The simple access service -------------------------------------------------------------------

  datatype Grant = Grant(account: Id, project: Id, projectActive: bool, memberActive: bool, permissions: set<string>)

  datatype Service = Service(grants: seq<Grant>, activeProjects: set<Id>)

  predicate GrantApplies(g: Grant, principal: Principal, project: Id) {
    g.account == principal.account && g.project == project && g.projectActive && g.memberActive
  }

  predicate CanAccess(service: Service, principal: Principal, project: Id, required: string) {
    && principal.active
    && if principal.superAdmin then project in service.activeProjects
       else exists i | 0 <= i < |service.grants| ::
              GrantApplies(service.grants[i], principal, project) && required in service.grants[i].permissions
  }

  /** The ids that the service lists, in whatever order. */
  predicate Visible(service: Service, principal: Principal, project: Id) {
    && principal.active
    && if principal.superAdmin then project in service.activeProjects
       else exists i | 0 <= i < |service.grants| :: GrantApplies(service.grants[i], principal, project)
  }

  function PermissionsOf(db: Db, member: Member): set<string> {
    set p | 0 <= p < |db.permissions| && HasPermission(db, member, db.permissions[p].code) :: db.permissions[p].code
  }

  /** The service fed from the same tables by the relational definition. */
  function ServiceOf(db: Db): Service {
    Service(
      seq(|db.members|, i requires 0 <= i < |db.members| =>
        Grant(db.members[i].account, db.members[i].project, IsActiveProject(db, db.members[i].project),
          db.members[i].active, PermissionsOf(db, db.members[i]))),
      set p | 0 <= p < |db.projects| && db.projects[p].active :: db.projects[p].id)
  }

  lemma PermissionsExact(db: Db, member: Member, code: string)
    ensures code in PermissionsOf(db, member) <==> HasPermission(db, member, code)
  {
    if HasPermission(db, member, code) {
      var r :| 0 <= r < |db.roles| && Holds(db, member, r) && RoleGrants(db, db.roles[r].id, code);
      var b :| 0 <= b < |db.rolePermissions| && GrantsBy(db, db.roles[r].id, code, b);
      var p :| 0 <= p < |db.permissions| && db.permissions[p].id == db.rolePermissions[b].permission
        && db.permissions[p].code == code;
    }
  }

  lemma ProjectsAgree(db: Db, s: Snapshot, project: Id)
    requires PrimaryKeys(db) && Loaded(db, s)
    ensures project in s.projects && s.projects[project].active <==> IsActiveProject(db, project)
    ensures project in ServiceOf(db).activeProjects <==> IsActiveProject(db, project)
  {
    hide Reflects, HasPermission;
    if project in s.projects {
      var i :| 0 <= i < |db.projects| && db.projects[i] == s.projects[project] && db.projects[i].id == project;
    }
    if IsActiveProject(db, project) {
      var i :| 0 <= i < |db.projects| && db.projects[i].id == project && db.projects[i].active;
      assert db.projects[i].id in ServiceOf(db).activeProjects;
    }
  }

  lemma GrantAgrees(db: Db, s: Snapshot, principal: Principal, project: Id, i: nat)
    requires PrimaryKeys(db) && Loaded(db, s) && i < |db.members|
    ensures GrantApplies(ServiceOf(db).grants[i], principal, project) <==>
            IsMembership(s.memberships[i], principal.account, project) && project in s.projects
              && s.projects[project].active
    ensures forall code :: code in ServiceOf(db).grants[i].permissions <==> code in s.memberships[i].permissions
  {
    ProjectsAgree(db, s, project);
    hide HasPermission, HasRole, IsActiveProject, PermissionsOf;
    assert Reflects(db, db.members[i], s.memberships[i]);
    forall code {
      PermissionsExact(db, db.members[i], code);
    }
  }

  /** With unique memberships the snapshot and the service agree on every access question: it grants exactly what the
      service grants, and it knows the project exactly when the service shows it. */
  lemma AccessAgrees(db: Db, s: Snapshot, principal: Principal, project: Id, required: string, access: Access)
    requires PrimaryKeys(db) && UniqueMembers(db) && Loaded(db, s)
    requires Answers(s, principal, project, required, access)
    ensures access.Granted? <==> CanAccess(ServiceOf(db), principal, project, required)
    ensures access == NoProject <==> !Visible(ServiceOf(db), principal, project)
  {
    ProjectsAgree(db, s, project);
    hide HasPermission, HasRole, IsActiveProject, PermissionsOf, PrimaryKeys;
    forall i | 0 <= i < |db.members|
      ensures GrantApplies(ServiceOf(db).grants[i], principal, project) <==>
              IsMembership(s.memberships[i], principal.account, project) && project in s.projects
                && s.projects[project].active
      ensures forall code :: code in ServiceOf(db).grants[i].permissions <==> code in s.memberships[i].permissions
      ensures s.memberships[i].account == db.members[i].account && s.memberships[i].project == db.members[i].project
    {
      GrantAgrees(db, s, principal, project, i);
      assert Reflects(db, db.members[i], s.memberships[i]);
    }
    assert |ServiceOf(db).grants| == |db.members| == |s.memberships|;
    hide ServiceOf, Loaded;
  }

  /** The projects that the snapshot lists are exactly those that the service lists. */
  lemma VisibilityAgrees(db: Db, s: Snapshot, principal: Principal, project: Id)
    requires PrimaryKeys(db) && Loaded(db, s)
    ensures KeysMatch(s)
    ensures (exists x :: Shows(s, principal, x) && x.id == project) <==> Visible(ServiceOf(db), principal, project)
  {
    ProjectsAgree(db, s, project);
    forall i | 0 <= i < |db.members|
      ensures GrantApplies(ServiceOf(db).grants[i], principal, project) <==>
              IsMembership(s.memberships[i], principal.account, project) && project in s.projects
                && s.projects[project].active
    {
      GrantAgrees(db, s, principal, project, i);
    }
    hide HasPermission, HasRole, IsActiveProject, PermissionsOf, Reflects;
    assert KeysMatch(s);
    if Visible(ServiceOf(db), principal, project) {
      if principal.superAdmin {
        assert Shows(s, principal, SummaryOf(s.projects[project], {"super_admin"}, s.permissionCodes));
      } else {
        var i :| 0 <= i < |db.members| && GrantApplies(ServiceOf(db).grants[i], principal, project);
        assert Shows(
               s, principal, SummaryOf(s.projects[project], s.memberships[i].roles, s.memberships[i].permissions));
      }
    }
  }

  /** A binding to a role of another project grants nothing. */
  lemma ForeignRoleGrantsNothing(db: Db, member: Member, role: Role, code: string)
    requires PrimaryKeys(db) && role in db.roles && role.project != member.project
    ensures HasPermission(db.(memberRoles := db.memberRoles + [MemberRole(member.id, role.id)]), member, code)
         <==> HasPermission(db, member, code)
  {
    var more := db.(memberRoles := db.memberRoles + [MemberRole(member.id, role.id)]);
    forall r | 0 <= r < |db.roles|
      ensures Holds(more, member, r) <==> Holds(db, member, r)
    {
      OneMoreBinding(db, member.id, role.id, db.roles[r].id);
      var k :| 0 <= k < |db.roles| && db.roles[k] == role;
    }
    assert forall r | 0 <= r < |db.roles| :: RoleGrants(more, db.roles[r].id, code) <==>
           RoleGrants(db, db.roles[r].id, code) by {
      forall r, b | 0 <= r < |db.roles| && 0 <= b < |db.rolePermissions|
        ensures GrantsBy(more, db.roles[r].id, code, b) <==> GrantsBy(db, db.roles[r].id, code, b)
      {}
    }
    hide Holds, RoleGrants;
  }

  lemma OneMoreBinding(db: Db, member: Id, role: Id, other: Id)
    ensures Bound(db.(memberRoles := db.memberRoles + [MemberRole(member, role)]), member, other) <==>
            Bound(db, member, other) || other == role
  {
    var more := db.memberRoles + [MemberRole(member, role)];
    assert more[|db.memberRoles|] == MemberRole(member, role);
    assert forall b | 0 <= b < |db.memberRoles| :: more[b] == db.memberRoles[b];
  }
}

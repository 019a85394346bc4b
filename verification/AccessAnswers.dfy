/** What an access answer tells an account, told from the rows of the tables. */
module AccessAnswers {
  import opened Common
  import opened ProjectAccess

  /** Rows that give the member the role: a binding, and the role itself, which belongs to the member's project. */
  predicate GivesRole(db: Db, member: Member, b: nat, r: nat) {
    && b < |db.memberRoles| && r < |db.roles|
    && db.memberRoles[b] == MemberRole(member.id, db.roles[r].id) && db.roles[r].project == member.project
  }

  /** Rows that give the role the permission code. */
  predicate GivesCode(db: Db, role: Id, g: nat, p: nat, code: string) {
    && g < |db.rolePermissions| && p < |db.permissions|
    && db.rolePermissions[g] == RolePermission(role, db.permissions[p].id) && db.permissions[p].code == code
  }

  ghost predicate HasCodeByRows(db: Db, member: Member, code: string) {
    exists b: nat, r: nat, g: nat, p: nat ::
      GivesRole(db, member, b, r) && GivesCode(db, db.roles[r].id, g, p, code)
  }

  ghost predicate HasRoleByRows(db: Db, member: Member, code: string) {
    exists b: nat, r: nat :: GivesRole(db, member, b, r) && db.roles[r].code == code
  }

  lemma {:induction false} PermissionByRows(db: Db, member: Member, code: string)
    ensures HasPermission(db, member, code) <==> HasCodeByRows(db, member, code)
  {
    if HasPermission(db, member, code) {
      var r :| 0 <= r < |db.roles| && Holds(db, member, r) && RoleGrants(db, db.roles[r].id, code);
      var b :| 0 <= b < |db.memberRoles| && db.memberRoles[b] == MemberRole(member.id, db.roles[r].id);
      var g :| 0 <= g < |db.rolePermissions| && GrantsBy(db, db.roles[r].id, code, g);
      var p :| 0 <= p < |db.permissions| && db.permissions[p].id == db.rolePermissions[g].permission
               && db.permissions[p].code == code;
      assert GivesRole(db, member, b, r) && GivesCode(db, db.roles[r].id, g, p, code);
    }
    if HasCodeByRows(db, member, code) {
      var b: nat, r: nat, g: nat, p: nat :|
        GivesRole(db, member, b, r) && GivesCode(db, db.roles[r].id, g, p, code);
      assert Bound(db, member.id, db.roles[r].id);
      assert HasCode(db, db.rolePermissions[g].permission, code, |db.permissions|);
      assert GrantsBy(db, db.roles[r].id, code, g);
      assert RoleGrants(db, db.roles[r].id, code);
      assert Holds(db, member, r);
    }
  }

  lemma {:induction false} RoleByRows(db: Db, member: Member, code: string)
    ensures HasRole(db, member, code) <==> HasRoleByRows(db, member, code)
  {
    if HasRole(db, member, code) {
      var r :| 0 <= r < |db.roles| && Holds(db, member, r) && db.roles[r].code == code;
      var b :| 0 <= b < |db.memberRoles| && db.memberRoles[b] == MemberRole(member.id, db.roles[r].id);
      assert GivesRole(db, member, b, r);
    }
    if HasRoleByRows(db, member, code) {
      var b: nat, r: nat :| GivesRole(db, member, b, r) && db.roles[r].code == code;
      assert Bound(db, member.id, db.roles[r].id);
      assert Holds(db, member, r);
    }
  }

  /** The summary repeats the row of an active project. */
  ghost predicate DescribesProject(db: Db, x: Summary) { Project(x.id, x.slug, x.name, true) in db.projects }

  /** The summary lists the roles and permission codes that the rows give the member. */
  ghost predicate ListsRights(db: Db, member: Member, x: Summary) {
    && (forall code :: code in x.roles <==> HasRoleByRows(db, member, code))
    && (forall code :: code in x.permissions <==> HasCodeByRows(db, member, code))
  }

  ghost predicate ListsEverything(db: Db, x: Summary) {
    && x.roles == {"super_admin"}
    && forall code :: code in x.permissions <==> exists p :: 0 <= p < |db.permissions| && db.permissions[p].code == code
  }

  /** The active membership of the account in the project. */
  ghost predicate IsMember(db: Db, account: Id, project: Id, i: nat) {
    i < |db.members| && db.members[i] == Member(db.members[i].id, project, account, true)
  }

  lemma {:induction false} SummaryDescribes(
    db: Db, s: Snapshot, project: Id, roles: set<string>, permissions: set<string>)
    requires PrimaryKeys(db) && Loaded(db, s) && project in s.projects && s.projects[project].active
    ensures var x := SummaryOf(s.projects[project], roles, permissions);
            DescribesProject(db, x) && x.id == project && x.roles == roles && x.permissions == permissions
  {
    hide Reflects;
    var i :| 0 <= i < |db.projects| && db.projects[i] == s.projects[project] && db.projects[i].id == project;
    assert db.projects[i] in db.projects;
  }

  lemma {:induction false} MembershipLists(db: Db, s: Snapshot, i: nat, x: Summary)
    requires Loaded(db, s) && i < |db.members|
    requires x.roles == s.memberships[i].roles && x.permissions == s.memberships[i].permissions
    ensures ListsRights(db, db.members[i], x)
  {
    hide HasPermission, HasRole, HasCodeByRows, HasRoleByRows;
    assert Reflects(db, db.members[i], s.memberships[i]);
    forall code: string
      ensures code in x.roles <==> HasRoleByRows(db, db.members[i], code)
      ensures code in x.permissions <==> HasCodeByRows(db, db.members[i], code)
    {
      PermissionByRows(db, db.members[i], code);
      RoleByRows(db, db.members[i], code);
    }
  }

  /** What the snapshot of any tables answers about one project: the summary repeats the row of the active project; an
      active super admin gets the one role and every permission code; any other active account the role codes and
      permission codes that the rows give its active membership, and only if the required code is among them. */
  lemma {:induction false} AnswerShows(
    db: Db, s: Snapshot, principal: Principal, project: Id, required: string, access: Access)
    requires PrimaryKeys(db) && Loaded(db, s) && Answers(s, principal, project, required, access)
    requires access.Granted?
    ensures principal.active && DescribesProject(db, access.summary) && access.summary.id == project
    ensures if principal.superAdmin then ListsEverything(db, access.summary)
            else exists i: nat :: IsMember(db, principal.account, project, i)
                                  && ListsRights(db, db.members[i], access.summary)
                                  && HasCodeByRows(db, db.members[i], required)
  {
    hide HasPermission, HasRole, ListsRights, DescribesProject, HasCodeByRows;
    var x := access.summary;
    SummaryDescribes(db, s, project, x.roles, x.permissions);
    if !principal.superAdmin {
      var i :| 0 <= i < |s.memberships| && FirstMembership(s, principal.account, project, i)
        && x == SummaryOf(s.projects[project], s.memberships[i].roles, s.memberships[i].permissions)
        && required in s.memberships[i].permissions;
      assert Reflects(db, db.members[i], s.memberships[i]);
      MembershipLists(db, s, i, x);
      PermissionByRows(db, db.members[i], required);
      assert IsMember(db, principal.account, project, i);
    }
  }

  /** What it lists: every summary shown repeats the row of an active project, with the same rights as above. */
  lemma {:induction false} ListShows(db: Db, s: Snapshot, principal: Principal, x: Summary)
    requires PrimaryKeys(db) && Loaded(db, s) && Shows(s, principal, x)
    ensures principal.active && DescribesProject(db, x)
    ensures if principal.superAdmin then ListsEverything(db, x)
            else exists i: nat :: IsMember(db, principal.account, x.id, i) && ListsRights(db, db.members[i], x)
  {
    hide HasPermission, HasRole, ListsRights, DescribesProject;
    SummaryDescribes(db, s, x.id, x.roles, x.permissions);
    if !principal.superAdmin {
      var i :| 0 <= i < |s.memberships| && IsMembership(s.memberships[i], principal.account, x.id)
        && x == SummaryOf(s.projects[x.id], s.memberships[i].roles, s.memberships[i].permissions);
      assert Reflects(db, db.members[i], s.memberships[i]);
      MembershipLists(db, s, i, x);
      assert IsMember(db, principal.account, x.id, i);
    }
  }
}

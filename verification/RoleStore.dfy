/** The role tables and the join that answers which permissions a user has in an organization. */
module RoleStore {
  import opened Results

  datatype UserRole = UserRole(id: nat, user: nat, role: nat, org: nat, app: Option<nat>)

  datatype Tables = Tables(userRoles: set<UserRole>, rolePerms: set<(nat, string)>)

  datatype Who = Who(user: nat, org: nat)

  datatype Change =
    | Assign(row: UserRole)
    | RemoveFromUser(user: nat, role: nat)
    | AddPermission(role: nat, perm: string)
    | RemovePermission(role: nat, perm: string)

  predicate Grants(c: Change) {
    c.Assign? || c.AddPermission?
  }

  /** The uniqueness constraint over (user, role, organization, app); a NULL app equals nothing. */
  predicate Conflicts(t: Tables, row: UserRole) {
    row.app.Some? &&
    exists r :: r in t.userRoles && r.user == row.user && r.role == row.role && r.org == row.org && r.app == row.app
  }

  function After(t: Tables, c: Change): Tables {
    match c
    case Assign(row) => if Conflicts(t, row) then t else t.(userRoles := t.userRoles + {row})
    case RemoveFromUser(user, role) => t.(userRoles := set r | r in t.userRoles && !(r.user == user && r.role == role))
    case AddPermission(role, perm) => t.(rolePerms := t.rolePerms + {(role, perm)})
    case RemovePermission(role, perm) => t.(rolePerms := t.rolePerms - {(role, perm)})
  }

  /** Some role of the user in the organization carries the permission. */
  predicate Joined(t: Tables, who: Who, perm: string) {
    exists r, p :: r in t.userRoles && p in t.rolePerms && r.role == p.0 && p.1 == perm && r.user == who.user &&
        r.org == who.org
  }

  function Join(t: Tables, who: Who): (s: set<string>)
    ensures forall perm :: perm in s <==> Joined(t, who, perm)
  {
    set r, p | r in t.userRoles && p in t.rolePerms && r.role == p.0 && r.user == who.user && r.org == who.org :: p.1
  }

  function RolePermissions(t: Tables, role: nat): set<string> {
    set p | p in t.rolePerms && p.0 == role :: p.1
  }

  function Elements(s: seq<string>): set<string> {
    set x | x in s
  }

  /** A list of rows without repetition, in whatever order the database returns them. */
  predicate Lists(rows: seq<string>, s: set<string>) {
    Elements(rows) == s && forall i, j :: 0 <= i < j < |rows| ==> rows[i] != rows[j]
  }

  lemma GrantsGrow(t: Tables, c: Change, who: Who)
    requires Grants(c)
    ensures Join(t, who) <= Join(After(t, c), who)
  {
    var t' := After(t, c);
    forall perm | perm in Join(t, who)
      ensures perm in Join(t', who)
    {
      var r, p :| r in t.userRoles && p in t.rolePerms && r.role == p.0 && p.1 == perm && r.user == who.user &&
          r.org == who.org;
      assert r in t'.userRoles && p in t'.rolePerms;
    }
  }

  /** Assigning a role adds that role's permissions for that user and organization, and changes nobody else. */
  lemma AssignJoins(t: Tables, row: UserRole, who: Who)
    ensures Join(After(t, Assign(row)), who) ==
            if who == Who(row.user, row.org) then Join(t, who) + RolePermissions(t, row.role)
            else Join(t, who)
  {
    var t' := After(t, Assign(row));
    forall perm
      ensures perm in Join(t', who) <==>
              perm in Join(t, who) || (who == Who(row.user, row.org) && (row.role, perm) in t.rolePerms)
    {
      GrantsGrow(t, Assign(row), who);
      if who == Who(row.user, row.org) && (row.role, perm) in t.rolePerms {
        var r :| r in t'.userRoles && r.user == row.user && r.role == row.role && r.org == row.org;
        assert (row.role, perm) in t'.rolePerms && r.role == (row.role, perm).0;
      }
      assert perm in RolePermissions(t, row.role) <==> (row.role, perm) in t.rolePerms by {
        if (row.role, perm) in t.rolePerms { assert (row.role, perm).1 == perm; }
      }
      if perm in Join(t', who) && !Joined(t, who, perm) {
        var r, p :| r in t'.userRoles && p in t'.rolePerms && r.role == p.0 && p.1 == perm && r.user == who.user &&
            r.org == who.org;
        assert r == row;
      }
    }
  }

  /** Some role other than `role` gives the user the permission in the organization. */
  predicate JoinedElsewhere(t: Tables, who: Who, perm: string, role: nat) {
    exists r :: r in t.userRoles && r.role != role && (r.role, perm) in t.rolePerms && r.user == who.user &&
        r.org == who.org
  }

  /** Some row of the user in the organization names a role that has the permission. */
  ghost predicate Gives(t: Tables, who: Who, perm: string) {
    exists r :: r in t.userRoles && (r.role, perm) in t.rolePerms && r.user == who.user && r.org == who.org
  }

  lemma JoinedBy(t: Tables, who: Who, perm: string)
    ensures Joined(t, who, perm) <==> Gives(t, who, perm)
  {
    if r :| r in t.userRoles && (r.role, perm) in t.rolePerms && r.user == who.user && r.org == who.org {
      assert (r.role, perm).0 == r.role && (r.role, perm).1 == perm;
    }
  }

  /** Taking a role from a user leaves, in every organization, what the user's other roles give. */
  lemma RemovalJoins(t: Tables, user: nat, role: nat, who: Who, perm: string)
    ensures perm in Join(After(t, RemoveFromUser(user, role)), who) <==>
            if who.user == user then JoinedElsewhere(t, who, perm, role) else perm in Join(t, who)
  {
    JoinedBy(t, who, perm);
    JoinedBy(After(t, RemoveFromUser(user, role)), who, perm);
  }

  /** Taking a permission from a role takes it from every user who has it by no other role. */
  lemma PermissionRemovalJoins(t: Tables, role: nat, removed: string, who: Who, perm: string)
    ensures perm in Join(After(t, RemovePermission(role, removed)), who) <==>
            if perm == removed then JoinedElsewhere(t, who, perm, role) else perm in Join(t, who)
  {
    JoinedBy(t, who, perm);
    JoinedBy(After(t, RemovePermission(role, removed)), who, perm);
  }

  /** Adding a permission to a role gives it to everybody who has the role, and changes nothing else. */
  lemma AdditionJoins(t: Tables, role: nat, added: string, who: Who, perm: string)
    ensures perm in Join(After(t, AddPermission(role, added)), who) <==>
            perm in Join(t, who) || (perm == added && HasRole(t, who, role))
  {
    JoinedBy(t, who, perm);
    JoinedBy(After(t, AddPermission(role, added)), who, perm);
  }

  predicate HasRole(t: Tables, who: Who, role: nat) {
    exists r :: r in t.userRoles && r.role == role && r.user == who.user && r.org == who.org
  }

  lemma RevokesShrink(t: Tables, c: Change, who: Who)
    requires !Grants(c)
    ensures Join(After(t, c), who) <= Join(t, who)
  {
    forall perm | perm in Join(After(t, c), who) ensures perm in Join(t, who) {
      JoinedBy(t, who, perm);
      match c {
        case RemoveFromUser(user, role) => RemovalJoins(t, user, role, who, perm);
        case RemovePermission(role, removed) => PermissionRemovalJoins(t, role, removed, who, perm);
      }
    }
  }

  // ---------------------------------------------------------------- the uniqueness constraint

  function AfterAll(t: Tables, changes: seq<Change>): Tables {
    if changes == [] then t else After(AfterAll(t, changes[..|changes| - 1]), changes[|changes| - 1])
  }

  predicate HasKey(r: UserRole, user: nat, role: nat, org: nat, app: Option<nat>) {
    r.user == user && r.role == role && r.org == org && r.app == app
  }

  predicate AtMostOneRow(t: Tables, user: nat, role: nat, org: nat, app: Option<nat>) {
    forall r, q | r in t.userRoles && q in t.userRoles ::
      HasKey(r, user, role, org, app) && HasKey(q, user, role, org, app) ==> r == q
  }

  const NO_ROWS := Tables({}, {})

  /** Whatever changes an empty table goes through, it has at most one row of the key. */
  ghost predicate AlwaysUnique(user: nat, role: nat, org: nat, app: Option<nat>) {
    forall changes :: AtMostOneRow(AfterAll(NO_ROWS, changes), user, role, org, app)
  }

  lemma {:induction false} StaysUnique(changes: seq<Change>, user: nat, role: nat, org: nat, app: Option<nat>)
    requires app.Some?
    ensures AtMostOneRow(AfterAll(NO_ROWS, changes), user, role, org, app)
  {
    if changes != [] {
      StaysUnique(changes[..|changes| - 1], user, role, org, app);
    }
  }

  /**
   * The constraint keeps one row for each key exactly when the key has an app: without one, the same role is assigned
   * twice.
   */
  lemma {:induction false} UniqueExactlyWhen(user: nat, role: nat, org: nat, app: Option<nat>)
    ensures AlwaysUnique(user, role, org, app) <==> app.Some?
  {
    if app.Some? {
      forall changes ensures AtMostOneRow(AfterAll(NO_ROWS, changes), user, role, org, app) {
        StaysUnique(changes, user, role, org, app);
      }
    } else {
      var one, two := UserRole(1, user, role, org, None), UserRole(2, user, role, org, None);
      var once := [Assign(one)];
      var twice := once + [Assign(two)];
      assert once[..0] == [] && twice[..1] == once;
      assert AfterAll(NO_ROWS, once) == After(AfterAll(NO_ROWS, []), Assign(one));
      assert AfterAll(NO_ROWS, once).userRoles == {one};
      assert AfterAll(NO_ROWS, twice) == After(AfterAll(NO_ROWS, once), Assign(two));
      assert AfterAll(NO_ROWS, twice).userRoles == {one} + {two};
      assert HasKey(one, user, role, org, app) && HasKey(two, user, role, org, app);
      assert !AtMostOneRow(AfterAll(NO_ROWS, twice), user, role, org, app);
    }
  }

  class RoleRepo {
    var tables: Tables

    constructor (tables: Tables)
      ensures this.tables == tables
    {
      this.tables := tables;
    }

    method AssignRoleToUser(row: UserRole)
      modifies this
      ensures tables == After(old(tables), Assign(row))
      ensures var taken := row.app.Some? && exists r | r in old(tables.userRoles) ::
                             r.user == row.user && r.role == row.role && r.org == row.org && r.app == row.app;
              tables.userRoles == if taken then old(tables.userRoles) else old(tables.userRoles) + {row}
      ensures tables.rolePerms == old(tables.rolePerms)
    {
      if !Conflicts(tables, row) {
        tables := tables.(userRoles := tables.userRoles + {row});
      }
    }

    method RemoveRoleFromUser(user: nat, role: nat)
      modifies this
      ensures tables == After(old(tables), RemoveFromUser(user, role))
      ensures forall r :: r in tables.userRoles <==> r in old(tables.userRoles) && !(r.user == user && r.role == role)
      ensures tables.rolePerms == old(tables.rolePerms)
    {
      tables := tables.(userRoles := set r | r in tables.userRoles && !(r.user == user && r.role == role));
    }

    method AddPermissionTo(role: nat, perm: string)
      modifies this
      ensures tables == After(old(tables), AddPermission(role, perm))
      ensures tables.userRoles == old(tables.userRoles)
      ensures forall p :: p in tables.rolePerms <==> p in old(tables.rolePerms) || p == (role, perm)
    {
      tables := tables.(rolePerms := tables.rolePerms + {(role, perm)});
    }

    method RemovePermissionFrom(role: nat, perm: string)
      modifies this
      ensures tables == After(old(tables), RemovePermission(role, perm))
      ensures tables.userRoles == old(tables.userRoles)
      ensures forall p :: p in tables.rolePerms <==> p in old(tables.rolePerms) && p != (role, perm)
    {
      tables := tables.(rolePerms := tables.rolePerms - {(role, perm)});
    }

    /** SELECT DISTINCT over the join: the rows come in any order. */
    method GetUserPermissions(who: Who) returns (perms: seq<string>)
      ensures Lists(perms, Join(tables, who))
      ensures forall perm :: perm in perms <==> Gives(tables, who, perm)
    {
      var rows := Join(tables, who);
      perms := [];
      ghost var all := rows;
      while rows != {}
        invariant rows <= all && Lists(perms, all - rows)
        decreases rows
      {
        var p :| p in rows;
        assert Elements(perms + [p]) == Elements(perms) + {p};
        perms := perms + [p];
        rows := rows - {p};
      }
      assert all - {} == all && forall perm :: perm in perms <==> perm in Elements(perms);
      forall perm ensures perm in all <==> Gives(tables, who, perm) {
        JoinedBy(tables, who, perm);
      }
    }
  }
}

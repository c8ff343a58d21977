/** Seeding of the users: `count` users, each with one to three roles drawn from the four
    roles, a role drawn twice being kept once. The random choices are an input. */
module SeedUser {
  import Seqs

  const ROLES: seq<string> := ["admin", "editor", "author", "subscriber"]

  datatype User = User(username: string, email: string, roles: seq<string>)

  /** The random choices for one user: the generated name and email, the roll `r` that sets
      `numRoles` to r + 1, and the positions in ROLES of the role draws. */
  datatype UserDraw = UserDraw(username: string, email: string, roll: nat, rolePicks: seq<nat>)

  predicate ValidDraw(d: UserDraw) {
    d.roll < 3 && |d.rolePicks| >= d.roll + 1 && forall j :: 0 <= j < |d.rolePicks| ==> d.rolePicks[j] < |ROLES|
  }

  function RolesOf(picks: seq<nat>): (rs: seq<string>)
    requires forall j :: 0 <= j < |picks| ==> picks[j] < |ROLES|
    ensures |rs| == |picks|
  {
    seq(|picks|, j requires 0 <= j < |picks| => ROLES[picks[j]])
  }

  /** The roles a user may end up with. */
  predicate WellRoled(roles: seq<string>) {
    && 1 <= |roles| <= 3
    && Seqs.NoDuplicates(roles)
    && forall k :: 0 <= k < |roles| ==> roles[k] in ROLES
  }

  /** The user one draw produces: its first `numRoles` role draws, each kept the first time. */
  function MakeUser(d: UserDraw): User
    requires ValidDraw(d)
  {
    User(d.username, d.email, Seqs.Distinct(RolesOf(d.rolePicks[..d.roll + 1])))
  }

  /** The inner loop: draws `numRoles` roles and pushes each one not yet included. */
  method PickRoles(numRoles: nat, picks: seq<nat>) returns (roles: seq<string>)
    requires 1 <= numRoles <= 3 && |picks| >= numRoles
    requires forall j :: 0 <= j < |picks| ==> picks[j] < |ROLES|
    ensures roles == Seqs.Distinct(RolesOf(picks[..numRoles]))
    ensures WellRoled(roles) && |roles| <= numRoles
  {
    ghost var drawn := RolesOf(picks[..numRoles]);
    roles := [];
    for j := 0 to numRoles
      invariant roles == Seqs.Distinct(drawn[..j])
    {
      var role := ROLES[picks[j]];
      assert drawn[..j + 1][..j] == drawn[..j];
      if role !in roles {
        roles := roles + [role];
      }
    }
    assert drawn[..numRoles] == drawn;
    RolesWellFormed(drawn);
  }

  lemma RolesWellFormed(drawn: seq<string>)
    requires 1 <= |drawn| <= 3 && forall k :: 0 <= k < |drawn| ==> drawn[k] in ROLES
    ensures WellRoled(Seqs.Distinct(drawn))
    ensures |Seqs.Distinct(drawn)| <= |drawn|
  {
    Seqs.DistinctProperties(drawn);
    Seqs.DistinctNonEmpty(drawn);
    var roles := Seqs.Distinct(drawn);
    forall k | 0 <= k < |roles| ensures roles[k] in ROLES {
      assert roles[k] in drawn;
    }
  }

  /** Every user a valid draw produces has one to three distinct roles from ROLES. */
  lemma MakeUserWellRoled(d: UserDraw)
    requires ValidDraw(d)
    ensures WellRoled(MakeUser(d).roles)
    ensures |MakeUser(d).roles| <= d.roll + 1
  {
    var drawn := RolesOf(d.rolePicks[..d.roll + 1]);
    RolesWellFormed(drawn);
  }

  function RoleIndex(r: string): (i: nat)
    requires r in ROLES
    ensures i < |ROLES| && ROLES[i] == r
  {
    if r == "admin" then 0 else if r == "editor" then 1 else if r == "author" then 2 else 3
  }

  /** Conversely, every such role list is what some draw produces. */
  lemma EveryWellRoledReachable(roles: seq<string>, username: string, email: string)
    requires WellRoled(roles)
    ensures exists d :: ValidDraw(d) && MakeUser(d) == User(username, email, roles)
  {
    var picks := seq(|roles|, k requires 0 <= k < |roles| => RoleIndex(roles[k]));
    var d := UserDraw(username, email, |roles| - 1, picks);
    assert picks[..d.roll + 1] == picks;
    assert RolesOf(picks) == roles;
    Seqs.DistinctOfNoDuplicates(roles);
    assert MakeUser(d) == User(username, email, roles);
  }

  /** `seedUsers(count)`: when users exist they are returned and nothing is generated;
      otherwise exactly `count` users are made, the i-th from the i-th draw. */
  method SeedUsers(existing: seq<User>, count: nat, draws: seq<UserDraw>) returns (users: seq<User>)
    requires existing == [] ==> |draws| >= count && forall i :: 0 <= i < |draws| ==> ValidDraw(draws[i])
    ensures existing != [] ==> users == existing
    ensures existing == [] ==> |users| == count
    ensures existing == [] ==> forall i :: 0 <= i < count ==> users[i] == MakeUser(draws[i])
    ensures existing == [] ==> forall i :: 0 <= i < count ==> WellRoled(users[i].roles)
  {
    if existing != [] {
      return existing;
    }
    users := [];
    for i := 0 to count
      invariant |users| == i
      invariant forall k :: 0 <= k < i ==> users[k] == MakeUser(draws[k]) && WellRoled(users[k].roles)
    {
      var d := draws[i];
      var numRoles := d.roll + 1;
      var roles := PickRoles(numRoles, d.rolePicks);
      users := users + [User(d.username, d.email, roles)];
    }
  }
}

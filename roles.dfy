/** router/roles.py: the role registry, whose role names are stored normalised
    and rejected when one already exists in another letter case. */
module Roles {
  import opened Results
  import opened Text
  import opened ObjectIds
  import opened Database

  /** The response of `POST /roles/`. */
  datatype RoleView = RoleView(id: string, roleName: string)

  function RoleNames(roles: seq<RoleDoc>): (r: seq<string>)
    ensures |r| == |roles|
    ensures forall i :: 0 <= i < |roles| ==> r[i] == roles[i].roleName
  {
    seq(|roles|, i requires 0 <= i < |roles| => roles[i].roleName)
  }

  /** `POST /roles/`: stores `role_name.strip().capitalize()` under a fresh id unless a
      stored role name equals it ignoring case. */
  method AddRole(db: Db, roleName: string) returns (res: Result<RoleView, ApiError>)
    requires db.Valid()
    modifies db`roles, db`nextId
    ensures db.Valid()
    ensures var n := NormalizeName(roleName);
      HasIgnoringCase(RoleNames(old(db.roles)), n) ==>
        && res == Err(BadRequest("Role '" + n + "' already exists."))
        && db.roles == old(db.roles) && db.nextId == old(db.nextId)
    ensures var n := NormalizeName(roleName);
      !HasIgnoringCase(RoleNames(old(db.roles)), n) ==>
        && res == Ok(RoleView(IdString(old(db.nextId)), n))
        && db.roles == old(db.roles) + [RoleDoc(old(db.nextId), n)]
        && db.nextId == old(db.nextId) + 1
    ensures NoCaseDuplicates(RoleNames(old(db.roles))) ==> NoCaseDuplicates(RoleNames(db.roles))
  {
    var n := NormalizeName(roleName);
    if HasIgnoringCase(RoleNames(db.roles), n) {
      return Err(BadRequest("Role '" + n + "' already exists."));
    }
    var id := db.NewId();
    ghost var before := db.roles;
    db.roles := db.roles + [RoleDoc(id, n)];
    assert RoleNames(db.roles) == RoleNames(before) + [n];
    if NoCaseDuplicates(RoleNames(before)) {
      AppendKeepsNoCaseDuplicates(RoleNames(before), n);
    }
    return Ok(RoleView(IdString(id), n));
  }

  /** `GET /roles/`: one entry per stored role, in store order, reduced by the response
      model `List[Role]` to its `role_name`. */
  method GetAllRoles(db: Db) returns (names: seq<string>)
    ensures names == RoleNames(db.roles)
  {
    var roles := db.roles;
    names := seq(|roles|, i requires 0 <= i < |roles| => roles[i].roleName);
  }
}

/** router/users.py: registration, login, partial update and deletion of user
    records. Password hashing and checking are the parameters `hashpw` (a salted
    bcrypt hash) and `checkpw` (`None` where bcrypt rejects the stored value as a
    hash, which escapes the handler as a 500). */
module Users {
  import opened Results
  import opened ObjectIds
  import opened Database

  /** A registration request once the framework has validated it. */
  datatype NewUser = NewUser(
    firstName: string,
    middleName: string,
    lastName: string,
    emailId: string,
    password: string,
    roleName: string)

  /** The `user` object of a login response: the record without its password. */
  datatype UserView = UserView(
    id: string,
    firstName: string,
    middleName: string,
    lastName: string,
    emailId: string,
    roleName: string)

  function ViewOf(u: UserDoc): UserView {
    UserView(IdString(u.id), u.firstName, u.middleName, u.lastName, u.emailId, u.roleName)
  }

  /** The position of the first user with `email`, the one `find_one` returns. */
  function FirstWithEmail(users: seq<UserDoc>, email: string): (r: Option<nat>)
    ensures r.None? <==> forall i :: 0 <= i < |users| ==> users[i].emailId != email
    ensures r.Some? ==>
      && r.value < |users| && users[r.value].emailId == email
      && forall i :: 0 <= i < r.value ==> users[i].emailId != email
  {
    if users == [] then None
    else if users[0].emailId == email then Some(0)
    else match FirstWithEmail(users[1..], email)
      case None => None
      case Some(k) => Some(k + 1)
  }

  /** The position of the user whose `_id` is `id`. */
  function PositionOfId(users: seq<UserDoc>, id: ObjectId): (r: Option<nat>)
    ensures r.None? <==> forall i :: 0 <= i < |users| ==> users[i].id != id
    ensures r.Some? ==>
      && r.value < |users| && users[r.value].id == id
      && forall i :: 0 <= i < r.value ==> users[i].id != id
  {
    if users == [] then None
    else if users[0].id == id then Some(0)
    else match PositionOfId(users[1..], id)
      case None => None
      case Some(k) => Some(k + 1)
  }

  /** `POST /users/register`: refuses an email some user already has (compared exactly),
      otherwise stores the request with its password hashed. */
  method RegisterUser(db: Db, u: NewUser, hashpw: string -> string) returns (res: Result<string, ApiError>)
    requires db.Valid()
    modifies db`users, db`nextId
    ensures db.Valid()
    ensures FirstWithEmail(old(db.users), u.emailId).Some? ==>
      && res == Err(BadRequest("Email already registered"))
      && db.users == old(db.users) && db.nextId == old(db.nextId)
    ensures FirstWithEmail(old(db.users), u.emailId).None? ==>
      && res == Ok(IdString(old(db.nextId)))
      && db.users == old(db.users) + [UserDoc(old(db.nextId), u.firstName, u.middleName, u.lastName, u.emailId, hashpw(u.password), u.roleName)]
      && db.nextId == old(db.nextId) + 1
  {
    if FirstWithEmail(db.users, u.emailId).Some? {
      return Err(BadRequest("Email already registered"));
    }
    var id := db.NewId();
    var doc := UserDoc(id, u.firstName, u.middleName, u.lastName, u.emailId, hashpw(u.password), u.roleName);
    db.users := db.users + [doc];
    return Ok(IdString(id));
  }

  /** `GET /users/login`: the first user with the email logs in when the password
      equals the stored value or passes the hash check. */
  method LoginUser(db: Db, email: string, password: string, checkpw: (string, string) -> Option<bool>)
    returns (res: Result<UserView, ApiError>)
    ensures FirstWithEmail(db.users, email).None? ==> res == Err(NotFound("User not found"))
    ensures FirstWithEmail(db.users, email).Some? ==> var u := db.users[FirstWithEmail(db.users, email).value];
      && (u.password == password || checkpw(password, u.password) == Some(true) <==> res.Ok?)
      && (res.Ok? ==> res.value == ViewOf(u))
      && (u.password != password && checkpw(password, u.password) == Some(false) ==> res == Err(Unauthorized("Invalid password")))
      && (u.password != password && checkpw(password, u.password).None? ==> res == Err(Internal("Internal Server Error")))
  {
    var found := FirstWithEmail(db.users, email);
    if found.None? {
      return Err(NotFound("User not found"));
    }
    var user := db.users[found.value];
    var stored := user.password;
    if stored == password {
    } else {
      match checkpw(password, stored)
      case None => return Err(Internal("Internal Server Error"));
      case Some(ok) =>
        if !ok {
          return Err(Unauthorized("Invalid password"));
        }
    }
    return Ok(ViewOf(user));
  }

  // Partial updates.

  /** The fields `update_user` may set. */
  datatype Field = FirstName | MiddleName | LastName | EmailId | Password | RoleName

  /** The key of a field in the request body and in the response. */
  function FieldName(f: Field): string {
    match f
    case FirstName => "first_name"
    case MiddleName => "middle_name"
    case LastName => "last_name"
    case EmailId => "email_id"
    case Password => "password"
    case RoleName => "role_name"
  }

  /** The value `data` gives field `f` when it is truthy (present and non-empty). */
  function Supplied(data: map<string, string>, f: Field): Option<string> {
    var key := FieldName(f);
    if key in data && data[key] != "" then Some(data[key]) else None
  }

  /** The `update_fields` dictionary, one optional value per allowed field. */
  datatype Patch = Patch(
    firstName: Option<string>,
    middleName: Option<string>,
    lastName: Option<string>,
    emailId: Option<string>,
    password: Option<string>,
    roleName: Option<string>)

  function Value(p: Patch, f: Field): Option<string> {
    match f
    case FirstName => p.firstName
    case MiddleName => p.middleName
    case LastName => p.lastName
    case EmailId => p.emailId
    case Password => p.password
    case RoleName => p.roleName
  }

  /** The six fields in the order `update_user` considers them. */
  const AllFields: seq<Field> := [FirstName, MiddleName, LastName, EmailId, Password, RoleName]

  /** The fields of `fs` that `p` sets, in the order of `fs`. */
  function SetFields(p: Patch, fs: seq<Field>): seq<Field>
    decreases |fs|
  {
    if fs == [] then []
    else (if Value(p, fs[0]).Some? then [fs[0]] else []) + SetFields(p, fs[1..])
  }

  /** The fields of `update_fields`, in insertion order. */
  function PatchFields(p: Patch): seq<Field> {
    SetFields(p, AllFields)
  }

  /** The keys of `fields`, in order. */
  function Keys(fields: seq<Field>): (r: seq<string>)
    ensures |r| == |fields|
    ensures forall i :: 0 <= i < |r| ==> r[i] == FieldName(fields[i])
  {
    seq(|fields|, i requires 0 <= i < |fields| => FieldName(fields[i]))
  }

  /** `list(update_fields.keys())`. */
  function PatchKeys(p: Patch): (r: seq<string>)
    ensures |r| == |PatchFields(p)|
    ensures forall i :: 0 <= i < |r| ==> r[i] == FieldName(PatchFields(p)[i])
  {
    Keys(PatchFields(p))
  }

  /** The patch `update_user` builds from `data`: the supplied values, the password hashed. */
  function PatchOf(data: map<string, string>, hashpw: string -> string): Patch {
    Patch(
      Supplied(data, FirstName),
      Supplied(data, MiddleName),
      Supplied(data, LastName),
      Supplied(data, EmailId),
      if Supplied(data, Password).Some? then Some(hashpw(Supplied(data, Password).value)) else None,
      Supplied(data, RoleName))
  }

  predicate Distinct(fs: seq<Field>) {
    forall i, j :: 0 <= i < j < |fs| ==> fs[i] != fs[j]
  }

  /** Filtering keeps exactly the set fields of `fs` and lists none twice. */
  lemma {:induction false} SetFieldsSpec(p: Patch, fs: seq<Field>)
    ensures forall f :: f in SetFields(p, fs) <==> f in fs && Value(p, f).Some?
    ensures Distinct(fs) ==> Distinct(SetFields(p, fs))
    decreases |fs|
  {
    if fs != [] {
      SetFieldsSpec(p, fs[1..]);
      var head := if Value(p, fs[0]).Some? then [fs[0]] else [];
      var rest := SetFields(p, fs[1..]);
      assert SetFields(p, fs) == head + rest;
      assert forall f :: f in fs <==> f == fs[0] || f in fs[1..];
      if Distinct(fs) {
        assert Distinct(fs[1..]) by {
          forall i, j | 0 <= i < j < |fs| - 1
            ensures fs[1..][i] != fs[1..][j]
          {
            assert fs[1..][i] == fs[i + 1] && fs[1..][j] == fs[j + 1];
          }
        }
        assert fs[0] !in fs[1..];
        forall i, j | 0 <= i < j < |head + rest|
          ensures (head + rest)[i] != (head + rest)[j]
        {
          if i < |head| {
            assert (head + rest)[j] == rest[j - |head|];
          }
        }
      }
    }
  }

  /** Every field is considered, once. */
  lemma AllFieldsListed()
    ensures forall f :: f in AllFields
    ensures Distinct(AllFields)
  {
    forall f
      ensures f in AllFields
    {
      match f
      case FirstName => assert AllFields[0] == f;
      case MiddleName => assert AllFields[1] == f;
      case LastName => assert AllFields[2] == f;
      case EmailId => assert AllFields[3] == f;
      case Password => assert AllFields[4] == f;
      case RoleName => assert AllFields[5] == f;
    }
  }

  /** The listed fields are exactly those the patch sets, each listed once. */
  lemma PatchFieldsSpec(p: Patch)
    ensures forall f :: f in PatchFields(p) <==> Value(p, f).Some?
    ensures Distinct(PatchFields(p))
  {
    AllFieldsListed();
    SetFieldsSpec(p, AllFields);
  }

  /** Different fields have different keys. */
  lemma FieldNameInjective(f: Field, g: Field)
    requires FieldName(f) == FieldName(g)
    ensures f == g
  {
    var a, b := FieldName(f), FieldName(g);
    assert |a| == |b| && a[0] == b[0] && a[1] == b[1];
  }

  /** The response lists the key of every field the patch sets and no other key,
      each once. */
  lemma PatchKeysSpec(p: Patch)
    ensures forall f :: FieldName(f) in PatchKeys(p) <==> Value(p, f).Some?
    ensures forall k :: k in PatchKeys(p) ==> exists f :: FieldName(f) == k && Value(p, f).Some?
    ensures forall i, j :: 0 <= i < j < |PatchKeys(p)| ==> PatchKeys(p)[i] != PatchKeys(p)[j]
  {
    var fs, ks := PatchFields(p), PatchKeys(p);
    PatchFieldsSpec(p);
    forall f
      ensures FieldName(f) in ks <==> Value(p, f).Some?
    {
      if FieldName(f) in ks {
        var i :| 0 <= i < |ks| && ks[i] == FieldName(f);
        FieldNameInjective(fs[i], f);
      }
    }
    forall k | k in ks
      ensures exists f :: FieldName(f) == k && Value(p, f).Some?
    {
      var i :| 0 <= i < |ks| && ks[i] == k;
      assert fs[i] in fs;
    }
    forall i, j | 0 <= i < j < |ks|
      ensures ks[i] != ks[j]
    {
      if ks[i] == ks[j] {
        FieldNameInjective(fs[i], fs[j]);
      }
    }
  }

  /** The patch sets exactly the fields `data` supplies; a supplied password is stored
      as its hash and every other value as given. */
  lemma PatchOfSpec(data: map<string, string>, hashpw: string -> string)
    ensures forall f :: Value(PatchOf(data, hashpw), f).Some? <==> Supplied(data, f).Some?
    ensures forall f :: f != Password ==> Value(PatchOf(data, hashpw), f) == Supplied(data, f)
    ensures Supplied(data, Password).Some? ==>
      Value(PatchOf(data, hashpw), Password) == Some(hashpw(Supplied(data, Password).value))
  {
  }

  /** Keys of `data` other than the six field names do not affect the patch. */
  lemma PatchIgnoresOtherKeys(data: map<string, string>, key: string, v: string, hashpw: string -> string)
    requires forall f :: FieldName(f) != key
    ensures PatchOf(data[key := v], hashpw) == PatchOf(data, hashpw)
  {
    forall f
      ensures Supplied(data[key := v], f) == Supplied(data, f)
    {
      assert FieldName(f) != key;
    }
  }

  /** Builds `update_fields` field by field, hashing a supplied password. */
  method BuildPatch(data: map<string, string>, hashpw: string -> string) returns (p: Patch)
    ensures p == PatchOf(data, hashpw)
  {
    p := Patch(None, None, None, None, None, None);
    var v := Supplied(data, FirstName);
    if v.Some? {
      p := p.(firstName := v);
    }
    v := Supplied(data, MiddleName);
    if v.Some? {
      p := p.(middleName := v);
    }
    v := Supplied(data, LastName);
    if v.Some? {
      p := p.(lastName := v);
    }
    v := Supplied(data, EmailId);
    if v.Some? {
      p := p.(emailId := v);
    }
    v := Supplied(data, Password);
    if v.Some? {
      p := p.(password := Some(hashpw(v.value)));
    }
    v := Supplied(data, RoleName);
    if v.Some? {
      p := p.(roleName := v);
    }
  }

  function Patched(old_: string, v: Option<string>): string {
    if v.Some? then v.value else old_
  }

  /** `$set` of a patch: the fields it names take its values, the rest stay. */
  function ApplyPatch(u: UserDoc, p: Patch): UserDoc {
    UserDoc(
      u.id,
      Patched(u.firstName, p.firstName),
      Patched(u.middleName, p.middleName),
      Patched(u.lastName, p.lastName),
      Patched(u.emailId, p.emailId),
      Patched(u.password, p.password),
      Patched(u.roleName, p.roleName))
  }

  /** The `update_one` of `update_user`: sets the patched fields of the user with
      the given id, or fails when no user has it. */
  method PatchUserWithId(db: Db, id: ObjectId, patch: Patch) returns (res: Result<(), ApiError>)
    requires db.Valid()
    modifies db`users
    ensures db.Valid()
    ensures match PositionOfId(old(db.users), id)
      case None => res == Err(NotFound("User not found")) && db.users == old(db.users)
      case Some(i) => res == Ok(()) && db.users == old(db.users)[i := ApplyPatch(old(db.users)[i], patch)]
  {
    var found := PositionOfId(db.users, id);
    if found.None? {
      return Err(NotFound("User not found"));
    }
    var i := found.value;
    var updated := ApplyPatch(db.users[i], patch);
    ReplaceKeepsIds(db.users, i, updated, db.nextId);
    db.users := db.users[i := updated];
    return Ok(());
  }

  /** `PUT /users/{user_id}`: checks the id, then the patch, then sets the patched
      fields of the user with that id and answers with the patched keys. */
  method UpdateUser(db: Db, userId: string, data: map<string, string>, hashpw: string -> string)
    returns (res: Result<seq<string>, ApiError>)
    requires db.Valid()
    modifies db`users
    ensures db.Valid()
    ensures !IsValid(userId) ==> res == Err(BadRequest("Invalid user ID")) && db.users == old(db.users)
    ensures IsValid(userId) && PatchFields(PatchOf(data, hashpw)) == [] ==>
      res == Err(BadRequest("No valid fields provided for update")) && db.users == old(db.users)
    ensures IsValid(userId) && PatchFields(PatchOf(data, hashpw)) != [] ==>
      match PositionOfId(old(db.users), ObjectIds.Parse(userId).value)
      case None => res == Err(NotFound("User not found")) && db.users == old(db.users)
      case Some(i) =>
        && res == Ok(PatchKeys(PatchOf(data, hashpw)))
        && db.users == old(db.users)[i := ApplyPatch(old(db.users)[i], PatchOf(data, hashpw))]
  {
    if !IsValid(userId) {
      return Err(BadRequest("Invalid user ID"));
    }
    var patch := BuildPatch(data, hashpw);
    if PatchFields(patch) == [] {
      return Err(BadRequest("No valid fields provided for update"));
    }
    var written := PatchUserWithId(db, ObjectIds.Parse(userId).value, patch);
    if written.Err? {
      return Err(written.error);
    }
    return Ok(PatchKeys(patch));
  }

  /** Replacing a user by a record with the same id keeps the ids handed out and distinct. */
  lemma ReplaceKeepsIds(users: seq<UserDoc>, i: nat, u: UserDoc, bound: nat)
    requires i < |users| && u.id == users[i].id
    requires forall k :: 0 <= k < |users| ==> users[k].id < bound
    requires forall k, l :: 0 <= k < l < |users| ==> users[k].id != users[l].id
    ensures var r := users[i := u];
      && (forall k :: 0 <= k < |r| ==> r[k].id < bound)
      && (forall k, l :: 0 <= k < l < |r| ==> r[k].id != r[l].id)
  {
    var r := users[i := u];
    assert forall k :: 0 <= k < |r| ==> r[k].id == users[k].id;
  }

  /** Removing one user keeps the ids handed out and distinct. */
  lemma RemoveKeepsIds(users: seq<UserDoc>, i: nat, bound: nat)
    requires i < |users|
    requires forall k :: 0 <= k < |users| ==> users[k].id < bound
    requires forall k, l :: 0 <= k < l < |users| ==> users[k].id != users[l].id
    ensures var r := users[..i] + users[i + 1..];
      && (forall k :: 0 <= k < |r| ==> r[k].id < bound)
      && (forall k, l :: 0 <= k < l < |r| ==> r[k].id != r[l].id)
      && (forall k :: 0 <= k < |r| ==> r[k].id != users[i].id)
  {
    var r := users[..i] + users[i + 1..];
    assert forall k :: 0 <= k < |r| ==> r[k] == users[if k < i then k else k + 1];
  }

  /** `DELETE /users/{user_id}`: checks the id and removes the user that has it; no
      user with that id remains. */
  method DeleteUser(db: Db, userId: string) returns (res: Result<(), ApiError>)
    requires db.Valid()
    modifies db`users
    ensures db.Valid()
    ensures !IsValid(userId) ==> res == Err(BadRequest("Invalid user ID")) && db.users == old(db.users)
    ensures IsValid(userId) ==>
      match PositionOfId(old(db.users), ObjectIds.Parse(userId).value)
      case None => res == Err(NotFound("User not found")) && db.users == old(db.users)
      case Some(i) =>
        && res == Ok(())
        && db.users == old(db.users)[..i] + old(db.users)[i + 1..]
        && forall k :: 0 <= k < |db.users| ==> db.users[k].id != ObjectIds.Parse(userId).value
  {
    if !IsValid(userId) {
      return Err(BadRequest("Invalid user ID"));
    }
    var id := ObjectIds.Parse(userId).value;
    var found := PositionOfId(db.users, id);
    if found.None? {
      return Err(NotFound("User not found"));
    }
    var i := found.value;
    RemoveKeepsIds(db.users, i, db.nextId);
    db.users := db.users[..i] + db.users[i + 1..];
    return Ok(());
  }
}

/** The account record (backend/src/models/user.model.js): required paths, the
    avatar default, and the `toJSON` projection that hides the password hash and
    the version key. */
module UserModel {
  import opened Common

  const DEFAULT_AVATAR := "https://www.gravatar.com/avatar/00000000000000000000000000000000?d=mp"

  /** Prefix of the error mongoose raises when `save()` finds a required path empty. */
  const USER_VALIDATION_FAILED := "User validation failed"

  /** A user document. `password` holds the hash and is absent when it was not
      selected or was cleared; `version` is mongoose's `__v`; the timestamps come
      from `timestamps: true`. */
  datatype User = User(
    id: UserId,
    name: string,
    email: string,
    password: Option<string>,
    avatar: string,
    version: nat,
    createdAt: nat,
    updatedAt: nat)

  /** A field value of the serialised document. */
  datatype Value = Text(text: string) | Number(number: nat)

  type Document = map<string, Value>

  /** `new User({...}).save()` at time `now`: every required path must be a
      non-empty string, and a missing avatar takes the default. */
  function NewUser(id: UserId, name: string, email: string, password: string, avatar: Option<string>, now: nat): (r: Result<User>)
    ensures r.Ok? <==> name != "" && email != "" && password != ""
    ensures r.Err? ==> r.error == ValidationError(USER_VALIDATION_FAILED)
    ensures r.Ok? ==>
              && r.value.id == id && r.value.name == name && r.value.email == email
              && r.value.password == Some(password)
              && r.value.version == 0
              && r.value.avatar == (if avatar.Some? then avatar.value else DEFAULT_AVATAR)
  {
    if name == "" || email == "" || password == "" then Err(ValidationError(USER_VALIDATION_FAILED))
    else
      var picture := match avatar case Some(a) => a case None => DEFAULT_AVATAR;
      Ok(User(id, name, email, Some(password), picture, 0, now, now))
  }

  /** The plain object of a user document: every path, `password` only when loaded. */
  function ToObject(u: User): (d: Document)
    ensures "password" in d <==> u.password.Some?
    ensures u.password.Some? ==> d["password"] == Text(u.password.value)
    ensures "__v" in d && d["__v"] == Number(u.version)
    ensures "_id" in d && d["_id"] == Number(u.id)
    ensures "name" in d && d["name"] == Text(u.name)
    ensures "email" in d && d["email"] == Text(u.email)
    ensures "avatar" in d && d["avatar"] == Text(u.avatar)
    ensures "createdAt" in d && d["createdAt"] == Number(u.createdAt)
    ensures "updatedAt" in d && d["updatedAt"] == Number(u.updatedAt)
    ensures d.Keys == {"_id", "name", "email", "avatar", "__v", "createdAt", "updatedAt"}
                      + (if u.password.Some? then {"password"} else {})
  {
    var paths := map[
      "_id" := Number(u.id),
      "name" := Text(u.name),
      "email" := Text(u.email),
      "avatar" := Text(u.avatar),
      "__v" := Number(u.version),
      "createdAt" := Number(u.createdAt),
      "updatedAt" := Number(u.updatedAt)];
    match u.password
    case Some(p) => paths["password" := Text(p)]
    case None => paths
  }

  /** The schema's `toJSON` transform: `password` and `__v` removed, every other
      path carried over unchanged. */
  function ToJson(u: User): (d: Document)
    ensures "password" !in d && "__v" !in d
    ensures d.Keys == ToObject(u).Keys - {"password", "__v"}
    ensures forall k :: k in d ==> d[k] == ToObject(u)[k]
  {
    ToObject(u) - {"password", "__v"}
  }

  /** The serialised user reveals nothing about the password hash or the version:
      users differing only there serialise identically. */
  lemma JsonHidesPasswordAndVersion(u: User, password: Option<string>, version: nat)
    ensures ToJson(u.(password := password, version := version)) == ToJson(u)
  {
  }
}

/**
  The signed-in user's profile: reading it, and the partial update that
  touches only the name and the contact fields.
 */
module ProfileRoutes {
  import opened Wrappers

  type Id = string

  /** The stored user, as far as the profile routes see it. Fields the
      store may lack in older records are optional. */
  datatype User = User(
    username: string, email: string, password: string, isAdmin: Option<bool>,
    phone: Option<string>, city: Option<string>, location: Option<string>, pincode: Option<string>)

  type Users = map<Id, User>

  /** The request body; `None` for a key the client did not send. Email,
      password and admin flag may be sent but are never applied. */
  datatype ProfileBody = ProfileBody(
    username: Option<string>, phone: Option<string>, city: Option<string>,
    location: Option<string>, pincode: Option<string>,
    email: Option<string>, password: Option<string>, isAdmin: Option<bool>)

  /** The update object: a key is `Some` when it is part of the update. It
      has no place for email, password or the admin flag. */
  datatype ProfileUpdate = ProfileUpdate(
    username: Option<string>, phone: Option<string>, city: Option<string>,
    location: Option<string>, pincode: Option<string>)

  /** What both routes send back: never the password. */
  datatype ProfileView = ProfileView(
    username: string, email: string, phone: string, city: string,
    location: string, pincode: string, isAdmin: bool)

  datatype ProfileError = UserNotFound

  /** The update built from a body: the name only when truthy, each contact
      field whenever the key was sent, even as the empty string. */
  function BuildUpdate(body: ProfileBody): (u: ProfileUpdate)
    ensures u.username.Some? <==> body.username.Some? && body.username.value != ""
    ensures u.username.Some? ==> u.username == body.username
    ensures u.phone == body.phone && u.city == body.city
    ensures u.location == body.location && u.pincode == body.pincode
  {
    ProfileUpdate(
      if body.username.Some? && body.username.value != "" then body.username else None,
      body.phone, body.city, body.location, body.pincode)
  }

  /** Set each field the update names; keep the rest. */
  function ApplyUpdate(user: User, u: ProfileUpdate): (r: User)
    ensures r.email == user.email && r.password == user.password && r.isAdmin == user.isAdmin
    ensures r.username == u.username.GetOr(user.username)
    ensures r.phone == (if u.phone.Some? then u.phone else user.phone)
    ensures r.city == (if u.city.Some? then u.city else user.city)
    ensures r.location == (if u.location.Some? then u.location else user.location)
    ensures r.pincode == (if u.pincode.Some? then u.pincode else user.pincode)
  {
    user.(username := u.username.GetOr(user.username),
          phone := if u.phone.Some? then u.phone else user.phone,
          city := if u.city.Some? then u.city else user.city,
          location := if u.location.Some? then u.location else user.location,
          pincode := if u.pincode.Some? then u.pincode else user.pincode)
  }

  /** The response projection: absent text fields read as `""`, an absent
      admin flag as `false`. */
  function Project(user: User): (v: ProfileView)
    ensures v.username == user.username && v.email == user.email
    ensures v.phone == user.phone.GetOr("") && v.city == user.city.GetOr("")
    ensures v.location == user.location.GetOr("") && v.pincode == user.pincode.GetOr("")
    ensures v.isAdmin <==> user.isAdmin == Some(true)
  {
    ProfileView(user.username, user.email, user.phone.GetOr(""), user.city.GetOr(""),
                user.location.GetOr(""), user.pincode.GetOr(""), user.isAdmin.GetOr(false))
  }

  /** `GET /profile`. */
  function GetProfile(users: Users, id: Id): (r: Result<ProfileView, ProfileError>)
    ensures r.Err? <==> id !in users
    ensures r.Ok? ==> r.value.email == users[id].email && r.value.username == users[id].username
    ensures r.Ok? ==> r.value == Project(users[id])
  {
    if id !in users then Err(UserNotFound) else Ok(Project(users[id]))
  }

  /** `PUT /profile`: the new user table and the response. */
  function UpdateProfile(users: Users, id: Id, body: ProfileBody): (r: (Users, Result<ProfileView, ProfileError>))
    ensures id !in users ==> r == (users, Err(UserNotFound))
    ensures id in users ==> r.1.Ok? && r.0.Keys == users.Keys
    ensures forall k :: k in users && k != id ==> k in r.0 && r.0[k] == users[k]
    ensures id in users ==>
      && r.0[id].email == users[id].email
      && r.0[id].password == users[id].password
      && r.0[id].isAdmin == users[id].isAdmin
    ensures id in users ==>
      r.0[id] == ApplyUpdate(users[id], BuildUpdate(body)) && r.1 == Ok(Project(r.0[id]))
  {
    if id !in users then (users, Err(UserNotFound))
    else
      var user := ApplyUpdate(users[id], BuildUpdate(body));
      (users[id := user], Ok(Project(user)))
  }

  /** The response to an update is what reading the profile afterwards
      returns. */
  lemma UpdateThenGet(users: Users, id: Id, body: ProfileBody)
    ensures var (after, resp) := UpdateProfile(users, id, body);
      resp == GetProfile(after, id)
  {
  }

  /** Sending the same update twice leaves the user as sending it once. */
  lemma UpdateProfileIdempotent(users: Users, id: Id, body: ProfileBody)
    ensures var once := UpdateProfile(users, id, body).0;
      UpdateProfile(once, id, body).0 == once
  {
    if id in users {
      var once := UpdateProfile(users, id, body).0;
      assert ApplyUpdate(once[id], BuildUpdate(body)) == once[id];
    }
  }

  /** A body holding only email, password and admin flag changes nothing. */
  lemma PrivilegedFieldsIgnored(users: Users, id: Id, email: Option<string>, password: Option<string>, isAdmin: Option<bool>)
    ensures UpdateProfile(users, id, ProfileBody(None, None, None, None, None, email, password, isAdmin)).0 == users
  {
    if id in users {
      assert ApplyUpdate(users[id], ProfileUpdate(None, None, None, None, None)) == users[id];
    }
  }

  /** An empty name does not clear the name, but an empty phone clears the
      phone. */
  lemma EmptyNameKeptEmptyPhoneCleared(user: User)
    ensures var body := ProfileBody(Some(""), Some(""), None, None, None, None, None, None);
      var r := ApplyUpdate(user, BuildUpdate(body));
      r.username == user.username && r.phone == Some("")
  {
  }
}

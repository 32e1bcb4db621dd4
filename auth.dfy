// The account endpoints of backend/accounts/auth_views.py over a user table
// and one browser session. Password hashing is the parameter `hash`; the
// table stores `hash(password)` and `authenticate` compares against it. A
// request body JSON cannot read is `None`; a missing or null field is `None`,
// except `name`, where the two differ (`NameField`).

module Auth {
  import opened Common

  datatype User = User(id: int, username: string, email: string, firstName: string, secret: string)

  /** The JSON the endpoints answer with on success. */
  datatype UserInfo = UserInfo(id: int, username: string, email: string, name: string)

  /** `'name': user.first_name or user.username`. */
  function InfoOf(u: User): (r: UserInfo)
    ensures r.id == u.id && r.username == u.username && r.email == u.email
    ensures r.name == (if u.firstName != "" then u.firstName else u.username)
    ensures u.username != "" ==> r.name != ""
  {
    UserInfo(u.id, u.username, u.email, if u.firstName != "" then u.firstName else u.username)
  }

  /**
   * The `name` field, where absent and null differ: `data.get('name',
   * username)` falls back to the username only when the key is missing.
   */
  datatype NameField = NoName | NullName | Named(value: string)

  datatype RegisterBody = RegisterBody(username: Option<string>, email: Option<string>,
                                       password: Option<string>, name: NameField)

  datatype LoginBody = LoginBody(username: Option<string>, password: Option<string>)

  /** Python's `not x` for an optional string: absent or empty. */
  predicate Blank(x: Option<string>)
  {
    x.None? || x.value == ""
  }

  predicate UsernameTaken(users: seq<User>, name: string)
  {
    exists i :: 0 <= i < |users| && users[i].username == name
  }

  predicate EmailTaken(users: seq<User>, email: string)
  {
    exists i :: 0 <= i < |users| && users[i].email == email
  }

  /** The user `authenticate` finds for a username and password, if any. */
  function Authenticate(users: seq<User>, username: string, password: string, hash: string -> string): (r: Option<nat>)
    ensures r.Some? ==>
      r.value < |users| && users[r.value].username == username && users[r.value].secret == hash(password)
    ensures r.None? ==> forall i :: 0 <= i < |users| ==>
      users[i].username != username || users[i].secret != hash(password)
  {
    if users == [] then None
    else
      var k := |users| - 1;
      if users[k].username == username && users[k].secret == hash(password) then Some(k)
      else Authenticate(users[..k], username, password, hash)
  }

  class AuthServer {
    var users: seq<User>
    /** The id of the user the session is logged in as. */
    var session: Option<int>

    /** Ids follow the insertion order and usernames are unique. */
    predicate Valid()
      reads this
    {
      (forall i :: 0 <= i < |users| ==> users[i].id == i + 1)
      && (forall i, j :: 0 <= i < j < |users| ==> users[i].username != users[j].username)
      && (session.Some? ==> 1 <= session.value <= |users|)
    }

    constructor()
      ensures Valid() && users == [] && session.None?
    {
      users := [];
      session := None;
    }

    /**
     * `register`: 500 for an unreadable body; 400 when the username or the
     * password is missing, checked first; 400 for a taken username; 400 for
     * a non-empty email already in use. A null name then reaches
     * `create_user` as `first_name=None`, which the table's NOT NULL column
     * refuses: the exception is answered 500 and no user is added.
     * Otherwise exactly one user is added, named `name` (the username when
     * absent), with the email or '', and the session is logged in as that
     * user.
     */
    method Register(body: Option<RegisterBody>, hash: string -> string) returns (status: int, info: Option<UserInfo>)
      requires Valid()
      modifies this
      ensures Valid()
      ensures body.None? ==> status == 500
      ensures body.Some? && (Blank(body.value.username) || Blank(body.value.password)) ==> status == 400
      ensures (body.Some? && !Blank(body.value.username) && !Blank(body.value.password)
        && UsernameTaken(old(users), body.value.username.value)) ==> status == 400
      ensures (body.Some? && !Blank(body.value.username) && !Blank(body.value.password)
        && !Blank(body.value.email) && EmailTaken(old(users), body.value.email.value)) ==> status == 400
      ensures (body.Some? && !Blank(body.value.username) && !Blank(body.value.password)
        && !UsernameTaken(old(users), body.value.username.value)
        && (Blank(body.value.email) || !EmailTaken(old(users), body.value.email.value))
        && body.value.name.NullName?) ==> status == 500
      ensures status != 200 ==> users == old(users) && session == old(session) && info.None?
      ensures status == 200 <==>
        body.Some? && !Blank(body.value.username) && !Blank(body.value.password)
        && !UsernameTaken(old(users), body.value.username.value)
        && (Blank(body.value.email) || !EmailTaken(old(users), body.value.email.value))
        && !body.value.name.NullName?
      ensures status == 200 ==>
        var b := body.value;
        var u := User(|old(users)| + 1, b.username.value, if b.email.Some? then b.email.value else "",
                      if b.name.Named? then b.name.value else b.username.value, hash(b.password.value));
        users == old(users) + [u] && session == Some(u.id) && info == Some(InfoOf(u))
    {
      info := None;
      if body.None? {
        return 500, None;
      }
      var b := body.value;
      if Blank(b.username) || Blank(b.password) {
        return 400, None;
      }
      if UsernameTaken(users, b.username.value) {
        return 400, None;
      }
      if !Blank(b.email) && EmailTaken(users, b.email.value) {
        return 400, None;
      }
      if b.name.NullName? {
        return 500, None;
      }
      var u := User(|users| + 1, b.username.value, if b.email.Some? then b.email.value else "",
                    if b.name.Named? then b.name.value else b.username.value, hash(b.password.value));
      users := users + [u];
      session := Some(u.id);
      status, info := 200, Some(InfoOf(u));
    }

    /**
     * `login_view`: 500 for an unreadable body, 400 when a field is missing,
     * 401 when no user has that username and password; only a 200 logs the
     * session in. The table never changes.
     */
    method Login(body: Option<LoginBody>, hash: string -> string) returns (status: int, info: Option<UserInfo>)
      requires Valid()
      modifies this
      ensures Valid() && users == old(users)
      ensures body.None? ==> status == 500
      ensures body.Some? && (Blank(body.value.username) || Blank(body.value.password)) ==> status == 400
      ensures body.Some? && !Blank(body.value.username) && !Blank(body.value.password) ==>
        var a := Authenticate(users, body.value.username.value, body.value.password.value, hash);
        (a.None? ==> status == 401)
        && (a.Some? ==> status == 200 && session == Some(users[a.value].id) && info == Some(InfoOf(users[a.value])))
      ensures status != 200 ==> session == old(session) && info.None?
    {
      if body.None? {
        return 500, None;
      }
      var b := body.value;
      if Blank(b.username) || Blank(b.password) {
        return 400, None;
      }
      var a := Authenticate(users, b.username.value, b.password.value, hash);
      if a.None? {
        return 401, None;
      }
      session := Some(users[a.value].id);
      status, info := 200, Some(InfoOf(users[a.value]));
    }

    /** `logout_view`: an OPTIONS request is answered 200 and logs nobody out. */
    method Logout(isOptions: bool) returns (status: int)
      requires Valid()
      modifies this
      ensures Valid() && users == old(users) && status == 200
      ensures isOptions ==> session == old(session)
      ensures !isOptions ==> session.None?
    {
      if !isOptions {
        session := None;
      }
      status := 200;
    }

    /** `current_user`: the logged-in user's details, or 401. */
    method CurrentUser() returns (status: int, info: Option<UserInfo>)
      requires Valid()
      ensures session.None? ==> status == 401 && info.None?
      ensures session.Some? ==> status == 200 && info == Some(InfoOf(users[session.value - 1]))
    {
      if session.None? {
        return 401, None;
      }
      status, info := 200, Some(InfoOf(users[session.value - 1]));
    }
  }

  /** A user just registered can log in with the same username and password. */
  method RegisterThenLogin(s: AuthServer, username: string, password: string, hash: string -> string)
    returns (status: int, info: Option<UserInfo>)
    requires s.Valid() && username != "" && password != ""
    requires !UsernameTaken(s.users, username)
    modifies s
    ensures status == 200 && info.Some? && info.value.username == username
    ensures s.session == Some(info.value.id)
  {
    var r, _ := s.Register(Some(RegisterBody(Some(username), None, Some(password), NoName)), hash);
    assert s.users[|s.users| - 1].username == username;
    status, info := s.Login(Some(LoginBody(Some(username), Some(password))), hash);
    ghost var a := Authenticate(s.users, username, password, hash);
    assert a.Some? by {
      var k := |s.users| - 1;
      assert s.users[k].secret == hash(password);
    }
  }
}

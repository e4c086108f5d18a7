/**
 * The request handlers of main.py, without the web framework around them.
 *
 * Each handler is a fixed sequence of checks (the token, the actor it names,
 * the resource, the owner) followed by at most one store operation. Its
 * outcome is a `Status`: the response on success, the HTTP error it raises, or
 * `Crash` for an exception nobody catches (the server answers 500). Each handler
 * has a specification (`...Spec`, the status and the tables afterwards) and a
 * method that runs the same steps against a `Db.Store`.
 *
 * Two behaviours of the source are reproduced as written: creating a note
 * never checks that the note's owner is the caller, and several handlers read
 * `user.id` without checking that the token's subject still names a user,
 * which crashes when it does not.
 */
module Endpoints {
  import opened Wrappers
  import opened Models
  import opened Jwt
  import opened Db
  import opened Manage
  import Passwords

  /** A successful response body. `UserView` is the `userResponse` shape: the digest is never sent. */
  datatype Body =
    | UserView(id: int, name: string, email: string)
    | Created(note: Note)
    | NoteList(notes: seq<Note>)
    | Bearer(accessToken: Token)
    | Message(text: string)

  datatype Status =
    | Ok(body: Body)
    | EmailTaken400     // "Email already exists"
    | NotFound400       // a user or a post that is not there
    | Unable400         // the store reported failure after the checks passed
    | Unauth401         // bad credentials or a token that does not verify
    | Forbidden403      // "Operation not permitted"
    | NotFound404
    | Crash             // an uncaught exception: HTTP 500

  function View(u: User): Body
  {
    UserView(u.id, u.name, u.email)
  }

  /** The ownership guard on a user id: the actor may act only on its own account. */
  predicate OwnsAccount(actor: User, userId: int)
  {
    actor.id == userId
  }

  /** The ownership guard on a note. */
  predicate OwnsNote(actor: User, note: Note)
  {
    actor.id == note.userId
  }

  // ---------------------------------------------------------------------------
  // Specifications

  /**
   * `register_user`. A free email with a taken name, or with a password the
   * context refuses to hash, makes `create_user` raise.
   */
  function RegisterUserSpec(t: Tables, name: string, email: string, password: string, salt: Passwords.Salt): (s: Step<Status>)
    requires WellFormed(t)
    ensures WellFormed(s.after)
    ensures EmailTaken(t, email) ==> s == Step(EmailTaken400, t)
    ensures !EmailTaken(t, email) && !NameTaken(t, name) && Passwords.Hashable(password) ==>
      && s.result.Ok? && s.result.body.UserView? && s.result.body == UserView(s.result.body.id, name, email)
      && s.result.body.id !in t.users
      && Passwords.Hash(password, salt).Some?
      && s.after.users == t.users[s.result.body.id := User(s.result.body.id, name, email, Passwords.Hash(password, salt).value)]
      && s.after.notes == t.notes
    ensures !EmailTaken(t, email) && (NameTaken(t, name) || !Passwords.Hashable(password)) ==> s == Step(Crash, t)
  {
    if IsEmailAvailable(t, email).Some? then
      Step(EmailTaken400, t)
    else
      var created := CreateUserSpec(t, name, email, password, salt);
      match created.result
      case None => Step(Crash, created.after)
      case Some(u) => Step(Ok(View(u)), created.after)
  }

  /** `get_user_details`. The 404 branch itself reads `user.id` of a missing user, so it crashes. */
  function GetUserDetailsSpec(t: Tables, token: Token, now: int, cfg: Settings): (status: Status)
    requires WellFormed(t)
    ensures status != NotFound404
    ensures status.Ok? <==> exists email :: VerifyToken(token, now, cfg) == Some(email) && EmailTaken(t, email)
    ensures status.Ok? ==>
      && status.body.UserView? && status.body.id in t.users
      && t.users[status.body.id].name == status.body.name
      && t.users[status.body.id].email == status.body.email
      && VerifyToken(token, now, cfg) == Some(status.body.email)
  {
    match VerifyToken(token, now, cfg)
    case None => Unauth401
    case Some(username) =>
      match UserByEmail(t, username)
      case Some(user) => Ok(View(user))
      case None => Crash
  }

  /** `remove_user`. */
  function RemoveUserSpec(t: Tables, userId: int, token: Token, now: int, cfg: Settings): (s: Step<Status>)
    requires WellFormed(t)
    ensures WellFormed(s.after)
    ensures !s.result.Ok? ==> s.after == t
  {
    match VerifyToken(token, now, cfg)
    case None => Step(Unauth401, t)
    case Some(username) =>
      match UserByEmail(t, username)
      case None => Step(Crash, t)
      case Some(user) =>
        if !OwnsAccount(user, userId) then Step(Forbidden403, t)
        else
          var deleted := DeleteUserSpec(t, userId);
          Step(if deleted.result then Ok(Message("successfully deleted user")) else NotFound400, deleted.after)
  }

  /**
   * `login_for_access_token`: a bearer token whose subject is the user's
   * email; an exception from verifying the password is not caught.
   */
  function LoginSpec(t: Tables, username: string, password: string, now: int, cfg: Settings): (status: Status)
    requires WellFormed(t)
    ensures status.Ok? || status == Unauth401 || status == Crash
    ensures status.Ok? <==> AuthenticateUser(t, username, password).Authenticated?
    ensures status == Crash <==> AuthenticateUser(t, username, password).Raised?
    ensures status.Ok? ==> status.body == Bearer(CreateAccessToken(map[Sub := Str(username)], now, cfg))
  {
    match AuthenticateUser(t, username, password)
    case Refused => Unauth401
    case Raised => Crash
    case Authenticated(user) => Ok(Bearer(CreateAccessToken(map[Sub := Str(user.email)], now, cfg)))
  }

  /**
   * `create_new_post`: the token is verified, and nothing else is checked. An
   * owner id SQLite cannot store makes the commit inside `create_post` raise.
   */
  function CreateNewPostSpec(t: Tables, title: string, content: string, userId: int, token: Token, now: int, cfg: Settings): (s: Step<Status>)
    requires WellFormed(t)
    ensures WellFormed(s.after)
    ensures VerifyToken(token, now, cfg).None? ==> s == Step(Unauth401, t)
    ensures VerifyToken(token, now, cfg).Some? && !FitsInt64(userId) ==> s == Step(Crash, t)
    ensures VerifyToken(token, now, cfg).Some? && FitsInt64(userId) ==>
      && s.result.Ok? && s.result.body.Created?
      && s.result.body.note.id !in t.notes
      && s.result.body.note.title == title && s.result.body.note.content == content
      && s.result.body.note.userId == userId
      && s.after.notes == t.notes[s.result.body.note.id := s.result.body.note]
      && s.after.users == t.users
  {
    match VerifyToken(token, now, cfg)
    case None => Step(Unauth401, t)
    case Some(_) =>
      if !FitsInt64(userId) then Step(Crash, t)
      else
        var created := CreatePostSpec(t, title, content, userId);
        Step(Ok(Created(created.result)), created.after)
  }

  /**
   * `update_note`: the note is fetched and found before the actor is
   * dereferenced. Fetching it with an id SQLite cannot bind raises.
   */
  function UpdateNoteSpec(t: Tables, title: string, content: string, postId: int, token: Token, now: int, cfg: Settings): (s: Step<Status>)
    requires WellFormed(t)
    ensures WellFormed(s.after)
    ensures !s.result.Ok? ==> s.after == t
  {
    match VerifyToken(token, now, cfg)
    case None => Step(Unauth401, t)
    case Some(username) =>
      var user := UserByEmail(t, username);
      var post := NoteById(t, postId);
      if !FitsInt64(postId) then Step(Crash, t)
      else if post.None? then Step(NotFound400, t)
      else if user.None? then Step(Crash, t)
      else if !OwnsNote(user.value, post.value) then Step(Forbidden403, t)
      else
        var updated := UpdatePostSpec(t, postId, title, content);
        Step(if updated.result then Ok(Message("successfully updated post")) else Unable400, updated.after)
  }

  /** `remove_post`: the same checks as `update_note`, then the note is deleted. */
  function RemovePostSpec(t: Tables, postId: int, token: Token, now: int, cfg: Settings): (s: Step<Status>)
    requires WellFormed(t)
    ensures WellFormed(s.after)
    ensures !s.result.Ok? ==> s.after == t
  {
    match VerifyToken(token, now, cfg)
    case None => Step(Unauth401, t)
    case Some(username) =>
      var user := UserByEmail(t, username);
      var post := NoteById(t, postId);
      if !FitsInt64(postId) then Step(Crash, t)
      else if post.None? then Step(NotFound400, t)
      else if user.None? then Step(Crash, t)
      else if !OwnsNote(user.value, post.value) then Step(Forbidden403, t)
      else
        var deleted := DeletePostSpec(t, postId);
        Step(if deleted.result then Ok(Message("successfully deleted post")) else Unable400, deleted.after)
  }

  /** `read_user_notes`. */
  function ReadUserNotesSpec(t: Tables, userId: int, token: Token, now: int, cfg: Settings): (status: Status)
    requires WellFormed(t)
    ensures status.Ok? ==> status.body.NoteList? && forall n :: n in status.body.notes ==> n.userId == userId
  {
    match VerifyToken(token, now, cfg)
    case None => Unauth401
    case Some(username) =>
      match UserByEmail(t, username)
      case None => Crash
      case Some(user) =>
        if !OwnsAccount(user, userId) then Forbidden403
        else Ok(NoteList(NotesOf(t, userId)))
  }

  // ---------------------------------------------------------------------------
  // The handlers, run against the store

  method RegisterUser(store: Store, name: string, email: string, password: string, salt: Passwords.Salt) returns (status: Status)
    requires store.Valid()
    modifies store
    ensures store.Valid()
    ensures Step(status, store.State()) == RegisterUserSpec(old(store.State()), name, email, password, salt)
  {
    var emailAvailable := IsEmailAvailable(store.State(), email);
    if emailAvailable.Some? {
      return EmailTaken400;
    }
    var newUser := store.CreateUser(name, email, password, salt);
    match newUser
    case None => status := Crash;
    case Some(u) => status := Ok(View(u));
  }

  method GetUserDetails(store: Store, token: Token, now: int, cfg: Settings) returns (status: Status)
    requires store.Valid()
    ensures status == GetUserDetailsSpec(store.State(), token, now, cfg)
    ensures status.Ok? ==>
      && status.body.UserView? && status.body.id in store.users
      && store.users[status.body.id].name == status.body.name
      && VerifyToken(token, now, cfg) == Some(store.users[status.body.id].email)
  {
    var username := VerifyToken(token, now, cfg);
    if username.None? {
      return Unauth401;
    }
    var user := UserByEmail(store.State(), username.value);
    if user.Some? {
      return Ok(View(user.value));
    }
    status := Crash;
  }

  method RemoveUser(store: Store, userId: int, token: Token, now: int, cfg: Settings) returns (status: Status)
    requires store.Valid()
    modifies store
    ensures store.Valid()
    ensures Step(status, store.State()) == RemoveUserSpec(old(store.State()), userId, token, now, cfg)
  {
    var username := VerifyToken(token, now, cfg);
    if username.None? {
      return Unauth401;
    }
    var user := UserByEmail(store.State(), username.value);
    if user.None? {
      return Crash;
    }
    if !OwnsAccount(user.value, userId) {
      return Forbidden403;
    }
    var deleted := store.DeleteUser(userId);
    if deleted {
      status := Ok(Message("successfully deleted user"));
    } else {
      status := NotFound400;
    }
  }

  method LoginForAccessToken(store: Store, username: string, password: string, now: int, cfg: Settings) returns (status: Status)
    requires store.Valid()
    ensures status == LoginSpec(store.State(), username, password, now, cfg)
    ensures status.Ok? ==> status.body.Bearer?
    ensures status.Ok? && 0 <= cfg.accessTokenExpireMinutes ==> VerifyToken(status.body.accessToken, now, cfg) == Some(username)
  {
    var outcome := AuthenticateUser(store.State(), username, password);
    if outcome.Refused? {
      return Unauth401;
    }
    if outcome.Raised? {
      return Crash;
    }
    status := Ok(Bearer(CreateAccessToken(map[Sub := Str(outcome.user.email)], now, cfg)));
    TokenRoundTrip(username, now, now, cfg);
  }

  method CreateNewPost(store: Store, title: string, content: string, userId: int, token: Token, now: int, cfg: Settings) returns (status: Status)
    requires store.Valid()
    modifies store
    ensures store.Valid()
    ensures Step(status, store.State()) == CreateNewPostSpec(old(store.State()), title, content, userId, token, now, cfg)
  {
    var username := VerifyToken(token, now, cfg);
    if username.None? {
      return Unauth401;
    }
    if !FitsInt64(userId) {
      return Crash;
    }
    var created := store.CreatePost(title, content, userId);
    status := Ok(Created(created));
  }

  method UpdateNote(store: Store, title: string, content: string, postId: int, token: Token, now: int, cfg: Settings) returns (status: Status)
    requires store.Valid()
    modifies store
    ensures store.Valid()
    ensures Step(status, store.State()) == UpdateNoteSpec(old(store.State()), title, content, postId, token, now, cfg)
  {
    var username := VerifyToken(token, now, cfg);
    if username.None? {
      return Unauth401;
    }
    var user := UserByEmail(store.State(), username.value);
    if !FitsInt64(postId) {
      return Crash;
    }
    var post := NoteById(store.State(), postId);
    if post.None? {
      return NotFound400;
    }
    if user.None? {
      return Crash;
    }
    if !OwnsNote(user.value, post.value) {
      return Forbidden403;
    }
    var updated := store.UpdatePost(postId, title, content);
    if updated {
      status := Ok(Message("successfully updated post"));
    } else {
      status := Unable400;
    }
  }

  method RemovePost(store: Store, postId: int, token: Token, now: int, cfg: Settings) returns (status: Status)
    requires store.Valid()
    modifies store
    ensures store.Valid()
    ensures Step(status, store.State()) == RemovePostSpec(old(store.State()), postId, token, now, cfg)
  {
    var username := VerifyToken(token, now, cfg);
    if username.None? {
      return Unauth401;
    }
    var user := UserByEmail(store.State(), username.value);
    if !FitsInt64(postId) {
      return Crash;
    }
    var post := NoteById(store.State(), postId);
    if post.None? {
      return NotFound400;
    }
    if user.None? {
      return Crash;
    }
    if !OwnsNote(user.value, post.value) {
      return Forbidden403;
    }
    var deleted := store.DeletePost(postId);
    if deleted {
      status := Ok(Message("successfully deleted post"));
    } else {
      status := Unable400;
    }
  }

  method ReadUserNotes(store: Store, userId: int, token: Token, now: int, cfg: Settings) returns (status: Status)
    requires store.Valid()
    ensures status == ReadUserNotesSpec(store.State(), userId, token, now, cfg)
    ensures status.Ok? ==> userId in store.users && VerifyToken(token, now, cfg) == Some(store.users[userId].email)
  {
    var username := VerifyToken(token, now, cfg);
    if username.None? {
      return Unauth401;
    }
    var user := UserByEmail(store.State(), username.value);
    if user.None? {
      return Crash;
    }
    if !OwnsAccount(user.value, userId) {
      return Forbidden403;
    }
    status := Ok(NoteList(NotesOf(store.State(), userId)));
  }
}

/**
 * The service as a whole: any request to any endpoint, and sequences of them
 * run one after the other against the same tables, as the single shared
 * session processes them.
 *
 * The lemmas here state the access-control properties of the handlers:
 * what an unverified token can do, who can change a note, that a note's
 * owner never changes, and the ordering of the checks.
 */
module Traces {
  import opened Wrappers
  import opened Models
  import opened Jwt
  import opened Db
  import opened Manage
  import opened Endpoints
  import Passwords

  /** A request to one endpoint, with its path, form and token fields. */
  datatype Call =
    | RegisterCall(name: string, email: string, password: string, salt: Passwords.Salt)
    | DetailsCall(token: Token)
    | RemoveUserCall(userId: int, token: Token)
    | LoginCall(username: string, password: string)
    | CreateNoteCall(title: string, content: string, ownerId: int, token: Token)
    | UpdateNoteCall(title: string, content: string, postId: int, token: Token)
    | RemoveNoteCall(postId: int, token: Token)
    | ReadNotesCall(userId: int, token: Token)

  /** A request and the time at which it is handled. */
  datatype Request = Request(now: int, call: Call)

  /** The bearer token a request carries, for the endpoints that require one. */
  function TokenOf(call: Call): Option<Token>
  {
    match call
    case RegisterCall(_, _, _, _) => None
    case LoginCall(_, _) => None
    case DetailsCall(token) => Some(token)
    case RemoveUserCall(_, token) => Some(token)
    case CreateNoteCall(_, _, _, token) => Some(token)
    case UpdateNoteCall(_, _, _, token) => Some(token)
    case RemoveNoteCall(_, token) => Some(token)
    case ReadNotesCall(_, token) => Some(token)
  }

  /** The user a request acts as: the stored user named by the subject of its verified token. */
  function ActorOf(t: Tables, r: Request, cfg: Settings): Option<User>
    requires WellFormed(t)
  {
    match TokenOf(r.call)
    case None => None
    case Some(token) =>
      match VerifyToken(token, r.now, cfg)
      case None => None
      case Some(username) => UserByEmail(t, username)
  }

  /**
   * One request, dispatched to its handler. Whatever the request, the table
   * constraints hold afterwards and a note that survives keeps its owner.
   */
  function Handle(t: Tables, r: Request, cfg: Settings): (s: Step<Status>)
    requires WellFormed(t)
    ensures WellFormed(s.after)
    ensures forall id :: id in t.notes && id in s.after.notes ==> s.after.notes[id].userId == t.notes[id].userId
  {
    match r.call
    case RegisterCall(name, email, password, salt) => RegisterUserSpec(t, name, email, password, salt)
    case DetailsCall(token) => Step(GetUserDetailsSpec(t, token, r.now, cfg), t)
    case RemoveUserCall(userId, token) => RemoveUserSpec(t, userId, token, r.now, cfg)
    case LoginCall(username, password) => Step(LoginSpec(t, username, password, r.now, cfg), t)
    case CreateNoteCall(title, content, ownerId, token) => CreateNewPostSpec(t, title, content, ownerId, token, r.now, cfg)
    case UpdateNoteCall(title, content, postId, token) => UpdateNoteSpec(t, title, content, postId, token, r.now, cfg)
    case RemoveNoteCall(postId, token) => RemovePostSpec(t, postId, token, r.now, cfg)
    case ReadNotesCall(userId, token) => Step(ReadUserNotesSpec(t, userId, token, r.now, cfg), t)
  }

  /** The tables after handling `reqs` in order. */
  function Run(t: Tables, reqs: seq<Request>, cfg: Settings): (after: Tables)
    requires WellFormed(t)
    ensures WellFormed(after)
    decreases |reqs|
  {
    if reqs == [] then t else Run(Handle(t, reqs[0], cfg).after, reqs[1..], cfg)
  }

  // ---------------------------------------------------------------------------
  // One request

  /** A request with a token that does not verify is refused with 401 and changes nothing. */
  lemma UnverifiedTokenChangesNothing(t: Tables, r: Request, cfg: Settings)
    requires WellFormed(t)
    requires TokenOf(r.call).Some? && VerifyToken(TokenOf(r.call).value, r.now, cfg).None?
    ensures Handle(t, r, cfg) == Step(Unauth401, t)
  {
  }

  /**
   * A note that existed before a request and is changed or removed by it was
   * changed by a request acting as the note's owner.
   */
  lemma OnlyOwnerChangesNote(t: Tables, r: Request, cfg: Settings, noteId: int)
    requires WellFormed(t)
    requires noteId in t.notes
    requires var after := Handle(t, r, cfg).after;
      noteId !in after.notes || after.notes[noteId] != t.notes[noteId]
    ensures ActorOf(t, r, cfg).Some? && ActorOf(t, r, cfg).value.id == t.notes[noteId].userId
  {
  }

  /**
   * `update_note` and `remove_post` report a missing note (400) before any
   * check of the actor or the owner; an id outside SQLite's 64-bit range
   * crashes the lookup instead.
   */
  lemma NotFoundBeforeForbidden(t: Tables, r: Request, cfg: Settings)
    requires WellFormed(t)
    requires r.call.UpdateNoteCall? || r.call.RemoveNoteCall?
    requires VerifyToken(r.call.token, r.now, cfg).Some? && r.call.postId !in t.notes
    ensures Handle(t, r, cfg) == Step(if FitsInt64(r.call.postId) then NotFound400 else Crash, t)
  {
  }

  /**
   * For a note that exists, `update_note` and `remove_post` refuse (403) and
   * change nothing when the actor is not the owner; the owner succeeds, and
   * the store's update or delete is applied. (A stored id beyond 64 bits
   * crashes the lookup first: see `OversizedIdCrashes`.)
   */
  lemma OwnerCheckOnNotes(t: Tables, r: Request, cfg: Settings, actor: User)
    requires WellFormed(t)
    requires r.call.UpdateNoteCall? || r.call.RemoveNoteCall?
    requires r.call.postId in t.notes && FitsInt64(r.call.postId) && ActorOf(t, r, cfg) == Some(actor)
    ensures actor.id != t.notes[r.call.postId].userId ==> Handle(t, r, cfg) == Step(Forbidden403, t)
    ensures actor.id == t.notes[r.call.postId].userId ==>
      && Handle(t, r, cfg).result.Ok?
      && Handle(t, r, cfg).after == (if r.call.UpdateNoteCall?
                                     then UpdatePostSpec(t, r.call.postId, r.call.title, r.call.content).after
                                     else DeletePostSpec(t, r.call.postId).after)
  {
  }

  /**
   * `remove_user` refuses (403) and deletes nothing unless the actor deletes
   * its own account; then it always succeeds, so its 400 branch is never taken,
   * and the account goes together with all its notes.
   */
  lemma RemoveUserOnlySelf(t: Tables, r: Request, cfg: Settings, actor: User)
    requires WellFormed(t)
    requires r.call.RemoveUserCall? && ActorOf(t, r, cfg) == Some(actor)
    ensures actor.id != r.call.userId ==> Handle(t, r, cfg) == Step(Forbidden403, t)
    ensures actor.id == r.call.userId ==>
      && Handle(t, r, cfg).result == Ok(Message("successfully deleted user"))
      && Handle(t, r, cfg).after.users == t.users - {actor.id}
      && NotesOf(Handle(t, r, cfg).after, actor.id) == []
  {
  }

  /** `read_user_notes` lists exactly the requested user's notes, and only to that user. */
  lemma ReadNotesOnlyOwn(t: Tables, r: Request, cfg: Settings, actor: User)
    requires WellFormed(t)
    requires r.call.ReadNotesCall? && ActorOf(t, r, cfg) == Some(actor)
    ensures Handle(t, r, cfg).after == t
    ensures Handle(t, r, cfg).result ==
      if actor.id == r.call.userId then Ok(NoteList(NotesOf(t, r.call.userId))) else Forbidden403
  {
  }

  /**
   * `create_new_post` checks only the token: any verified caller creates a
   * note owned by whichever user id the form names, whether that is the
   * caller, another user, or no user at all, as long as SQLite can store it.
   */
  lemma CreateNoteForAnyOwner(t: Tables, r: Request, cfg: Settings)
    requires WellFormed(t)
    requires r.call.CreateNoteCall? && VerifyToken(r.call.token, r.now, cfg).Some? && FitsInt64(r.call.ownerId)
    ensures var s := Handle(t, r, cfg);
      && s.result.Ok? && s.result.body.Created?
      && s.result.body.note == Note(s.result.body.note.id, r.call.title, r.call.content, r.call.ownerId)
      && s.result.body.note.id in s.after.notes
      && s.after.notes[s.result.body.note.id] == s.result.body.note
  {
  }

  /**
   * An id that does not fit SQLite's 64-bit INTEGER, given by a caller with a
   * verified token, crashes the request and changes nothing: as the note to
   * update or delete (the lookup raises), or as a new note's owner (the
   * commit raises).
   */
  lemma OversizedIdCrashes(t: Tables, r: Request, cfg: Settings)
    requires WellFormed(t)
    requires TokenOf(r.call).Some? && VerifyToken(TokenOf(r.call).value, r.now, cfg).Some?
    requires || (r.call.CreateNoteCall? && !FitsInt64(r.call.ownerId))
             || ((r.call.UpdateNoteCall? || r.call.RemoveNoteCall?) && !FitsInt64(r.call.postId))
    ensures Handle(t, r, cfg) == Step(Crash, t)
  {
  }

  /**
   * When the token verifies but its subject no longer names a user (the
   * account was deleted after the token was issued), the handlers that read
   * `user.id` crash instead of answering 401 or 404; `update_note` and
   * `remove_post` crash only once the note is found.
   */
  lemma MissingActorCrashes(t: Tables, r: Request, cfg: Settings, username: string)
    requires WellFormed(t)
    requires TokenOf(r.call).Some? && VerifyToken(TokenOf(r.call).value, r.now, cfg) == Some(username)
    requires !EmailTaken(t, username)
    requires !r.call.CreateNoteCall?
    requires (r.call.UpdateNoteCall? || r.call.RemoveNoteCall?) ==> r.call.postId in t.notes
    ensures Handle(t, r, cfg) == Step(Crash, t)
  {
  }

  /** No request ever gets 404, and only a store failure that cannot happen would give `Unable400`. */
  lemma Never404OrUnable(t: Tables, r: Request, cfg: Settings)
    requires WellFormed(t)
    ensures Handle(t, r, cfg).result != NotFound404
    ensures Handle(t, r, cfg).result != Unable400
  {
  }

  // ---------------------------------------------------------------------------
  // Sequences of requests

  /** No request of `reqs`, handled in order from `t`, acts as the user with id `userId`. */
  ghost predicate NeverActsAs(t: Tables, reqs: seq<Request>, cfg: Settings, userId: int)
    requires WellFormed(t)
    decreases |reqs|
  {
    reqs != [] ==>
      && (ActorOf(t, reqs[0], cfg).None? || ActorOf(t, reqs[0], cfg).value.id != userId)
      && NeverActsAs(Handle(t, reqs[0], cfg).after, reqs[1..], cfg, userId)
  }

  /**
   * Over any sequence of requests none of which acts as user `userId`, every
   * note that user owns at the start is still there, unchanged, at the end:
   * only the owner updates or deletes a note, directly or by deleting the
   * account.
   */
  lemma {:induction false} OthersNeverTouchNotes(t: Tables, reqs: seq<Request>, cfg: Settings, userId: int, noteId: int)
    requires WellFormed(t)
    requires NeverActsAs(t, reqs, cfg, userId)
    requires noteId in t.notes && t.notes[noteId].userId == userId
    ensures noteId in Run(t, reqs, cfg).notes && Run(t, reqs, cfg).notes[noteId] == t.notes[noteId]
    decreases |reqs|
  {
    if reqs != [] {
      var next := Handle(t, reqs[0], cfg).after;
      if noteId !in next.notes || next.notes[noteId] != t.notes[noteId] {
        OnlyOwnerChangesNote(t, reqs[0], cfg, noteId);
        assert false;
      }
      OthersNeverTouchNotes(next, reqs[1..], cfg, userId, noteId);
    }
  }

  /**
   * A password the context refuses to process turns login into an oracle for
   * registered emails: an unknown email is refused (401) before the password
   * is looked at, while a registered one crashes (500) in `verify`.
   */
  lemma UnhashablePasswordRevealsAccount(t: Tables, username: string, password: string, now: int, cfg: Settings)
    requires WellFormed(t) && !Passwords.Hashable(password)
    ensures Handle(t, Request(now, LoginCall(username, password)), cfg)
      == Step(if EmailTaken(t, username) then Crash else Unauth401, t)
  {
  }

  /** Registering then logging in with the same email and password yields a token that names that email. */
  lemma RegisterThenLogin(t: Tables, name: string, email: string, password: string, salt: Passwords.Salt, now: int, cfg: Settings)
    requires WellFormed(t)
    requires RegisterUserSpec(t, name, email, password, salt).result.Ok?
    requires 0 <= cfg.accessTokenExpireMinutes
    ensures var after := RegisterUserSpec(t, name, email, password, salt).after;
      var status := LoginSpec(after, email, password, now, cfg);
      status.Ok? && status.body.Bearer? && VerifyToken(status.body.accessToken, now, cfg) == Some(email)
  {
    var after := RegisterUserSpec(t, name, email, password, salt).after;
    var id := RegisterUserSpec(t, name, email, password, salt).result.body.id;
    assert after.users[id].email == email && Passwords.Verify(password, after.users[id].hashedPassword) == Some(true);
    TokenRoundTrip(email, now, now, cfg);
  }

  /** A second registration with an email already in use is refused and changes nothing. */
  lemma SecondRegistrationRefused(t: Tables, name: string, email: string, password: string, salt: Passwords.Salt,
                                  name2: string, password2: string, salt2: Passwords.Salt)
    requires WellFormed(t)
    requires RegisterUserSpec(t, name, email, password, salt).result.Ok?
    ensures var after := RegisterUserSpec(t, name, email, password, salt).after;
      RegisterUserSpec(after, name2, email, password2, salt2) == Step(EmailTaken400, after)
  {
    var after := RegisterUserSpec(t, name, email, password, salt).after;
    var id := RegisterUserSpec(t, name, email, password, salt).result.body.id;
    assert after.users[id].email == email;
  }

  // The end-to-end scenario, one request at a time.

  const Alice: User := User(1, "alice", "a@x.com", Passwords.Hash("pw", 7).value)
  const WithAlice: Tables := Tables(map[1 := Alice], map[], 2, 1)

  function AliceToken(cfg: Settings): Token
  {
    CreateAccessToken(map[Sub := Str("a@x.com")], 0, cfg)
  }

  lemma ScenarioRegister(cfg: Settings)
    ensures Handle(Empty, Request(0, RegisterCall("alice", "a@x.com", "pw", 7)), cfg)
      == Step(Ok(UserView(1, "alice", "a@x.com")), WithAlice)
  {
    EmptyIsWellFormed();
    assert !EmailTaken(Empty, "a@x.com") && !NameTaken(Empty, "alice");
  }

  lemma AliceIsFound(t: Tables)
    requires WellFormed(t) && t.users == map[1 := Alice]
    ensures UserByEmail(t, "a@x.com") == Some(Alice)
  {
    assert t.users[1].email == "a@x.com";
  }

  lemma ScenarioLogin(cfg: Settings)
    ensures WellFormed(WithAlice)
    ensures Handle(WithAlice, Request(0, LoginCall("a@x.com", "pw")), cfg) == Step(Ok(Bearer(AliceToken(cfg))), WithAlice)
  {
    AliceIsFound(WithAlice);
  }

  const FirstNote: Note := Note(1, "T", "C", 1)

  lemma ScenarioCreate(cfg: Settings)
    requires 1 <= cfg.accessTokenExpireMinutes
    ensures WellFormed(WithAlice)
    ensures Handle(WithAlice, Request(10, CreateNoteCall("T", "C", 1, AliceToken(cfg))), cfg)
      == Step(Ok(Created(FirstNote)), WithAlice.(notes := map[1 := FirstNote], nextNoteId := 2))
  {
    TokenRoundTrip("a@x.com", 0, 10, cfg);
  }

  lemma ScenarioUpdate(cfg: Settings, t: Tables)
    requires 1 <= cfg.accessTokenExpireMinutes
    requires t == WithAlice.(notes := map[1 := Note(1, "T", "C", 1)], nextNoteId := 2)
    ensures WellFormed(t)
    ensures Handle(t, Request(20, UpdateNoteCall("T2", "C2", 1, AliceToken(cfg))), cfg)
      == Step(Ok(Message("successfully updated post")), t.(notes := map[1 := Note(1, "T2", "C2", 1)]))
  {
    TokenRoundTrip("a@x.com", 0, 20, cfg);
    AliceIsFound(t);
  }

  lemma ScenarioRemove(cfg: Settings, t: Tables)
    requires 1 <= cfg.accessTokenExpireMinutes
    requires t == WithAlice.(notes := map[1 := Note(1, "T2", "C2", 1)], nextNoteId := 2)
    ensures WellFormed(t)
    ensures Handle(t, Request(30, RemoveNoteCall(1, AliceToken(cfg))), cfg)
      == Step(Ok(Message("successfully deleted post")), t.(notes := map[]))
  {
    TokenRoundTrip("a@x.com", 0, 30, cfg);
    AliceIsFound(t);
  }

  /**
   * Register, log in, create a note, update it and delete it, all as the same
   * user, starting from empty tables: every step succeeds and the note is
   * gone at the end.
   */
  lemma EndToEnd(cfg: Settings)
    requires 1 <= cfg.accessTokenExpireMinutes
    ensures
      var s1 := Handle(Empty, Request(0, RegisterCall("alice", "a@x.com", "pw", 7)), cfg);
      var s2 := Handle(s1.after, Request(0, LoginCall("a@x.com", "pw")), cfg);
      s1.result == Ok(UserView(1, "alice", "a@x.com")) && s2.result.Ok? && s2.result.body.Bearer? &&
      var token := s2.result.body.accessToken;
      var s3 := Handle(s2.after, Request(10, CreateNoteCall("T", "C", 1, token)), cfg);
      var s4 := Handle(s3.after, Request(20, UpdateNoteCall("T2", "C2", 1, token)), cfg);
      var s5 := Handle(s4.after, Request(30, RemoveNoteCall(1, token)), cfg);
      && s3.result == Ok(Created(Note(1, "T", "C", 1)))
      && s4.result.Ok? && s5.result.Ok?
      && NoteById(s5.after, 1).None?
  {
    ScenarioRegister(cfg);
    ScenarioLogin(cfg);
    ScenarioCreate(cfg);
    ScenarioUpdate(cfg, WithAlice.(notes := map[1 := Note(1, "T", "C", 1)], nextNoteId := 2));
    ScenarioRemove(cfg, WithAlice.(notes := map[1 := Note(1, "T2", "C2", 1)], nextNoteId := 2));
  }
}

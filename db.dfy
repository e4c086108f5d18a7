/**
 * The store behind db.py: the `users` and `notes` tables and the functions
 * that query and change them through the shared SQLAlchemy session.
 *
 * `Tables` is the content of both tables at one instant, with the next id the
 * database will hand out in each. Every db.py function has a specification
 * here (`...Spec`, returning its result together with the tables after the
 * call) and a method of the class `Store`, which holds the tables as fields and
 * changes them in place, proved to agree with that specification.
 */
module Db {
  import opened Wrappers
  import opened Models
  import Passwords

  datatype Tables = Tables(users: map<int, User>, notes: map<int, Note>, nextUserId: int, nextNoteId: int)

  /** What a store operation returns, and the tables after it. */
  datatype Step<R> = Step(result: R, after: Tables)

  /** The freshly created database: both tables empty, ids counted from 1. */
  const Empty: Tables := Tables(map[], map[], 1, 1)

  /**
   * The table constraints: each row is stored under its own primary key, every
   * key lies between 1 and the next id to be handed out, and `users.name` and
   * `users.email` are unique. There is deliberately no constraint tying
   * `notes.user_id` to an existing user.
   */
  ghost predicate WellFormed(t: Tables)
  {
    && 1 <= t.nextUserId && 1 <= t.nextNoteId
    && (forall id :: id in t.users ==> t.users[id].id == id && 1 <= id < t.nextUserId)
    && (forall id :: id in t.notes ==> t.notes[id].id == id && 1 <= id < t.nextNoteId)
    && (forall a, b :: a in t.users && b in t.users && t.users[a].email == t.users[b].email ==> a == b)
    && (forall a, b :: a in t.users && b in t.users && t.users[a].name == t.users[b].name ==> a == b)
  }

  lemma EmptyIsWellFormed()
    ensures WellFormed(Empty)
  {
  }

  /** True when some user has this email. */
  predicate EmailTaken(t: Tables, email: string)
  {
    exists id :: id in t.users && t.users[id].email == email
  }

  /** True when some user has this name. */
  predicate NameTaken(t: Tables, name: string)
  {
    exists id :: id in t.users && t.users[id].name == name
  }

  /** `get_user_by_username`: the user whose email is `email`, if any. */
  function UserByEmail(t: Tables, email: string): (r: Option<User>)
    requires WellFormed(t)
    ensures r.Some? <==> EmailTaken(t, email)
    ensures r.Some? ==> r.value.id in t.users && t.users[r.value.id] == r.value && r.value.email == email
  {
    if EmailTaken(t, email) then
      var id :| id in t.users && t.users[id].email == email;
      Some(t.users[id])
    else
      None
  }

  /**
   * `is_email_available`: despite its name, the user who already has `email`
   * (truthy: the email is taken), or `None` when the email is free.
   */
  function IsEmailAvailable(t: Tables, email: string): (r: Option<User>)
    requires WellFormed(t)
    ensures r.Some? <==> EmailTaken(t, email)
    ensures r.Some? ==> r.value.id in t.users && t.users[r.value.id] == r.value && r.value.email == email
  {
    UserByEmail(t, email)
  }

  /** `get_post_by_id`: the note stored under `id`, if any. */
  function NoteById(t: Tables, id: int): (r: Option<Note>)
    requires WellFormed(t)
    ensures r.None? <==> id !in t.notes
    ensures r.Some? ==> r.value.id == id && r.value == t.notes[id]
  {
    if id in t.notes then Some(t.notes[id]) else None
  }

  /** The ids of the notes whose owner is `userId`. */
  function OwnedIds(t: Tables, userId: int): set<int>
  {
    set id | id in t.notes && t.notes[id].userId == userId
  }

  /** The notes of `notes` with ids in [lo, hi) whose owner is `userId`, in ascending id order. */
  function OwnedBetween(notes: map<int, Note>, userId: int, lo: int, hi: int): seq<Note>
    decreases hi - lo
  {
    if hi <= lo then []
    else if lo in notes && notes[lo].userId == userId then [notes[lo]] + OwnedBetween(notes, userId, lo + 1, hi)
    else OwnedBetween(notes, userId, lo + 1, hi)
  }

  lemma {:induction false} OwnedBetweenExactly(notes: map<int, Note>, userId: int, lo: int, hi: int)
    requires forall id :: id in notes ==> notes[id].id == id
    ensures forall n :: n in OwnedBetween(notes, userId, lo, hi) <==>
      lo <= n.id < hi && n.id in notes && notes[n.id] == n && n.userId == userId
    decreases hi - lo
  {
    if lo < hi {
      OwnedBetweenExactly(notes, userId, lo + 1, hi);
    }
  }

  lemma {:induction false} OwnedBetweenAscending(notes: map<int, Note>, userId: int, lo: int, hi: int)
    requires forall id :: id in notes ==> notes[id].id == id
    ensures forall i, j :: 0 <= i < j < |OwnedBetween(notes, userId, lo, hi)| ==>
      OwnedBetween(notes, userId, lo, hi)[i].id < OwnedBetween(notes, userId, lo, hi)[j].id
    decreases hi - lo
  {
    if lo < hi {
      OwnedBetweenAscending(notes, userId, lo + 1, hi);
      var rest := OwnedBetween(notes, userId, lo + 1, hi);
      if lo in notes && notes[lo].userId == userId {
        OwnedBetweenExactly(notes, userId, lo + 1, hi);
        var r := [notes[lo]] + rest;
        assert OwnedBetween(notes, userId, lo, hi) == r;
        forall i, j | 0 <= i < j < |r|
          ensures r[i].id < r[j].id
        {
          assert r[j] == rest[j - 1] && r[j] in rest;
          if i > 0 {
            assert r[i] == rest[i - 1];
          }
        }
      }
    }
  }

  /**
   * `get_all_posts`: the notes whose owner is `userId`, each once, in
   * ascending id order (the query has no ORDER BY; this is the order of a
   * table scan).
   */
  function NotesOf(t: Tables, userId: int): (r: seq<Note>)
    requires WellFormed(t)
    ensures forall n :: n in r <==> n.id in t.notes && t.notes[n.id] == n && n.userId == userId
    ensures forall i, j :: 0 <= i < j < |r| ==> r[i].id < r[j].id
  {
    OwnedBetweenExactly(t.notes, userId, 1, t.nextNoteId);
    OwnedBetweenAscending(t.notes, userId, 1, t.nextNoteId);
    OwnedBetween(t.notes, userId, 1, t.nextNoteId)
  }

  /** The ids listed by `get_all_posts` are exactly the owned ids. */
  lemma NotesOfIds(t: Tables, userId: int)
    requires WellFormed(t)
    ensures (set i | 0 <= i < |NotesOf(t, userId)| :: NotesOf(t, userId)[i].id) == OwnedIds(t, userId)
  {
    var r := NotesOf(t, userId);
    forall id | id in OwnedIds(t, userId)
      ensures exists i :: 0 <= i < |r| && r[i].id == id
    {
      assert t.notes[id] in r;
    }
  }

  /**
   * `create_user`: store the name, the email and the digest of the password
   * under a fresh id. Hashing raises for a password the context refuses; a
   * duplicate name or email violates a unique index when the session commits.
   * Either way nothing is stored (`None`).
   */
  function CreateUserSpec(t: Tables, name: string, email: string, password: string, salt: Passwords.Salt): (s: Step<Option<User>>)
    requires WellFormed(t)
    ensures WellFormed(s.after)
    ensures s.result.None? <==> !Passwords.Hashable(password) || EmailTaken(t, email) || NameTaken(t, name)
    ensures s.result.None? ==> s.after == t
    ensures s.result.Some? ==>
      var u := s.result.value;
      && u.id !in t.users
      && u.name == name && u.email == email
      && Passwords.Hash(password, salt) == Some(u.hashedPassword)
      && s.after.users == t.users[u.id := u]
      && s.after.notes == t.notes
  {
    var digest := Passwords.Hash(password, salt);
    if digest.None? || EmailTaken(t, email) || NameTaken(t, name) then
      Step(None, t)
    else
      var u := User(t.nextUserId, name, email, digest.value);
      Step(Some(u), t.(users := t.users[u.id := u], nextUserId := t.nextUserId + 1))
  }

  /**
   * `delete_user`: false, and nothing changes, when no user has this id;
   * otherwise every note the user owns is deleted, then the user.
   */
  function DeleteUserSpec(t: Tables, userId: int): (s: Step<bool>)
    requires WellFormed(t)
    ensures WellFormed(s.after)
    ensures s.result <==> userId in t.users
    ensures !s.result ==> s.after == t
    ensures s.result ==>
      && s.after.users == t.users - {userId}
      && NotesOf(s.after, userId) == []
      && s.after.notes.Keys <= t.notes.Keys
      && (forall id :: id in s.after.notes ==> s.after.notes[id] == t.notes[id])
      && (forall id :: id in t.notes && t.notes[id].userId != userId ==> id in s.after.notes && s.after.notes[id] == t.notes[id])
  {
    if userId !in t.users then
      Step(false, t)
    else
      var after := t.(users := t.users - {userId}, notes := t.notes - OwnedIds(t, userId));
      var left := NotesOf(after, userId);
      assert left != [] ==> left[0] in left;
      Step(true, after)
  }

  /** `create_post`: a new note with the given fields under a fresh id; no other note changes. */
  function CreatePostSpec(t: Tables, title: string, content: string, userId: int): (s: Step<Note>)
    requires WellFormed(t)
    ensures WellFormed(s.after)
    ensures s.result.id !in t.notes
    ensures s.result.title == title && s.result.content == content && s.result.userId == userId
    ensures s.after.notes == t.notes[s.result.id := s.result]
    ensures s.after.users == t.users
  {
    var n := Note(t.nextNoteId, title, content, userId);
    Step(n, t.(notes := t.notes[n.id := n], nextNoteId := t.nextNoteId + 1))
  }

  /**
   * `update_post`: false, and nothing changes, when the note is absent;
   * otherwise only its title and content are overwritten.
   */
  function UpdatePostSpec(t: Tables, postId: int, title: string, content: string): (s: Step<bool>)
    requires WellFormed(t)
    ensures WellFormed(s.after)
    ensures s.result <==> postId in t.notes
    ensures !s.result ==> s.after == t
    ensures s.result ==>
      && s.after.users == t.users
      && s.after.notes.Keys == t.notes.Keys
      && s.after.notes[postId].title == title && s.after.notes[postId].content == content
      && s.after.notes[postId].id == postId && s.after.notes[postId].userId == t.notes[postId].userId
      && (forall id :: id in t.notes && id != postId ==> s.after.notes[id] == t.notes[id])
  {
    if postId !in t.notes then
      Step(false, t)
    else
      Step(true, t.(notes := t.notes[postId := t.notes[postId].(title := title, content := content)]))
  }

  /** `delete_post`: false, and nothing changes, when the note is absent; otherwise exactly that note goes. */
  function DeletePostSpec(t: Tables, postId: int): (s: Step<bool>)
    requires WellFormed(t)
    ensures WellFormed(s.after)
    ensures s.result <==> postId in t.notes
    ensures !s.result ==> s.after == t
    ensures s.result ==> s.after.users == t.users && s.after.notes.Keys == t.notes.Keys - {postId}
    ensures forall id :: id in s.after.notes ==> s.after.notes[id] == t.notes[id]
  {
    if postId !in t.notes then
      Step(false, t)
    else
      Step(true, t.(notes := t.notes - {postId}))
  }

  /**
   * The session and the tables it commits to. Each method makes its change in
   * place and leaves the tables exactly as its specification says.
   */
  class Store {
    var users: map<int, User>
    var notes: map<int, Note>
    var nextUserId: int
    var nextNoteId: int

    function State(): Tables
      reads this
    {
      Tables(users, notes, nextUserId, nextNoteId)
    }

    ghost predicate Valid()
      reads this
    {
      WellFormed(State())
    }

    constructor ()
      ensures Valid() && State() == Empty
    {
      users, notes := map[], map[];
      nextUserId, nextNoteId := 1, 1;
    }

    method CreateUser(name: string, email: string, password: string, salt: Passwords.Salt) returns (user: Option<User>)
      requires Valid()
      modifies this
      ensures Valid()
      ensures Step(user, State()) == CreateUserSpec(old(State()), name, email, password, salt)
    {
      var digest := Passwords.Hash(password, salt);
      if digest.None? {
        return None;
      }
      if EmailTaken(State(), email) || NameTaken(State(), name) {
        return None;
      }
      var u := User(nextUserId, name, email, digest.value);
      users := users[u.id := u];
      nextUserId := nextUserId + 1;
      user := Some(u);
    }

    method DeleteUser(userId: int) returns (deleted: bool)
      requires Valid()
      modifies this
      ensures Valid()
      ensures Step(deleted, State()) == DeleteUserSpec(old(State()), userId)
    {
      var posts := NotesOf(State(), userId);
      if userId !in users {
        return false;
      }
      NotesOfIds(State(), userId);
      for i := 0 to |posts|
        invariant notes == old(notes) - (set j | 0 <= j < i :: posts[j].id)
        invariant users == old(users) && nextUserId == old(nextUserId) && nextNoteId == old(nextNoteId)
      {
        notes := notes - {posts[i].id};
        assert (set j | 0 <= j < i + 1 :: posts[j].id) == (set j | 0 <= j < i :: posts[j].id) + {posts[i].id};
      }
      users := users - {userId};
      deleted := true;
    }

    method CreatePost(title: string, content: string, userId: int) returns (post: Note)
      requires Valid()
      modifies this
      ensures Valid()
      ensures Step(post, State()) == CreatePostSpec(old(State()), title, content, userId)
    {
      post := Note(nextNoteId, title, content, userId);
      notes := notes[post.id := post];
      nextNoteId := nextNoteId + 1;
    }

    method UpdatePost(postId: int, title: string, content: string) returns (updated: bool)
      requires Valid()
      modifies this
      ensures Valid()
      ensures Step(updated, State()) == UpdatePostSpec(old(State()), postId, title, content)
    {
      if postId !in notes {
        return false;
      }
      var post := notes[postId];
      post := post.(title := title);
      post := post.(content := content);
      notes := notes[postId := post];
      updated := true;
    }

    method DeletePost(postId: int) returns (deleted: bool)
      requires Valid()
      modifies this
      ensures Valid()
      ensures Step(deleted, State()) == DeletePostSpec(old(State()), postId)
    {
      if postId !in notes {
        return false;
      }
      notes := notes - {postId};
      deleted := true;
    }
  }
}

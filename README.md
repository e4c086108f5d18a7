# simple-notes-be: the ownership-gated note store, in Dafny

simple-notes-be is a small notes backend: people register, log in to get a
bearer token (a JWT whose subject is their email), and then create, update,
delete and list notes. The logic that matters is the store of users and notes
(db.py), issuing and checking tokens and passwords (manage.py), and the checks
each request handler makes before it touches the store (main.py). This
project models those three files and proves what they guarantee, and what
they fail to guarantee.

Modules, one per file:

- `Wrappers` (wrappers.dfy): `Option`.
- `Passwords` (passwords.dfy): bcrypt as a symbolic hash/verify pair. The
  salt that bcrypt draws at random is a parameter. Both calls raise (`None`)
  for a password passlib refuses: one longer than 4096 bytes in UTF-8, or one
  holding a NUL character.
- `Jwt` (jwt.dfy): python-jose's `encode`/`decode` as a symbolic signature.
  A token decodes only under the key and algorithm it was signed with. It also
  needs an "exp" claim (section 4.1.4 of RFC 7519), when present, that is a
  number not earlier than now. And it needs a "sub" claim (section 4.1.2 of
  RFC 7519), when present, that is a string.
- `Models` (models.dfy): the `users` and `notes` rows.
- `Db` (db.dfy): the tables as a value (`Tables`) with a specification
  function per db.py operation. The class `Store` holds the two maps and the
  id counters as fields. Its methods change them in place and are proved equal
  to those specifications. `Store.DeleteUser` deletes the user's posts one by
  one in a loop, then the user.
- `Manage` (manage.dfy): `CreateAccessToken`, `VerifyToken`,
  `AuthenticateUser`. The secret, the algorithm and the lifetime are the
  fields of `Settings`, and the current time is a parameter.
- `Endpoints` (endpoints.dfy): each handler as a specification (`...Spec`)
  and as a method on a `Db.Store`. Each returns a `Status`: `Ok(body)`, the
  HTTP error raised, or `Crash` for an uncaught exception (HTTP 500).
- `Traces` (traces.dfy): any request to any endpoint (`Handle`), sequences of
  requests (`Run`), and the access-control properties stated over them.

Where the code does something other than its routes and messages suggest,
the model follows the code:

- `get_user_details` cannot answer 404. Its `else` branch formats
  `user.id` of a `None` user and crashes (main.py:111-112).
- A token whose subject no longer names a user does not give 401.
  `remove_user`, `update_note`, `remove_post` and `read_user_notes` read
  `user.id` of `None` and crash (main.py:126, 184, 214, 242). `update_note`
  and `remove_post` answer 400 first when the note is missing.
- `create_new_post` checks only that the token verifies. The note's owner is
  whatever `user_id` the form carries, so it can be another user, or an id no
  user has. SQLite does not enforce the `notes.user_id` foreign key, so such
  orphan notes are stored.
- A missing note is reported as 400, not 404, and always before the
  ownership check (403).
- `users.name` is unique as well as `users.email` (models.py:14-15).
  Registering a new email under a name already in use passes the email check.
  The insert then fails on the unique index when the session commits, so the
  request crashes.
- `is_email_available` returns the existing user, so a truthy result means
  the email is taken.
- passlib raises, rather than hashing or verifying, for a password longer
  than 4096 bytes in UTF-8 (`PasswordSizeError`) or holding a NUL character
  (`NullPasswordError`).
  - Registering a free email with such a password crashes in `create_user`
    (db.py:32) and stores nothing.
  - Logging in with such a password gets 401 for an unknown email, because
    `authenticate_user` returns before verifying (manage.py:42-43). For a
    registered email it crashes in `verify` (manage.py:44). The answer
    therefore tells whether an email is registered.
- Ids are SQLite INTEGERs, 64-bit signed. The sqlite3 driver refuses to bind
  a Python int outside that range.
  - A post id beyond it makes the lookup in `update_note` and `remove_post`
    raise (main.py:179, 209).
  - An owner id beyond it makes the commit in `create_new_post` raise
    (db.py:62).
  - Each of these requests crashes.

## Model

| member | source | states |
|---|---|---|
| `Passwords.Hash` | db.py:32 | hashing raises exactly for a password over 4096 bytes in UTF-8 or holding NUL; otherwise the digest, under any salt, verifies against that password |
| `Passwords.Verify` | manage.py:44 | verifying raises exactly for a password over 4096 bytes in UTF-8 or holding NUL; otherwise it answers true or false |
| `Passwords.Utf8LengthBounds` | db.py:14 | a string's UTF-8 length is between one and four bytes per character, so the byte limit implies the character limit passlib also checks |
| `Passwords.VerifyIsExact` | manage.py:44 | against a digest, only the hashed password verifies; any other accepted password gives false (symbolic collision-freedom) |
| `Passwords.SaltedHashesDiffer` | db.py:32 | hashing one password under two different salts gives two different digests |
| `Jwt.Decode` | manage.py:26 | decoding succeeds exactly for a token signed with the expected key and algorithm whose "exp" is a number not before now and whose "sub", if any, is a string; it yields the token's claims |
| `Jwt.Encode` | manage.py:20 | the signed token is refused under every other key or algorithm, and whenever it decodes it yields exactly the encoded claims |
| `Jwt.DecodeEncode` | manage.py:20-26 | decoding an encoded claims set under the same key and algorithm returns it until it expires, and fails after |
| `Jwt.ForgedTokenRejected` | manage.py:26 | a token signed with another key or under another algorithm never decodes |
| `Db.UserByEmail` | db.py:23-24 | the result is the stored user with that email, and it is absent exactly when no user has that email |
| `Db.IsEmailAvailable` | db.py:19-20 | a result is present exactly when the email is already taken, and it is the user who holds it |
| `Db.NoteById` | db.py:27-28 | the result is absent exactly when no note has that id, and otherwise is the note stored under it |
| `Db.OwnedBetweenExactly` | db.py:89-90 | the ascending scan over an id range lists exactly the stored notes of that owner in that range |
| `Db.OwnedBetweenAscending` | db.py:89-90 | that scan lists notes in strictly ascending id order |
| `Db.NotesOf` | db.py:89-90 | `get_all_posts(u)` lists exactly the notes whose `user_id` is `u`, each once, in ascending id order |
| `Db.NotesOfIds` | db.py:45-51 | the ids in the listed posts are exactly the ids of the notes the user owns |
| `Db.CreateUserSpec` | db.py:31-41 | a new user with the given name and email and the digest of the password (never the plaintext) under an unused id, all else unchanged; a password hashing refuses, or a duplicate name or email, leaves the tables unchanged; the table constraints are kept |
| `Db.DeleteUserSpec` | db.py:43-54 | an absent id gives false and no change; otherwise the user is removed, and the surviving notes are exactly the old notes of other owners, unchanged |
| `Db.CreatePostSpec` | db.py:57-64 | one note with the given title, content and owner under an unused id; existing notes and users unchanged |
| `Db.UpdatePostSpec` | db.py:66-77 | an absent id gives false and no change; otherwise only that note's title and content change, its id and owner stay, other notes stay |
| `Db.DeletePostSpec` | db.py:79-86 | an absent id gives false and no change; otherwise exactly that note is removed |
| `Db.Store.constructor` | db.py:7-13 | a store over a freshly created database file starts with both tables empty |
| `Db.Store.CreateUser` | db.py:31-41 | the in-place insert leaves the tables exactly as `CreateUserSpec` says and keeps the constraints |
| `Db.Store.DeleteUser` | db.py:43-54 | the loop deleting each post, then the user, leaves the tables exactly as `DeleteUserSpec` says |
| `Db.Store.CreatePost` | db.py:57-64 | the in-place insert agrees with `CreatePostSpec` |
| `Db.Store.UpdatePost` | db.py:66-77 | overwriting the two fields in place agrees with `UpdatePostSpec` |
| `Db.Store.DeletePost` | db.py:79-86 | the in-place delete agrees with `DeletePostSpec` |
| `Manage.CreateAccessToken` | manage.py:16-21 | the token is signed with the configured key and algorithm and carries every claim of the input except "exp", plus "exp" equal to issue time plus the configured minutes |
| `Manage.VerifyToken` | manage.py:24-32 | a subject is returned exactly when the token decodes and has a "sub" claim, and it is that claim's string unchanged; otherwise the credentials exception |
| `Manage.AuthenticateUser` | manage.py:40-46 | a user is returned exactly when a stored user has that email and the password verifies against its digest, and it is that stored user; it raises exactly for a known email with a password the context refuses |
| `Manage.TokenRoundTrip` | manage.py:16-32 | a token created from `{"sub": e}` at time t verifies to `e` at every instant up to t plus the lifetime, and is refused after |
| `Manage.NoSubjectRefused` | manage.py:27-29 | a token without "sub" is refused |
| `Manage.ForeignTokenRefused` | manage.py:31-32 | a token signed with another key or algorithm is refused |
| `Manage.AuthenticateOutcomes` | manage.py:40-46 | an unknown email is refused whatever the password; for a known email, an accepted password gives the stored user or the same refusal, and a refused password raises |
| `Endpoints.RegisterUserSpec` | main.py:89-96 | a taken email gives 400 and no change; a new email and name with a hashable password give exactly one new user, answered with its id, name and email; a new email with a taken name or an unhashable password crashes with no change |
| `Endpoints.GetUserDetailsSpec` | main.py:98-112 | never 404; success exactly when the token verifies and its subject is a stored email, and the answer is that stored user's id, name and email |
| `Endpoints.RemoveUserSpec` | main.py:115-136 | every outcome but success leaves the tables unchanged, and the constraints are kept |
| `Endpoints.LoginSpec` | main.py:139-150 | 200 exactly when the credentials authenticate, a crash exactly when verifying the password raises, else 401; the body is a bearer token whose subject is the login email |
| `Endpoints.CreateNewPostSpec` | main.py:153-165 | an unverified token gives 401 and no change; any verified token creates one note with the form's title, content and user id; an owner id beyond 64 bits crashes with no change |
| `Endpoints.UpdateNoteSpec` | main.py:167-194 | every outcome but success leaves the tables unchanged, and the constraints are kept |
| `Endpoints.RemovePostSpec` | main.py:198-224 | every outcome but success leaves the tables unchanged, and the constraints are kept |
| `Endpoints.ReadUserNotesSpec` | main.py:227-252 | a successful answer lists only notes owned by the requested user id |
| `Endpoints.RegisterUser` | main.py:89-96 | running the handler against the store agrees with `RegisterUserSpec` |
| `Endpoints.GetUserDetails` | main.py:98-112 | agrees with `GetUserDetailsSpec`; the answer is the stored user under the returned id, and that user's email is the token's subject |
| `Endpoints.RemoveUser` | main.py:115-136 | running the handler against the store agrees with `RemoveUserSpec` |
| `Endpoints.LoginForAccessToken` | main.py:139-150 | agrees with `LoginSpec`; with a non-negative lifetime the returned token verifies, at issue time, to the login email |
| `Endpoints.CreateNewPost` | main.py:153-165 | running the handler against the store agrees with `CreateNewPostSpec` |
| `Endpoints.UpdateNote` | main.py:167-194 | running the handler against the store agrees with `UpdateNoteSpec` |
| `Endpoints.RemovePost` | main.py:198-224 | running the handler against the store agrees with `RemovePostSpec` |
| `Endpoints.ReadUserNotes` | main.py:227-252 | agrees with `ReadUserNotesSpec`; a success answers the owner of the requested id, named by the token |
| `Traces.Handle` | main.py:89-252 | every request keeps the table constraints, and a note that survives a request keeps its owner |
| `Traces.Run` | main.py:89-252 | any sequence of requests keeps the table constraints |
| `Traces.UnverifiedTokenChangesNothing` | main.py:100-107 | every endpoint that takes a token answers 401 and changes nothing when the token does not verify |
| `Traces.OnlyOwnerChangesNote` | main.py:184-189 | a request that changes or removes an existing note acts as that note's owner |
| `Traces.NotFoundBeforeForbidden` | main.py:179-183 | update and delete of a missing note answer 400 and change nothing, before any actor or owner check (a crash for an id beyond 64 bits) |
| `Traces.OwnerCheckOnNotes` | main.py:209-224 | for an existing note, a non-owner gets 403 with no change, and the owner succeeds with the store's update or delete applied |
| `Traces.RemoveUserOnlySelf` | main.py:125-136 | a non-self deletion gets 403 with no change; a self deletion always succeeds (the 400 branch is unreachable), removes exactly that user, and leaves it no notes |
| `Traces.ReadNotesOnlyOwn` | main.py:239-252 | the notes list is answered exactly when the actor asks for its own id, and is then that user's notes; otherwise 403 |
| `Traces.CreateNoteForAnyOwner` | main.py:153-165 | any verified caller creates and stores a note with the form's title and content, owned by whatever 64-bit user id the form names |
| `Traces.MissingActorCrashes` | main.py:108-112 | a verified token whose subject names no user crashes every handler that reads `user.id` (after the not-found check for notes) |
| `Traces.OversizedIdCrashes` | main.py:179-209 | with a verified token, a post id or owner id outside SQLite's 64-bit range crashes the request and changes nothing |
| `Traces.Never404OrUnable` | main.py:190-194 | no request is answered 404, or "unable to update/delete" |
| `Traces.OthersNeverTouchNotes` | main.py:167-224 | across any sequence of requests none of which acts as user u, every note u owns is still there, unchanged |
| `Traces.UnhashablePasswordRevealsAccount` | manage.py:40-44 | with a password passlib refuses, login answers 401 for an unknown email and crashes for a registered one, changing nothing |
| `Traces.RegisterThenLogin` | main.py:89-150 | after a successful registration, logging in with the same email and password gives a token that verifies to that email |
| `Traces.SecondRegistrationRefused` | main.py:91-94 | registering again with an email just registered answers 400 and changes nothing |
| `Traces.EndToEnd` | main.py:89-224 | from empty tables: register, log in, create a note, update it and delete it all succeed, and the note is gone |

## Left out

- CORS configuration, the timing middleware and the `/` endpoint (main.py:26-53): framework plumbing.
- Routing, `Depends`, `OAuth2PasswordBearer` and pydantic validation (main.py:21-23, 56-86). Request fields are parameters. The bearer token is given to each handler, so the framework's own 401 for a missing header is not modelled. A string that is not a JWT is the `Garbled` token.
- The response model's field filtering is modelled only as `UserView`: id, name and email, never the digest.
- The SQLAlchemy engine and session (db.py:1-14). After a failed commit, the real shared session refuses every later query until it is rolled back. The model rolls the failed insert back and carries on.
- Id allocation: a counter per table that never reuses an id. SQLite gives a new row one more than the largest id present, so it reuses the id of a deleted newest row. The lemmas above do not depend on either policy beyond freshness.
- The `created_at` server-default timestamp (models.py:39), the unused `Token` table (models.py:22-30) and the `print` calls.
- bcrypt internals: cost factor, salt encoding, constant-time comparison.
- Passwords.VerifyIsExact: the symbolic digest verifies only the exact password. passlib's bcrypt (db.py:14) uses only the first 72 bytes of the UTF-8 password, so two passwords that share those 72 bytes verify against each other's digest; the model does not capture this.
- Db.Store.constructor: db.py:7-13 opens the file `data.db` and keeps any rows already in it. The model starts from a freshly created file with empty tables.
- Id counters are unbounded. SQLite's behaviour once the largest rowid reaches 2^63 - 1 (a random unused rowid, or a full-table error) is not modelled.
- JWT encoding to a string and the other claim checks python-jose runs (nbf, iat, aud, iss, jti). Its acceptance of a numeric string as "exp" and clock leeway are left out too. Time is in whole seconds, the resolution at which the "exp" datetime is encoded.
- Loading `SECRET_KEY`, `ALGORITHM` and `ACCESS_TOKEN_EXPIRE_MINUTES` from the environment (manage.py:9-13): they are the fields of `Settings`. `DATABASE_URL` and `DEBUG` are not used by the core.
- Concurrency: requests are handled one at a time. The race between the email check and the insert in `register_user`, and the interleaving at each `await`, are not modelled.
- test_api.py is not part of this model. It posts to `/register` with a `username` field, which matches neither the route nor the fields of main.py.

/**
 * The bcrypt password context, kept symbolic.
 *
 * A digest records the salt that bcrypt draws at random on every call and the
 * password it was computed from. Nothing outside this module looks inside a
 * digest: callers only hash and verify. Both calls raise, instead of
 * answering, for a password the context refuses to process: one longer than
 * its size limit, or one holding a NUL character (bcrypt cannot hash it).
 * Two modelling assumptions are stated as lemmas: verification is
 * collision-free, and hashing the same password twice gives different digests
 * when the salts differ.
 */
module Passwords {
  import opened Wrappers

  /** The random salt that bcrypt draws for each call of `hash`. */
  type Salt = nat

  datatype PasswordHash = Bcrypt(salt: Salt, preimage: string)

  /** The context's size limit in bytes: a longer secret raises `PasswordSizeError`. */
  const MaxPasswordSize: nat := 4096

  /** The number of bytes UTF-8 uses to encode one character. */
  function Utf8Width(c: char): nat
  {
    if c as int < 0x80 then 1
    else if c as int < 0x800 then 2
    else if c as int < 0x1_0000 then 3
    else 4
  }

  /** The length of a string once encoded in UTF-8. */
  function Utf8Length(s: string): nat
  {
    if s == [] then 0 else Utf8Width(s[0]) + Utf8Length(s[1..])
  }

  /** UTF-8 takes between one and four bytes per character. */
  lemma {:induction false} Utf8LengthBounds(s: string)
    ensures |s| <= Utf8Length(s) <= 4 * |s|
  {
    if s != [] {
      Utf8LengthBounds(s[1..]);
    }
  }

  /**
   * The passwords the context hashes and verifies without raising. bcrypt
   * encodes the password in UTF-8 and checks the size limit on those bytes
   * (a string within it is also within the limit counted in characters, see
   * `Utf8LengthBounds`), and refuses NUL with `NullPasswordError`.
   */
  predicate Hashable(password: string)
  {
    Utf8Length(password) <= MaxPasswordSize && '\0' !in password
  }

  /** `pwd_context.hash(password)` with the salt drawn for this call; `None` where it raises. */
  function Hash(password: string, salt: Salt): (h: Option<PasswordHash>)
    ensures h.Some? <==> Hashable(password)
    ensures h.Some? ==> Verify(password, h.value) == Some(true)
  {
    if Hashable(password) then Some(Bcrypt(salt, password)) else None
  }

  /**
   * `pwd_context.verify(password, hashed)`: whether the password matches the
   * digest (a mismatch is `false`, not an exception); `None` where it raises.
   */
  function Verify(password: string, hashed: PasswordHash): (r: Option<bool>)
    ensures r.None? <==> !Hashable(password)
  {
    if Hashable(password) then Some(hashed.preimage == password) else None
  }

  /** Only the password that was hashed verifies against the digest. */
  lemma VerifyIsExact(password: string, other: string, salt: Salt)
    requires Hashable(password)
    ensures Verify(other, Hash(password, salt).value) == if Hashable(other) then Some(other == password) else None
  {
  }

  /** Different salts give different digests of one password. */
  lemma SaltedHashesDiffer(password: string, s1: Salt, s2: Salt)
    requires Hashable(password) && s1 != s2
    ensures Hash(password, s1) != Hash(password, s2)
  {
  }
}

/** The rows of the two tables the service uses. */
module Models {
  import Passwords

  /** A row of `users`: `name` and `email` are each unique; only the bcrypt digest of the password is kept. */
  datatype User = User(id: int, name: string, email: string, hashedPassword: Passwords.PasswordHash)

  /** A row of `notes`: `userId` is the owner's id (a foreign key the store does not enforce). */
  datatype Note = Note(id: int, title: string, content: string, userId: int)

  /**
   * The values an SQLite INTEGER holds: 64-bit two's complement. The sqlite3
   * driver refuses to bind a Python int outside this range (OverflowError).
   */
  predicate FitsInt64(x: int)
  {
    -0x8000_0000_0000_0000 <= x < 0x8000_0000_0000_0000
  }
}

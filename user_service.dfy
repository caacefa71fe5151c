/** Account lifecycle: creation with a unique email, lookups, email and
    password changes, soft delete and last-login stamping. */
module UserServices {
  import opened Wrappers
  import opened Messages
  import opened Entity
  import opened Security
  import opened Repository
  import opened Persistence

  /** The account `createUser` saves: active, never logged in, with the given
      role or USER when none is given. */
  function NewUser(id: string, email: string, passwordHash: string, username: string, role: Option<UserRole>): (u: User)
    ensures u.id == id && u.email == email && u.passwordHash == passwordHash && u.username == username
    ensures u.isActive && u.lastLoginAt.None?
    ensures role.None? ==> u.role == USER
    ensures role.Some? ==> u.role == role.value
  {
    User(id, email, passwordHash, username, if role.Some? then role.value else USER, true, None)
  }

  /** Adding a user whose email is not taken keeps emails unique. */
  lemma AddUserKeepsEmailsUnique(users: map<string, User>, u: User)
    requires EmailsUnique(users) && u.id !in users && !ExistsByEmail(users, u.email)
    ensures EmailsUnique(users[u.id := u])
  {
  }

  /** Changing a user's email to their own or to an untaken one keeps emails
      unique. */
  lemma ChangeEmailKeepsEmailsUnique(users: map<string, User>, id: string, email: string)
    requires EmailsUnique(users) && id in users
    requires users[id].email == email || !ExistsByEmail(users, email)
    ensures EmailsUnique(users[id := users[id].(email := email)])
  {
  }

  class UserService {
    const db: Database
    const encoder: PasswordEncoder

    constructor (db: Database, encoder: PasswordEncoder)
      ensures this.db == db && this.encoder == encoder
    {
      this.db := db;
      this.encoder := encoder;
    }

    /** `createUser`: refuses a taken email; otherwise saves a new active user
        with the encoded password under the generated id. */
    method CreateUser(email: string, password: string, username: string, role: Option<UserRole>, freshId: string)
      returns (r: Result<User>)
      requires db.Valid() && freshId !in db.users
      modifies db
      ensures db.Valid()
      ensures ExistsByEmail(old(db.users), email) ==>
        r == Failure(RuntimeError(EmailAlreadyExists)) && unchanged(db)
      ensures !ExistsByEmail(old(db.users), email) ==>
        && r == Success(NewUser(freshId, email, encoder.encode(password), username, role))
        && db.users == old(db.users)[freshId := r.value]
        && db.recipes == old(db.recipes) && db.order == old(db.order)
    {
      if ExistsByEmail(db.users, email) {
        return Failure(RuntimeError(EmailAlreadyExists));
      }
      var user := NewUser(freshId, email, encoder.encode(password), username, role);
      AddUserKeepsEmailsUnique(db.users, user);
      db.users := db.users[freshId := user];
      r := Success(user);
    }

    /** `getUserById`. */
    method GetUserById(id: string) returns (r: Result<User>)
      requires db.Valid()
      ensures r.Success? <==> id in db.users
      ensures r.Success? ==> r.value == db.users[id] && r.value.id == id
      ensures r.Failure? ==> r.error == RuntimeError(UserNotFound)
    {
      if id in db.users {
        r := Success(db.users[id]);
      } else {
        r := Failure(RuntimeError(UserNotFound));
      }
    }

    /** `getUserByEmail`. */
    method GetUserByEmail(email: string) returns (r: Result<User>)
      requires db.Valid()
      ensures r.Success? <==> ExistsByEmail(db.users, email)
      ensures r.Success? ==> r.value.email == email && r.value.id in db.users && db.users[r.value.id] == r.value
      ensures r.Failure? ==> r.error == RuntimeError(UserNotFound)
    {
      var found := FindByEmail(db.users, email);
      if found.Some? {
        r := Success(found.value);
      } else {
        r := Failure(RuntimeError(UserNotFound));
      }
    }

    /** `updateEmail`: keeping one's own email always succeeds; a different
        email must not belong to anyone. Only the email changes. */
    method UpdateEmail(userId: string, newEmail: string) returns (r: Result<User>)
      requires db.Valid()
      modifies db
      ensures db.Valid()
      ensures userId !in old(db.users) ==> r == Failure(RuntimeError(UserNotFound)) && unchanged(db)
      ensures userId in old(db.users) && old(db.users)[userId].email != newEmail && ExistsByEmail(old(db.users), newEmail) ==>
        r == Failure(RuntimeError(EmailAlreadyExists)) && unchanged(db)
      ensures r.Success? <==>
        userId in old(db.users) && (old(db.users)[userId].email == newEmail || !ExistsByEmail(old(db.users), newEmail))
      ensures r.Success? ==>
        && r.value == old(db.users)[userId].(email := newEmail)
        && db.users == old(db.users)[userId := r.value]
        && db.recipes == old(db.recipes) && db.order == old(db.order)
    {
      var found := GetUserById(userId);
      if found.Failure? {
        return found;
      }
      var user := found.value;
      if user.email != newEmail && ExistsByEmail(db.users, newEmail) {
        return Failure(RuntimeError(EmailAlreadyExists));
      }
      user := user.(email := newEmail);
      ChangeEmailKeepsEmailsUnique(db.users, userId, newEmail);
      db.users := db.users[userId := user];
      r := Success(user);
    }

    /** `updatePassword`: the old password must match the stored hash; then
        only the hash changes. */
    method UpdatePassword(userId: string, oldPassword: string, newPassword: string) returns (r: Result<User>)
      requires db.Valid()
      modifies db
      ensures db.Valid()
      ensures userId !in old(db.users) ==> r == Failure(RuntimeError(UserNotFound)) && unchanged(db)
      ensures userId in old(db.users) && !encoder.matches(oldPassword, old(db.users)[userId].passwordHash) ==>
        r == Failure(RuntimeError(InvalidOldPassword)) && unchanged(db)
      ensures r.Success? <==> userId in old(db.users) && encoder.matches(oldPassword, old(db.users)[userId].passwordHash)
      ensures r.Success? ==>
        && r.value == old(db.users)[userId].(passwordHash := encoder.encode(newPassword))
        && db.users == old(db.users)[userId := r.value]
        && db.recipes == old(db.recipes) && db.order == old(db.order)
    {
      var found := GetUserById(userId);
      if found.Failure? {
        return found;
      }
      var user := found.value;
      if !encoder.matches(oldPassword, user.passwordHash) {
        return Failure(RuntimeError(InvalidOldPassword));
      }
      user := user.(passwordHash := encoder.encode(newPassword));
      db.users := db.users[userId := user];
      r := Success(user);
    }

    /** `resetPassword`: no old password is asked for; only an unknown email
        fails. Afterwards the new password authenticates. */
    method ResetPassword(email: string, newPassword: string) returns (r: Result<User>)
      requires db.Valid()
      modifies db
      ensures db.Valid()
      ensures !ExistsByEmail(old(db.users), email) ==> r == Failure(RuntimeError(UserNotFound)) && unchanged(db)
      ensures r.Success? <==> ExistsByEmail(old(db.users), email)
      ensures r.Success? ==>
        && r.value.id in old(db.users) && old(db.users)[r.value.id].email == email
        && r.value == old(db.users)[r.value.id].(passwordHash := encoder.encode(newPassword))
        && db.users == old(db.users)[r.value.id := r.value]
        && db.recipes == old(db.recipes) && db.order == old(db.order)
      ensures r.Success? && encoder.Sound() ==> Authenticates(db.users, encoder, email, newPassword)
    {
      var found := GetUserByEmail(email);
      if found.Failure? {
        return found;
      }
      var user := found.value.(passwordHash := encoder.encode(newPassword));
      ChangeEmailKeepsEmailsUnique(db.users, user.id, email);
      assert db.users[user.id := user] == db.users[user.id := db.users[user.id].(email := email)][user.id := user];
      db.users := db.users[user.id := user];
      r := Success(user);
      if encoder.Sound() {
        assert encoder.matches(newPassword, db.users[user.id].passwordHash);
      }
    }

    /** `deleteUser`: a soft delete; the row stays. */
    method DeleteUser(userId: string) returns (r: Result<()>)
      requires db.Valid()
      modifies db
      ensures db.Valid()
      ensures r.Success? <==> userId in old(db.users)
      ensures r.Failure? ==> r.error == RuntimeError(UserNotFound) && unchanged(db)
      ensures r.Success? ==>
        && db.users == old(db.users)[userId := old(db.users)[userId].(isActive := false)]
        && db.recipes == old(db.recipes) && db.order == old(db.order)
    {
      var found := GetUserById(userId);
      if found.Failure? {
        return Failure(found.error);
      }
      db.users := db.users[userId := found.value.(isActive := false)];
      r := Success(());
    }

    /** `updateLastLogin`, with the clock reading passed in as `now`. */
    method UpdateLastLogin(userId: string, now: Timestamp) returns (r: Result<()>)
      requires db.Valid()
      modifies db
      ensures db.Valid()
      ensures r.Success? <==> userId in old(db.users)
      ensures r.Failure? ==> r.error == RuntimeError(UserNotFound) && unchanged(db)
      ensures r.Success? ==>
        && db.users == old(db.users)[userId := old(db.users)[userId].(lastLoginAt := Some(now))]
        && db.recipes == old(db.recipes) && db.order == old(db.order)
    {
      var found := GetUserById(userId);
      if found.Failure? {
        return Failure(found.error);
      }
      db.users := db.users[userId := found.value.(lastLoginAt := Some(now))];
      r := Success(());
    }
  }
}

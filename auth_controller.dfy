/** The `/api/auth` endpoints. Token issuing is an injected function of the
    account's email; authentication is `Security.Authenticates`. */
module AuthControllers {
  import opened Wrappers
  import opened Messages
  import opened Entity
  import opened Security
  import opened Repository
  import opened Persistence
  import opened UserServices

  /** The body answered by register and login. */
  datatype AuthResponse = AuthResponse(token: string, userId: string, email: string, username: string, role: string)

  /** The answer built from a stored account and its token. */
  function ResponseFor(user: User, token: string): (resp: AuthResponse)
    ensures resp.userId == user.id && resp.email == user.email && resp.username == user.username
    ensures resp.role == user.role.Name() && resp.token == token
  {
    AuthResponse(token, user.id, user.email, user.username, user.role.Name())
  }

  const PasswordResetMessage: string := "Password reset successfully"

  class AuthController {
    const db: Database
    const userService: UserService
    /** `jwtService.generateToken(userDetailsService.loadUserByUsername(email))`. */
    const generateToken: string -> string

    ghost predicate Valid()
      reads db
    {
      userService.db == db && db.Valid()
    }

    constructor (userService: UserService, generateToken: string -> string)
      ensures this.db == userService.db && this.userService == userService
      ensures this.generateToken == generateToken
    {
      this.db := userService.db;
      this.userService := userService;
      this.generateToken := generateToken;
    }

    /** POST `/api/auth/register`: always creates the account with role USER;
        a taken email fails and adds nobody. */
    method Register(email: string, password: string, username: string, freshId: string) returns (r: Result<AuthResponse>)
      requires Valid() && freshId !in db.users
      modifies db
      ensures Valid()
      ensures ExistsByEmail(old(db.users), email) ==> r == Failure(RuntimeError(EmailAlreadyExists)) && unchanged(db)
      ensures r.Success? <==> !ExistsByEmail(old(db.users), email)
      ensures r.Success? ==>
        && db.users == old(db.users)[freshId := NewUser(freshId, email, userService.encoder.encode(password), username, Some(USER))]
        && db.recipes == old(db.recipes) && db.order == old(db.order)
        && r.value == AuthResponse(generateToken(email), freshId, email, username, "USER")
    {
      var created := userService.CreateUser(email, password, username, Some(USER), freshId);
      if created.Failure? {
        return Failure(created.error);
      }
      var user := created.value;
      r := Success(ResponseFor(user, generateToken(user.email)));
    }

    /** POST `/api/auth/login`: authentication comes first, so bad
        credentials change nothing; then the account's last login is stamped
        with `now` and nothing else changes. */
    method Login(email: string, password: string, now: Timestamp) returns (r: Result<AuthResponse>)
      requires Valid()
      modifies db
      ensures Valid()
      ensures !Authenticates(old(db.users), userService.encoder, email, password) ==>
        r == Failure(AuthenticationError) && unchanged(db)
      ensures r.Success? <==> Authenticates(old(db.users), userService.encoder, email, password)
      ensures r.Success? ==>
        && var user := old(FindByEmail(db.users, email)).value;
        && db.users == old(db.users)[user.id := user.(lastLoginAt := Some(now))]
        && db.recipes == old(db.recipes) && db.order == old(db.order)
        && r.value == ResponseFor(user, generateToken(email))
    {
      if !Authenticates(db.users, userService.encoder, email, password) {
        return Failure(AuthenticationError);
      }
      var found := userService.GetUserByEmail(email);
      var user := found.value;
      var stamped := userService.UpdateLastLogin(user.id, now);
      assert stamped.Success?;  // the id was just found by email
      r := Success(ResponseFor(user, generateToken(email)));
    }

    /** POST `/api/auth/reset-password`: only an unknown email fails; with a
        sound encoder the new password then authenticates. */
    method ResetPassword(email: string, newPassword: string) returns (r: Result<string>)
      requires Valid()
      modifies db
      ensures Valid()
      ensures r.Success? <==> ExistsByEmail(old(db.users), email)
      ensures r.Failure? ==> r.error == RuntimeError(UserNotFound) && unchanged(db)
      ensures r.Success? ==>
        && var user := old(FindByEmail(db.users, email)).value;
        && db.users == old(db.users)[user.id := user.(passwordHash := userService.encoder.encode(newPassword))]
        && db.recipes == old(db.recipes) && db.order == old(db.order)
        && r.value == PasswordResetMessage
      ensures r.Success? && userService.encoder.Sound() ==> Authenticates(db.users, userService.encoder, email, newPassword)
    {
      var reset := userService.ResetPassword(email, newPassword);
      if reset.Failure? {
        return Failure(reset.error);
      }
      r := Success(PasswordResetMessage);
    }
  }
}

/** The password encoder and the notion of valid credentials. */
module Security {
  import opened Entity

  /** The injected `PasswordEncoder`: a one-way `encode` and a `matches` check.
      Its internals (bcrypt, random salt) are not modelled. */
  datatype PasswordEncoder = PasswordEncoder(encode: string -> string, matches: (string, string) -> bool)
  {
    /** The one property the backend relies on: a password matches its own hash. */
    ghost predicate Sound()
    {
      forall p :: matches(p, encode(p))
    }
  }

  /** What the authentication manager accepts: some user has this email and
      the password matches that user's stored hash. */
  predicate Authenticates(users: map<string, User>, encoder: PasswordEncoder, email: string, password: string)
  {
    exists id :: id in users && users[id].email == email && encoder.matches(password, users[id].passwordHash)
  }
}

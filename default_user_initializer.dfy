/** `DefaultUserInitializer`: at start-up, seeds an administrator under the configured e-mail
    unless a user with that e-mail already exists. */
module DefaultUserInitializer {
  import opened Wrappers
  import opened Entities
  import opened Exceptions
  import opened UserRepository

  function AdminUser(email: string, encodedPassword: string): User {
    User(0, email, encodedPassword, Some("Alexandre"), Some("Liberato"), Some("48991604054"), ADMIN, true)
  }

  /** The user table after seeding, given the identity value the insert would take. */
  function SeededRows(rows: seq<User>, nextId: int, email: string, encodedPassword: string): (r: seq<User>)
    ensures forall u :: u in rows ==> u in r
    ensures |r| <= |rows| + 1
    ensures UserValid(AdminUser(email, encodedPassword)) ==> FindByEmail(r, email).Some?
    ensures FindByEmail(rows, email).None? && UserValid(AdminUser(email, encodedPassword)) ==>
              r == rows + [AdminUser(email, encodedPassword).(id := nextId)]
  {
    if FindByEmail(rows, email).Some? || !UserValid(AdminUser(email, encodedPassword)) then rows
    else
      var r := rows + [AdminUser(email, encodedPassword).(id := nextId)];
      assert r[|rows|] in r;
      r
  }

  /** An existing user with the admin e-mail is kept as it is, whatever its role. */
  lemma ExistingUserKept(rows: seq<User>, nextId: int, email: string, encodedPassword: string)
    requires FindByEmail(rows, email).Some?
    ensures SeededRows(rows, nextId, email, encodedPassword) == rows
  {
  }

  /** Seeding twice leaves the table as seeding once did. */
  lemma SeedingIdempotent(rows: seq<User>, n1: int, n2: int, email: string, encodedPassword: string)
    ensures var once := SeededRows(rows, n1, email, encodedPassword);
            SeededRows(once, n2, email, encodedPassword) == once
  {
  }

  /** `run`. A configured e-mail or password that fails the user constraints stops start-up with
      the validation error. */
  method Run(users: UserTable, adminEmail: string, adminPassword: string, encode: string -> string)
    returns (r: Result<(), Exception>)
    requires users.Valid()
    modifies users
    ensures users.Valid()
    ensures users.rows == SeededRows(old(users.rows), old(users.nextId), adminEmail, encode(adminPassword))
    ensures r.Err? <==> FindByEmail(old(users.rows), adminEmail).None? && !UserValid(AdminUser(adminEmail, encode(adminPassword)))
  {
    if FindByEmail(users.rows, adminEmail).None? {
      var saved := users.Insert(AdminUser(adminEmail, encode(adminPassword)));
      if saved.Err? {
        return Err(saved.error);
      }
    }
    r := Ok(());
  }
}

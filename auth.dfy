/** Login and registration (api/auth/login.js, api/auth/register.js, app/api/auth/register/route.ts).
    Password hashing and checking are opaque: the check is a parameter, the hash an input. */
module Auth {
  import opened Wrappers
  import opened UserStore

  const MillisPerDay := 86400000

  datatype LoginResponse = LoggedIn(id: string, name: string, role: string, token: string) | LoginError(status: int, message: string)
  datatype RegisterResponse = Registered | RegisterError(status: int, message: string)

  /** The registration form; the password itself only reaches the opaque hash. */
  datatype RegisterBody = RegisterBody(name: string, email: string, password: string, role: string)

  /** Whole 24-hour periods between two instants, rounded down. */
  function ElapsedDays(last: int, now: int): int {
    (now - last) / MillisPerDay
  }

  /** The streak after a login at `now`, given the previous login instant (if any) and the current streak. */
  function NextStreak(lastLogin: Option<int>, streak: int, now: int): int {
    match lastLogin
    case None => 1
    case Some(last) =>
      var diffDays := ElapsedDays(last, now);
      if diffDays == 1 then streak + 1
      else if diffDays > 1 then 1
      else streak
  }

  /** The streak counts whole 24-hour periods, not calendar days: less than a day since the last
      login (or a clock that went backwards) keeps it, at least one and less than two days extends
      it, two days or more resets it to 1, and a first login starts it at 1. */
  lemma NextStreakByElapsedTime(lastLogin: Option<int>, streak: int, now: int)
    ensures lastLogin.None? ==> NextStreak(lastLogin, streak, now) == 1
    ensures lastLogin.Some? && now - lastLogin.value < MillisPerDay ==> NextStreak(lastLogin, streak, now) == streak
    ensures lastLogin.Some? && MillisPerDay <= now - lastLogin.value < 2 * MillisPerDay ==>
      NextStreak(lastLogin, streak, now) == streak + 1
    ensures lastLogin.Some? && now - lastLogin.value >= 2 * MillisPerDay ==> NextStreak(lastLogin, streak, now) == 1
    ensures NextStreak(lastLogin, streak, now) in {streak, streak + 1, 1}
  {
    if lastLogin.Some? {
      var d := now - lastLogin.value;
      if d < MillisPerDay {
        assert d / MillisPerDay <= 0;
      } else if d < 2 * MillisPerDay {
        assert d / MillisPerDay == 1;
      } else {
        assert d / MillisPerDay >= 2;
      }
    }
  }

  /** Two logins two minutes apart across midnight do not extend the streak. */
  lemma AcrossMidnightKeepsStreak(streak: int)
    ensures NextStreak(Some(MillisPerDay - 60000), streak, MillisPerDay + 60000) == streak
  {
  }

  /** `login`: role and password gate, then the streak update, one save and a signed token.
      `sign` stands for signing the identifier, email and role with the configured secret. */
  method Login(users: UserFile, email: string, password: string, role: string, now: int,
               passwordMatches: (string, string) -> bool, sign: (string, string, string) -> string)
    returns (resp: LoginResponse)
    modifies users
    ensures var found := old(users.GetUserByEmail(email));
      found.None? || found.value.role != role ==>
        resp == LoginError(401, "Invalid credentials") && unchanged(users)
    ensures var found := old(users.GetUserByEmail(email));
      found.Some? && found.value.role == role && !passwordMatches(password, found.value.passwordHash) ==>
        resp == LoginError(401, "Invalid credentials") && unchanged(users)
    ensures var found := old(users.GetUserByEmail(email));
      resp.LoggedIn? ==>
        var u := found.value;
        var streak := NextStreak(u.lastLogin, StreakOrZero(u.loginStreak), now);
        users.records == Upsert(old(users.Users()), u.(lastLogin := Some(now), loginStreak := Some(streak))) &&
        resp == LoggedIn(u.id, u.name, u.role, sign(u.id, u.email, u.role)) &&
        users.GetUserById(u.id).Some? &&
        users.GetUserById(u.id).value.loginStreak == Some(streak) &&
        users.GetUserById(u.id).value.lastLogin == Some(now) &&
        users.GetUserById(u.id).value.lastLoginDate == u.lastLoginDate
    ensures resp.LoggedIn? <==> var found := old(users.GetUserByEmail(email));
      found.Some? && found.value.role == role && passwordMatches(password, found.value.passwordHash)
  {
    var found := users.GetUserByEmail(email);
    if found.None? || found.value.role != role {
      return LoginError(401, "Invalid credentials");
    }
    var user := found.value;
    if !passwordMatches(password, user.passwordHash) {
      return LoginError(401, "Invalid credentials");
    }
    var streak := StreakOrZero(user.loginStreak);
    if user.lastLogin.Some? {
      var diffDays := (now - user.lastLogin.value) / MillisPerDay;
      if diffDays == 1 {
        streak := streak + 1;
      } else if diffDays > 1 {
        streak := 1;
      }
    } else {
      streak := 1;
    }
    assert streak == NextStreak(user.lastLogin, StreakOrZero(user.loginStreak), now);
    var updated := user.(lastLogin := Some(now), loginStreak := Some(streak));
    users.SaveUser(updated);
    assert users.GetUserById(user.id) == Some(Normalize(updated));
    resp := LoggedIn(user.id, user.name, user.role, sign(user.id, user.email, user.role));
  }

  const Roles: seq<string> := ["student", "teacher", "parent", "admin"]

  /** The record `register` creates: only identifier, name, email, hash and role are set. */
  function NewUser(id: string, name: string, email: string, passwordHash: string, role: string): User {
    User(id, name, email, passwordHash, role, None, Absent, None, None, None)
  }

  /** `register`: role whitelist, then duplicate email, then one save. The fresh identifier and
      the hash of the submitted password are supplied by the caller. */
  method Register(users: UserFile, body: RegisterBody, passwordHash: string, newId: string)
    returns (resp: RegisterResponse)
    modifies users
    ensures body.role !in Roles ==> resp == RegisterError(400, "Invalid role") && unchanged(users)
    ensures body.role in Roles && old(users.GetUserByEmail(body.email)).Some? ==>
      resp == RegisterError(400, "Email already registered") && unchanged(users)
    ensures resp == Registered <==> body.role in Roles && old(users.GetUserByEmail(body.email)).None?
    ensures resp == Registered ==>
      users.records == Upsert(old(users.Users()), NewUser(newId, body.name, body.email, passwordHash, body.role))
    ensures EmailsUnique(old(users.Users())) ==> EmailsUnique(users.Users())
  {
    if body.role !in Roles {
      return RegisterError(400, "Invalid role");
    }
    var existing := users.GetUserByEmail(body.email);
    if existing.Some? {
      return RegisterError(400, "Email already registered");
    }
    var before := users.Users();
    var user := NewUser(newId, body.name, body.email, passwordHash, body.role);
    users.SaveUser(user);
    resp := Registered;
    if EmailsUnique(before) {
      UpsertKeepsEmailsUnique(before, user);
      NormalizeKeepsEmails(users.records);
    }
  }

  lemma NormalizeKeepsEmails(users: seq<User>)
    ensures EmailsUnique(NormalizeAll(users)) <==> EmailsUnique(users)
  {
    var n := NormalizeAll(users);
    assert forall i :: 0 <= i < |users| ==> n[i].email == users[i].email;
  }

  /** The Next.js route: the same checks, and an unreadable body becomes 500. */
  method RegisterRoute(users: UserFile, body: Option<RegisterBody>, passwordHash: string, newId: string)
    returns (resp: RegisterResponse)
    modifies users
    ensures body.None? ==> resp == RegisterError(500, "Internal server error") && unchanged(users)
    ensures body.Some? && body.value.role !in Roles ==> resp == RegisterError(400, "Invalid role")
    ensures body.Some? && body.value.role in Roles && old(users.GetUserByEmail(body.value.email)).Some? ==>
      resp == RegisterError(400, "Email already registered")
    ensures body.Some? ==> (resp == Registered <==> body.value.role in Roles && old(users.GetUserByEmail(body.value.email)).None?)
    ensures body.Some? && resp == Registered ==>
      users.records == Upsert(old(users.Users()), NewUser(newId, body.value.name, body.value.email, passwordHash, body.value.role))
    ensures resp != Registered ==> unchanged(users)
    ensures EmailsUnique(old(users.Users())) ==> EmailsUnique(users.Users())
  {
    if body.None? {
      return RegisterError(500, "Internal server error");
    }
    resp := Register(users, body.value, passwordHash, newId);
  }
}

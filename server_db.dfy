/** The server's own user table (server/db.js, JSON-file branch): an append-only list with
    first-match finders. */
module ServerDb {
  import opened Wrappers

  datatype DbUser = DbUser(
    id: string, name: string, email: string, password: string, role: string,
    school: string, className: string, region: string, language: string, googleId: Option<string>)

  /** The index of the first user satisfying `p`: `Array.prototype.find` over the list. */
  function FirstWhere(users: seq<DbUser>, p: DbUser -> bool): (r: Option<nat>)
    ensures r.Some? ==> r.value < |users| && p(users[r.value]) && forall j :: 0 <= j < r.value ==> !p(users[j])
    ensures r.None? ==> forall j :: 0 <= j < |users| ==> !p(users[j])
  {
    if users == [] then None
    else if p(users[0]) then Some(0)
    else match FirstWhere(users[1..], p)
      case None => None
      case Some(k) => Some(k + 1)
  }

  /** The user at a found index. */
  function At(users: seq<DbUser>, i: Option<nat>): Option<DbUser>
    requires i.Some? ==> i.value < |users|
  {
    if i.Some? then Some(users[i.value]) else None
  }

  /** The first user with the email. */
  function FindUserByEmail(users: seq<DbUser>, email: string): (r: Option<DbUser>)
    ensures r.None? <==> forall i :: 0 <= i < |users| ==> users[i].email != email
    ensures r.Some? ==> exists i :: (0 <= i < |users| && users[i] == r.value && r.value.email == email &&
                                     forall j :: 0 <= j < i ==> users[j].email != email)
  {
    At(users, FirstWhere(users, (u: DbUser) => u.email == email))
  }

  /** The first user with the identifier. */
  function FindUserById(users: seq<DbUser>, id: string): (r: Option<DbUser>)
    ensures r.None? <==> forall i :: 0 <= i < |users| ==> users[i].id != id
    ensures r.Some? ==> exists i :: (0 <= i < |users| && users[i] == r.value && r.value.id == id &&
                                     forall j :: 0 <= j < i ==> users[j].id != id)
  {
    At(users, FirstWhere(users, (u: DbUser) => u.id == id))
  }

  /** The first user with the Google identifier; an absent argument matches a record without one. */
  function FindUserByGoogleId(users: seq<DbUser>, googleId: Option<string>): (r: Option<DbUser>)
    ensures r.None? <==> forall i :: 0 <= i < |users| ==> users[i].googleId != googleId
    ensures r.Some? ==> exists i :: (0 <= i < |users| && users[i] == r.value && r.value.googleId == googleId &&
                                     forall j :: 0 <= j < i ==> users[j].googleId != googleId)
  {
    At(users, FirstWhere(users, (u: DbUser) => u.googleId == googleId))
  }

  /** A first match is unaffected by what is appended after it, and a fresh email is found at the end. */
  lemma FindAfterAppend(users: seq<DbUser>, u: DbUser, email: string)
    ensures FindUserByEmail(users, email).Some? ==> FindUserByEmail(users + [u], email) == FindUserByEmail(users, email)
    ensures FindUserByEmail(users, email).None? && u.email == email ==> FindUserByEmail(users + [u], email) == Some(u)
  {
    var p := (x: DbUser) => x.email == email;
    var before := FirstWhere(users, p);
    var after := FirstWhere(users + [u], p);
    if before.Some? {
      assert (users + [u])[before.value] == users[before.value];
      assert after.Some?;
      assert after.value == before.value;
    } else if u.email == email {
      assert p((users + [u])[|users|]);
      assert after.Some?;
      assert after.value == |users|;
    }
  }

  /** The JSON user file; reading a missing file creates it holding the empty list. */
  class UserTable {
    var users: seq<DbUser>

    constructor ()
      ensures users == []
    {
      users := [];
    }

    /** `addUser`: appended at the end, with no check of identifier or email. */
    method AddUser(u: DbUser)
      modifies this
      ensures users == old(users) + [u]
      ensures old(FindUserByEmail(users, u.email)).None? ==> FindUserByEmail(users, u.email) == Some(u)
      ensures forall e :: old(FindUserByEmail(users, e)).Some? ==> FindUserByEmail(users, e) == old(FindUserByEmail(users, e))
    {
      forall e ensures FindUserByEmail(users, e).Some? ==> FindUserByEmail(users + [u], e) == FindUserByEmail(users, e) {
        FindAfterAppend(users, u, e);
      }
      FindAfterAppend(users, u, u.email);
      users := users + [u];
    }
  }
}

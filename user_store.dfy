/** The user store (lib/userStore.js, JSON-file branch): a list of user records that every
    read normalises and that `saveUser` rewrites keyed on the user identifier. */
module UserStore {
  import opened Wrappers

  /** The stored `badges` value: absent (or another falsy value), a list, or a JSON-encoded
      string together with the list it decodes to. */
  datatype BadgeField = Absent | Listed(ids: seq<string>) | Encoded(text: string, decoded: seq<string>)

  /** A user record. `lastLogin` is the instant written by login (milliseconds); `lastLoginDate`
      is the separate field the statistics endpoint reads. */
  datatype User = User(
    id: string,
    name: string,
    email: string,
    passwordHash: string,
    role: string,
    googleId: Option<string>,
    badges: BadgeField,
    loginStreak: Option<int>,
    lastLogin: Option<int>,
    lastLoginDate: Option<string>)

  /** The badge field read back: a list as is, text parsed as a list, unset as empty;
      the empty string is falsy, so it yields the empty list. */
  function HeldBadges(b: BadgeField): (r: seq<string>)
    ensures b.Absent? ==> r == []
    ensures b.Listed? ==> r == b.ids
    ensures b.Encoded? ==> r == (if b.text == "" then [] else b.decoded)
  {
    match b
    case Absent => []
    case Listed(ids) => ids
    case Encoded(text, decoded) => if text == "" then [] else decoded
  }

  /** The streak, 0 when unset (a stored 0 is falsy too, and gives the same 0). */
  function StreakOrZero(s: Option<int>): (r: int)
    ensures s.None? ==> r == 0
    ensures s.Some? ==> r == s.value
  {
    s.GetOr(0)
  }

  /** `normalizeUser`: badges become the list they read as and the streak a number; nothing else changes. */
  function Normalize(u: User): (r: User)
    ensures r.badges == Listed(HeldBadges(u.badges))
    ensures r.loginStreak == Some(StreakOrZero(u.loginStreak))
    ensures r.(badges := u.badges, loginStreak := u.loginStreak) == u
  {
    u.(badges := Listed(HeldBadges(u.badges)), loginStreak := Some(StreakOrZero(u.loginStreak)))
  }

  predicate IsNormal(u: User) {
    u.badges.Listed? && u.loginStreak.Some?
  }

  /** Normalising is idempotent, and a record is normal exactly when normalising leaves it alone. */
  lemma NormalizeIdempotent(u: User)
    ensures Normalize(Normalize(u)) == Normalize(u)
    ensures IsNormal(u) <==> Normalize(u) == u
  {
    if IsNormal(u) {
      assert HeldBadges(u.badges) == u.badges.ids;
      assert StreakOrZero(u.loginStreak) == u.loginStreak.value;
    }
  }

  function NormalizeAll(users: seq<User>): (r: seq<User>)
    ensures |r| == |users|
    ensures forall i :: 0 <= i < |users| ==> r[i] == Normalize(users[i])
  {
    if users == [] then [] else [Normalize(users[0])] + NormalizeAll(users[1..])
  }

  /** The index of the first user with the identifier, with -1 as None. */
  function IndexOfId(users: seq<User>, id: string): (r: Option<nat>)
    ensures r.Some? ==> r.value < |users| && users[r.value].id == id
    ensures r.Some? ==> forall j :: 0 <= j < r.value ==> users[j].id != id
    ensures r.None? ==> forall j :: 0 <= j < |users| ==> users[j].id != id
  {
    if users == [] then None
    else if users[0].id == id then Some(0)
    else match IndexOfId(users[1..], id)
      case None => None
      case Some(k) => Some(k + 1)
  }

  /** The first user with the email. */
  function FindByEmail(users: seq<User>, email: string): (r: Option<User>)
    ensures r.Some? ==> r.value.email == email && r.value in users
    ensures r.None? ==> forall j :: 0 <= j < |users| ==> users[j].email != email
    ensures forall j :: 0 <= j < |users| && users[j].email == email && (forall i :: 0 <= i < j ==> users[i].email != email)
              ==> r == Some(users[j])
  {
    if users == [] then None
    else if users[0].email == email then Some(users[0])
    else FindByEmail(users[1..], email)
  }

  /** The first user with the Google identifier; an absent argument matches records with no Google identifier. */
  function FindByGoogleId(users: seq<User>, googleId: Option<string>): (r: Option<User>)
    ensures r.Some? ==> r.value.googleId == googleId && r.value in users
    ensures r.None? ==> forall j :: 0 <= j < |users| ==> users[j].googleId != googleId
    ensures forall j :: 0 <= j < |users| && users[j].googleId == googleId && (forall i :: 0 <= i < j ==> users[i].googleId != googleId)
              ==> r == Some(users[j])
  {
    if users == [] then None
    else if users[0].googleId == googleId then Some(users[0])
    else FindByGoogleId(users[1..], googleId)
  }

  /** The first user with the identifier. */
  function FindById(users: seq<User>, id: string): Option<User> {
    match IndexOfId(users, id)
    case Some(k) => Some(users[k])
    case None => None
  }

  /** The JSON branch of `saveUser` applied to the list it read: the first record with the
      same identifier is replaced, otherwise the record is appended. Email is not consulted. */
  function Upsert(users: seq<User>, u: User): (r: seq<User>)
    ensures IndexOfId(users, u.id).Some? ==> r == users[IndexOfId(users, u.id).value := u]
    ensures IndexOfId(users, u.id).None? ==> r == users + [u]
  {
    match IndexOfId(users, u.id)
    case Some(k) => users[k := u]
    case None => users + [u]
  }

  /** After an upsert the record is what a lookup by its identifier finds, every other
      identifier finds what it found before, and the list grows by one exactly when the
      identifier was new. */
  lemma {:induction false} UpsertLookup(users: seq<User>, u: User, id: string)
    ensures FindById(Upsert(users, u), u.id) == Some(u)
    ensures id != u.id ==> FindById(Upsert(users, u), id) == FindById(users, id)
    ensures |Upsert(users, u)| == |users| + (if IndexOfId(users, u.id).None? then 1 else 0)
  {
    var r := Upsert(users, u);
    match IndexOfId(users, u.id)
    case Some(k) =>
      assert r[k] == u;
      FirstIdIs(r, u.id, k);
      if id != u.id {
        SameIdsSameIndex(users, r, id, k);
      }
    case None =>
      assert r[|users|] == u;
      FirstIdIs(r, u.id, |users|);
      if id != u.id {
        SameIdsSameIndex(users, r, id, |users|);
      }
  }

  lemma FirstIdIs(users: seq<User>, id: string, k: nat)
    requires k < |users| && users[k].id == id
    requires forall j :: 0 <= j < k ==> users[j].id != id
    ensures IndexOfId(users, id) == Some(k)
  {
  }

  /** Two lists that agree on the identifiers of their common positions, where `b` differs from
      `a` only at position `k` whose identifier is not `id`, find `id` at the same record. */
  lemma SameIdsSameIndex(a: seq<User>, b: seq<User>, id: string, k: nat)
    requires k <= |a| && |b| == (if k == |a| then |a| + 1 else |a|)
    requires forall j :: 0 <= j < |a| && j != k ==> b[j] == a[j]
    requires b[k].id != id && (k < |a| ==> a[k].id != id)
    ensures FindById(b, id) == FindById(a, id)
  {
    match IndexOfId(a, id)
    case Some(i) =>
      assert i != k;
      FirstIdIs(b, id, i);
    case None =>
  }

  predicate EmailsUnique(users: seq<User>) {
    forall i, j :: 0 <= i < j < |users| ==> users[i].email != users[j].email
  }

  /** An upsert keeps emails unique when no other record already holds the new record's email:
      either the email is new, or its only holder is the record being replaced. */
  lemma UpsertKeepsEmailsUnique(users: seq<User>, u: User)
    requires EmailsUnique(users)
    requires forall i :: 0 <= i < |users| && users[i].email == u.email ==> IndexOfId(users, u.id) == Some(i)
    ensures EmailsUnique(Upsert(users, u))
  {
  }

  /** The JSON user file as an in-memory list of raw records. */
  class UserFile {
    var records: seq<User>

    constructor ()
      ensures records == []
    {
      records := [];
    }

    /** `getUsers`: every record normalised. */
    function Users(): (r: seq<User>)
      reads this
      ensures forall i :: 0 <= i < |r| ==> IsNormal(r[i])
    {
      NormalizeAll(records)
    }

    /** `saveUser`: the normalised list with the record upserted is written back. */
    method SaveUser(u: User)
      modifies this
      ensures records == Upsert(old(Users()), u)
      ensures GetUserById(u.id) == Some(Normalize(u))
      ensures forall id :: id != u.id ==> GetUserById(id) == old(GetUserById(id))
    {
      var before := Users();
      records := Upsert(before, u);
      forall id
        ensures FindById(Upsert(before, u), u.id) == Some(u)
        ensures id != u.id ==> FindById(Upsert(before, u), id) == FindById(before, id)
      {
        UpsertLookup(before, u, id);
      }
      NormalizeKeepsIds(records, u.id);
      forall id | id != u.id
        ensures GetUserById(id) == old(GetUserById(id))
      {
        NormalizeKeepsIds(records, id);
        NormalizedFind(before, id);
      }
    }

    function GetUserById(id: string): Option<User>
      reads this
    {
      FindById(Users(), id)
    }

    function GetUserByEmail(email: string): Option<User>
      reads this
    {
      FindByEmail(Users(), email)
    }

    function GetUserByGoogleId(googleId: Option<string>): Option<User>
      reads this
    {
      FindByGoogleId(Users(), googleId)
    }
  }

  /** Normalising the list does not move identifiers, so a lookup finds the normalised record. */
  lemma NormalizeKeepsIds(users: seq<User>, id: string)
    ensures FindById(NormalizeAll(users), id) == (match FindById(users, id) case Some(u) => Some(Normalize(u)) case None => None)
  {
    var n := NormalizeAll(users);
    match IndexOfId(users, id)
    case Some(k) =>
      FirstIdIs(n, id, k);
    case None =>
  }

  /** Normalising an already-normal list changes nothing that a lookup sees. */
  lemma NormalizedFind(users: seq<User>, id: string)
    requires forall i :: 0 <= i < |users| ==> IsNormal(users[i])
    ensures (match FindById(users, id) case Some(u) => Some(Normalize(u)) case None => None) == FindById(users, id)
  {
    match IndexOfId(users, id)
    case Some(k) =>
      NormalizeIdempotent(users[k]);
    case None =>
  }
}

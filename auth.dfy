/** auth.py: registration and login over the `users` table. The password
    hash (SHA-256 of the UTF-8 bytes, FIPS 180-4) is a parameter: nothing
    here depends on how it is computed. */
module Auth {
  import opened Common
  import opened Tables
  import Settings

  /** `SELECT ... FROM users WHERE email = ?` with `fetchone`: the first
      row with that email. */
  function FindUser(users: seq<User>, email: string): (r: Option<nat>)
    ensures r.None? <==> !HasEmail(users, email)
    ensures r.Some? ==> r.value < |users| && users[r.value].email == email
    ensures r.Some? ==> forall k | 0 <= k < r.value :: users[k].email != email
  {
    if users == [] then None
    else if users[0].email == email then Some(0)
    else match FindUser(users[1..], email)
      case None => None
      case Some(i) => Some(i + 1)
  }

  /** The id `login_user` returns: the user's, when the stored hash equals
      the hash of the given password. */
  function Authenticate(users: seq<User>, email: string, passwordHash: string): Option<int>
  {
    match FindUser(users, email)
    case None => None
    case Some(i) => if users[i].passwordHash == passwordHash then Some(users[i].id) else None
  }

  /** With unique emails, login succeeds exactly for a stored (email,
      hash) pair, and yields that row's id. */
  lemma AuthenticateIff(users: seq<User>, email: string, passwordHash: string)
    requires EmailsUnique(users)
    ensures Authenticate(users, email, passwordHash).Some? <==>
      exists i | 0 <= i < |users| :: users[i].email == email && users[i].passwordHash == passwordHash
    ensures forall i | 0 <= i < |users| && users[i].email == email && users[i].passwordHash == passwordHash ::
      Authenticate(users, email, passwordHash) == Some(users[i].id)
  {
    match FindUser(users, email)
    case None =>
    case Some(j) =>
      forall i | 0 <= i < |users| && users[i].email == email
        ensures i == j
      {
        assert !(i < j);
        assert !(j < i);
      }
  }

  /** `register_user`: refuses a known email; otherwise inserts the user
      with the next AUTOINCREMENT id and the stored hash, and a settings
      row holding the column defaults under that id. */
  method RegisterUser(db: Tables.Database, email: string, password: string, hash: string -> string)
    returns (ok: bool)
    requires db.Valid()
    modifies db
    ensures db.Valid()
    ensures ok <==> !HasEmail(old(db.users), email)
    ensures !ok ==> db.users == old(db.users) && db.userSeq == old(db.userSeq) && db.settings == old(db.settings)
    ensures ok ==>
      var newId := old(db.userSeq) + 1;
      && db.users == old(db.users) + [User(newId, email, hash(password), None)]
      && db.userSeq == newId
      && newId !in old(db.settings)
      && db.settings == old(db.settings)[newId := DefaultSettingsRow]
    ensures db.CatalogState() == old(db.CatalogState())
    ensures db.userMoves == old(db.userMoves) && db.userMoveSeq == old(db.userMoveSeq)
  {
    if FindUser(db.users, email).Some? {
      return false;
    }
    var passwordHash := hash(password);
    var userId := db.userSeq + 1;
    db.users := db.users + [User(userId, email, passwordHash, None)];
    db.userSeq := userId;
    db.settings := db.settings[userId := DefaultSettingsRow];
    return true;
  }

  /** `login_user`: an unknown email or a wrong password gives None and
      changes nothing; otherwise only that user's `last_login` is set to
      `now`, the time given for `datetime.now().isoformat()`. */
  method LoginUser(db: Tables.Database, email: string, password: string, hash: string -> string, now: string)
    returns (r: Option<int>)
    requires db.Valid()
    modifies db
    ensures db.Valid()
    ensures r == Authenticate(old(db.users), email, hash(password))
    ensures r.None? ==> db.users == old(db.users)
    ensures r.Some? ==>
      var i := FindUser(old(db.users), email).value;
      db.users == old(db.users)[i := old(db.users)[i].(lastLogin := Some(now))]
    ensures db.userSeq == old(db.userSeq) && db.settings == old(db.settings)
    ensures db.CatalogState() == old(db.CatalogState())
    ensures db.userMoves == old(db.userMoves) && db.userMoveSeq == old(db.userMoveSeq)
  {
    var found := FindUser(db.users, email);
    if found.None? {
      return None;
    }
    var i := found.value;
    var passwordHash := hash(password);
    if passwordHash != db.users[i].passwordHash {
      return None;
    }
    var user := db.users[i];
    db.users := db.users[i := user.(lastLogin := Some(now))];
    return Some(user.id);
  }

  /** Registering and then logging in with the same password yields the
      new id; any password with a different hash is refused. */
  lemma LoginAfterRegister(users: seq<User>, userSeq: int, email: string, password: string,
                           other: string, hash: string -> string)
    requires !HasEmail(users, email)
    requires hash(other) != hash(password)
    ensures var registered := users + [User(userSeq + 1, email, hash(password), None)];
      && Authenticate(registered, email, hash(password)) == Some(userSeq + 1)
      && Authenticate(registered, email, hash(other)) == None
  {
    var registered := users + [User(userSeq + 1, email, hash(password), None)];
    FindAfterAppend(users, User(userSeq + 1, email, hash(password), None));
  }

  lemma {:induction false} FindAfterAppend(users: seq<User>, user: User)
    requires !HasEmail(users, user.email)
    ensures FindUser(users + [user], user.email) == Some(|users|)
    decreases |users|
  {
    if users != [] {
      assert (users + [user])[1..] == users[1..] + [user];
      assert !HasEmail(users[1..], user.email) by {
        forall k | 0 <= k < |users[1..]| ensures users[1..][k].email != user.email {
          assert users[1..][k] == users[k + 1];
        }
      }
      FindAfterAppend(users[1..], user);
    }
  }

  /** `update_user_settings` in auth.py has the same body as the one in
      settings.py. */
  method UpdateUserSettings(db: Tables.Database, userId: int, updates: map<string, PyValue>) returns (ok: bool)
    requires db.Valid()
    modifies db
    ensures db.Valid()
    ensures ok
    ensures db.settings == Settings.UpdatedSettings(old(db.settings), userId, updates)
    ensures db.CatalogState() == old(db.CatalogState())
    ensures db.userMoves == old(db.userMoves) && db.userMoveSeq == old(db.userMoveSeq)
    ensures db.users == old(db.users) && db.userSeq == old(db.userSeq)
  {
    ok := Settings.UpdateUserSettings(db, userId, updates);
  }
}

/**
  RavenDBUserService: the four user-lifecycle operations, each run against one
  document session. An operation reads the committed users, changes loaded
  users and stages new and deleted documents on the session; it never saves.
  Each operation is specified by a function from the committed store to what
  it returns and what it leaves staged, and the class's methods are proved to
  follow those functions.
*/
module Service {
  import opened Common
  import opened Documents

  /** What an operation returned (or threw) and what it left staged on the session. */
  datatype Step<T> = Step(result: Result<T>, changes: Changes)

  /** CreateUser's return value (null when refused) and its `out status`. */
  datatype Creation = Creation(user: Option<User>, status: Status)

  /** The user's stored hash is the hash of `password` with the user's own salt. */
  predicate PasswordMatches(lib: Library, u: User, password: string) {
    u.passwordHash == lib.hashPassword(password, u.passwordSalt)
  }

  /** `id` is a user named `username` in application `app`. */
  predicate Registered(s: Store, id: Id, username: string, app: string) {
    id in s.users && s.users[id].username == username && s.users[id].applicationName == app
  }

  /** The staged write-back of one loaded user that was changed. */
  function Rewrite(id: Id, u: User): Changes {
    Changes(map[id := u], {}, [], {})
  }

  /** Staging a write-back on top of earlier changes overwrites that user's staged document. */
  lemma MergeRewrite(a: Changes, id: Id, u: User)
    ensures Merge(a, Rewrite(id, u)) == a.(puts := a.puts[id := u])
  {
    assert a.newKeys + [] == a.newKeys;
  }

  /** Committing a write-back replaces one user and leaves the reservations alone. */
  lemma ApplyRewrite(s: Store, id: Id, u: User)
    ensures Apply(s, Rewrite(id, u)) == Store(s.users[id := u], s.reservations)
  {
    assert (set k | k in Rewrite(id, u).newKeys) == {};
  }

  /** Committing nothing changes nothing. */
  lemma ApplyNoChanges(s: Store)
    ensures Apply(s, NoChanges) == s
  {
    assert (set k: string | k in []) == {};
  }

  /** Committing a creation adds the user and both of its keys. */
  lemma ApplyCreation(s: Store, id: Id, u: User)
    ensures Apply(s, Changes(map[id := u], {}, [UsernameKey(u.username), EmailKey(u.email)], {}))
         == Store(s.users[id := u], s.reservations + {UsernameKey(u.username), EmailKey(u.email)})
  {
    assert (set k | k in [UsernameKey(u.username), EmailKey(u.email)]) == {UsernameKey(u.username), EmailKey(u.email)};
  }

  /** Committing a deletion removes the user and both of its keys. */
  lemma ApplyDeletion(s: Store, id: Id, u: User)
    ensures Apply(s, Changes(map[], {id}, [], {UsernameKey(u.username), EmailKey(u.email)}))
         == Store(s.users - {id}, s.reservations - {UsernameKey(u.username), EmailKey(u.email)})
  {
    assert (set k: string | k in []) == {};
  }

  /** The username query every operation runs: `username` in the configured application. */
  function Lookup(s: Store, conf: Configuration, username: string): Result<Option<Id>> {
    SingleOrDefault(Named(s, username, conf.applicationName))
  }

  /** ChangePassword: verify the old password, then give the user a new salt and hash. */
  function ChangePasswordStep(s: Store, conf: Configuration, lib: Library, username: string,
                              oldPassword: string, newPassword: string, newSalt: Salt): (r: Step<bool>)
    ensures var found := Named(s, Trim(username, lib.isWhiteSpace), conf.applicationName);
      && (r.result.Ok? <==> |found| == 1 && PasswordMatches(lib, s.users[found[0]], oldPassword))
      && (r.result.Ok? ==> r.result.value && r.changes == Rewrite(found[0],
            s.users[found[0]].(passwordSalt := newSalt,
                               passwordHash := lib.hashPassword(newPassword, newSalt))))
      && (r.result.Err? ==> r.changes == NoChanges)
      && (r.result.Err? && |found| <= 1 ==> r.result.error == MembershipPasswordException)
  {
    var name := Trim(username, lib.isWhiteSpace);
    match Lookup(s, conf, name)
    case Err(e) => Step(Err(e), NoChanges)
    case Ok(None) => Step(Err(MembershipPasswordException), NoChanges)
    case Ok(Some(id)) =>
      var u := s.users[id];
      if !PasswordMatches(lib, u, oldPassword) then Step(Err(MembershipPasswordException), NoChanges)
      else
        var salted := u.(passwordSalt := newSalt);
        Step(Ok(true), Rewrite(id, salted.(passwordHash := lib.hashPassword(newPassword, salted.passwordSalt))))
  }

  /**
    CheckPassword: true when the user named by the trimmed username exists
    and the trimmed password hashes to its stored hash; on success it may
    stamp DateLastLogin, and it changes nothing else.
  */
  function CheckPasswordStep(s: Store, conf: Configuration, lib: Library, username: string,
                             password: string, updateLastLogin: bool, now: Time): (r: Step<bool>)
    ensures var found := Named(s, Trim(username, lib.isWhiteSpace), conf.applicationName);
      && (r.result.Err? <==> |found| > 1)
      && (r.result == Ok(true) <==>
            |found| == 1 && PasswordMatches(lib, s.users[found[0]], Trim(password, lib.isWhiteSpace)))
      && r.changes == if r.result == Ok(true) && updateLastLogin
                      then Rewrite(found[0], s.users[found[0]].(dateLastLogin := Some(now)))
                      else NoChanges
  {
    var name := Trim(username, lib.isWhiteSpace);
    var pw := Trim(password, lib.isWhiteSpace);
    match Lookup(s, conf, name)
    case Err(e) => Step(Err(e), NoChanges)
    case Ok(None) => Step(Ok(false), NoChanges)
    case Ok(Some(id)) =>
      var u := s.users[id];
      if PasswordMatches(lib, u, pw) then
        Step(Ok(true), if updateLastLogin then Rewrite(id, u.(dateLastLogin := Some(now))) else NoChanges)
      else Step(Ok(false), NoChanges)
  }

  /**
    CreateUser: refuse a short password (by throwing) or a password the hook
    cancels; otherwise stage a new user, with the id the session assigns,
    and the reservations of its username and email.
  */
  function CreateUserStep(s: Store, conf: Configuration, lib: Library, username: string,
                          password: string, email: string, salt: Salt, now: Time, id: Id): (r: Step<Creation>)
    ensures |password| < conf.minRequiredPasswordLength ==>
      r == Step(Err(MembershipCreateUserException(InvalidPassword)), NoChanges)
    ensures |password| >= conf.minRequiredPasswordLength && conf.onValidatingPassword(username, password, true).cancel ==>
      r == Step(Ok(Creation(None, InvalidPassword)), NoChanges)
    ensures r.result.Ok? && r.result.value.status == Success <==>
      |password| >= conf.minRequiredPasswordLength && !conf.onValidatingPassword(username, password, true).cancel
    ensures r.result.Ok? && r.result.value.status == Success ==>
      r.result.value.user.Some? &&
      var u := r.result.value.user.value;
      && u.username == Trim(username, lib.isWhiteSpace)
      && u.email == email
      && u.passwordSalt == salt
      && PasswordMatches(lib, u, Trim(password, lib.isWhiteSpace))
      && u.applicationName == conf.applicationName
      && u.dateCreated == now
      && u.dateLastLogin == None
      && r.changes == Changes(map[id := u], {}, [UsernameKey(u.username), EmailKey(u.email)], {})
  {
    if |password| < conf.minRequiredPasswordLength then
      Step(Err(MembershipCreateUserException(InvalidPassword)), NoChanges)
    else if conf.onValidatingPassword(username, password, true).cancel then
      Step(Ok(Creation(None, InvalidPassword)), NoChanges)
    else
      var name := Trim(username, lib.isWhiteSpace);
      var pw := Trim(password, lib.isWhiteSpace);
      var u := User(name, email, lib.hashPassword(pw, salt), salt, conf.applicationName, now, None);
      Step(Ok(Creation(Some(u), Success)), Changes(map[id := u], {}, [UsernameKey(u.username), EmailKey(u.email)], {}))
  }

  /**
    DeleteUser: look the user up by the username as given (untrimmed) and
    stage the deletion of the user and of both of its reservations.
  */
  function DeleteUserStep(s: Store, conf: Configuration, username: string): (r: Step<bool>)
    ensures var found := Named(s, username, conf.applicationName);
      && (found == [] ==> r == Step(Err(NullReferenceException), NoChanges))
      && (r.result.Ok? <==>
            (|found| == 1 &&
             UsernameKey(s.users[found[0]].username) in s.reservations &&
             EmailKey(s.users[found[0]].email) in s.reservations))
      && (r.result.Ok? ==> r.result.value && r.changes == Changes(map[], {found[0]}, [],
            {UsernameKey(s.users[found[0]].username), EmailKey(s.users[found[0]].email)}))
  {
    match Lookup(s, conf, username)
    case Err(e) => Step(Err(e), NoChanges)
    case Ok(None) => Step(Err(NullReferenceException), NoChanges)
    case Ok(Some(id)) =>
      var u := s.users[id];
      if UsernameKey(u.username) !in s.reservations then
        Step(Err(ArgumentNullException("entity")), Changes(map[], {id}, [], {}))
      else if EmailKey(u.email) !in s.reservations then
        Step(Err(ArgumentNullException("entity")), Changes(map[], {id}, [], {UsernameKey(u.username)}))
      else
        Step(Ok(true), Changes(map[], {id}, [], {UsernameKey(u.username), EmailKey(u.email)}))
  }

  // ---------------------------------------------------------------------
  // Properties over a store that keeps the reservation invariant

  /** With unique usernames, the query for a registered user's name finds that user alone. */
  lemma {:induction false} FoundIffExists(s: Store, username: string, app: string, id: Id)
    requires DistinctClaims(s.users)
    requires Registered(s, id, username, app)
    ensures Named(s, username, app) == [id]
  {
    var found := Named(s, username, app);
    forall x | x in found ensures x == id { }
    SingleMatch(found, id);
  }

  /**
    CheckPassword never throws when usernames are unique, and returns true
    exactly when a user with the trimmed username exists in the configured
    application and the trimmed password hashes to its stored hash.
  */
  lemma {:induction false} CheckPasswordVerdict(s: Store, conf: Configuration, lib: Library, username: string,
                                                password: string, updateLastLogin: bool, now: Time)
    requires DistinctClaims(s.users)
    ensures var r := CheckPasswordStep(s, conf, lib, username, password, updateLastLogin, now).result;
      r.Ok? && (r.value <==>
        exists id :: Registered(s, id, Trim(username, lib.isWhiteSpace), conf.applicationName) &&
                     PasswordMatches(lib, s.users[id], Trim(password, lib.isWhiteSpace)))
  {
    var name := Trim(username, lib.isWhiteSpace);
    NamedAtMostOne(s, name, conf.applicationName);
    if exists id :: Registered(s, id, name, conf.applicationName) &&
                    PasswordMatches(lib, s.users[id], Trim(password, lib.isWhiteSpace)) {
      var id :| Registered(s, id, name, conf.applicationName) &&
                PasswordMatches(lib, s.users[id], Trim(password, lib.isWhiteSpace));
      FoundIffExists(s, name, conf.applicationName, id);
    }
  }

  /**
    ChangePassword succeeds exactly when a user with the trimmed username
    exists and the old password (as given) hashes to its stored hash;
    otherwise it throws MembershipPasswordException and stages nothing.
  */
  lemma {:induction false} ChangePasswordVerdict(s: Store, conf: Configuration, lib: Library, username: string,
                                                 oldPassword: string, newPassword: string, newSalt: Salt)
    requires DistinctClaims(s.users)
    ensures var r := ChangePasswordStep(s, conf, lib, username, oldPassword, newPassword, newSalt);
      && (r.result.Ok? <==>
            exists id :: Registered(s, id, Trim(username, lib.isWhiteSpace), conf.applicationName) &&
                         PasswordMatches(lib, s.users[id], oldPassword))
      && (r.result.Err? ==> r.result.error == MembershipPasswordException && r.changes == NoChanges)
  {
    var name := Trim(username, lib.isWhiteSpace);
    NamedAtMostOne(s, name, conf.applicationName);
    if exists id :: Registered(s, id, name, conf.applicationName) &&
                    PasswordMatches(lib, s.users[id], oldPassword) {
      var id :| Registered(s, id, name, conf.applicationName) &&
                PasswordMatches(lib, s.users[id], oldPassword);
      FoundIffExists(s, name, conf.applicationName, id);
    }
  }

  /**
    In a consistent store DeleteUser succeeds exactly when a user with the
    given username exists in the configured application; otherwise it throws
    NullReferenceException and stages nothing.
  */
  lemma {:induction false} DeleteUserVerdict(s: Store, conf: Configuration, username: string)
    requires Consistent(s)
    ensures var r := DeleteUserStep(s, conf, username);
      && (r.result.Ok? <==> exists id :: Registered(s, id, username, conf.applicationName))
      && (r.result.Err? ==> r == Step(Err(NullReferenceException), NoChanges))
  {
    NamedAtMostOne(s, username, conf.applicationName);
    var found := Named(s, username, conf.applicationName);
    if found != [] {
      ClaimsOf(s.users, found[0]);
      assert Registered(s, found[0], username, conf.applicationName);
    }
  }

  /**
    Round trip: once a successful CreateUser is committed, CheckPassword
    with the same username and password returns true, because both hash the
    trimmed password with the stored salt.
  */
  lemma {:induction false} CreateThenCheckPassword(s: Store, conf: Configuration, lib: Library,
      username: string, password: string, email: string, salt: Salt, now: Time, id: Id,
      updateLastLogin: bool, later: Time)
    requires Consistent(s) && id !in s.users
    requires var c := CreateUserStep(s, conf, lib, username, password, email, salt, now, id);
      c.result.Ok? && c.result.value.status == Success && Commit(s, c.changes, true).Ok?
    ensures var c := CreateUserStep(s, conf, lib, username, password, email, salt, now, id);
      CheckPasswordStep(Commit(s, c.changes, true).value, conf, lib, username, password,
                        updateLastLogin, later).result == Ok(true)
  {
    var c := CreateUserStep(s, conf, lib, username, password, email, salt, now, id);
    var u := c.result.value.user.value;
    var after := Commit(s, c.changes, true).value;
    assert UsernameKey(u.username) in c.changes.newKeys;
    assert after.users == s.users[id := u];
    var found := Named(after, u.username, conf.applicationName);
    forall x | x in found ensures x == id {
      if x != id {
        ClaimsOf(s.users, x);
      }
    }
    SingleMatch(found, id);
  }

  // ---------------------------------------------------------------------
  // The service object

  /**
    RavenDBUserService: a session and a configuration; the library routines
    the C# code calls statically are the `lib` field. Every method leaves
    the committed store alone and adds exactly its step's changes to the
    session's staged changes.
  */
  class UserService {
    const session: DocumentSession
    const conf: Configuration
    const lib: Library

    constructor (session: DocumentSession, conf: Configuration, lib: Library)
      ensures this.session == session && this.conf == conf && this.lib == lib
    {
      this.session := session;
      this.conf := conf;
      this.lib := lib;
    }

    /** ChangePassword; `newSalt` is what PasswordUtil.CreateRandomSalt returned. */
    method ChangePassword(username: string, oldPassword: string, newPassword: string, newSalt: Salt)
      returns (r: Result<bool>)
      requires session.Valid()
      modifies session`pending
      ensures session.Valid()
      ensures var step := ChangePasswordStep(session.store.state, conf, lib, username, oldPassword, newPassword, newSalt);
        r == step.result && session.pending == Merge(old(session.pending), step.changes)
    {
      MergeNoChanges(session.pending);
      var name := Trim(username, lib.isWhiteSpace);
      var q := Lookup(session.store.state, conf, name);
      if q.Err? {
        return Err(q.error);
      }
      if q.value.None? || !PasswordMatches(lib, session.store.state.users[q.value.value], oldPassword) {
        return Err(MembershipPasswordException);
      }
      var id := q.value.value;
      var user := session.store.state.users[id];
      user := user.(passwordSalt := newSalt);
      user := user.(passwordHash := lib.hashPassword(newPassword, user.passwordSalt));
      assert ChangePasswordStep(session.store.state, conf, lib, username, oldPassword, newPassword, newSalt)
          == Step(Ok(true), Rewrite(id, user));
      MergeRewrite(session.pending, id, user);
      session.Put(id, user);
      r := Ok(true);
    }

    /** CheckPassword; `now` is the reading of DateTime.Now. */
    method CheckPassword(username: string, password: string, updateLastLogin: bool, now: Time)
      returns (r: Result<bool>)
      requires session.Valid()
      modifies session`pending
      ensures session.Valid()
      ensures var step := CheckPasswordStep(session.store.state, conf, lib, username, password, updateLastLogin, now);
        r == step.result && session.pending == Merge(old(session.pending), step.changes)
    {
      MergeNoChanges(session.pending);
      var name := Trim(username, lib.isWhiteSpace);
      var pw := Trim(password, lib.isWhiteSpace);
      var q := Lookup(session.store.state, conf, name);
      if q.Err? {
        return Err(q.error);
      }
      if q.value.Some? && PasswordMatches(lib, session.store.state.users[q.value.value], pw) {
        if updateLastLogin {
          var id := q.value.value;
          var user := session.store.state.users[id].(dateLastLogin := Some(now));
          assert CheckPasswordStep(session.store.state, conf, lib, username, password, updateLastLogin, now)
              == Step(Ok(true), Rewrite(id, user));
          MergeRewrite(session.pending, id, user);
          session.Put(id, user);
        }
        return Ok(true);
      }
      r := Ok(false);
    }

    /**
      CreateUser; `salt` is what PasswordUtil.CreateRandomSalt returned and
      `now` the reading of DateTime.Now. The new user's id comes from the
      store's generator.
    */
    method CreateUser(username: string, password: string, email: string, salt: Salt, now: Time)
      returns (r: Result<Creation>)
      requires session.Valid()
      modifies session`pending, session.store`nextId
      ensures session.Valid()
      ensures session.store.nextId >= old(session.store.nextId)
      ensures var step := CreateUserStep(session.store.state, conf, lib, username, password, email, salt, now,
                                         old(session.store.nextId));
        r == step.result && session.pending == Merge(old(session.pending), step.changes)
    {
      MergeNoChanges(session.pending);
      if |password| < conf.minRequiredPasswordLength {
        return Err(MembershipCreateUserException(InvalidPassword));
      }
      var args := conf.onValidatingPassword(username, password, true);
      if args.cancel {
        return Ok(Creation(None, InvalidPassword));
      }
      var name := Trim(username, lib.isWhiteSpace);
      var pw := Trim(password, lib.isWhiteSpace);
      var user := User(name, email, lib.hashPassword(pw, salt), salt, conf.applicationName, now, None);
      var id := session.StoreUser(user);
      session.StoreReservation(UsernameKey(user.username));
      session.StoreReservation(EmailKey(user.email));
      r := Ok(Creation(Some(user), Success));
    }

    /** DeleteUser; `deleteAllRelatedData` is accepted and ignored, as in the source. */
    method DeleteUser(username: string, deleteAllRelatedData: bool) returns (r: Result<bool>)
      requires session.Valid()
      modifies session`pending
      ensures session.Valid()
      ensures var step := DeleteUserStep(session.store.state, conf, username);
        r == step.result && session.pending == Merge(old(session.pending), step.changes)
    {
      MergeNoChanges(session.pending);
      var q := Lookup(session.store.state, conf, username);
      if q.Err? {
        return Err(q.error);
      }
      if q.value.None? {
        return Err(NullReferenceException);
      }
      var id := q.value.value;
      var user := session.store.state.users[id];
      session.Delete(id);
      var deleted := session.DeleteReservation(UsernameKey(user.username));
      if deleted.Err? {
        return Err(deleted.error);
      }
      deleted := session.DeleteReservation(EmailKey(user.email));
      if deleted.Err? {
        return Err(deleted.error);
      }
      r := Ok(true);
    }
  }
}

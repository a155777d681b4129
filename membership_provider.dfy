/**
  RavenDBMembershipProvider: the ASP.NET membership provider. Each operation
  opens its own session on the shared document store, runs the decorated
  user service (or its own query), and commits with SaveChanges. CreateUser
  and UpdateUser commit under optimistic concurrency and turn a conflict on
  a reservation into a membership status or an exception.
*/
module Provider {
  import opened Common
  import opened Documents
  import opened Service
  import opened Validations

  /** What a provider operation returned, and the committed store afterwards. */
  datatype Outcome<T> = Outcome(value: T, store: Store)

  // ---------------------------------------------------------------------
  // Classifying a commit conflict

  /**
    InterpretConcurrencyException: the conflict is a duplicate username when
    its message names the username reservation, otherwise a duplicate email
    when it names the email reservation, otherwise a provider error.
  */
  function InterpretConcurrencyException(username: string, email: string, message: string): (status: Status)
    ensures status == DuplicateUserName <==> Contains(message, UsernameKey(username))
    ensures status == DuplicateEmail <==>
      !Contains(message, UsernameKey(username)) && Contains(message, EmailKey(email))
    ensures status == ProviderError <==>
      !Contains(message, UsernameKey(username)) && !Contains(message, EmailKey(email))
  {
    if Contains(message, UsernameKey(username)) then DuplicateUserName
    else if Contains(message, EmailKey(email)) then DuplicateEmail
    else ProviderError
  }

  /** CreateUser's two catch clauses: a conflict is classified, any other exception is a provider error. */
  function CreateFailureStatus(username: string, email: string, e: Exception): (status: Status)
    ensures status != Success
    ensures !e.ConcurrencyException? ==> status == ProviderError
    ensures e.ConcurrencyException? ==> status == InterpretConcurrencyException(username, email, e.message)
  {
    if e.ConcurrencyException? then InterpretConcurrencyException(username, email, e.message) else ProviderError
  }

  // ---------------------------------------------------------------------
  // CreateUser

  /**
    CreateUser: the decorated service runs on an optimistic session, and the
    session is committed only when the service reports Success. Whatever
    goes wrong, the result is null, a status and an unchanged store.
  */
  function CreateUserOutcome(s: Store, conf: Configuration, lib: Library, username: string, password: string,
                             email: string, salt: Salt, now: Time, id: Id): (o: Outcome<Creation>)
    ensures o.value.status != Success ==> o.store == s && o.value.user.None?
    ensures var step := ValidatedCreateUser(s, conf, conf, lib, username, password, email, salt, now, id);
      && (o.value.status == Success <==>
            step.result.Ok? && step.result.value.status == Success && Commit(s, step.changes, true).Ok?)
      && (o.value.status == Success ==> o.value == step.result.value && o.store == Apply(s, step.changes))
      && (step.result.Ok? && step.result.value.status != Success ==> o.value == Creation(None, step.result.value.status))
      && (step.result.Err? ==> o.value == Creation(None, ProviderError))
      && (step.result.Ok? && step.result.value.status == Success && Commit(s, step.changes, true).Err? ==>
            o.value == Creation(None, InterpretConcurrencyException(username, email,
                                                                    Commit(s, step.changes, true).error.message)))
  {
    var step := ValidatedCreateUser(s, conf, conf, lib, username, password, email, salt, now, id);
    match step.result
    case Err(e) => Outcome(Creation(None, CreateFailureStatus(username, email, e)), s)
    case Ok(created) =>
      if created.status != Success then Outcome(Creation(None, created.status), s)
      else match Commit(s, step.changes, true)
        case Ok(after) => Outcome(created, after)
        case Err(e) => Outcome(Creation(None, CreateFailureStatus(username, email, e)), s)
  }

  /** A successful CreateUser commits a fresh user with both of its reservations and keeps the invariant. */
  lemma {:induction false} CreateUserKeepsConsistent(s: Store, conf: Configuration, lib: Library, username: string,
      password: string, email: string, salt: Salt, now: Time, id: Id)
    requires Consistent(s) && id !in s.users
    ensures var o := CreateUserOutcome(s, conf, lib, username, password, email, salt, now, id);
      && Consistent(o.store)
      && (o.value.status == Success ==>
            o.value.user.Some? && o.store.users == s.users[id := o.value.user.value] &&
            UsernameKey(o.value.user.value.username) in o.store.reservations &&
            EmailKey(o.value.user.value.email) in o.store.reservations)
  {
    var o := CreateUserOutcome(s, conf, lib, username, password, email, salt, now, id);
    if o.value.status == Success {
      var step := ValidatedCreateUser(s, conf, conf, lib, username, password, email, salt, now, id);
      var u := step.result.value.user.value;
      assert step.changes == Changes(map[id := u], {}, [UsernameKey(u.username), EmailKey(u.email)], {});
      assert UsernameKey(u.username) in step.changes.newKeys && EmailKey(u.email) in step.changes.newKeys;
      ApplyCreation(s, id, u);
      AddUserKeepsConsistent(s, id, u);
    }
  }

  /**
    When the username the service stores (the checked, trimmed username) is
    the one the caller passed and is already reserved, CreateUser reports
    DuplicateUserName and commits nothing: the conflict is on the username
    reservation, which the session stages first.
  */
  lemma {:induction false} DuplicateUserNameDetected(s: Store, conf: Configuration, lib: Library, username: string,
      password: string, email: string, salt: Salt, now: Time, id: Id)
    requires CreateGuard(conf, lib, username, password, email).Accepted?
    requires Trim(UsernameChecked(lib, username).value, lib.isWhiteSpace) == username
    requires UsernameKey(username) in s.reservations
    ensures CreateUserOutcome(s, conf, lib, username, password, email, salt, now, id) ==
      Outcome(Creation(None, DuplicateUserName), s)
  {
    var step := ValidatedCreateUser(s, conf, conf, lib, username, password, email, salt, now, id);
    AcceptedCreateSucceeds(s, conf, lib, username, password, email, salt, now, id);
    var u := step.result.value.user.value;
    assert step.changes.newKeys == [UsernameKey(username), EmailKey(u.email)];
    var c := Commit(s, step.changes, true);
    assert c == Err(ConcurrencyException(ConflictMessage(UsernameKey(username))));
    ConflictMessageNamesKey(UsernameKey(username));
  }

  /**
    When the username is free but the email the service stores is the one
    the caller passed and is already reserved, CreateUser commits nothing and
    classifies the conflict by its message, which names the email
    reservation: never as a provider error.
  */
  lemma {:induction false} DuplicateEmailDetected(s: Store, conf: Configuration, lib: Library, username: string,
      password: string, email: string, salt: Salt, now: Time, id: Id)
    requires CreateGuard(conf, lib, username, password, email).Accepted?
    requires EmailChecked(conf, lib, email).value == email
    requires UsernameKey(Trim(UsernameChecked(lib, username).value, lib.isWhiteSpace)) !in s.reservations
    requires EmailKey(email) in s.reservations
    ensures var o := CreateUserOutcome(s, conf, lib, username, password, email, salt, now, id);
      && o.store == s && o.value.user.None?
      && o.value.status == InterpretConcurrencyException(username, email, ConflictMessage(EmailKey(email)))
      && o.value.status in {DuplicateUserName, DuplicateEmail}
  {
    var step := ValidatedCreateUser(s, conf, conf, lib, username, password, email, salt, now, id);
    AcceptedCreateSucceeds(s, conf, lib, username, password, email, salt, now, id);
    var u := step.result.value.user.value;
    assert step.changes.newKeys == [UsernameKey(u.username), EmailKey(email)];
    var c := Commit(s, step.changes, true);
    assert c == Err(ConcurrencyException(ConflictMessage(EmailKey(email))));
    ConflictMessageNamesKey(EmailKey(email));
  }

  // ---------------------------------------------------------------------
  // ChangePassword, CheckPassword, DeleteUser

  /** ChangePassword: the decorated service's result; the session is committed unless it threw. */
  function ChangePasswordOutcome(s: Store, conf: Configuration, lib: Library, username: string,
                                 oldPassword: string, newPassword: string, newSalt: Salt): (o: Outcome<Result<bool>>)
    ensures var step := ValidatedChangePassword(s, conf, conf, lib, username, oldPassword, newPassword, newSalt);
      && o.value == step.result
      && (o.value.Err? ==> o.store == s)
      && (o.value.Ok? ==> o.store == Apply(s, step.changes))
  {
    var step := ValidatedChangePassword(s, conf, conf, lib, username, oldPassword, newPassword, newSalt);
    if step.result.Err? then Outcome(step.result, s)
    else Outcome(step.result, Commit(s, step.changes, false).value)
  }

  /**
    Committing what the service's ChangePassword staged keeps the invariant
    and the reservations; on success exactly one user gets the new salt and
    the hash of the new password, and on failure nothing changes.
  */
  lemma {:induction false} ChangePasswordCommit(s: Store, conf: Configuration, lib: Library, username: string,
      oldPassword: string, newPassword: string, newSalt: Salt)
    requires Consistent(s)
    ensures var step := ChangePasswordStep(s, conf, lib, username, oldPassword, newPassword, newSalt);
            var after := Apply(s, step.changes);
      && Consistent(after)
      && after.reservations == s.reservations
      && (step.result.Ok? ==>
            exists id :: Registered(s, id, Trim(username, lib.isWhiteSpace), conf.applicationName) && after.users ==
              s.users[id := s.users[id].(passwordSalt := newSalt, passwordHash := lib.hashPassword(newPassword, newSalt))])
      && (step.result.Err? ==> after == s)
  {
    var step := ChangePasswordStep(s, conf, lib, username, oldPassword, newPassword, newSalt);
    if step.result.Ok? {
      var id := Named(s, Trim(username, lib.isWhiteSpace), conf.applicationName)[0];
      assert Registered(s, id, Trim(username, lib.isWhiteSpace), conf.applicationName);
      var rehashed := s.users[id].(passwordSalt := newSalt, passwordHash := lib.hashPassword(newPassword, newSalt));
      ApplyRewrite(s, id, rehashed);
      ReplaceUserKeepsConsistent(s, id, rehashed);
    } else {
      ApplyNoChanges(s);
    }
  }

  /**
    ChangePassword keeps the invariant and touches no reservation; when it
    succeeds, exactly one user gets the fresh salt and the hash of the
    checked new password, and no other user or field changes.
  */
  lemma {:induction false} ChangePasswordEffect(s: Store, conf: Configuration, lib: Library, username: string,
      oldPassword: string, newPassword: string, newSalt: Salt)
    requires Consistent(s)
    ensures var o := ChangePasswordOutcome(s, conf, lib, username, oldPassword, newPassword, newSalt);
      && Consistent(o.store)
      && o.store.reservations == s.reservations
      && (o.value != Ok(true) ==> o.store == s)
      && (o.value == Ok(true) ==>
            var u := CheckParameter(lib, username, true, true, true, 0x100, "username");
            var n := CheckParameter(lib, newPassword, true, true, false, 0x80, "newPassword");
            u.Ok? && n.Ok? &&
            exists id :: Registered(s, id, Trim(u.value, lib.isWhiteSpace), conf.applicationName) && o.store.users ==
              s.users[id := s.users[id].(passwordSalt := newSalt, passwordHash := lib.hashPassword(n.value, newSalt))])
  {
    var o := ChangePasswordOutcome(s, conf, lib, username, oldPassword, newPassword, newSalt);
    var step := ValidatedChangePassword(s, conf, conf, lib, username, oldPassword, newPassword, newSalt);
    if o.value == Ok(true) {
      var u := CheckParameter(lib, username, true, true, true, 0x100, "username");
      var old' := CheckParameter(lib, oldPassword, true, true, false, 0x80, "oldPassword");
      var n := CheckParameter(lib, newPassword, true, true, false, 0x80, "newPassword");
      assert step == ChangePasswordStep(s, conf, lib, u.value, old'.value, n.value, newSalt);
      ChangePasswordCommit(s, conf, lib, u.value, old'.value, n.value, newSalt);
    } else if o.value.Ok? {
      ApplyNoChanges(s);
    }
  }

  /** CheckPassword: the arguments are trimmed, the service checks them, the session is committed unless it threw. */
  function CheckPasswordOutcome(s: Store, conf: Configuration, lib: Library, username: string, password: string,
                                updateLastLogin: bool, now: Time): (o: Outcome<Result<bool>>)
    ensures var step := CheckPasswordStep(s, conf, lib, Trim(username, lib.isWhiteSpace),
                                          Trim(password, lib.isWhiteSpace), updateLastLogin, now);
      && o.value == step.result
      && (o.value.Err? ==> o.store == s)
      && (o.value.Ok? ==> o.store == Apply(s, step.changes))
  {
    var step := CheckPasswordStep(s, conf, lib, Trim(username, lib.isWhiteSpace),
                                  Trim(password, lib.isWhiteSpace), updateLastLogin, now);
    if step.result.Err? then Outcome(step.result, s)
    else Outcome(step.result, Commit(s, step.changes, false).value)
  }

  /** The provider's own trimming is absorbed by the service's: trimming twice is trimming once. */
  lemma CheckPasswordTrimmedOnce(s: Store, conf: Configuration, lib: Library, username: string, password: string,
                                 updateLastLogin: bool, now: Time)
    ensures CheckPasswordStep(s, conf, lib, Trim(username, lib.isWhiteSpace), Trim(password, lib.isWhiteSpace),
                              updateLastLogin, now)
         == CheckPasswordStep(s, conf, lib, username, password, updateLastLogin, now)
  {
    TrimIdempotent(username, lib.isWhiteSpace);
    TrimIdempotent(password, lib.isWhiteSpace);
  }

  /**
    Committing what CheckPassword staged keeps the invariant and the
    reservations; it stamps DateLastLogin on one user after a successful
    check that asked for it, and changes nothing otherwise.
  */
  lemma {:induction false} CheckPasswordCommit(s: Store, conf: Configuration, lib: Library, username: string,
      password: string, updateLastLogin: bool, now: Time)
    requires Consistent(s)
    ensures var step := CheckPasswordStep(s, conf, lib, username, password, updateLastLogin, now);
            var after := Apply(s, step.changes);
      && Consistent(after)
      && after.reservations == s.reservations
      && (step.result == Ok(true) && updateLastLogin ==>
            exists id :: Registered(s, id, Trim(username, lib.isWhiteSpace), conf.applicationName) &&
                         after.users == s.users[id := s.users[id].(dateLastLogin := Some(now))])
      && (step.result != Ok(true) || !updateLastLogin ==> after == s)
  {
    var step := CheckPasswordStep(s, conf, lib, username, password, updateLastLogin, now);
    if step.result == Ok(true) && updateLastLogin {
      var id := Named(s, Trim(username, lib.isWhiteSpace), conf.applicationName)[0];
      assert Registered(s, id, Trim(username, lib.isWhiteSpace), conf.applicationName);
      var stamped := s.users[id].(dateLastLogin := Some(now));
      assert step.changes == Rewrite(id, stamped);
      ApplyRewrite(s, id, stamped);
      ReplaceUserKeepsConsistent(s, id, stamped);
    } else {
      assert step.changes == NoChanges;
      ApplyNoChanges(s);
    }
  }

  /**
    The provider's CheckPassword gives the service's verdict on the caller's
    own arguments, and the only change it commits is the DateLastLogin stamp
    of a successful login.
  */
  lemma {:induction false} CheckPasswordEffect(s: Store, conf: Configuration, lib: Library, username: string,
      password: string, updateLastLogin: bool, now: Time)
    requires Consistent(s)
    ensures var o := CheckPasswordOutcome(s, conf, lib, username, password, updateLastLogin, now);
      && o.value == CheckPasswordStep(s, conf, lib, username, password, updateLastLogin, now).result
      && Consistent(o.store)
      && o.store.reservations == s.reservations
      && (o.value == Ok(true) && updateLastLogin ==>
            exists id :: Registered(s, id, Trim(username, lib.isWhiteSpace), conf.applicationName) &&
                         o.store.users == s.users[id := s.users[id].(dateLastLogin := Some(now))])
      && (o.value != Ok(true) || !updateLastLogin ==> o.store == s)
  {
    CheckPasswordTrimmedOnce(s, conf, lib, username, password, updateLastLogin, now);
    CheckPasswordCommit(s, conf, lib, Trim(username, lib.isWhiteSpace), Trim(password, lib.isWhiteSpace),
                        updateLastLogin, now);
  }

  /** DeleteUser: true only after the service said true and the session was committed; any exception gives false. */
  function DeleteUserOutcome(s: Store, conf: Configuration, lib: Library, username: string): (o: Outcome<bool>)
    ensures var step := ValidatedDeleteUser(s, conf, lib, username);
      && (o.value <==> step.result == Ok(true))
      && (o.value ==> o.store == Apply(s, step.changes))
      && (!o.value ==> o.store == s)
  {
    var step := ValidatedDeleteUser(s, conf, lib, username);
    if step.result == Ok(true) then Outcome(true, Commit(s, step.changes, false).value)
    else Outcome(false, s)
  }

  /**
    In a consistent store DeleteUser returns true exactly when a user with
    the checked username exists in the application; it then removes that
    user and both of its reservations, and the invariant holds afterwards.
  */
  lemma {:induction false} DeleteUserEffect(s: Store, conf: Configuration, lib: Library, username: string)
    requires Consistent(s)
    ensures var o := DeleteUserOutcome(s, conf, lib, username);
            var u := CheckParameter(lib, username, true, true, true, 0x100, "username");
      && Consistent(o.store)
      && (o.value <==> u.Ok? && exists id :: Registered(s, id, u.value, conf.applicationName))
      && (o.value ==>
            exists id :: Registered(s, id, u.value, conf.applicationName) &&
              o.store == Store(s.users - {id},
                               s.reservations - {UsernameKey(s.users[id].username), EmailKey(s.users[id].email)}))
      && (!o.value ==> o.store == s)
  {
    var o := DeleteUserOutcome(s, conf, lib, username);
    var u := CheckParameter(lib, username, true, true, true, 0x100, "username");
    if u.Ok? {
      DeleteUserVerdict(s, conf, u.value);
      if o.value {
        var found := Named(s, u.value, conf.applicationName);
        var id := found[0];
        assert Registered(s, id, u.value, conf.applicationName);
        ApplyDeletion(s, id, s.users[id]);
        RemoveUserKeepsConsistent(s, id);
      }
    }
  }

  // ---------------------------------------------------------------------
  // ResetPassword

  const ResetNotFound: string := "The user to reset the password for could not be found."

  /**
    ResetPassword: look the user up by the username as given, give it a
    fresh salt and the hash of the generated password, commit, and return
    the generated password. Every exception is rethrown.
  */
  function ResetPasswordOutcome(s: Store, conf: Configuration, lib: Library, username: string,
                                newPassword: string, newSalt: Salt): (o: Outcome<Result<string>>)
    ensures var found := Named(s, username, conf.applicationName);
      && (o.value.Ok? <==> |found| == 1)
      && (found == [] ==> o.value == Err(GeneralException(ResetNotFound)))
      && (o.value.Err? ==> o.store == s)
      && (o.value.Ok? ==>
            o.value.value == newPassword &&
            o.store == Store(s.users[found[0] := s.users[found[0]].(passwordSalt := newSalt,
                                                                    passwordHash := lib.hashPassword(newPassword, newSalt))],
                             s.reservations))
  {
    match Lookup(s, conf, username)
    case Err(e) => Outcome(Err(e), s)
    case Ok(None) => Outcome(Err(GeneralException(ResetNotFound)), s)
    case Ok(Some(id)) =>
      var salted := s.users[id].(passwordSalt := newSalt);
      var user := salted.(passwordHash := lib.hashPassword(newPassword, salted.passwordSalt));
      ApplyRewrite(s, id, user);
      Outcome(Ok(newPassword), Commit(s, Rewrite(id, user), false).value)
  }

  /**
    ResetPassword keeps the invariant, and the password it hands out works:
    for a username and a generated password with no surrounding white space,
    CheckPassword afterwards returns true.
  */
  lemma {:induction false} ResetThenCheckPassword(s: Store, conf: Configuration, lib: Library, username: string,
      newPassword: string, newSalt: Salt, updateLastLogin: bool, now: Time)
    requires Consistent(s)
    requires Trim(username, lib.isWhiteSpace) == username && Trim(newPassword, lib.isWhiteSpace) == newPassword
    ensures var o := ResetPasswordOutcome(s, conf, lib, username, newPassword, newSalt);
      && Consistent(o.store)
      && (o.value.Ok? ==>
            CheckPasswordOutcome(o.store, conf, lib, username, o.value.value, updateLastLogin, now).value == Ok(true))
  {
    var o := ResetPasswordOutcome(s, conf, lib, username, newPassword, newSalt);
    if o.value.Ok? {
      var id := Named(s, username, conf.applicationName)[0];
      var after := s.users[id].(passwordSalt := newSalt, passwordHash := lib.hashPassword(newPassword, newSalt));
      ReplaceUserKeepsConsistent(s, id, after);
      CheckPasswordEffect(o.store, conf, lib, username, newPassword, updateLastLogin, now);
      CheckPasswordVerdict(o.store, conf, lib, username, newPassword, updateLastLogin, now);
      assert Registered(o.store, id, Trim(username, lib.isWhiteSpace), conf.applicationName);
      assert PasswordMatches(lib, o.store.users[id], Trim(newPassword, lib.isWhiteSpace));
    }
  }

  // ---------------------------------------------------------------------
  // UpdateUser

  /** The fields of a MembershipUser that UpdateUser reads. */
  datatype UserUpdate = UserUpdate(userName: string, email: string, creationDate: Time, lastLoginDate: Time)

  const UpdateNotFound: string := "The user to update could not be found."

  /**
    The body of UpdateUser's try block up to SaveChanges: find the stored
    user by the update's UserName, swap the email reservation when the email
    changes, and copy UserName, Email, CreationDate and LastLoginDate onto
    the stored record. The username reservation is never staged.
  */
  function UpdateStep(s: Store, conf: Configuration, userName: string, email: string,
                      creationDate: Time, lastLoginDate: Time): (r: Step<()>)
    ensures var found := Named(s, userName, conf.applicationName);
      && (found == [] ==> r == Step(Err(GeneralException(UpdateNotFound)), NoChanges))
      && (r.result.Ok? <==>
            (|found| == 1 &&
             (s.users[found[0]].email == email || EmailKey(s.users[found[0]].email) in s.reservations)))
      && (r.result.Ok? ==>
            var id := found[0];
            var was := s.users[id];
            && r.changes.deletes == {}
            && r.changes.puts.Keys == {id}
            && r.changes.puts[id].username == userName
            && r.changes.puts[id].email == email
            && r.changes.puts[id].dateCreated == creationDate
            && r.changes.puts[id].dateLastLogin == Some(lastLoginDate)
            && r.changes.puts[id].passwordHash == was.passwordHash
            && r.changes.puts[id].passwordSalt == was.passwordSalt
            && r.changes.puts[id].applicationName == was.applicationName
            && (was.email == email ==> r.changes.newKeys == [] && r.changes.deletedKeys == {})
            && (was.email != email ==>
                  r.changes.newKeys == [EmailKey(email)] && r.changes.deletedKeys == {EmailKey(was.email)}))
  {
    match Lookup(s, conf, userName)
    case Err(e) => Step(Err(e), NoChanges)
    case Ok(None) => Step(Err(GeneralException(UpdateNotFound)), NoChanges)
    case Ok(Some(id)) =>
      var was := s.users[id];
      var copied := was.(username := userName, email := email, dateCreated := creationDate,
                         dateLastLogin := Some(lastLoginDate));
      if was.email == email then Step(Ok(()), Rewrite(id, copied))
      else if EmailKey(was.email) !in s.reservations then Step(Err(ArgumentNullException("entity")), NoChanges)
      else Step(Ok(()), Changes(map[id := copied], {}, [EmailKey(email)], {EmailKey(was.email)}))
  }

  /** UpdateUser's catch clause: a conflict classified as DuplicateEmail becomes a ProviderException; anything else is rethrown. */
  function UpdateConflict(userName: string, email: string, e: Exception): (r: Exception)
    ensures r == ProviderException <==>
      e == ProviderException ||
      (e.ConcurrencyException? && InterpretConcurrencyException(userName, email, e.message) == DuplicateEmail)
    ensures r != ProviderException ==> r == e
  {
    if e.ConcurrencyException? && InterpretConcurrencyException(userName, email, e.message) == DuplicateEmail
    then ProviderException
    else e
  }

  /**
    UpdateUser: the null check and the parameter checks (the checked email is
    written back, the checked username is not), then the try block on an
    optimistic session and its commit.
  */
  function UpdateUserOutcome(s: Store, conf: Configuration, lib: Library, user: Option<UserUpdate>): (o: Outcome<Result<()>>)
    ensures user.None? ==> o == Outcome(Err(ArgumentNullException("user")), s)
    ensures o.value.Err? ==> o.store == s
    ensures o.value.Ok? ==>
      && user.Some?
      && CheckParameter(lib, user.value.userName, true, true, true, 0x100, "UserName").Ok?
      && var email := CheckParameter(lib, user.value.email, conf.requiresUniqueEmail, conf.requiresUniqueEmail,
                                     false, 0x100, "Email");
         && email.Ok?
         && var step := UpdateStep(s, conf, user.value.userName, email.value, user.value.creationDate,
                                   user.value.lastLoginDate);
            step.result.Ok? && Commit(s, step.changes, true).Ok? && o.store == Apply(s, step.changes)
    ensures user.Some? ==>
      var name := CheckParameter(lib, user.value.userName, true, true, true, 0x100, "UserName");
      var email := CheckParameter(lib, user.value.email, conf.requiresUniqueEmail, conf.requiresUniqueEmail,
                                  false, 0x100, "Email");
      && (name.Err? ==> o.value == Err(name.error))
      && (name.Ok? && email.Err? ==> o.value == Err(email.error))
      && (name.Ok? && email.Ok? ==>
            var step := UpdateStep(s, conf, user.value.userName, email.value, user.value.creationDate,
                                   user.value.lastLoginDate);
            var saved := Commit(s, step.changes, true);
            && (step.result.Err? ==> o.value == Err(step.result.error))
            && (step.result.Ok? && saved.Ok? ==> o.value == Ok(()))
            && (step.result.Ok? && saved.Err? ==>
                  o.value == Err(UpdateConflict(user.value.userName, email.value, saved.error))))
  {
    match user
    case None => Outcome(Err(ArgumentNullException("user")), s)
    case Some(u) =>
      match CheckParameter(lib, u.userName, true, true, true, 0x100, "UserName")
      case Err(e) => Outcome(Err(e), s)
      case Ok(_) =>
        match CheckParameter(lib, u.email, conf.requiresUniqueEmail, conf.requiresUniqueEmail, false, 0x100, "Email")
        case Err(e) => Outcome(Err(e), s)
        case Ok(email) =>
          var step := UpdateStep(s, conf, u.userName, email, u.creationDate, u.lastLoginDate);
          if step.result.Err? then Outcome(step.result, s)
          else match Commit(s, step.changes, true)
            case Ok(after) => Outcome(Ok(()), after)
            case Err(e) => Outcome(Err(UpdateConflict(u.userName, email, e)), s)
  }

  /** Committing an email swap moves the reservation from the old email to the new one. */
  lemma ApplyEmailSwap(s: Store, id: Id, u: User, oldEmail: string)
    ensures Apply(s, Changes(map[id := u], {}, [EmailKey(u.email)], {EmailKey(oldEmail)}))
         == Store(s.users[id := u], (s.reservations - {EmailKey(oldEmail)}) + {EmailKey(u.email)})
  {
    assert (set k | k in [EmailKey(u.email)]) == {EmailKey(u.email)};
  }

  /**
    Committing a successful UpdateStep keeps the invariant and the set of
    users: the username is matched exactly, so it does not change, and a
    changed email moves its reservation, which the optimistic commit only
    allows when the new email is free.
  */
  lemma {:induction false} UpdateCommit(s: Store, conf: Configuration, userName: string, email: string,
                                        creationDate: Time, lastLoginDate: Time)
    requires Consistent(s)
    requires var step := UpdateStep(s, conf, userName, email, creationDate, lastLoginDate);
      step.result.Ok? && Commit(s, step.changes, true).Ok?
    ensures var after := Apply(s, UpdateStep(s, conf, userName, email, creationDate, lastLoginDate).changes);
      Consistent(after) && after.users.Keys == s.users.Keys
  {
    var step := UpdateStep(s, conf, userName, email, creationDate, lastLoginDate);
    var id := Lookup(s, conf, userName).value.value;
    var was := s.users[id];
    var copied := was.(username := userName, email := email, dateCreated := creationDate,
                       dateLastLogin := Some(lastLoginDate));
    if was.email == email {
      assert step.changes == Rewrite(id, copied);
      ApplyRewrite(s, id, copied);
      ReplaceUserKeepsConsistent(s, id, copied);
    } else {
      var swap := Changes(map[id := copied], {}, [EmailKey(email)], {EmailKey(was.email)});
      assert step.changes == swap;
      ApplyEmailSwap(s, id, copied, was.email);
      ChangeEmailKeepsConsistent(s, id, copied);
    }
  }

  /** UpdateUser keeps the invariant, and a successful update neither adds nor removes a user. */
  lemma {:induction false} UpdateUserKeepsConsistent(s: Store, conf: Configuration, lib: Library, user: Option<UserUpdate>)
    requires Consistent(s)
    ensures var o := UpdateUserOutcome(s, conf, lib, user);
      Consistent(o.store) && (o.value.Ok? ==> o.store.users.Keys == s.users.Keys)
  {
    var o := UpdateUserOutcome(s, conf, lib, user);
    if o.value.Ok? {
      var u := user.value;
      var email := CheckParameter(lib, u.email, conf.requiresUniqueEmail, conf.requiresUniqueEmail, false, 0x100, "Email").value;
      UpdateCommit(s, conf, u.userName, email, u.creationDate, u.lastLoginDate);
    }
  }

  /**
    Changing a user's email to one that is already reserved commits nothing
    and fails with the conflict on the new email's reservation, which is
    reported as a ProviderException unless its message also names the
    user's username reservation.
  */
  lemma {:induction false} UpdateToTakenEmail(s: Store, conf: Configuration, lib: Library, user: UserUpdate, id: Id)
    requires DistinctClaims(s.users)
    requires CheckParameter(lib, user.userName, true, true, true, 0x100, "UserName").Ok?
    requires CheckParameter(lib, user.email, conf.requiresUniqueEmail, conf.requiresUniqueEmail, false, 0x100, "Email") == Ok(user.email)
    requires Registered(s, id, user.userName, conf.applicationName)
    requires s.users[id].email != user.email && EmailKey(s.users[id].email) in s.reservations
    requires EmailKey(user.email) in s.reservations
    ensures var o := UpdateUserOutcome(s, conf, lib, Some(user));
      && o.store == s
      && o.value == Err(UpdateConflict(user.userName, user.email,
                                       ConcurrencyException(ConflictMessage(EmailKey(user.email)))))
      && (!Contains(ConflictMessage(EmailKey(user.email)), UsernameKey(user.userName)) ==>
            o.value == Err(ProviderException))
  {
    FoundIffExists(s, user.userName, conf.applicationName, id);
    var step := UpdateStep(s, conf, user.userName, user.email, user.creationDate, user.lastLoginDate);
    assert step.changes.newKeys == [EmailKey(user.email)];
    assert Commit(s, step.changes, true) == Err(ConcurrencyException(ConflictMessage(EmailKey(user.email))));
    ConflictMessageNamesKey(EmailKey(user.email));
  }

  // ---------------------------------------------------------------------
  // FindUsers

  /** A C# int. */
  type Int32 = x: int | -0x8000_0000 <= x < 0x8000_0000

  /** C#'s unchecked arithmetic: the Int32 congruent to `x` modulo 2^32. */
  function WrapInt32(x: int): (r: Int32)
    ensures -0x8000_0000 <= x < 0x8000_0000 ==> r == x
    ensures (x - r) % 0x1_0000_0000 == 0
  {
    var q := (x + 0x8000_0000) / 0x1_0000_0000;
    assert x - ((x + 0x8000_0000) % 0x1_0000_0000 - 0x8000_0000) == q * 0x1_0000_0000;
    (x + 0x8000_0000) % 0x1_0000_0000 - 0x8000_0000
  }

  /** Enumerable.Skip: a non-positive count skips nothing. */
  function Skip<T>(xs: seq<T>, count: int): (r: seq<T>)
    ensures |r| == if count <= 0 then |xs| else if count >= |xs| then 0 else |xs| - count
    ensures forall i :: 0 <= i < |r| ==> r[i] == xs[i + (if count <= 0 then 0 else count)]
  {
    if count <= 0 then xs else if count >= |xs| then [] else xs[count..]
  }

  /** Enumerable.Take: a non-positive count takes nothing. */
  function Take<T>(xs: seq<T>, count: int): (r: seq<T>)
    ensures |r| == if count <= 0 then 0 else if count >= |xs| then |xs| else count
    ensures forall i :: 0 <= i < |r| ==> r[i] == xs[i]
  {
    if count <= 0 then [] else if count >= |xs| then xs else xs[..count]
  }

  /** The users of the application that pass the filter (every user when there is none), in query order. */
  function Matching(s: Store, conf: Configuration, filter: Option<User -> bool>): (r: seq<Id>)
    ensures forall x :: x in r <==>
      x in s.users && s.users[x].applicationName == conf.applicationName &&
      (filter.None? || filter.value(s.users[x]))
    ensures Increasing(r)
  {
    Query(s, (u: User) => u.applicationName == conf.applicationName && (filter.None? || filter.value(u)))
  }

  /** The ids on the page FindUsers returns: Skip(pageIndex * pageSize).Take(pageSize), in C# arithmetic. */
  function PageOf(ids: seq<Id>, pageIndex: Int32, pageSize: Int32): seq<Id> {
    Take(Skip(ids, WrapInt32(pageIndex * pageSize)), pageSize)
  }

  /** The ids a query result holds. */
  ghost function Elements(ids: seq<Id>): set<Id> {
    set x | x in ids
  }

  /** The users of the application that pass the filter, as a set of ids. */
  ghost function Matches(s: Store, conf: Configuration, filter: Option<User -> bool>): set<Id> {
    set id | id in s.users && s.users[id].applicationName == conf.applicationName &&
             (filter.None? || filter.value(s.users[id]))
  }

  /** FindUsersByEmail's filter: `u.Email.Contains(emailToMatch)`. */
  function ByEmail(emailToMatch: string): User -> bool {
    (u: User) => Contains(u.email, emailToMatch)
  }

  /** FindUsersByName's filter: `u.Username.Contains(usernameToMatch)`. */
  function ByName(usernameToMatch: string): User -> bool {
    (u: User) => Contains(u.username, usernameToMatch)
  }

  /** A strictly increasing sequence has as many elements as the set of its elements. */
  lemma {:induction false} IncreasingCount(ids: seq<Id>)
    requires Increasing(ids)
    ensures |ids| == |Elements(ids)|
  {
    if ids != [] {
      var rest := ids[1..];
      HeadBelowTail(ids, []);
      IncreasingCount(rest);
      forall x | x in Elements(ids) ensures x in Elements(rest) + {ids[0]} {
        var i :| 0 <= i < |ids| && ids[i] == x;
        if i > 0 {
          assert rest[i - 1] == x;
        }
      }
      forall x | x in Elements(rest) + {ids[0]} ensures x in Elements(ids) {
        if x != ids[0] {
          var k :| 0 <= k < |rest| && rest[k] == x;
          assert ids[k + 1] == x;
        }
      }
      assert ids[0] !in Elements(rest) by {
        forall k | 0 <= k < |rest| ensures rest[k] != ids[0] {
          assert rest[k] == ids[k + 1];
        }
      }
      assert Elements(ids) == Elements(rest) + {ids[0]};
    }
  }

  /** FindUsers' totalRecords counts the matching users. */
  lemma MatchingCount(s: Store, conf: Configuration, filter: Option<User -> bool>)
    ensures |Matching(s, conf, filter)| == |Matches(s, conf, filter)|
  {
    var all := Matching(s, conf, filter);
    IncreasingCount(all);
    assert Elements(all) == Matches(s, conf, filter);
  }

  /** Every id on a page is a matching user. */
  lemma PageMatches(s: Store, conf: Configuration, filter: Option<User -> bool>, pageIndex: Int32, pageSize: Int32)
    ensures var page := PageOf(Matching(s, conf, filter), pageIndex, pageSize);
      forall i :: 0 <= i < |page| ==>
        && page[i] in s.users
        && s.users[page[i]].applicationName == conf.applicationName
        && (filter.None? || filter.value(s.users[page[i]]))
  {
    var all := Matching(s, conf, filter);
    PageBounds(all, pageIndex, pageSize);
  }

  /**
    A page holds at most pageSize ids, all taken from the query result; when
    pageIndex * pageSize fits in an int it is the run starting at that offset.
  */
  lemma PageBounds(all: seq<Id>, pageIndex: Int32, pageSize: Int32)
    ensures var page := PageOf(all, pageIndex, pageSize);
      && |page| <= (if pageSize <= 0 then 0 else pageSize)
      && (forall i :: 0 <= i < |page| ==> page[i] in all)
      && (0 <= pageIndex * pageSize < 0x8000_0000 ==>
            forall i :: 0 <= i < |page| ==> page[i] == all[pageIndex * pageSize + i])
  {
    var skipped := Skip(all, WrapInt32(pageIndex * pageSize));
    var page := Take(skipped, pageSize);
    forall i | 0 <= i < |page| ensures page[i] in all {
      assert page[i] == skipped[i];
    }
  }

  // ---------------------------------------------------------------------
  // The provider object

  /**
    RavenDBMembershipProvider over a document store. The provider is its own
    configuration: MinRequiredPasswordLength comes from Initialize (7 unless
    configured), and it requires no non-alphanumeric characters, no strength
    pattern and no unique email.
  */
  class MembershipProvider {
    const documentStore: DocumentStore
    const conf: Configuration
    const lib: Library

    constructor (documentStore: DocumentStore, lib: Library, minRequiredPasswordLength: int,
                 applicationName: string, onValidatingPassword: (string, string, bool) -> HookOutcome)
      ensures this.documentStore == documentStore && this.lib == lib
      ensures conf.minRequiredPasswordLength == minRequiredPasswordLength
      ensures conf.minRequiredNonAlphanumericCharacters == 0
      ensures conf.passwordStrengthRegularExpression == ""
      ensures !conf.requiresUniqueEmail
      ensures conf.applicationName == applicationName && conf.onValidatingPassword == onValidatingPassword
    {
      this.documentStore := documentStore;
      this.lib := lib;
      this.conf := new Configuration(minRequiredPasswordLength, 0, "", false, applicationName, onValidatingPassword);
    }

    /** Service(session): the validation layer over a user service, both configured by this provider. */
    method Service(session: DocumentSession) returns (v: UserValidations)
      ensures fresh(v) && fresh(v.service)
      ensures v.conf == conf && v.service.conf == conf && v.service.lib == lib && v.service.session == session
    {
      var service := new UserService(session, conf, lib);
      v := new UserValidations(service, conf);
    }

    method ChangePassword(username: string, oldPassword: string, newPassword: string, newSalt: Salt)
      returns (r: Result<bool>)
      requires documentStore.Valid()
      modifies documentStore
      ensures documentStore.Valid() && documentStore.nextId == old(documentStore.nextId)
      ensures var o := ChangePasswordOutcome(old(documentStore.state), conf, lib, username, oldPassword, newPassword, newSalt);
        r == o.value && documentStore.state == o.store
    {
      ghost var step := ValidatedChangePassword(documentStore.state, conf, conf, lib, username, oldPassword,
                                                newPassword, newSalt);
      var session := new DocumentSession(documentStore);
      var service := Service(session);
      var success := service.ChangePassword(username, oldPassword, newPassword, newSalt);
      MergeNoChanges(step.changes);
      assert success == step.result && session.pending == step.changes;
      if success.Err? {
        return success;
      }
      var saved := session.SaveChanges();
      match saved
      case Ok(_) => r := success;
      case Err(e) => r := Err(e);
    }

    /** CreateUser; MembershipUser construction is replaced by the stored User. */
    method CreateUser(username: string, password: string, email: string, salt: Salt, now: Time)
      returns (r: Creation)
      requires documentStore.Valid()
      modifies documentStore
      ensures documentStore.Valid() && documentStore.nextId >= old(documentStore.nextId)
      ensures var o := CreateUserOutcome(old(documentStore.state), conf, lib, username, password, email, salt, now,
                                         old(documentStore.nextId));
        r == o.value && documentStore.state == o.store
    {
      ghost var step := ValidatedCreateUser(documentStore.state, conf, conf, lib, username, password, email, salt, now,
                                            documentStore.nextId);
      var session := new DocumentSession(documentStore);
      session.optimistic := true;
      var service := Service(session);
      var created := service.CreateUser(username, password, email, salt, now);
      MergeNoChanges(step.changes);
      assert created == step.result && session.pending == step.changes && session.optimistic;
      match created
      case Err(e) =>
        r := Creation(None, CreateFailureStatus(username, email, e));
      case Ok(c) =>
        if c.status == Success {
          ghost var committed := Commit(documentStore.state, step.changes, true);
          var saved := session.SaveChanges();
          match saved
          case Ok(_) =>
            assert committed.Ok? && documentStore.state == committed.value;
            r := c;
          case Err(e) =>
            assert committed == Err(e);
            r := Creation(None, CreateFailureStatus(username, email, e));
        } else {
          r := Creation(None, c.status);
        }
    }

    method DeleteUser(username: string, deleteAllRelatedData: bool) returns (r: bool)
      requires documentStore.Valid()
      modifies documentStore
      ensures documentStore.Valid() && documentStore.nextId == old(documentStore.nextId)
      ensures var o := DeleteUserOutcome(old(documentStore.state), conf, lib, username);
        r == o.value && documentStore.state == o.store
    {
      ghost var step := ValidatedDeleteUser(documentStore.state, conf, lib, username);
      var session := new DocumentSession(documentStore);
      var service := Service(session);
      var deleted := service.DeleteUser(username, deleteAllRelatedData);
      MergeNoChanges(step.changes);
      assert deleted == step.result && session.pending == step.changes;
      if deleted == Ok(true) {
        var saved := session.SaveChanges();
        return saved.Ok?;
      }
      r := false;
    }

    /** CheckPassword; `now` is the reading of DateTime.Now. */
    method CheckPassword(username: string, password: string, updateLastLogin: bool, now: Time)
      returns (r: Result<bool>)
      requires documentStore.Valid()
      modifies documentStore
      ensures documentStore.Valid() && documentStore.nextId == old(documentStore.nextId)
      ensures var o := CheckPasswordOutcome(old(documentStore.state), conf, lib, username, password, updateLastLogin, now);
        r == o.value && documentStore.state == o.store
    {
      var name := Trim(username, lib.isWhiteSpace);
      var pw := Trim(password, lib.isWhiteSpace);
      ghost var step := CheckPasswordStep(documentStore.state, conf, lib, name, pw, updateLastLogin, now);
      var session := new DocumentSession(documentStore);
      var success := StageCheckPassword(session, name, pw, updateLastLogin, now);
      MergeNoChanges(step.changes);
      assert success == step.result && session.pending == step.changes && !session.optimistic;
      if success.Err? {
        return success;
      }
      ghost var committed := Commit(documentStore.state, step.changes, false);
      assert committed.Ok?;
      var saved := session.SaveChanges();
      assert saved.Ok? && documentStore.state == committed.value;
      r := success;
    }

    /** The decorated service's CheckPassword, on the given session. */
    method StageCheckPassword(session: DocumentSession, username: string, password: string,
                              updateLastLogin: bool, now: Time) returns (r: Result<bool>)
      requires session.Valid() && session.store == documentStore
      modifies session`pending
      ensures session.Valid()
      ensures var step := CheckPasswordStep(documentStore.state, conf, lib, username, password, updateLastLogin, now);
        r == step.result && session.pending == Merge(old(session.pending), step.changes)
    {
      var service := Service(session);
      r := service.CheckPassword(username, password, updateLastLogin, now);
    }

    /** ValidateUser: CheckPassword that stamps DateLastLogin. */
    method ValidateUser(username: string, password: string, now: Time) returns (r: Result<bool>)
      requires documentStore.Valid()
      modifies documentStore
      ensures documentStore.Valid() && documentStore.nextId == old(documentStore.nextId)
      ensures var o := CheckPasswordOutcome(old(documentStore.state), conf, lib, username, password, true, now);
        r == o.value && documentStore.state == o.store
    {
      var updateLastLogin := true;
      r := CheckPassword(username, password, updateLastLogin, now);
    }

    /**
      ResetPassword; `newPassword` is what Membership.GeneratePassword(8, 2)
      returned and `newSalt` what PasswordUtil.CreateRandomSalt returned. The
      password answer is not consulted.
    */
    method ResetPassword(username: string, answer: string, newPassword: string, newSalt: Salt)
      returns (r: Result<string>)
      requires documentStore.Valid()
      modifies documentStore
      ensures documentStore.Valid() && documentStore.nextId == old(documentStore.nextId)
      ensures var o := ResetPasswordOutcome(old(documentStore.state), conf, lib, username, newPassword, newSalt);
        r == o.value && documentStore.state == o.store
    {
      var session := new DocumentSession(documentStore);
      var q := Lookup(documentStore.state, conf, username);
      if q.Err? {
        return Err(q.error);
      }
      if q.value.None? {
        return Err(GeneralException(ResetNotFound));
      }
      var id := q.value.value;
      var user := documentStore.state.users[id];
      user := user.(passwordSalt := newSalt);
      user := user.(passwordHash := lib.hashPassword(newPassword, user.passwordSalt));
      session.Put(id, user);
      MergeRewrite(NoChanges, id, user);
      MergeNoChanges(Rewrite(id, user));
      var saved := session.SaveChanges();
      match saved
      case Ok(_) => r := Ok(newPassword);
      case Err(e) => r := Err(e);
    }

    /**
      UpdateUser's try block up to SaveChanges, on the given session: find
      the stored user, swap the email reservation when the email changes,
      and copy the update's fields onto the stored record.
    */
    method StageUpdate(session: DocumentSession, u: UserUpdate) returns (r: Result<()>)
      requires session.Valid() && session.store == documentStore
      modifies session`pending
      ensures session.Valid()
      ensures var step := UpdateStep(documentStore.state, conf, u.userName, u.email, u.creationDate, u.lastLoginDate);
        r == step.result && session.pending == Merge(old(session.pending), step.changes)
    {
      MergeNoChanges(session.pending);
      var q := Lookup(documentStore.state, conf, u.userName);
      if q.Err? {
        return Err(q.error);
      }
      if q.value.None? {
        return Err(GeneralException(UpdateNotFound));
      }
      var id := q.value.value;
      var dbUser := documentStore.state.users[id];
      var originalEmail := dbUser.email;
      ghost var staged := session.pending;
      if originalEmail != u.email {
        var deleted := session.DeleteReservation(EmailKey(dbUser.email));
        if deleted.Err? {
          return Err(deleted.error);
        }
        session.StoreReservation(EmailKey(u.email));
      }
      dbUser := dbUser.(username := u.userName);
      dbUser := dbUser.(email := u.email);
      dbUser := dbUser.(dateCreated := u.creationDate);
      dbUser := dbUser.(dateLastLogin := Some(u.lastLoginDate));
      session.Put(id, dbUser);
      ghost var step := UpdateStep(documentStore.state, conf, u.userName, u.email, u.creationDate, u.lastLoginDate);
      if originalEmail != u.email {
        var swap := Changes(map[id := dbUser], {}, [EmailKey(u.email)], {EmailKey(originalEmail)});
        assert step == Step(Ok(()), swap);
        assert session.pending == Merge(staged, swap);
      } else {
        assert step == Step(Ok(()), Rewrite(id, dbUser));
        MergeRewrite(staged, id, dbUser);
      }
      r := Ok(());
    }

    method UpdateUser(user: Option<UserUpdate>) returns (r: Result<()>)
      requires documentStore.Valid()
      modifies documentStore
      ensures documentStore.Valid() && documentStore.nextId == old(documentStore.nextId)
      ensures var o := UpdateUserOutcome(old(documentStore.state), conf, lib, user);
        r == o.value && documentStore.state == o.store
    {
      if user.None? {
        return Err(ArgumentNullException("user"));
      }
      var u := user.value;
      var username := CheckParameter(lib, u.userName, true, true, true, 0x100, "UserName");
      if username.Err? {
        return Err(username.error);
      }
      var email := CheckParameter(lib, u.email, conf.requiresUniqueEmail, conf.requiresUniqueEmail, false, 0x100, "Email");
      if email.Err? {
        return Err(email.error);
      }
      u := u.(email := email.value);
      ghost var step := UpdateStep(documentStore.state, conf, u.userName, u.email, u.creationDate, u.lastLoginDate);
      var session := new DocumentSession(documentStore);
      session.optimistic := true;
      var staged := StageUpdate(session, u);
      MergeNoChanges(step.changes);
      if staged.Err? {
        return staged;
      }
      var saved := session.SaveChanges();
      match saved
      case Ok(_) => r := Ok(());
      case Err(e) => r := Err(UpdateConflict(u.userName, u.email, e));
    }

    /**
      FindUsers: count the users of the application that pass the filter,
      then copy the requested page of them, in query order.
    */
    method FindUsers(filter: Option<User -> bool>, pageIndex: Int32, pageSize: Int32)
      returns (users: seq<User>, totalRecords: int)
      requires documentStore.Valid()
      ensures totalRecords == |Matches(documentStore.state, conf, filter)|
      ensures var page := PageOf(Matching(documentStore.state, conf, filter), pageIndex, pageSize);
        && |users| == |page|
        && forall i :: 0 <= i < |users| ==> users[i] == documentStore.state.users[page[i]]
      ensures |users| <= (if pageSize <= 0 then 0 else pageSize)
      ensures forall u :: u in users ==>
        u.applicationName == conf.applicationName && (filter.None? || filter.value(u))
    {
      var session := new DocumentSession(documentStore);
      var state := documentStore.state;
      var results := Matching(state, conf, filter);
      MatchingCount(state, conf, filter);
      totalRecords := |results|;
      var pagedUsers := Take(Skip(results, WrapInt32(pageIndex * pageSize)), pageSize);
      PageBounds(results, pageIndex, pageSize);
      PageMatches(state, conf, filter, pageIndex, pageSize);
      users := CopyUsers(state, pagedUsers);
    }

    /** The foreach over the page: one user per id, in order. */
    method CopyUsers(state: Store, ids: seq<Id>) returns (users: seq<User>)
      requires forall k :: 0 <= k < |ids| ==> ids[k] in state.users
      ensures |users| == |ids| && forall k :: 0 <= k < |ids| ==> users[k] == state.users[ids[k]]
    {
      users := [];
      for i := 0 to |ids|
        invariant |users| == i
        invariant forall k :: 0 <= k < i ==> users[k] == state.users[ids[k]]
      {
        users := users + [state.users[ids[i]]];
      }
    }

    /** FindUsersByEmail: the users whose email contains `emailToMatch`. */
    method FindUsersByEmail(emailToMatch: string, pageIndex: Int32, pageSize: Int32)
      returns (users: seq<User>, totalRecords: int)
      requires documentStore.Valid()
      ensures totalRecords == |Matches(documentStore.state, conf, Some(ByEmail(emailToMatch)))|
      ensures forall u :: u in users ==> Contains(u.email, emailToMatch) && u.applicationName == conf.applicationName
      ensures |users| <= (if pageSize <= 0 then 0 else pageSize)
    {
      users, totalRecords := FindUsers(Some(ByEmail(emailToMatch)), pageIndex, pageSize);
    }

    /** FindUsersByName: the users whose username contains `usernameToMatch`. */
    method FindUsersByName(usernameToMatch: string, pageIndex: Int32, pageSize: Int32)
      returns (users: seq<User>, totalRecords: int)
      requires documentStore.Valid()
      ensures totalRecords == |Matches(documentStore.state, conf, Some(ByName(usernameToMatch)))|
      ensures forall u :: u in users ==> Contains(u.username, usernameToMatch) && u.applicationName == conf.applicationName
      ensures |users| <= (if pageSize <= 0 then 0 else pageSize)
    {
      users, totalRecords := FindUsers(Some(ByName(usernameToMatch)), pageIndex, pageSize);
    }

    /** GetAllUsers: FindUsers with no filter. */
    method GetAllUsers(pageIndex: Int32, pageSize: Int32) returns (users: seq<User>, totalRecords: int)
      requires documentStore.Valid()
      ensures totalRecords == |Matches(documentStore.state, conf, None)|
      ensures forall u :: u in users ==> u.applicationName == conf.applicationName
      ensures |users| <= (if pageSize <= 0 then 0 else pageSize)
    {
      users, totalRecords := FindUsers(None, pageIndex, pageSize);
    }
  }
}

/**
  RavenDBUserValidations: a decorator over the user service. Before it
  delegates, it runs a fixed chain of guards: SecUtility's parameter
  checks, the minimum length, the count of characters that are not
  letters or digits, the optional strength pattern and the
  OnValidatingPassword hook. On create, a failing guard becomes a status;
  on change-password it becomes an exception.
*/
module Validations {
  import opened Common
  import opened Documents
  import opened Service

  // ---------------------------------------------------------------------
  // Counting characters that are not letters or digits

  /** The positions below `n` where char.IsLetterOrDigit(s, i) is false. */
  ghost function NonAlphanumericPositions(lib: Library, s: string, n: nat): set<nat> {
    set i: nat | i < n && !lib.isLetterOrDigit(s, i)
  }

  /** How many of the first `n` characters of `s` are not letters or digits. */
  function NonAlphanumericCount(lib: Library, s: string, n: nat): (c: nat)
    requires n <= |s|
    ensures c == |NonAlphanumericPositions(lib, s, n)|
    ensures c <= n
  {
    if n == 0 then 0
    else
      var below := NonAlphanumericCount(lib, s, n - 1);
      assert NonAlphanumericPositions(lib, s, n) ==
        NonAlphanumericPositions(lib, s, n - 1) + (if lib.isLetterOrDigit(s, n - 1) then {} else {n - 1});
      below + if lib.isLetterOrDigit(s, n - 1) then 0 else 1
  }

  /** The counting loop of both guard chains. */
  method CountNonAlphanumeric(lib: Library, password: string) returns (num: int)
    ensures num == NonAlphanumericCount(lib, password, |password|)
    ensures num == |NonAlphanumericPositions(lib, password, |password|)|
  {
    num := 0;
    for i := 0 to |password|
      invariant num == NonAlphanumericCount(lib, password, i)
    {
      if !lib.isLetterOrDigit(password, i) {
        num := num + 1;
      }
    }
  }

  // ---------------------------------------------------------------------
  // The CreateUser guard chain

  /** SecUtility.ValidateParameter on each CreateUser argument, with the source's flags and limits. */
  function PasswordChecked(lib: Library, password: string): Checked {
    lib.validateParameter(password, true, true, false, 0x80)
  }

  function UsernameChecked(lib: Library, username: string): Checked {
    lib.validateParameter(username, true, true, true, 0x100)
  }

  function EmailChecked(conf: Configuration, lib: Library, email: string): Checked {
    lib.validateParameter(email, conf.requiresUniqueEmail, conf.requiresUniqueEmail, false, 0x100)
  }

  /** The strength pattern rejects `password`; an empty pattern is not consulted. */
  predicate PatternRejects(conf: Configuration, lib: Library, password: string) {
    |conf.passwordStrengthRegularExpression| > 0 && !lib.isMatch(password, conf.passwordStrengthRegularExpression)
  }

  /** The chain's verdict: the status of the first failing guard, or the arguments as rewritten by the checks. */
  datatype Verdict = Rejected(status: Status) | Accepted(username: string, password: string, email: string)

  /** The guard chain of CreateUser, in the source's order. */
  function CreateGuard(conf: Configuration, lib: Library, username: string, password: string, email: string): (v: Verdict)
    ensures v.Accepted? ==>
      v.username == UsernameChecked(lib, username).value &&
      v.password == PasswordChecked(lib, password).value &&
      v.email == EmailChecked(conf, lib, email).value
  {
    var p := PasswordChecked(lib, password);
    if !p.ok then Rejected(InvalidPassword)
    else
      var u := UsernameChecked(lib, username);
      if !u.ok then Rejected(InvalidUserName)
      else
        var e := EmailChecked(conf, lib, email);
        if !e.ok then Rejected(InvalidEmail)
        else if |p.value| < conf.minRequiredPasswordLength then Rejected(InvalidPassword)
        else if NonAlphanumericCount(lib, p.value, |p.value|) < conf.minRequiredNonAlphanumericCharacters then
          Rejected(InvalidPassword)
        else if PatternRejects(conf, lib, p.value) then Rejected(InvalidPassword)
        else if conf.onValidatingPassword(u.value, p.value, true).cancel then Rejected(InvalidPassword)
        else Accepted(u.value, p.value, e.value)
  }

  /** The guards of CreateUser, named. */
  datatype CreateCheck =
    | PasswordParameter | UsernameParameter | EmailParameter
    | MinimumLength | NonAlphanumeric | StrengthPattern | ValidatingHook

  /** The order in which CreateUser runs its guards. */
  const CreateChecks: seq<CreateCheck> :=
    [PasswordParameter, UsernameParameter, EmailParameter, MinimumLength, NonAlphanumeric, StrengthPattern, ValidatingHook]

  /** One guard, judged on its own. */
  predicate Fails(conf: Configuration, lib: Library, check: CreateCheck, username: string, password: string, email: string) {
    var p := PasswordChecked(lib, password);
    var u := UsernameChecked(lib, username);
    match check
    case PasswordParameter => !p.ok
    case UsernameParameter => !u.ok
    case EmailParameter => !EmailChecked(conf, lib, email).ok
    case MinimumLength => |p.value| < conf.minRequiredPasswordLength
    case NonAlphanumeric => NonAlphanumericCount(lib, p.value, |p.value|) < conf.minRequiredNonAlphanumericCharacters
    case StrengthPattern => PatternRejects(conf, lib, p.value)
    case ValidatingHook => conf.onValidatingPassword(u.value, p.value, true).cancel
  }

  /** The status each guard reports. */
  function StatusOf(check: CreateCheck): Status {
    match check
    case UsernameParameter => InvalidUserName
    case EmailParameter => InvalidEmail
    case _ => InvalidPassword
  }

  /** The index of the first guard of `checks` that fails, if any. */
  function FirstFailure(conf: Configuration, lib: Library, checks: seq<CreateCheck>,
                        username: string, password: string, email: string): (r: Option<nat>)
    ensures r.None? <==> forall i :: 0 <= i < |checks| ==> !Fails(conf, lib, checks[i], username, password, email)
    ensures r.Some? ==> r.value < |checks| && Fails(conf, lib, checks[r.value], username, password, email)
    ensures r.Some? ==> forall i :: 0 <= i < r.value ==> !Fails(conf, lib, checks[i], username, password, email)
  {
    if checks == [] then None
    else if Fails(conf, lib, checks[0], username, password, email) then Some(0)
    else match FirstFailure(conf, lib, checks[1..], username, password, email)
      case None => None
      case Some(k) => Some(k + 1)
  }

  /**
    The chain is "first failure wins": CreateUser rejects with the status of
    the first guard, in the fixed order, that fails, and accepts when none fails.
  */
  lemma {:induction false} CreateGuardIsFirstFailure(conf: Configuration, lib: Library,
                                                     username: string, password: string, email: string)
    ensures var v := CreateGuard(conf, lib, username, password, email);
      match FirstFailure(conf, lib, CreateChecks, username, password, email)
      case None => v.Accepted?
      case Some(i) => v == Rejected(StatusOf(CreateChecks[i]))
  {
    var r := FirstFailure(conf, lib, CreateChecks, username, password, email);
    var ks := CreateChecks;
    assert ks[0] == PasswordParameter && ks[1] == UsernameParameter && ks[2] == EmailParameter;
    assert ks[3] == MinimumLength && ks[4] == NonAlphanumeric && ks[5] == StrengthPattern && ks[6] == ValidatingHook;
    if Fails(conf, lib, ks[0], username, password, email) {
      assert r == Some(0);
    } else if Fails(conf, lib, ks[1], username, password, email) {
      assert r == Some(1);
    } else if Fails(conf, lib, ks[2], username, password, email) {
      assert r == Some(2);
    } else if Fails(conf, lib, ks[3], username, password, email) {
      assert r == Some(3);
    } else if Fails(conf, lib, ks[4], username, password, email) {
      assert r == Some(4);
    } else if Fails(conf, lib, ks[5], username, password, email) {
      assert r == Some(5);
    } else if Fails(conf, lib, ks[6], username, password, email) {
      assert r == Some(6);
    } else {
      forall i | 0 <= i < |ks| ensures !Fails(conf, lib, ks[i], username, password, email) { }
      assert r == None;
    }
  }

  /**
    The length guard's boundary: once the parameter checks pass, a password
    of exactly the minimum length gets past it and one character fewer is
    refused with InvalidPassword.
  */
  lemma LengthBoundary(conf: Configuration, lib: Library, username: string, password: string, email: string)
    requires PasswordChecked(lib, password).ok && UsernameChecked(lib, username).ok && EmailChecked(conf, lib, email).ok
    ensures |PasswordChecked(lib, password).value| == conf.minRequiredPasswordLength ==>
      FirstFailure(conf, lib, CreateChecks, username, password, email) != Some(3)
    ensures |PasswordChecked(lib, password).value| == conf.minRequiredPasswordLength - 1 ==>
      FirstFailure(conf, lib, CreateChecks, username, password, email) == Some(3) &&
      CreateGuard(conf, lib, username, password, email) == Rejected(InvalidPassword)
  {
    var r := FirstFailure(conf, lib, CreateChecks, username, password, email);
    if |PasswordChecked(lib, password).value| == conf.minRequiredPasswordLength - 1 {
      assert Fails(conf, lib, CreateChecks[3], username, password, email);
      assert !Fails(conf, lib, CreateChecks[0], username, password, email);
      assert !Fails(conf, lib, CreateChecks[1], username, password, email);
      assert !Fails(conf, lib, CreateChecks[2], username, password, email);
    }
  }

  // ---------------------------------------------------------------------
  // The ChangePassword guard chain

  /** The new-password policy of ChangePassword: the exception its first failing guard throws, if any. */
  function NewPasswordGuard(conf: Configuration, lib: Library, username: string, newPassword: string): (r: Option<Exception>)
    ensures |newPassword| < conf.minRequiredPasswordLength ==> r == Some(ArgumentException("newPassword", TooShort))
    ensures |newPassword| >= conf.minRequiredPasswordLength &&
            NonAlphanumericCount(lib, newPassword, |newPassword|) < conf.minRequiredNonAlphanumericCharacters ==>
      r == Some(ArgumentException("newPassword", TooFewNonAlphanumeric))
    ensures |newPassword| >= conf.minRequiredPasswordLength &&
            NonAlphanumericCount(lib, newPassword, |newPassword|) >= conf.minRequiredNonAlphanumericCharacters &&
            PatternRejects(conf, lib, newPassword) ==>
      r == Some(ArgumentException("newPassword", PatternMismatch))
    ensures var h := conf.onValidatingPassword(username, newPassword, false);
      |newPassword| >= conf.minRequiredPasswordLength &&
      NonAlphanumericCount(lib, newPassword, |newPassword|) >= conf.minRequiredNonAlphanumericCharacters &&
      !PatternRejects(conf, lib, newPassword) && h.cancel ==>
        r == Some(if h.failureInformation.Some? then h.failureInformation.value
                  else ArgumentException("newPassword", CustomValidation))
    ensures r.None? <==>
      |newPassword| >= conf.minRequiredPasswordLength &&
      NonAlphanumericCount(lib, newPassword, |newPassword|) >= conf.minRequiredNonAlphanumericCharacters &&
      !PatternRejects(conf, lib, newPassword) &&
      !conf.onValidatingPassword(username, newPassword, false).cancel
    ensures var h := conf.onValidatingPassword(username, newPassword, false);
      r.Some? && r.value !in {ArgumentException("newPassword", TooShort),
                              ArgumentException("newPassword", TooFewNonAlphanumeric),
                              ArgumentException("newPassword", PatternMismatch)} ==>
        h.cancel && r.value == (if h.failureInformation.Some? then h.failureInformation.value
                                else ArgumentException("newPassword", CustomValidation))
  {
    if |newPassword| < conf.minRequiredPasswordLength then Some(ArgumentException("newPassword", TooShort))
    else if NonAlphanumericCount(lib, newPassword, |newPassword|) < conf.minRequiredNonAlphanumericCharacters then
      Some(ArgumentException("newPassword", TooFewNonAlphanumeric))
    else if PatternRejects(conf, lib, newPassword) then Some(ArgumentException("newPassword", PatternMismatch))
    else
      var h := conf.onValidatingPassword(username, newPassword, false);
      if !h.cancel then None
      else if h.failureInformation.Some? then h.failureInformation
      else Some(ArgumentException("newPassword", CustomValidation))
  }

  // ---------------------------------------------------------------------
  // The decorated operations: `conf` is the decorator's configuration,
  // `serviceConf` the inner service's.

  /** CreateUser through the guard chain; a rejection stages nothing. */
  function ValidatedCreateUser(s: Store, conf: Configuration, serviceConf: Configuration, lib: Library,
                               username: string, password: string, email: string,
                               salt: Salt, now: Time, id: Id): (r: Step<Creation>)
    ensures var v := CreateGuard(conf, lib, username, password, email);
      && (v.Rejected? ==> r == Step(Ok(Creation(None, v.status)), NoChanges))
      && (v.Accepted? ==> r == CreateUserStep(s, serviceConf, lib, v.username, v.password, v.email, salt, now, id))
  {
    match CreateGuard(conf, lib, username, password, email)
    case Rejected(status) => Step(Ok(Creation(None, status)), NoChanges)
    case Accepted(u, p, e) => CreateUserStep(s, serviceConf, lib, u, p, e, salt, now, id)
  }

  /**
    The hook runs twice on create, once here and once in the service. Both
    layers share one configuration and the hook is deterministic, so a
    create that passes the chain always succeeds in the service: it never
    throws and it stages the user.
  */
  lemma AcceptedCreateSucceeds(s: Store, conf: Configuration, lib: Library, username: string, password: string,
                               email: string, salt: Salt, now: Time, id: Id)
    requires CreateGuard(conf, lib, username, password, email).Accepted?
    ensures var r := ValidatedCreateUser(s, conf, conf, lib, username, password, email, salt, now, id).result;
      r.Ok? && r.value.status == Success && r.value.user.Some?
  { }

  /**
    ChangePassword through its checks: the parameter checks, then the old
    password (verified without stamping DateLastLogin), then the new-password
    policy, then the inner service.
  */
  function ValidatedChangePassword(s: Store, conf: Configuration, serviceConf: Configuration, lib: Library,
                                   username: string, oldPassword: string, newPassword: string,
                                   newSalt: Salt): (r: Step<bool>)
    ensures r.result.Ok? && !r.result.value ==> r.changes == NoChanges
    ensures var u := CheckParameter(lib, username, true, true, true, 0x100, "username");
            var o := CheckParameter(lib, oldPassword, true, true, false, 0x80, "oldPassword");
            var n := CheckParameter(lib, newPassword, true, true, false, 0x80, "newPassword");
      && (u.Err? ==> r == Step(Err(u.error), NoChanges))
      && (u.Ok? && o.Err? ==> r == Step(Err(o.error), NoChanges))
      && (u.Ok? && o.Ok? && n.Err? ==> r == Step(Err(n.error), NoChanges))
      && (u.Ok? && o.Ok? && n.Ok? ==>
            var verified := CheckPasswordStep(s, serviceConf, lib, u.value, o.value, false, 0).result;
            && (verified.Err? ==> r == Step(Err(verified.error), NoChanges))
            && (verified == Ok(false) ==> r == Step(Ok(false), NoChanges))
            && (verified == Ok(true) && NewPasswordGuard(conf, lib, u.value, n.value).Some? ==>
                  r == Step(Err(NewPasswordGuard(conf, lib, u.value, n.value).value), NoChanges))
            && (verified == Ok(true) && NewPasswordGuard(conf, lib, u.value, n.value).None? ==>
                  r == ChangePasswordStep(s, serviceConf, lib, u.value, o.value, n.value, newSalt)))
  {
    match CheckParameter(lib, username, true, true, true, 0x100, "username")
    case Err(e) => Step(Err(e), NoChanges)
    case Ok(u) =>
      match CheckParameter(lib, oldPassword, true, true, false, 0x80, "oldPassword")
      case Err(e) => Step(Err(e), NoChanges)
      case Ok(o) =>
        match CheckParameter(lib, newPassword, true, true, false, 0x80, "newPassword")
        case Err(e) => Step(Err(e), NoChanges)
        case Ok(n) =>
          match CheckPasswordStep(s, serviceConf, lib, u, o, false, 0).result
          case Err(e) => Step(Err(e), NoChanges)
          case Ok(verified) =>
            if !verified then Step(Ok(false), NoChanges)
            else match NewPasswordGuard(conf, lib, u, n)
              case Some(e) => Step(Err(e), NoChanges)
              case None => ChangePasswordStep(s, serviceConf, lib, u, o, n, newSalt)
  }

  /** DeleteUser after the username check; the checked username goes to the service. */
  function ValidatedDeleteUser(s: Store, serviceConf: Configuration, lib: Library, username: string): (r: Step<bool>)
    ensures var u := CheckParameter(lib, username, true, true, true, 0x100, "username");
      && (u.Err? ==> r == Step(Err(ArgumentException("username", BadParameter)), NoChanges))
      && (u.Ok? ==> r == DeleteUserStep(s, serviceConf, u.value))
  {
    match CheckParameter(lib, username, true, true, true, 0x100, "username")
    case Err(e) => Step(Err(e), NoChanges)
    case Ok(u) => DeleteUserStep(s, serviceConf, u)
  }

  /**
    Changing to a new password that fails the policy stages nothing,
    whatever the stored users: the service is never reached.
  */
  lemma {:induction false} PolicyFailureChangesNothing(s: Store, conf: Configuration, serviceConf: Configuration,
      lib: Library, username: string, oldPassword: string, newPassword: string, newSalt: Salt)
    requires CheckParameter(lib, newPassword, true, true, false, 0x80, "newPassword").Ok?
    requires NewPasswordGuard(conf, lib, UsernameChecked(lib, username).value,
                              CheckParameter(lib, newPassword, true, true, false, 0x80, "newPassword").value).Some?
    ensures var r := ValidatedChangePassword(s, conf, serviceConf, lib, username, oldPassword, newPassword, newSalt);
      r.changes == NoChanges && (r.result.Err? || r.result == Ok(false))
  {
    var r := ValidatedChangePassword(s, conf, serviceConf, lib, username, oldPassword, newPassword, newSalt);
    var u := CheckParameter(lib, username, true, true, true, 0x100, "username");
    var o := CheckParameter(lib, oldPassword, true, true, false, 0x80, "oldPassword");
    if u.Ok? && o.Ok? {
      var verified := CheckPasswordStep(s, serviceConf, lib, u.value, o.value, false, 0);
      assert verified.changes == NoChanges;
    }
  }

  // ---------------------------------------------------------------------
  // The decorator object

  /** RavenDBUserValidations over an inner user service. */
  class UserValidations {
    const service: UserService
    const conf: Configuration

    constructor (service: UserService, conf: Configuration)
      ensures this.service == service && this.conf == conf
    {
      this.service := service;
      this.conf := conf;
    }

    method CreateUser(username: string, password: string, email: string, salt: Salt, now: Time)
      returns (r: Result<Creation>)
      requires service.session.Valid()
      modifies service.session`pending, service.session.store`nextId
      ensures service.session.Valid()
      ensures service.session.store.nextId >= old(service.session.store.nextId)
      ensures var step := ValidatedCreateUser(service.session.store.state, conf, service.conf, service.lib,
                                              username, password, email, salt, now, old(service.session.store.nextId));
        r == step.result && service.session.pending == Merge(old(service.session.pending), step.changes)
    {
      MergeNoChanges(service.session.pending);
      var lib := service.lib;
      var p := lib.validateParameter(password, true, true, false, 0x80);
      if !p.ok {
        return Ok(Creation(None, InvalidPassword));
      }
      var u := lib.validateParameter(username, true, true, true, 0x100);
      if !u.ok {
        return Ok(Creation(None, InvalidUserName));
      }
      var e := lib.validateParameter(email, conf.requiresUniqueEmail, conf.requiresUniqueEmail, false, 0x100);
      if !e.ok {
        return Ok(Creation(None, InvalidEmail));
      }
      if |p.value| < conf.minRequiredPasswordLength {
        return Ok(Creation(None, InvalidPassword));
      }
      var num := CountNonAlphanumeric(lib, p.value);
      if num < conf.minRequiredNonAlphanumericCharacters {
        return Ok(Creation(None, InvalidPassword));
      }
      if |conf.passwordStrengthRegularExpression| > 0 && !lib.isMatch(p.value, conf.passwordStrengthRegularExpression) {
        return Ok(Creation(None, InvalidPassword));
      }
      var args := conf.onValidatingPassword(u.value, p.value, true);
      if args.cancel {
        return Ok(Creation(None, InvalidPassword));
      }
      r := service.CreateUser(u.value, p.value, e.value, salt, now);
    }

    method ChangePassword(username: string, oldPassword: string, newPassword: string, newSalt: Salt)
      returns (r: Result<bool>)
      requires service.session.Valid()
      modifies service.session`pending
      ensures service.session.Valid()
      ensures var step := ValidatedChangePassword(service.session.store.state, conf, service.conf, service.lib,
                                                  username, oldPassword, newPassword, newSalt);
        r == step.result && service.session.pending == Merge(old(service.session.pending), step.changes)
    {
      MergeNoChanges(service.session.pending);
      var lib := service.lib;
      var u := CheckParameter(lib, username, true, true, true, 0x100, "username");
      if u.Err? {
        return Err(u.error);
      }
      var o := CheckParameter(lib, oldPassword, true, true, false, 0x80, "oldPassword");
      if o.Err? {
        return Err(o.error);
      }
      var n := CheckParameter(lib, newPassword, true, true, false, 0x80, "newPassword");
      if n.Err? {
        return Err(n.error);
      }
      // DateTime.Now is not read when updateLastLogin is false.
      var verified := CheckPassword(u.value, o.value, false, 0);
      if verified.Err? {
        return Err(verified.error);
      }
      if !verified.value {
        return Ok(false);
      }
      if |n.value| < conf.minRequiredPasswordLength {
        return Err(ArgumentException("newPassword", TooShort));
      }
      var num3 := CountNonAlphanumeric(lib, n.value);
      if num3 < conf.minRequiredNonAlphanumericCharacters {
        return Err(ArgumentException("newPassword", TooFewNonAlphanumeric));
      }
      if |conf.passwordStrengthRegularExpression| > 0 && !lib.isMatch(n.value, conf.passwordStrengthRegularExpression) {
        return Err(ArgumentException("newPassword", PatternMismatch));
      }
      var e := conf.onValidatingPassword(u.value, n.value, false);
      if e.cancel {
        if e.failureInformation.Some? {
          return Err(e.failureInformation.value);
        }
        return Err(ArgumentException("newPassword", CustomValidation));
      }
      r := service.ChangePassword(u.value, o.value, n.value, newSalt);
    }

    method DeleteUser(username: string, deleteAllRelatedData: bool) returns (r: Result<bool>)
      requires service.session.Valid()
      modifies service.session`pending
      ensures service.session.Valid()
      ensures var step := ValidatedDeleteUser(service.session.store.state, service.conf, service.lib, username);
        r == step.result && service.session.pending == Merge(old(service.session.pending), step.changes)
    {
      MergeNoChanges(service.session.pending);
      var u := CheckParameter(service.lib, username, true, true, true, 0x100, "username");
      if u.Err? {
        return Err(u.error);
      }
      r := service.DeleteUser(u.value, deleteAllRelatedData);
    }

    /** Pure delegation: the inner service's CheckPassword with the same arguments. */
    method CheckPassword(username: string, password: string, updateLastLogin: bool, now: Time)
      returns (r: Result<bool>)
      requires service.session.Valid()
      modifies service.session`pending
      ensures service.session.Valid()
      ensures var step := CheckPasswordStep(service.session.store.state, service.conf, service.lib,
                                            username, password, updateLastLogin, now);
        r == step.result && service.session.pending == Merge(old(service.session.pending), step.changes)
    {
      r := service.CheckPassword(username, password, updateLastLogin, now);
    }
  }
}

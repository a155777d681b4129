/**
  Vocabulary shared by the three layers of the membership core: results and
  the exceptions the C# code throws, the membership status codes, the
  configuration contract (IConfiguration), and the library routines the core
  calls without defining them (password hashing, character classes, regular
  expressions, SecUtility's parameter checks, String.Trim and String.Contains).
*/
module Common {

  datatype Option<+T> = None | Some(value: T)

  /** A value, or the exception the C# code throws instead of returning one. */
  datatype Result<+T> = Ok(value: T) | Err(error: Exception)

  type Salt = string
  type Hash = string

  /** A reading of DateTime.Now, supplied by the caller. */
  type Time = int

  /** The MembershipCreateStatus values the core produces. */
  datatype Status =
    | Success
    | InvalidUserName
    | InvalidPassword
    | InvalidEmail
    | DuplicateUserName
    | DuplicateEmail
    | ProviderError

  /** Why an ArgumentException was raised; each has its own message in the source. */
  datatype ArgumentReason =
    | BadParameter            // SecUtility.CheckParameter rejected the value
    | TooShort                // shorter than MinRequiredPasswordLength
    | TooFewNonAlphanumeric   // fewer than MinRequiredNonAlphanumericCharacters
    | PatternMismatch         // PasswordStrengthRegularExpression did not match
    | CustomValidation        // the OnValidatingPassword hook cancelled, without details

  datatype Exception =
    | MembershipPasswordException
    | MembershipCreateUserException(status: Status)
    | ArgumentException(paramName: string, reason: ArgumentReason)
    | ArgumentNullException(paramName: string)
    | NullReferenceException
    | InvalidOperationException          // SingleOrDefault saw more than one element
    | ConcurrencyException(message: string)
    | ProviderException
    | GeneralException(message: string)  // a plain `new Exception(...)`

  /** What an OnValidatingPassword handler leaves in ValidatePasswordEventArgs. */
  datatype HookOutcome = HookOutcome(cancel: bool, failureInformation: Option<Exception>)

  /** SecUtility.ValidateParameter's verdict and the value it writes back through `ref`. */
  datatype Checked = Checked(ok: bool, value: string)

  /** The configuration contract: a read-only policy surface. */
  class Configuration {
    const minRequiredPasswordLength: int
    const minRequiredNonAlphanumericCharacters: int
    const passwordStrengthRegularExpression: string
    const requiresUniqueEmail: bool
    const applicationName: string
    /** The OnValidatingPassword hook: (username, password, isNewUser) to its verdict. */
    const onValidatingPassword: (string, string, bool) -> HookOutcome

    constructor (minRequiredPasswordLength: int, minRequiredNonAlphanumericCharacters: int,
                 passwordStrengthRegularExpression: string, requiresUniqueEmail: bool,
                 applicationName: string, onValidatingPassword: (string, string, bool) -> HookOutcome)
      ensures this.minRequiredPasswordLength == minRequiredPasswordLength
      ensures this.minRequiredNonAlphanumericCharacters == minRequiredNonAlphanumericCharacters
      ensures this.passwordStrengthRegularExpression == passwordStrengthRegularExpression
      ensures this.requiresUniqueEmail == requiresUniqueEmail
      ensures this.applicationName == applicationName
      ensures this.onValidatingPassword == onValidatingPassword
    {
      this.minRequiredPasswordLength := minRequiredPasswordLength;
      this.minRequiredNonAlphanumericCharacters := minRequiredNonAlphanumericCharacters;
      this.passwordStrengthRegularExpression := passwordStrengthRegularExpression;
      this.requiresUniqueEmail := requiresUniqueEmail;
      this.applicationName := applicationName;
      this.onValidatingPassword := onValidatingPassword;
    }
  }

  /**
    Library behaviour the core relies on but does not define, kept uninterpreted:
    PasswordUtil.HashPassword, char.IsLetterOrDigit(string, int),
    char.IsWhiteSpace, Regex.IsMatch(input, pattern) and
    SecUtility.ValidateParameter(ref value, checkForNull, checkIfEmpty, checkForCommas, maxSize).
  */
  class Library {
    const hashPassword: (string, Salt) -> Hash
    const isLetterOrDigit: (string, int) -> bool
    const isWhiteSpace: char -> bool
    const isMatch: (string, string) -> bool
    const validateParameter: (string, bool, bool, bool, int) -> Checked

    constructor (hashPassword: (string, Salt) -> Hash, isLetterOrDigit: (string, int) -> bool,
                 isWhiteSpace: char -> bool, isMatch: (string, string) -> bool,
                 validateParameter: (string, bool, bool, bool, int) -> Checked)
      ensures this.hashPassword == hashPassword && this.isLetterOrDigit == isLetterOrDigit
      ensures this.isWhiteSpace == isWhiteSpace && this.isMatch == isMatch
      ensures this.validateParameter == validateParameter
    {
      this.hashPassword := hashPassword;
      this.isLetterOrDigit := isLetterOrDigit;
      this.isWhiteSpace := isWhiteSpace;
      this.isMatch := isMatch;
      this.validateParameter := validateParameter;
    }
  }

  /**
    SecUtility.CheckParameter: ValidateParameter with the same flags, except
    that a failure throws an ArgumentException naming the parameter.
  */
  function CheckParameter(lib: Library, value: string, checkForNull: bool, checkIfEmpty: bool,
                          checkForCommas: bool, maxSize: int, paramName: string): (r: Result<string>)
    ensures var c := lib.validateParameter(value, checkForNull, checkIfEmpty, checkForCommas, maxSize);
      && (r.Ok? <==> c.ok)
      && (r.Ok? ==> r.value == c.value)
      && (r.Err? ==> r.error == ArgumentException(paramName, BadParameter))
  {
    var c := lib.validateParameter(value, checkForNull, checkIfEmpty, checkForCommas, maxSize);
    if c.ok then Ok(c.value) else Err(ArgumentException(paramName, BadParameter))
  }

  /** `part` occurs in `s` starting at index `i`. */
  predicate OccursAt(s: string, part: string, i: nat) {
    i + |part| <= |s| && s[i..i + |part|] == part
  }

  /** String.Contains: `part` occurs as a contiguous piece of `s`. */
  predicate Contains(s: string, part: string) {
    exists i: nat :: i <= |s| && OccursAt(s, part, i)
  }

  function TrimStart(s: string, isWhiteSpace: char -> bool): (r: string)
    ensures |r| <= |s| && r == s[|s| - |r|..]
    ensures r == [] || !isWhiteSpace(r[0])
    ensures forall i :: 0 <= i < |s| - |r| ==> isWhiteSpace(s[i])
  {
    if |s| > 0 && isWhiteSpace(s[0]) then
      var r := TrimStart(s[1..], isWhiteSpace);
      assert forall i :: 1 <= i < |s| - |r| ==> s[i] == s[1..][i - 1];
      r
    else s
  }

  function TrimEnd(s: string, isWhiteSpace: char -> bool): (r: string)
    ensures |r| <= |s| && r == s[..|r|]
    ensures r == [] || !isWhiteSpace(r[|r| - 1])
    ensures forall i :: |r| <= i < |s| ==> isWhiteSpace(s[i])
  {
    if |s| > 0 && isWhiteSpace(s[|s| - 1]) then TrimEnd(s[..|s| - 1], isWhiteSpace) else s
  }

  /** String.Trim: the longest piece of `s` with no white space at either end. */
  function Trim(s: string, isWhiteSpace: char -> bool): (r: string)
    ensures r == [] || (!isWhiteSpace(r[0]) && !isWhiteSpace(r[|r| - 1]))
    ensures Contains(s, r)
  {
    var t := TrimStart(s, isWhiteSpace);
    var r := TrimEnd(t, isWhiteSpace);
    assert s[|s| - |t|..][..|r|] == s[|s| - |t|..|s| - |t| + |r|];
    assert OccursAt(s, r, |s| - |t|);
    r
  }

  /** Everything Trim removes, at either end, is white space. */
  lemma TrimRemovesOnlyWhiteSpace(s: string, isWhiteSpace: char -> bool)
    ensures var r := Trim(s, isWhiteSpace);
      exists a: nat :: (OccursAt(s, r, a) &&
                        (forall i :: 0 <= i < a ==> isWhiteSpace(s[i])) &&
                        (forall i :: a + |r| <= i < |s| ==> isWhiteSpace(s[i])))
  {
    var t := TrimStart(s, isWhiteSpace);
    var r := TrimEnd(t, isWhiteSpace);
    var a := |s| - |t|;
    assert s[a..][..|r|] == s[a..a + |r|];
    assert OccursAt(s, r, a);
    assert forall i :: a + |r| <= i < |s| ==> s[i] == t[i - a];
    assert Trim(s, isWhiteSpace) == r;
    assert (forall i :: 0 <= i < a ==> isWhiteSpace(s[i])) && (forall i :: a + |r| <= i < |s| ==> isWhiteSpace(s[i]));
  }

  /** Trimming twice is trimming once. */
  lemma TrimIdempotent(s: string, isWhiteSpace: char -> bool)
    ensures Trim(Trim(s, isWhiteSpace), isWhiteSpace) == Trim(s, isWhiteSpace)
  {
    var r := Trim(s, isWhiteSpace);
    assert TrimStart(r, isWhiteSpace) == r;
    assert TrimEnd(r, isWhiteSpace) == r;
  }
}

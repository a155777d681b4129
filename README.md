# RavenDBMembership in Dafny

A model of the core of RavenDBMembership. This is an ASP.NET membership provider that keeps its users in a RavenDB document store. The model has three layers, one Dafny class each:

- `Service.UserService` is RavenDBUserService. It runs over one document session and stages changes to `User` documents and to the `ReservationForUniqueFieldValue` documents `username/<name>` and `email/<address>`.
- `Validations.UserValidations` is RavenDBUserValidations. It is a decorator that runs the membership password and parameter guards before it delegates to the service.
- `Provider.MembershipProvider` is RavenDBMembershipProvider. Each operation opens its own session, builds the decorated service, and commits with SaveChanges. CreateUser and UpdateUser commit under optimistic concurrency and classify a reservation conflict. The paged FindUsers, FindUsersByEmail, FindUsersByName and GetAllUsers are also here.

Two things model the document store itself (module `Documents`):

- `Store` is the committed state: the User documents by id, plus the set of reservation keys.
- `DocumentSession` is a unit of work. It stages puts, deletes, new reservations and deleted reservations as a `Changes` value.

`Commit` is SaveChanges. It writes every staged change, or, under optimistic concurrency, writes nothing and raises a ConcurrencyException. That happens when a reservation it was asked to create already exists; the exception names the reservation key.

Queries read the committed state. They return matching ids in ascending order, and `SingleOrDefault` throws when more than one user matches.

The store invariant is `Consistent`:

- the reservations are exactly the username and email keys of the stored users;
- no two users share a username or an email.

Every operation is specified twice:

- by a pure function, `...Step` for the service and decorator layers and `...Outcome` for the provider, which returns the result and the staged changes or the committed store;
- by a method of the layer's class, proved equal to that function.

The lemmas then state what each operation promises:

- it keeps the invariant;
- it returns a verdict equivalent to the existence of a matching user;
- the parameter guards fail in a fixed order, first failure wins;
- a duplicate is detected through the reservation conflict;
- a reset password passes CheckPassword afterwards;
- paging bounds and totals.

External routines are uninterpreted functions held by `Common.Library`: PasswordUtil.HashPassword, char.IsLetterOrDigit, char.IsWhiteSpace, Regex.IsMatch and SecUtility.ValidateParameter. Random salts, generated passwords and the current time are parameters of the operations. The configuration the provider hands to both layers is `Common.Configuration`, the IConfiguration interface. The provider fixes four of its values:

- MinRequiredPasswordLength is 7 unless configured;
- MinRequiredNonAlphanumericCharacters is 0;
- PasswordStrengthRegularExpression is empty;
- RequiresUniqueEmail is false.

UpdateUser writes `user.UserName` back onto the record that the query found by that same name (RavenDBMembershipProvider.cs:315, 331), and it never stages a `username/` reservation. Under exact-match queries that write changes nothing, so UpdateUser keeps the invariant (`Provider.UpdateUserKeepsConsistent`). Under RavenDB's case-insensitive matching the write could change the stored name's case without moving its reservation; that matching is left out below.

## Model

| member | source | states |
|---|---|---|
| Common.CheckParameter | src/RavenDBMembership/Services/RavenDBUserValidations.cs:74-76 | SecUtility.CheckParameter succeeds with the rewritten value exactly when ValidateParameter accepts, otherwise throws ArgumentException naming the parameter |
| Common.TrimStart | src/RavenDBMembership/Services/RavenDBUserService.cs:21 | String.TrimStart: the result is a suffix of the input that does not start with white space, and every character removed is white space |
| Common.TrimEnd | src/RavenDBMembership/Services/RavenDBUserService.cs:21 | String.TrimEnd: the result is a prefix of the input that does not end with white space, and every character removed is white space |
| Common.Trim | src/RavenDBMembership/Services/RavenDBUserService.cs:21 | String.Trim: the result has no white space at either end and occurs inside the input |
| Common.TrimRemovesOnlyWhiteSpace | src/RavenDBMembership/Services/RavenDBUserService.cs:21 | Trim's result occurs in the input at an offset before which, and after whose end, every character is white space |
| Common.TrimIdempotent | src/RavenDBMembership/Provider/RavenDBMembershipProvider.cs:365-366 | trimming an already trimmed string changes nothing, so the provider's own trim before the service's is harmless |
| Documents.UsernameKeyInjective | src/RavenDBMembership/Services/RavenDBUserService.cs:82 | distinct usernames give distinct `username/` reservation keys |
| Documents.EmailKeyInjective | src/RavenDBMembership/Services/RavenDBUserService.cs:83 | distinct emails give distinct `email/` reservation keys |
| Documents.KeyKindsDiffer | src/RavenDBMembership/Services/RavenDBUserService.cs:82-83 | a username key never equals an email key |
| Documents.KeysOwnedByOneUser | src/RavenDBMembership/Services/RavenDBUserService.cs:81-83 | in a consistent store, two different users never claim the same key |
| Documents.AddUserKeepsConsistent | src/RavenDBMembership/Services/RavenDBUserService.cs:81-83 | storing a new user together with its two free reservations keeps the invariant |
| Documents.RemoveUserClaimsWithin | src/RavenDBMembership/Services/RavenDBUserService.cs:102-104 | after removing a user, every key still claimed is an old reservation other than that user's two |
| Documents.RemoveUserClaimsCover | src/RavenDBMembership/Services/RavenDBUserService.cs:102-104 | after removing a user, every other old reservation is still claimed |
| Documents.RemoveUserKeepsConsistent | src/RavenDBMembership/Services/RavenDBUserService.cs:102-104 | deleting a user and both of its reservations keeps the invariant |
| Documents.ReplaceUserKeepsConsistent | src/RavenDBMembership/Services/RavenDBUserService.cs:32-33 | rewriting a user's record without touching username or email keeps the invariant |
| Documents.ChangeEmailClaimsWithin | src/RavenDBMembership/Provider/RavenDBMembershipProvider.cs:326-333 | after an email change, every claimed key is an old reservation other than the old email, or the new email |
| Documents.ChangeEmailClaimsCover | src/RavenDBMembership/Provider/RavenDBMembershipProvider.cs:326-333 | after an email change, the new email key and every other old reservation are claimed |
| Documents.ChangeEmailDistinct | src/RavenDBMembership/Provider/RavenDBMembershipProvider.cs:326-333 | moving a user to an unreserved email leaves all usernames and emails distinct |
| Documents.ChangeEmailKeepsConsistent | src/RavenDBMembership/Provider/RavenDBMembershipProvider.cs:326-333 | swapping the email reservation to a free email while rewriting the user keeps the invariant |
| Documents.ConflictMessageNamesKey | src/RavenDBMembership/Provider/RavenDBMembershipProvider.cs:115-117 | the ConcurrencyException message of a conflicting PUT contains the conflicting reservation key |
| Documents.FirstReserved | src/RavenDBMembership/Provider/RavenDBMembershipProvider.cs:82-89 | the first key, in staging order, among the ones the session creates, that already exists: every key staged before it is free; none exactly when all are free |
| Documents.Commit | src/RavenDBMembership/Provider/RavenDBMembershipProvider.cs:82-89 | SaveChanges fails exactly when concurrency is optimistic and some staged reservation already exists, and its error names the first such key in staging order; on success the store is the old store with all changes applied |
| Documents.LeastExists | src/RavenDBMembership/Provider/RavenDBMembershipProvider.cs:381-383 | every non-empty set of ids has a least element |
| Documents.Least | src/RavenDBMembership/Provider/RavenDBMembershipProvider.cs:381-383 | returns an element of the set no greater than any other |
| Documents.SortedIds | src/RavenDBMembership/Provider/RavenDBMembershipProvider.cs:381-383 | query order: exactly the given ids, strictly increasing |
| Documents.Select | src/RavenDBMembership/Provider/RavenDBMembershipProvider.cs:385-388 | a where clause: keeps exactly the ids whose user satisfies the predicate, preserving increasing order |
| Documents.Query | src/RavenDBMembership/Provider/RavenDBMembershipProvider.cs:381-383 | a query over User documents returns exactly the matching stored ids, in increasing order |
| Documents.Named | src/RavenDBMembership/Services/RavenDBUserService.cs:23-25 | the username query returns exactly the users with that username in that application |
| Documents.SingleMatch | src/RavenDBMembership/Services/RavenDBUserService.cs:26 | an increasing result whose only member is `id` is exactly `[id]` |
| Documents.NamedAtMostOne | src/RavenDBMembership/Services/RavenDBUserService.cs:23-26 | with distinct usernames, the username query finds at most one user, so SingleOrDefault never throws |
| Documents.SingleOrDefault | src/RavenDBMembership/Services/RavenDBUserService.cs:26 | SingleOrDefault: no result for none, the element for one, InvalidOperationException exactly when there are more |
| Documents.DocumentSession.constructor | src/RavenDBMembership/Provider/RavenDBMembershipProvider.cs:65 | OpenSession: an empty unit of work over the store, without optimistic concurrency |
| Documents.DocumentSession.StoreUser | src/RavenDBMembership/Services/RavenDBUserService.cs:81 | session.Store(user) assigns the next HiLo id, never used before, advances the generator by one and stages the user under it |
| Documents.DocumentSession.Put | src/RavenDBMembership/Services/RavenDBUserService.cs:32-33 | a change to a loaded user is staged as a put of the new record under its id |
| Documents.DocumentSession.Delete | src/RavenDBMembership/Services/RavenDBUserService.cs:102 | session.Delete(user) stages the deletion of the user's id |
| Documents.DocumentSession.StoreReservation | src/RavenDBMembership/Services/RavenDBUserService.cs:82-83 | appends the reservation key to the keys to create |
| Documents.DocumentSession.DeleteReservation | src/RavenDBMembership/Services/RavenDBUserService.cs:103-104 | Delete(Load(key)) stages the deletion of an existing reservation, and throws ArgumentNullException, staging nothing, for a missing one |
| Documents.DocumentSession.SaveChanges | src/RavenDBMembership/Provider/RavenDBMembershipProvider.cs:68 | the committed store becomes Commit's result, or is unchanged and the error is returned |
| Service.MergeRewrite | src/RavenDBMembership/Services/RavenDBUserService.cs:32-33 | staging a rewrite adds exactly that put to the pending changes |
| Service.ApplyRewrite | src/RavenDBMembership/Services/RavenDBUserService.cs:32-33 | committing a rewrite replaces one user record and leaves the reservations alone |
| Service.ApplyCreation | src/RavenDBMembership/Services/RavenDBUserService.cs:81-83 | committing a creation adds the user and its two reservation keys |
| Service.ApplyDeletion | src/RavenDBMembership/Services/RavenDBUserService.cs:102-104 | committing a deletion removes the user and its two reservation keys |
| Service.ChangePasswordStep | src/RavenDBMembership/Services/RavenDBUserService.cs:19-35 | succeeds exactly when the trimmed username finds one user whose hash matches the old password, then stages a new salt and the new password's hash; otherwise stages nothing and throws MembershipPasswordException (or SingleOrDefault's exception) |
| Service.CheckPasswordStep | src/RavenDBMembership/Services/RavenDBUserService.cs:37-56 | throws only when several users match; true exactly when one user matches the trimmed username and the trimmed password; stamps DateLastLogin only then and only when asked |
| Service.CreateUserStep | src/RavenDBMembership/Services/RavenDBUserService.cs:58-89 | a short password throws InvalidPassword, a cancelling hook gives InvalidPassword; otherwise Success with a user holding the trimmed username, the salt, the hash of the trimmed password, the application and the creation time, staged with both reservations |
| Service.DeleteUserStep | src/RavenDBMembership/Services/RavenDBUserService.cs:91-107 | no match throws NullReferenceException; success exactly when one user matches and both its reservations exist, staging the deletion of all three documents |
| Service.FoundIffExists | src/RavenDBMembership/Services/RavenDBUserService.cs:23-26 | with distinct usernames, the query for a registered user's name returns that user alone |
| Service.CheckPasswordVerdict | src/RavenDBMembership/Services/RavenDBUserService.cs:37-56 | with distinct usernames CheckPassword never throws, and is true iff a registered user with the trimmed name has the trimmed password |
| Service.ChangePasswordVerdict | src/RavenDBMembership/Services/RavenDBUserService.cs:19-35 | with distinct usernames ChangePassword succeeds iff a registered user with the trimmed name has the old password; otherwise it throws MembershipPasswordException and stages nothing |
| Service.DeleteUserVerdict | src/RavenDBMembership/Services/RavenDBUserService.cs:91-107 | in a consistent store DeleteUser succeeds iff the user exists; otherwise it throws NullReferenceException and stages nothing |
| Service.CreateThenCheckPassword | src/RavenDBMembership/Services/RavenDBUserService.cs:47 | round trip: after a committed successful CreateUser, CheckPassword with the same username and password returns true |
| Service.UserService.constructor | src/RavenDBMembership/Services/RavenDBUserService.cs:13-17 | the service holds the session and the configuration it was given |
| Service.UserService.ChangePassword | src/RavenDBMembership/Services/RavenDBUserService.cs:19-35 | returns ChangePasswordStep's result and adds its changes to the session |
| Service.UserService.CheckPassword | src/RavenDBMembership/Services/RavenDBUserService.cs:37-56 | returns CheckPasswordStep's result and adds its changes to the session |
| Service.UserService.CreateUser | src/RavenDBMembership/Services/RavenDBUserService.cs:58-89 | returns CreateUserStep's result, for the id the session assigns, and adds its changes to the session |
| Service.UserService.DeleteUser | src/RavenDBMembership/Services/RavenDBUserService.cs:91-107 | returns DeleteUserStep's result and adds its changes to the session |
| Validations.NonAlphanumericCount | src/RavenDBMembership/Services/RavenDBUserValidations.cs:43-50 | the number of positions among the first n where IsLetterOrDigit is false |
| Validations.CountNonAlphanumeric | src/RavenDBMembership/Services/RavenDBUserValidations.cs:43-50 | the counting loop returns the size of the set of non-alphanumeric positions of the password |
| Validations.CreateGuard | src/RavenDBMembership/Services/RavenDBUserValidations.cs:23-67 | an accepted create carries the values as rewritten by ValidateParameter |
| Validations.FirstFailure | src/RavenDBMembership/Services/RavenDBUserValidations.cs:23-67 | the index of the first failing guard: every guard before it passes, and none means all pass |
| Validations.CreateGuardIsFirstFailure | src/RavenDBMembership/Services/RavenDBUserValidations.cs:23-67 | CreateUser rejects with the status of the first failing guard, in the source's order (password, username, email, length, non-alphanumeric count, pattern, hook), and accepts when none fails |
| Validations.LengthBoundary | src/RavenDBMembership/Services/RavenDBUserValidations.cs:38-42 | a password of exactly the minimum length passes the length guard; one character shorter is rejected there with InvalidPassword |
| Validations.NewPasswordGuard | src/RavenDBMembership/Services/RavenDBUserValidations.cs:82-114 | no exception iff length, count, pattern and hook all pass; each guard, in order, throws its own ArgumentException on newPassword (too short, too few non-alphanumeric characters, pattern mismatch); a hook cancel after they pass throws its FailureInformation or the custom-validation ArgumentException |
| Validations.ValidatedCreateUser | src/RavenDBMembership/Services/RavenDBUserValidations.cs:21-70 | a rejected guard gives that status and stages nothing; an accepted one delegates the rewritten values to the service |
| Validations.AcceptedCreateSucceeds | src/RavenDBMembership/Services/RavenDBUserValidations.cs:61-69 | with one configuration for both layers, a create that passes the guards succeeds in the service |
| Validations.ValidatedChangePassword | src/RavenDBMembership/Services/RavenDBUserValidations.cs:72-117 | parameter errors throw in order; an exception from the inner CheckPassword is rethrown without changes; a wrong old password returns false without changes; a policy failure throws; otherwise the service changes the password of the checked values |
| Validations.ValidatedDeleteUser | src/RavenDBMembership/Services/RavenDBUserValidations.cs:119-124 | a bad username throws ArgumentException; otherwise the service deletes the checked username |
| Validations.PolicyFailureChangesNothing | src/RavenDBMembership/Services/RavenDBUserValidations.cs:82-114 | a new password that fails the policy never reaches the service and stages nothing |
| Validations.UserValidations.constructor | src/RavenDBMembership/Services/RavenDBUserValidations.cs:15-19 | the decorator holds the inner service and the configuration |
| Validations.UserValidations.CreateUser | src/RavenDBMembership/Services/RavenDBUserValidations.cs:21-70 | returns ValidatedCreateUser's result and adds its changes to the session |
| Validations.UserValidations.ChangePassword | src/RavenDBMembership/Services/RavenDBUserValidations.cs:72-117 | returns ValidatedChangePassword's result and adds its changes to the session |
| Validations.UserValidations.DeleteUser | src/RavenDBMembership/Services/RavenDBUserValidations.cs:119-124 | returns ValidatedDeleteUser's result and adds its changes to the session |
| Validations.UserValidations.CheckPassword | src/RavenDBMembership/Services/RavenDBUserValidations.cs:126-129 | forwards to the service: CheckPasswordStep's result and changes |
| Provider.InterpretConcurrencyException | src/RavenDBMembership/Provider/RavenDBMembershipProvider.cs:112-124 | DuplicateUserName iff the message names the username key; DuplicateEmail iff it names only the email key; ProviderError iff it names neither |
| Provider.CreateFailureStatus | src/RavenDBMembership/Provider/RavenDBMembershipProvider.cs:98-107 | a caught exception never gives Success; a ConcurrencyException is classified from its message by InterpretConcurrencyException, anything else gives ProviderError |
| Provider.CreateUserOutcome | src/RavenDBMembership/Provider/RavenDBMembershipProvider.cs:78-110 | Success iff the decorated service succeeds and the optimistic commit goes through; a rejected create keeps the service's status; an exception gives ProviderError; a commit conflict is classified from its message; any other status returns no user and leaves the store unchanged |
| Provider.CreateUserKeepsConsistent | src/RavenDBMembership/Provider/RavenDBMembershipProvider.cs:78-110 | CreateUser keeps the invariant; on Success it adds exactly the new user and both reservations |
| Provider.DuplicateUserNameDetected | src/RavenDBMembership/Provider/RavenDBMembershipProvider.cs:98-101 | creating a user whose username is reserved reports DuplicateUserName and commits nothing |
| Provider.DuplicateEmailDetected | src/RavenDBMembership/Provider/RavenDBMembershipProvider.cs:98-101 | creating a user with a free username and a reserved email commits nothing and reports a duplicate, never a provider error |
| Provider.ChangePasswordOutcome | src/RavenDBMembership/Provider/RavenDBMembershipProvider.cs:63-71 | returns the decorated service's result; commits its changes unless it threw |
| Provider.ChangePasswordCommit | src/RavenDBMembership/Services/RavenDBUserService.cs:32-33 | committing the service's ChangePassword keeps the invariant and the reservations; on success exactly the user registered under the trimmed username gets the new salt and hash |
| Provider.ChangePasswordEffect | src/RavenDBMembership/Provider/RavenDBMembershipProvider.cs:63-71 | ChangePassword keeps the invariant and the reservations; unless it returns true it changes nothing; when it does, exactly the user registered under the trimmed, checked username gets the new salt and the hash of the checked new password |
| Provider.CheckPasswordOutcome | src/RavenDBMembership/Provider/RavenDBMembershipProvider.cs:363-374 | the service's verdict on the trimmed arguments; commits its changes unless it threw |
| Provider.CheckPasswordTrimmedOnce | src/RavenDBMembership/Provider/RavenDBMembershipProvider.cs:365-366 | the provider's trim before the service's trim gives the same step as the service alone |
| Provider.CheckPasswordCommit | src/RavenDBMembership/Services/RavenDBUserService.cs:47-53 | committing CheckPassword keeps the invariant and reservations, stamps DateLastLogin on the user registered under the trimmed username after a requested successful login, and otherwise changes nothing |
| Provider.CheckPasswordEffect | src/RavenDBMembership/Provider/RavenDBMembershipProvider.cs:363-374 | the provider's CheckPassword gives the service's verdict on the raw arguments, keeps the invariant, and commits only the DateLastLogin stamp of the user registered under the trimmed username after a successful login |
| Provider.DeleteUserOutcome | src/RavenDBMembership/Provider/RavenDBMembershipProvider.cs:126-145 | true iff the decorated service returned true, and then its changes are committed; otherwise false and the store is unchanged |
| Provider.DeleteUserEffect | src/RavenDBMembership/Provider/RavenDBMembershipProvider.cs:126-145 | in a consistent store DeleteUser is true iff the checked username is registered; it then removes that user and its two reservations and keeps the invariant, and otherwise changes nothing |
| Provider.ResetPasswordOutcome | src/RavenDBMembership/Provider/RavenDBMembershipProvider.cs:261-289 | succeeds iff exactly one user matches; no match throws the not-found exception; success returns the generated password and commits the new salt and hash for that user only |
| Provider.ResetThenCheckPassword | src/RavenDBMembership/Provider/RavenDBMembershipProvider.cs:261-289 | ResetPassword keeps the invariant, and CheckPassword with the returned password then returns true |
| Provider.UpdateStep | src/RavenDBMembership/Provider/RavenDBMembershipProvider.cs:315-335 | not found throws; success iff one user matches and its old email reservation can be loaded when the email changes; copies UserName, Email, CreationDate and LastLoginDate and keeps hash, salt and application; swaps the email reservation only when the email changes |
| Provider.UpdateConflict | src/RavenDBMembership/Provider/RavenDBMembershipProvider.cs:339-347 | a conflict classified as DuplicateEmail becomes ProviderException; every other exception is rethrown unchanged |
| Provider.UpdateUserOutcome | src/RavenDBMembership/Provider/RavenDBMembershipProvider.cs:296-349 | a null user throws ArgumentNullException; a failed UserName or Email check throws its ArgumentException; a failed step throws its exception; a commit conflict is rethrown as UpdateConflict maps it; success iff both checks pass, the step succeeds and its optimistic commit goes through; any failure leaves the store unchanged |
| Provider.ApplyEmailSwap | src/RavenDBMembership/Provider/RavenDBMembershipProvider.cs:326-333 | committing an email swap moves the reservation from the old email to the new one |
| Provider.UpdateCommit | src/RavenDBMembership/Provider/RavenDBMembershipProvider.cs:324-337 | committing a successful update keeps the invariant and the set of users |
| Provider.UpdateUserKeepsConsistent | src/RavenDBMembership/Provider/RavenDBMembershipProvider.cs:296-349 | UpdateUser keeps the invariant, and a successful update neither adds nor removes a user |
| Provider.UpdateToTakenEmail | src/RavenDBMembership/Provider/RavenDBMembershipProvider.cs:326-347 | changing to an already reserved email commits nothing and fails with the conflict on that email, reported as ProviderException unless the message also names the username key |
| Provider.WrapInt32 | src/RavenDBMembership/Provider/RavenDBMembershipProvider.cs:394 | `pageIndex * pageSize` in unchecked C# int arithmetic: congruent to the product modulo 2^32, and the product itself when it fits |
| Provider.Skip | src/RavenDBMembership/Provider/RavenDBMembershipProvider.cs:394 | Enumerable.Skip: a non-positive count skips nothing, and the rest is the suffix after count |
| Provider.Take | src/RavenDBMembership/Provider/RavenDBMembershipProvider.cs:394 | Enumerable.Take: a non-positive count takes nothing, otherwise a prefix of at most count elements |
| Provider.Matching | src/RavenDBMembership/Provider/RavenDBMembershipProvider.cs:381-392 | exactly the users of the application that pass the filter (all when there is none), in increasing id order |
| Provider.IncreasingCount | src/RavenDBMembership/Provider/RavenDBMembershipProvider.cs:393 | a strictly increasing sequence has as many elements as its set of elements |
| Provider.MatchingCount | src/RavenDBMembership/Provider/RavenDBMembershipProvider.cs:393 | the query result's count equals the number of matching users |
| Provider.PageMatches | src/RavenDBMembership/Provider/RavenDBMembershipProvider.cs:394-398 | every user on a page is stored, in the application, and passes the filter |
| Provider.PageBounds | src/RavenDBMembership/Provider/RavenDBMembershipProvider.cs:394 | a page holds at most pageSize ids, all from the result; when the offset fits in an int it is the run starting at pageIndex * pageSize |
| Provider.MembershipProvider.constructor | src/RavenDBMembership/Provider/RavenDBMembershipProvider.cs:227-257 | the provider's configuration: the given minimum length, no non-alphanumeric minimum, no pattern, no unique email |
| Provider.MembershipProvider.Service | src/RavenDBMembership/Provider/RavenDBMembershipProvider.cs:351-354 | a fresh decorator over a fresh service on the session, both using the provider as configuration |
| Provider.MembershipProvider.ChangePassword | src/RavenDBMembership/Provider/RavenDBMembershipProvider.cs:63-71 | returns ChangePasswordOutcome's value and leaves the store in its state |
| Provider.MembershipProvider.CreateUser | src/RavenDBMembership/Provider/RavenDBMembershipProvider.cs:78-110 | returns CreateUserOutcome's value for the id the session assigns, and leaves the store in its state |
| Provider.MembershipProvider.DeleteUser | src/RavenDBMembership/Provider/RavenDBMembershipProvider.cs:126-145 | returns DeleteUserOutcome's value and leaves the store in its state |
| Provider.MembershipProvider.CheckPassword | src/RavenDBMembership/Provider/RavenDBMembershipProvider.cs:363-374 | returns CheckPasswordOutcome's value and leaves the store in its state |
| Provider.MembershipProvider.StageCheckPassword | src/RavenDBMembership/Provider/RavenDBMembershipProvider.cs:370 | the decorated service's CheckPassword on the session: returns CheckPasswordStep's result and adds its changes to the session |
| Provider.MembershipProvider.ValidateUser | src/RavenDBMembership/Provider/RavenDBMembershipProvider.cs:356-361 | CheckPassword with updateLastLogin set |
| Provider.MembershipProvider.ResetPassword | src/RavenDBMembership/Provider/RavenDBMembershipProvider.cs:261-289 | returns ResetPasswordOutcome's value and leaves the store in its state |
| Provider.MembershipProvider.StageUpdate | src/RavenDBMembership/Provider/RavenDBMembershipProvider.cs:315-335 | returns UpdateStep's result and adds its changes to the session |
| Provider.MembershipProvider.UpdateUser | src/RavenDBMembership/Provider/RavenDBMembershipProvider.cs:296-349 | returns UpdateUserOutcome's value and leaves the store in its state |
| Provider.MembershipProvider.FindUsers | src/RavenDBMembership/Provider/RavenDBMembershipProvider.cs:376-401 | totalRecords is the number of matching users; the users are the page's records in order, at most pageSize, each in the application and passing the filter |
| Provider.MembershipProvider.CopyUsers | src/RavenDBMembership/Provider/RavenDBMembershipProvider.cs:395-398 | the loop collects the record of each paged id, in order |
| Provider.MembershipProvider.FindUsersByEmail | src/RavenDBMembership/Provider/RavenDBMembershipProvider.cs:157-160 | totalRecords counts the users whose email contains the text; every returned user's email contains it; at most pageSize users |
| Provider.MembershipProvider.FindUsersByName | src/RavenDBMembership/Provider/RavenDBMembershipProvider.cs:162-165 | totalRecords counts the users whose username contains the text; every returned user's username contains it; at most pageSize users |
| Provider.MembershipProvider.GetAllUsers | src/RavenDBMembership/Provider/RavenDBMembershipProvider.cs:167-170 | totalRecords counts the application's users; every returned user is in the application; at most pageSize users |

## Left out

- PasswordUtil: hashing is an uninterpreted deterministic function, and CreateRandomSalt is a salt passed in; the cryptography is not modelled.
- SecUtility.ValidateParameter, char.IsLetterOrDigit, char.IsWhiteSpace and Regex.IsMatch are uninterpreted functions: their definitions live outside this repository.
- Membership.GeneratePassword(8, 2) and DateTime.Now are parameters (the generated password and `now`). The constant dates the provider fills into a MembershipUser are not modelled.
- MembershipUser and UserToMembershipUser: the provider returns the stored `User` records instead of building MembershipUser objects.
- RavenDB query semantics: stale indexes (WaitForNonStaleResultsAsOfNow), case-insensitive string matching, the server's page-size cap and the session's request limit are left out. Queries are exact and see only committed documents, not the session's unsaved changes.
- Concurrency between sessions: each SaveChanges is one atomic step on the store; interleavings of operations are not modelled.
- The exact text of RavenDB's ConcurrencyException message is taken as "PUT attempted on document '<key>' using a non current etag", and SaveChanges is taken to name the first conflicting reservation in the order the session stored them. Provider.DuplicateUserNameDetected relies on both: the username key is stored first, so a reserved username is the key the message names.
- Strings are sequences of Dafny characters. C# counts String.Length and applies char.IsLetterOrDigit per UTF-16 code unit, so a password with characters outside the Basic Multilingual Plane (surrogate pairs) has a different length and non-alphanumeric count in the source than in the model.
- The OnValidatingPassword event is a pure function of its arguments. The service raises it a second time after the decorator, and the model assumes it gives the same verdict both times; Validations.AcceptedCreateSucceeds and Provider.DuplicateUserNameDetected rely on that. A stateful handler that cancels only the second call is not modelled.
- Query order: the model returns matching ids in ascending order. The query behind FindUsers has no OrderBy, so RavenDB returns the index's order; which users fall on a given page, as Provider.MembershipProvider.FindUsers and Provider.PageBounds state it, holds only under the ascending order the model fixes.
- Null arguments are not modelled, except the null user of UpdateUser; null strings and their NullReferenceExceptions are outside the model.
- Initialize, the ServiceLocator lookup, the DocumentStore property's null check, the ApplicationName setter and console logging are left out. The configuration is fixed when the provider is constructed.
- The members that only throw NotImplementedException, the constant getters other than the four IConfiguration values, GetUser, GetUserNameByEmail and GetNumberOfUsersOnline are left out: they are not part of the modelled core.
- Exception messages are modelled as exception kinds plus the parameter name; the SR resource strings are not.
- The IUserService and IConfiguration interfaces are not separate types: each layer's class holds the concrete layer beneath it.
- Provider.MembershipProvider.ResetPassword: the password answer argument is ignored, as in the source.
- Provider.InterpretConcurrencyException: it is called with the caller's raw username and email, while the reservation keys hold the trimmed, checked values. Provider.DuplicateUserNameDetected and Provider.DuplicateEmailDetected therefore assume that the raw and stored values agree.
- Provider.MembershipProvider.FindUsersByEmail: does not state which page of the matching users is returned; Provider.MembershipProvider.FindUsers states it.
- Provider.MembershipProvider.FindUsersByName: does not state which page of the matching users is returned; Provider.MembershipProvider.FindUsers states it.
- Provider.MembershipProvider.GetAllUsers: does not state which page of the users is returned; Provider.MembershipProvider.FindUsers states it.
- Documents.DocumentStore: RavenDB's HiLo id generator is modelled as a counter that never reuses an id; id formatting ("users/1") is not modelled.

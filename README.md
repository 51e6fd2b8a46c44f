# LegacyApp user registration, modelled in Dafny

This project models `UserService.AddUser` of the LegacyApp. It is the
pipeline that decides whether a new user is registered:

1. Validate the input. Both names must be non-null and non-empty. The email
   must contain an `@` and a `.`. The person must be at least 21.
2. Look up the client by id.
3. Build the user record.
4. Set the credit limit from the client type:
   - `"VeryImportantClient"`: no limit, and the scorer is not called;
   - `"ImportantClient"`: twice the external score;
   - any other type: the score itself.
5. Check sufficiency: there is no limit, or the limit is at least 500.
6. Persist the user and return `true`.

Files:

- `wrappers.dfy`: `Option`, standing for a nullable reference.
- `domain.dfy`: C# `int` as `Int32` with two's-complement wrap-around.
  Also the `Date` fields the pipeline reads, `Client`, the value snapshot
  `UserRecord`, and the class `User`, whose credit fields are updated in place.
- `collaborators.dfy`: the client repository, the credit service and the
  user data access. Each is a class around an unknown function. Every call
  appends an `Event` to one shared `Journal`, so the order and number of
  calls can be stated.
- `user_service.dfy`: the steps as specification functions (`InputValid`,
  `Age`, `ApplyCreditPolicy`, `Register`). Also the class `UserService`, whose
  methods do the same steps imperatively. `AddUser` is proved to return
  `Register(...).result` and to append exactly `Register(...).trace` to the
  journal.
- `properties.dfy`: what the pipeline guarantees, proved about `Register`.

Parameters stand in for everything outside the core:

- the wall clock `DateTime.Now` is the argument `now`;
- the contents of the client repository are the function `find`;
- the credit score is the function `score`.

The credit-limit doubling `creditLimit * 2` is modelled as 32-bit
wrap-around. That is C#'s default unchecked arithmetic: a base score of
2^30 doubles to -2^31 and is refused (`ImportantDoublingWraps`). In the
other direction, a negative base score of -2^30 - 1 doubles to 2^31 - 2 and
is accepted (`ImportantNegativeScoreWrapsToAccepted`).
`email.Contains("@")` is modelled as an ordinal substring search
(`ContainsSubstring`). For a one-character needle it is proved equal to
membership of that character.

## Model

| member | source | states |
|---|---|---|
| `Registration.Register` | zadanie/LegacyApp/UserService.cs:16-33 | the pipeline on values: invalid input gives `false` and no calls; valid input makes the lookup first; on success the last call is a save of a sufficient record (its full behaviour is given by `SucceedsIff`, `CollaboratorCalls` and the tier lemmas) |
| `Registration.UserService.AddUser` | zadanie/LegacyApp/UserService.cs:16-33 | returns the verdict of `Register`, and the journal grows by exactly the lookup, scoring and save calls `Register` lists, in that order |
| `Registration.UserService.ValidateInput` | zadanie/LegacyApp/UserService.cs:35-41 | the short-circuit validation returns the value of `InputValid` |
| `Registration.IsNullOrEmpty` | zadanie/LegacyApp/UserService.cs:37 | the definition of `string.IsNullOrEmpty` (null, or no characters); its effect is stated by the ensures of `InputValid` and by `EmptyNameRejected` |
| `Registration.InputValid` | zadanie/LegacyApp/UserService.cs:37-40 | valid iff both names are non-null and non-empty, `@` and `.` each occur somewhere in the email, and the 21st birthday falls on or before "now" |
| `Registration.ContainsSubstring` | zadanie/LegacyApp/UserService.cs:40 | ordinal `string.Contains`: a match implies the needle is no longer than the string, and the empty needle always matches (positions are characterised by `ContainsSubstringAt`, one-character needles by `SingleCharContains`) |
| `Registration.SingleCharContains` | zadanie/LegacyApp/UserService.cs:40 | `Contains` of a one-character string holds iff that character occurs anywhere in the string |
| `Registration.ContainsSubstringAt` | zadanie/LegacyApp/UserService.cs:40 | the substring search succeeds iff the needle occurs at some position |
| `Registration.UserService.CalculateAge` | zadanie/LegacyApp/UserService.cs:43-51 | the year difference, decremented when this year's birthday is still ahead, equals `Age` |
| `Registration.Age` | zadanie/LegacyApp/UserService.cs:46-48 | the age is the number of the last anniversary reached on "now" (the next one is not); it is the year difference or one less |
| `Registration.AnniversaryReachedIffAtMostAge` | zadanie/LegacyApp/UserService.cs:46-48 | the n-th anniversary has been reached iff n is at most the age |
| `Registration.NewUserRecord` | zadanie/LegacyApp/UserService.cs:55-62 | the record the object initializer builds; the copy of the five inputs is stated by the ensures of `CreateUser` and by `SavedRecordCopiesInputs` |
| `Domain.User.constructor` | zadanie/LegacyApp/UserService.cs:55-62 | the object initializer: the new user's value is the five inputs with no credit limit and limit value 0 |
| `Registration.UserService.CreateUser` | zadanie/LegacyApp/UserService.cs:53-63 | a fresh user holding the five inputs unchanged, with no credit limit and limit value 0 |
| `Registration.ApplyCreditPolicy` | zadanie/LegacyApp/UserService.cs:65-77 | only the two limit fields change; a limit applies exactly when the client is not very important, and then exactly one scoring call on (last name, date of birth) is made, otherwise none (limit values: `CreditPolicyFrame`) |
| `Registration.IsCreditLimitSufficient` | zadanie/LegacyApp/UserService.cs:79-82 | the sufficiency rule: no limit, or a limit of at least 500; stated by the third ensures of `Register`, by `SucceedsIff`, `SavedRecordCopiesInputs` and `PersistedIffSufficient` |
| `Registration.UserService.CalculateCreditLimit` | zadanie/LegacyApp/UserService.cs:65-77 | the user becomes `ApplyCreditPolicy` of its old value; only `hasCreditLimit` and `creditLimit` change; the journal gains the scoring call, if one is made |
| `Registration.UserService.SaveUserToDatabase` | zadanie/LegacyApp/UserService.cs:84-87 | the journal gains one save event carrying the user's current value |
| `Collaborators.ClientRepository.GetById` | zadanie/LegacyApp/UserService.cs:21 | returns the repository's client for the id and records one lookup |
| `Collaborators.UserCreditService.GetCreditLimit` | zadanie/LegacyApp/UserService.cs:73 | returns the score for (last name, date of birth) and records one scoring call |
| `Collaborators.UserDataAccess.AddUser` | zadanie/LegacyApp/UserService.cs:86 | records one save of the user's current value |
| `Domain.WrapInt32` | zadanie/LegacyApp/UserService.cs:74 | the result is in `int` range and congruent to the input modulo 2^32; values already in range are unchanged |
| `RegistrationProperties.EmptyNameRejected` | zadanie/LegacyApp/UserService.cs:18-19 | a null or empty first or last name gives `false` with no collaborator call at all |
| `RegistrationProperties.EmailWithoutAtOrDotRejected` | zadanie/LegacyApp/UserService.cs:40 | an email missing `@` or missing `.` gives `false` with no collaborator call |
| `RegistrationProperties.UnderageRejected` | zadanie/LegacyApp/UserService.cs:40 | an age under 21 gives `false` with no collaborator call |
| `RegistrationProperties.EmailCheckIsCharacterMembership` | zadanie/LegacyApp/UserService.cs:40 | `a.b@c` and `.@` pass (any order, any position); `ab@cd` and `ab.cd` fail |
| `RegistrationProperties.AgeBoundary` | zadanie/LegacyApp/UserService.cs:40-48 | someone turning 21 today is 21 and passes validation; someone turning 21 tomorrow is 20 and fails |
| `RegistrationProperties.VeryImportantOutcome` | zadanie/LegacyApp/UserService.cs:67-69 | for a very important client, valid input always succeeds, with trace [lookup, save of the record without limit]; invalid input gives `false` and no calls |
| `RegistrationProperties.VeryImportantIgnoresScorer` | zadanie/LegacyApp/UserService.cs:67-69 | for a very important client, any two scorers give the same verdict and the same calls |
| `RegistrationProperties.ImportantOutcome` | zadanie/LegacyApp/UserService.cs:73-75 | for an important client whose doubled score fits in `int`, the limit is twice the score and the registration succeeds iff the score is at least 250; the trace is lookup, one scoring call, then a save only on success |
| `RegistrationProperties.ImportantDoublingWraps` | zadanie/LegacyApp/UserService.cs:74 | an important client scored 2^30 is refused, because the doubled limit wraps to a negative `int` |
| `RegistrationProperties.ImportantNegativeScoreWrapsToAccepted` | zadanie/LegacyApp/UserService.cs:74 | an important client scored -2^30 - 1 is accepted, because the doubled limit wraps to 2^31 - 2 |
| `RegistrationProperties.RegularOutcome` | zadanie/LegacyApp/UserService.cs:73-75 | for any other client type, the limit is the score and the registration succeeds iff the score is at least 500; the trace is lookup, one scoring call, then a save only on success |
| `RegistrationProperties.SucceedsIff` | zadanie/LegacyApp/UserService.cs:18-32 | `AddUser` returns true iff validation passes and either the client is very important or the tier-derived limit is at least 500 |
| `RegistrationProperties.CollaboratorCalls` | zadanie/LegacyApp/UserService.cs:18-32 | one lookup exactly when validation passes, and it is the first call; one scoring call exactly when validation passes and the client is not very important; exactly one save on success and none on failure, and the save is the last call |
| `RegistrationProperties.SavedRecordCopiesInputs` | zadanie/LegacyApp/UserService.cs:53-62 | on success, the one persisted record holds the five inputs unchanged and passes the sufficiency check |
| `RegistrationProperties.PersistedIffSufficient` | zadanie/LegacyApp/UserService.cs:27-30 | with invalid input nothing is persisted; with valid input the credit-limited record is persisted once exactly when it is sufficient, and nothing otherwise |
| `RegistrationProperties.CreditPolicyFrame` | zadanie/LegacyApp/UserService.cs:65-82 | the credit step changes only the two limit fields; a very important client gets no limit, keeps its limit value, is not scored and is always sufficient; any other client gets a limit and exactly one scoring call on (last name, date of birth), and the limit is the wrapped double of the score for an important client and the score itself otherwise |
| `RegistrationProperties.RegularScoredAtThreshold` | zadanie/LegacyApp/UserService.cs:73-81 | Jane Doe, aged 30, a regular client scored 500: success, and one record is persisted, with limit 500 |
| `RegistrationProperties.RegularScoredBelowThreshold` | zadanie/LegacyApp/UserService.cs:73-81 | the same registration scored 499: `false`, and nothing is persisted |
| `RegistrationProperties.VeryImportantNeverScored` | zadanie/LegacyApp/UserService.cs:67-69 | a valid very important registration succeeds and never calls the scorer |

## Left out

- The constructor's static singletons (`ClientRepository`, `UserCreditService`) are left out. The collaborators are passed to the `UserService` constructor and share one journal.
- `DateTime.Now` is not read. The current date is the parameter `now`.
- `Date` keeps only the year, month and day of a `DateTime`. The time of day and `Kind` of `dateOfBirth` are not modelled, so the score function and the saved record cannot depend on them, although the source passes the full `DateTime` to `GetCreditLimit` and stores it in the `User`.
- Strings are sequences of Unicode characters, not of UTF-16 code units. The core only tests emptiness and looks for the ASCII characters `@` and `.`, so this changes no outcome.
- Dates are checked only for field ranges: year 1..9999, month 1..12, day 1..31. Whether a day exists in its month is not modelled.
- The logic of `ClientRepository.GetById`, `UserCreditService.GetCreditLimit` and `UserDataAccess.AddUser` is not part of this model. Each is an unknown total function, or a recorded event.
- What `GetById` does for an unknown id, or when it returns a null client, is not modelled. The lookup always returns a client.
- Collaborator failures (exceptions thrown by lookup, scoring or storage) are not modelled.
- A null `email` throws a `NullReferenceException` in the source. The model takes `email` to be a non-null string.
- `UserDataAccess.AddUser` is static in the source. Here it is an instance method, so it can write to the shared journal.
- `Client` keeps only its type string. Its other members are not read by the pipeline.
- `User` is assumed to start with `HasCreditLimit = false` and `CreditLimit = 0`, the C# defaults. `User.cs` is not part of this model.
- The wrap-around of `creditLimit * 2` assumes the default unchecked context. No project setting for checked arithmetic is part of this model.

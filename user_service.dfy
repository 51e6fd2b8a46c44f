/**
 The registration pipeline of `UserService`: input validation, calendar age,
 the tier-driven credit limit, the sufficiency check and persistence.

 The specification functions (InputValid, Age, ApplyCreditPolicy, Register)
 describe each step on values; the class UserService performs the same
 steps imperatively against the collaborators and is proved to agree with
 them.
 */
module Registration {
  import opened Wrappers
  import opened Domain
  import opened Collaborators

  const MinimumAge: int := 21
  const MinimumCreditLimit: int := 500
  const VeryImportantClient: string := "VeryImportantClient"
  const ImportantClient: string := "ImportantClient"

  // ---------------------------------------------------------------------
  // Strings

  /** `string.IsNullOrEmpty`: the reference is null or the string has no characters. */
  predicate IsNullOrEmpty(s: Option<string>)
  {
    s.None? || s.value == ""
  }

  /** Ordinal `string.Contains(sub)`: `sub` occurs as a contiguous piece of `s`. */
  function ContainsSubstring(s: string, sub: string): (r: bool)
    ensures r ==> |sub| <= |s|
    ensures sub == [] ==> r
    decreases |s|
  {
    if |s| < |sub| then false
    else s[..|sub|] == sub || ContainsSubstring(s[1..], sub)
  }

  /** `sub` occurs in `s` starting at position `i`. */
  predicate OccursAt(s: string, sub: string, i: int)
  {
    0 <= i <= |s| - |sub| && s[i..i + |sub|] == sub
  }

  /** The recursive search agrees with "there is a position where `sub` starts". */
  lemma {:induction false} ContainsSubstringAt(s: string, sub: string)
    ensures ContainsSubstring(s, sub) <==> exists i :: OccursAt(s, sub, i)
    decreases |s|
  {
    if |s| < |sub| {
    } else if s[..|sub|] == sub {
      assert OccursAt(s, sub, 0);
    } else {
      assert |s| >= 1;
      ContainsSubstringAt(s[1..], sub);
      if exists i :: OccursAt(s[1..], sub, i) {
        var i :| OccursAt(s[1..], sub, i);
        assert s[i + 1..i + 1 + |sub|] == s[1..][i..i + |sub|];
        assert OccursAt(s, sub, i + 1);
      }
      if exists i :: OccursAt(s, sub, i) {
        var i :| OccursAt(s, sub, i);
        assert i != 0;
        assert s[1..][i - 1..i - 1 + |sub|] == s[i..i + |sub|];
        assert OccursAt(s[1..], sub, i - 1);
      }
    }
  }

  /** For a one-character needle, `Contains` is membership anywhere in the string. */
  lemma {:induction false} SingleCharContains(s: string, c: char)
    ensures ContainsSubstring(s, [c]) <==> c in s
    decreases |s|
  {
    if |s| >= 1 {
      SingleCharContains(s[1..], c);
      assert s == [s[0]] + s[1..];
    }
  }

  // ---------------------------------------------------------------------
  // Calendar age

  /** Lexicographic order on (year, month, day). */
  predicate OnOrBefore(y1: int, m1: int, d1: int, y2: int, m2: int, d2: int)
  {
    y1 < y2 || (y1 == y2 && (m1 < m2 || (m1 == m2 && d1 <= d2)))
  }

  /** The `n`-th anniversary of `birth` falls on or before `now`. */
  predicate AnniversaryReached(birth: Date, n: int, now: Date)
  {
    OnOrBefore(birth.year + n, birth.month, birth.day, now.year, now.month, now.day)
  }

  /** The birthday of this calendar year is still ahead on `now`. */
  predicate BirthdayAhead(birth: Date, now: Date)
  {
    now.month < birth.month || (now.month == birth.month && now.day < birth.day)
  }

  /** Age in whole years on `now`: the number of the last anniversary reached. */
  function Age(birth: Date, now: Date): (age: int)
    ensures AnniversaryReached(birth, age, now) && !AnniversaryReached(birth, age + 1, now)
    ensures age == now.year - birth.year || age == now.year - birth.year - 1
  {
    now.year - birth.year - (if BirthdayAhead(birth, now) then 1 else 0)
  }

  /** Anniversaries reached on `now` are exactly those up to the age. */
  lemma AnniversaryReachedIffAtMostAge(birth: Date, n: int, now: Date)
    ensures AnniversaryReached(birth, n, now) <==> n <= Age(birth, now)
  {
  }

  // ---------------------------------------------------------------------
  // Validation

  /**
   Validation as the single boolean expression of the source: both names
   present and non-empty, an `@` and a `.` somewhere in the email, and the
   21st birthday already reached.
   */
  function InputValid(firstName: Option<string>, lastName: Option<string>, email: string, dateOfBirth: Date, now: Date): (ok: bool)
    ensures ok <==>
      && firstName.Some? && firstName.value != ""
      && lastName.Some? && lastName.value != ""
      && '@' in email && '.' in email
      && AnniversaryReached(dateOfBirth, MinimumAge, now)
  {
    SingleCharContains(email, '@');
    SingleCharContains(email, '.');
    AnniversaryReachedIffAtMostAge(dateOfBirth, MinimumAge, now);
    && !IsNullOrEmpty(firstName) && !IsNullOrEmpty(lastName)
    && ContainsSubstring(email, "@") && ContainsSubstring(email, ".")
    && Age(dateOfBirth, now) >= MinimumAge
  }

  // ---------------------------------------------------------------------
  // Credit limit

  /** The record `CreateUser` builds: the five inputs, no limit yet, limit value 0. */
  function NewUserRecord(firstName: string, lastName: string, email: string, dateOfBirth: Date, client: Client): UserRecord
  {
    UserRecord(firstName, lastName, email, dateOfBirth, client, false, 0)
  }

  /**
   The credit-limit step on a record: the updated record and the scoring
   calls it makes (none for a very important client, one otherwise).
   */
  function ApplyCreditPolicy(u: UserRecord, score: (string, Date) -> Int32): (r: (UserRecord, seq<Event>))
    ensures r.0.(hasCreditLimit := u.hasCreditLimit, creditLimit := u.creditLimit) == u
    ensures r.0.hasCreditLimit <==> u.client.clientType != VeryImportantClient
    ensures r.1 == (if r.0.hasCreditLimit then [Score(u.lastName, u.dateOfBirth)] else [])
  {
    if u.client.clientType == VeryImportantClient then
      (u.(hasCreditLimit := false), [])
    else
      var base := score(u.lastName, u.dateOfBirth);
      var limit := if u.client.clientType == ImportantClient then WrapInt32(base as int * 2) else base;
      (u.(creditLimit := limit, hasCreditLimit := true), [Score(u.lastName, u.dateOfBirth)])
  }

  /** The sufficiency rule: no limit applies, or the limit is at least 500. */
  predicate IsCreditLimitSufficient(u: UserRecord)
  {
    !u.hasCreditLimit || u.creditLimit >= MinimumCreditLimit
  }

  // ---------------------------------------------------------------------
  // The whole pipeline

  /** The verdict of one registration and the collaborator calls it makes, in order. */
  datatype Run = Run(result: bool, trace: seq<Event>)

  function Register(
    firstName: Option<string>, lastName: Option<string>, email: string, dateOfBirth: Date, clientId: Int32,
    now: Date, find: Int32 -> Client, score: (string, Date) -> Int32): (run: Run)
    ensures !InputValid(firstName, lastName, email, dateOfBirth, now) ==> run == Run(false, [])
    ensures InputValid(firstName, lastName, email, dateOfBirth, now) ==> |run.trace| >= 1 && run.trace[0] == Lookup(clientId)
    ensures run.result ==>
      && |run.trace| >= 2
      && run.trace[|run.trace| - 1].Save?
      && IsCreditLimitSufficient(run.trace[|run.trace| - 1].user)
  {
    if !InputValid(firstName, lastName, email, dateOfBirth, now) then Run(false, [])
    else
      var client := find(clientId);
      var step := ApplyCreditPolicy(NewUserRecord(firstName.value, lastName.value, email, dateOfBirth, client), score);
      var consulted := [Lookup(clientId)] + step.1;
      if IsCreditLimitSufficient(step.0) then Run(true, consulted + [Save(step.0)])
      else Run(false, consulted)
  }

  class UserService {
    const clientRepository: ClientRepository
    const userCreditService: UserCreditService
    const userDataAccess: UserDataAccess
    /** The journal all three collaborators write to. */
    const journal: Journal

    ghost predicate Valid()
    {
      && clientRepository.journal == journal
      && userCreditService.journal == journal
      && userDataAccess.journal == journal
    }

    constructor (clientRepository: ClientRepository, userCreditService: UserCreditService, userDataAccess: UserDataAccess)
      requires userCreditService.journal == clientRepository.journal
      requires userDataAccess.journal == clientRepository.journal
      ensures Valid()
      ensures this.clientRepository == clientRepository
      ensures this.userCreditService == userCreditService
      ensures this.userDataAccess == userDataAccess
    {
      this.clientRepository := clientRepository;
      this.userCreditService := userCreditService;
      this.userDataAccess := userDataAccess;
      this.journal := clientRepository.journal;
    }

    method AddUser(firstName: Option<string>, lastName: Option<string>, email: string, dateOfBirth: Date, clientId: Int32, now: Date)
      returns (ok: bool)
      requires Valid()
      modifies journal
      ensures
        var run := Register(firstName, lastName, email, dateOfBirth, clientId, now, clientRepository.find, userCreditService.score);
        ok == run.result && journal.events == old(journal.events) + run.trace
    {
      var valid := ValidateInput(firstName, lastName, email, dateOfBirth, now);
      if !valid {
        return false;
      }
      var client := clientRepository.GetById(clientId);
      var user := CreateUser(firstName.value, lastName.value, email, dateOfBirth, client);
      CalculateCreditLimit(user);
      if !IsCreditLimitSufficient(user.Snapshot()) {
        return false;
      }
      SaveUserToDatabase(user);
      return true;
    }

    method ValidateInput(firstName: Option<string>, lastName: Option<string>, email: string, dateOfBirth: Date, now: Date)
      returns (ok: bool)
      ensures ok == InputValid(firstName, lastName, email, dateOfBirth, now)
    {
      if IsNullOrEmpty(firstName) || IsNullOrEmpty(lastName) {
        return false;
      }
      ok := ContainsSubstring(email, "@") && ContainsSubstring(email, ".");
      if ok {
        var age := CalculateAge(dateOfBirth, now);
        ok := age >= MinimumAge;
      }
    }

    method CalculateAge(dateOfBirth: Date, now: Date) returns (age: int)
      ensures age == Age(dateOfBirth, now)
    {
      age := now.year - dateOfBirth.year;
      if BirthdayAhead(dateOfBirth, now) {
        age := age - 1;
      }
    }

    method CreateUser(firstName: string, lastName: string, email: string, dateOfBirth: Date, client: Client)
      returns (user: User)
      ensures fresh(user)
      ensures user.Snapshot() == NewUserRecord(firstName, lastName, email, dateOfBirth, client)
    {
      user := new User(firstName, lastName, email, dateOfBirth, client);
    }

    method CalculateCreditLimit(user: User)
      requires Valid()
      modifies user`hasCreditLimit, user`creditLimit, journal
      ensures user.Snapshot() == ApplyCreditPolicy(old(user.Snapshot()), userCreditService.score).0
      ensures journal.events == old(journal.events) + ApplyCreditPolicy(old(user.Snapshot()), userCreditService.score).1
      ensures user.Snapshot().(hasCreditLimit := old(user.hasCreditLimit), creditLimit := old(user.creditLimit)) == old(user.Snapshot())
    {
      if user.client.clientType == VeryImportantClient {
        user.hasCreditLimit := false;
      } else {
        var creditLimit := userCreditService.GetCreditLimit(user.lastName, user.dateOfBirth);
        user.creditLimit := if user.client.clientType == ImportantClient then WrapInt32(creditLimit as int * 2) else creditLimit;
        user.hasCreditLimit := true;
      }
    }

    method SaveUserToDatabase(user: User)
      requires Valid()
      modifies journal
      ensures journal.events == old(journal.events) + [Save(user.Snapshot())]
    {
      userDataAccess.AddUser(user);
    }
  }
}

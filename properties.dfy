/**
 What the registration pipeline guarantees, stated on the specification
 function `Register` (which `UserService.AddUser` is proved to follow) and
 on the credit-limit step alone.
 */
module RegistrationProperties {
  import opened Wrappers
  import opened Domain
  import opened Collaborators
  import opened Registration

  // ---------------------------------------------------------------------
  // Validation short-circuits before any collaborator is called

  lemma EmptyNameRejected(
    firstName: Option<string>, lastName: Option<string>, email: string, dateOfBirth: Date, clientId: Int32,
    now: Date, find: Int32 -> Client, score: (string, Date) -> Int32)
    requires firstName == None || firstName == Some("") || lastName == None || lastName == Some("")
    ensures Register(firstName, lastName, email, dateOfBirth, clientId, now, find, score) == Run(false, [])
  {
  }

  lemma EmailWithoutAtOrDotRejected(
    firstName: Option<string>, lastName: Option<string>, email: string, dateOfBirth: Date, clientId: Int32,
    now: Date, find: Int32 -> Client, score: (string, Date) -> Int32)
    requires '@' !in email || '.' !in email
    ensures Register(firstName, lastName, email, dateOfBirth, clientId, now, find, score) == Run(false, [])
  {
  }

  lemma UnderageRejected(
    firstName: Option<string>, lastName: Option<string>, email: string, dateOfBirth: Date, clientId: Int32,
    now: Date, find: Int32 -> Client, score: (string, Date) -> Int32)
    requires Age(dateOfBirth, now) < MinimumAge
    ensures Register(firstName, lastName, email, dateOfBirth, clientId, now, find, score) == Run(false, [])
  {
  }

  /** The email check is only "an `@` and a `.` somewhere": order and structure do not matter. */
  lemma EmailCheckIsCharacterMembership()
    ensures InputValid(Some("A"), Some("B"), "a.b@c", Date(1990, 1, 1), Date(2020, 1, 1))
    ensures InputValid(Some("A"), Some("B"), ".@", Date(1990, 1, 1), Date(2020, 1, 1))
    ensures !InputValid(Some("A"), Some("B"), "ab@cd", Date(1990, 1, 1), Date(2020, 1, 1))
    ensures !InputValid(Some("A"), Some("B"), "ab.cd", Date(1990, 1, 1), Date(2020, 1, 1))
  {
  }

  const JaneEmail: string := "jane.doe@example.com"

  /** Helper for the concrete scenarios below: the sample email passes the character test. */
  lemma JaneEmailHasAtAndDot()
    ensures '@' in JaneEmail && '.' in JaneEmail
  {
  }

  /** Turning 21 today passes; turning 21 tomorrow fails. */
  lemma AgeBoundary()
    ensures Age(Date(2003, 6, 15), Date(2024, 6, 15)) == 21
    ensures Age(Date(2003, 6, 16), Date(2024, 6, 15)) == 20
    ensures InputValid(Some("Jane"), Some("Doe"), JaneEmail, Date(2003, 6, 15), Date(2024, 6, 15))
    ensures !InputValid(Some("Jane"), Some("Doe"), JaneEmail, Date(2003, 6, 16), Date(2024, 6, 15))
  {
  }

  // ---------------------------------------------------------------------
  // The verdict, tier by tier

  /** A very important client is never scored: a valid registration always succeeds and saves a record without limit. */
  lemma VeryImportantOutcome(
    firstName: Option<string>, lastName: Option<string>, email: string, dateOfBirth: Date, clientId: Int32,
    now: Date, find: Int32 -> Client, score: (string, Date) -> Int32)
    requires find(clientId).clientType == VeryImportantClient
    ensures Register(firstName, lastName, email, dateOfBirth, clientId, now, find, score) ==
      if InputValid(firstName, lastName, email, dateOfBirth, now) then
        Run(true, [Lookup(clientId), Save(UserRecord(firstName.value, lastName.value, email, dateOfBirth, find(clientId), false, 0))])
      else Run(false, [])
  {
  }

  /** For a very important client the scorer's answers cannot influence anything. */
  lemma VeryImportantIgnoresScorer(
    firstName: Option<string>, lastName: Option<string>, email: string, dateOfBirth: Date, clientId: Int32,
    now: Date, find: Int32 -> Client, score: (string, Date) -> Int32, otherScore: (string, Date) -> Int32)
    requires find(clientId).clientType == VeryImportantClient
    ensures Register(firstName, lastName, email, dateOfBirth, clientId, now, find, score) ==
            Register(firstName, lastName, email, dateOfBirth, clientId, now, find, otherScore)
  {
  }

  /**
   An important client gets twice the base score as limit, so (while the
   doubling fits in an `int`) it succeeds exactly when the base is at least 250.
   */
  lemma ImportantOutcome(
    firstName: Option<string>, lastName: Option<string>, email: string, dateOfBirth: Date, clientId: Int32,
    now: Date, find: Int32 -> Client, score: (string, Date) -> Int32)
    requires find(clientId).clientType == ImportantClient
    requires InputValid(firstName, lastName, email, dateOfBirth, now)
    requires -0x4000_0000 <= score(lastName.value, dateOfBirth) < 0x4000_0000
    ensures
      var base := score(lastName.value, dateOfBirth);
      var saved := UserRecord(firstName.value, lastName.value, email, dateOfBirth, find(clientId), true, 2 * base);
      var run := Register(firstName, lastName, email, dateOfBirth, clientId, now, find, score);
      && (run.result <==> base >= 250)
      && run.trace == [Lookup(clientId), Score(lastName.value, dateOfBirth)] + (if run.result then [Save(saved)] else [])
  {
  }

  /**
   The doubling wraps around like C# `int`: a base score of 2^30 doubles to
   -2^31, so the important client is refused although twice its score is
   far above 500.
   */
  lemma ImportantDoublingWraps(
    firstName: Option<string>, lastName: Option<string>, email: string, dateOfBirth: Date, clientId: Int32,
    now: Date, find: Int32 -> Client, score: (string, Date) -> Int32)
    requires find(clientId).clientType == ImportantClient
    requires InputValid(firstName, lastName, email, dateOfBirth, now)
    requires score(lastName.value, dateOfBirth) == 0x4000_0000
    ensures !Register(firstName, lastName, email, dateOfBirth, clientId, now, find, score).result
  {
  }

  /**
   The other side of the wrap-around: a base score of -2^30 - 1 doubles to
   2^31 - 2, so the important client is accepted although twice its score is
   negative.
   */
  lemma ImportantNegativeScoreWrapsToAccepted(
    firstName: Option<string>, lastName: Option<string>, email: string, dateOfBirth: Date, clientId: Int32,
    now: Date, find: Int32 -> Client, score: (string, Date) -> Int32)
    requires find(clientId).clientType == ImportantClient
    requires InputValid(firstName, lastName, email, dateOfBirth, now)
    requires score(lastName.value, dateOfBirth) == -0x4000_0001
    ensures Register(firstName, lastName, email, dateOfBirth, clientId, now, find, score).result
  {
  }

  /** Any other client type gets the base score unchanged and succeeds exactly when it is at least 500. */
  lemma RegularOutcome(
    firstName: Option<string>, lastName: Option<string>, email: string, dateOfBirth: Date, clientId: Int32,
    now: Date, find: Int32 -> Client, score: (string, Date) -> Int32)
    requires find(clientId).clientType != VeryImportantClient && find(clientId).clientType != ImportantClient
    requires InputValid(firstName, lastName, email, dateOfBirth, now)
    ensures
      var base := score(lastName.value, dateOfBirth);
      var saved := UserRecord(firstName.value, lastName.value, email, dateOfBirth, find(clientId), true, base);
      var run := Register(firstName, lastName, email, dateOfBirth, clientId, now, find, score);
      && (run.result <==> base >= MinimumCreditLimit)
      && run.trace == [Lookup(clientId), Score(lastName.value, dateOfBirth)] + (if run.result then [Save(saved)] else [])
  {
  }

  /** The registration succeeds exactly when validation passes and either no limit applies or the limit is at least 500. */
  lemma SucceedsIff(
    firstName: Option<string>, lastName: Option<string>, email: string, dateOfBirth: Date, clientId: Int32,
    now: Date, find: Int32 -> Client, score: (string, Date) -> Int32)
    ensures Register(firstName, lastName, email, dateOfBirth, clientId, now, find, score).result <==>
      && InputValid(firstName, lastName, email, dateOfBirth, now)
      && var clientType := find(clientId).clientType;
         var base := score(lastName.value, dateOfBirth);
         || clientType == VeryImportantClient
         || (clientType == ImportantClient && WrapInt32(base as int * 2) >= MinimumCreditLimit)
         || (clientType != ImportantClient && base >= MinimumCreditLimit)
  {
  }

  // ---------------------------------------------------------------------
  // Collaborator calls

  /**
   The client is looked up once, and only after validation passes; the
   scorer is consulted once exactly when validation passes and the client is
   not very important; the record is persisted once, as the last call,
   exactly when the registration succeeds.
   */
  lemma {:induction false} CollaboratorCalls(
    firstName: Option<string>, lastName: Option<string>, email: string, dateOfBirth: Date, clientId: Int32,
    now: Date, find: Int32 -> Client, score: (string, Date) -> Int32)
    ensures
      var run := Register(firstName, lastName, email, dateOfBirth, clientId, now, find, score);
      var valid := InputValid(firstName, lastName, email, dateOfBirth, now);
      && Lookups(run.trace) == (if valid then [clientId] else [])
      && (valid ==> run.trace[0] == Lookup(clientId))
      && Scores(run.trace) ==
           (if valid && find(clientId).clientType != VeryImportantClient then [(lastName.value, dateOfBirth)] else [])
      && |Saves(run.trace)| == (if run.result then 1 else 0)
      && (run.result ==> run.trace[|run.trace| - 1].Save?)
  {
    var run := Register(firstName, lastName, email, dateOfBirth, clientId, now, find, score);
    if InputValid(firstName, lastName, email, dateOfBirth, now) {
      var step := ApplyCreditPolicy(NewUserRecord(firstName.value, lastName.value, email, dateOfBirth, find(clientId)), score);
      var consulted := [Lookup(clientId)] + step.1;
      var tail := if run.result then [Save(step.0)] else [];
      assert run.trace == [Lookup(clientId)] + step.1 + tail;
      FilterAppend([Lookup(clientId)] + step.1, tail, LookupPart);
      FilterAppend([Lookup(clientId)], step.1, LookupPart);
      FilterAppend([Lookup(clientId)] + step.1, tail, ScorePart);
      FilterAppend([Lookup(clientId)], step.1, ScorePart);
      FilterAppend([Lookup(clientId)] + step.1, tail, SavePart);
      FilterAppend([Lookup(clientId)], step.1, SavePart);
    }
  }

  /** The record handed to the persistence sink carries the five inputs unchanged. */
  lemma {:induction false} SavedRecordCopiesInputs(
    firstName: Option<string>, lastName: Option<string>, email: string, dateOfBirth: Date, clientId: Int32,
    now: Date, find: Int32 -> Client, score: (string, Date) -> Int32)
    requires Register(firstName, lastName, email, dateOfBirth, clientId, now, find, score).result
    ensures
      var saves := Saves(Register(firstName, lastName, email, dateOfBirth, clientId, now, find, score).trace);
      && |saves| == 1
      && saves[0].firstName == firstName.value && saves[0].lastName == lastName.value
      && saves[0].emailAddress == email && saves[0].dateOfBirth == dateOfBirth
      && saves[0].client == find(clientId)
      && IsCreditLimitSufficient(saves[0])
  {
    var step := ApplyCreditPolicy(NewUserRecord(firstName.value, lastName.value, email, dateOfBirth, find(clientId)), score);
    FilterAppend([Lookup(clientId)] + step.1, [Save(step.0)], SavePart);
    FilterAppend([Lookup(clientId)], step.1, SavePart);
  }

  /**
   The record built and given its credit limit is persisted, once, exactly
   when validation passes and that record is sufficient; otherwise nothing is.
   */
  lemma {:induction false} PersistedIffSufficient(
    firstName: Option<string>, lastName: Option<string>, email: string, dateOfBirth: Date, clientId: Int32,
    now: Date, find: Int32 -> Client, score: (string, Date) -> Int32)
    ensures
      var saves := Saves(Register(firstName, lastName, email, dateOfBirth, clientId, now, find, score).trace);
      if InputValid(firstName, lastName, email, dateOfBirth, now) then
        var step := ApplyCreditPolicy(NewUserRecord(firstName.value, lastName.value, email, dateOfBirth, find(clientId)), score);
        saves == if IsCreditLimitSufficient(step.0) then [step.0] else []
      else saves == []
  {
    if InputValid(firstName, lastName, email, dateOfBirth, now) {
      var step := ApplyCreditPolicy(NewUserRecord(firstName.value, lastName.value, email, dateOfBirth, find(clientId)), score);
      FilterAppend([Lookup(clientId)] + step.1, [Save(step.0)], SavePart);
      FilterAppend([Lookup(clientId)], step.1, SavePart);
    }
  }

  // ---------------------------------------------------------------------
  // The credit-limit step on its own

  /**
   Only the two credit-limit fields change; a very important client is not
   scored and is always sufficient; any other client is scored once and gets
   the (wrapped) doubled score if important, the score itself otherwise.
   */
  lemma CreditPolicyFrame(u: UserRecord, score: (string, Date) -> Int32)
    ensures
      var step := ApplyCreditPolicy(u, score);
      && step.0.(hasCreditLimit := u.hasCreditLimit, creditLimit := u.creditLimit) == u
      && (u.client.clientType == VeryImportantClient ==>
            step.1 == [] && !step.0.hasCreditLimit && step.0.creditLimit == u.creditLimit && IsCreditLimitSufficient(step.0))
      && (u.client.clientType != VeryImportantClient ==>
            && step.1 == [Score(u.lastName, u.dateOfBirth)] && step.0.hasCreditLimit
            && var base := score(u.lastName, u.dateOfBirth);
               step.0.creditLimit == if u.client.clientType == ImportantClient then WrapInt32(base as int * 2) else base)
  {
  }

  // ---------------------------------------------------------------------
  // Concrete scenarios

  /** Jane Doe, aged 30, a regular client scored at exactly 500: registered once with limit 500. */
  lemma RegularScoredAtThreshold(find: Int32 -> Client, score: (string, Date) -> Int32)
    requires find(7).clientType == "NormalClient"
    requires score("Doe", Date(1994, 1, 1)) == 500
    ensures
      var run := Register(Some("Jane"), Some("Doe"), JaneEmail, Date(1994, 1, 1), 7, Date(2024, 6, 15), find, score);
      && run.result
      && Saves(run.trace) == [UserRecord("Jane", "Doe", JaneEmail, Date(1994, 1, 1), find(7), true, 500)]
  {
    JaneEmailHasAtAndDot();
    RegularOutcome(Some("Jane"), Some("Doe"), JaneEmail, Date(1994, 1, 1), 7, Date(2024, 6, 15), find, score);
    var saved := UserRecord("Jane", "Doe", JaneEmail, Date(1994, 1, 1), find(7), true, 500);
    FilterAppend([Lookup(7), Score("Doe", Date(1994, 1, 1))], [Save(saved)], SavePart);
    FilterAppend([Lookup(7)], [Score("Doe", Date(1994, 1, 1))], SavePart);
  }

  /** The same registration scored at 499 is refused and nothing is persisted. */
  lemma RegularScoredBelowThreshold(find: Int32 -> Client, score: (string, Date) -> Int32)
    requires find(7).clientType == "NormalClient"
    requires score("Doe", Date(1994, 1, 1)) == 499
    ensures
      var run := Register(Some("Jane"), Some("Doe"), JaneEmail, Date(1994, 1, 1), 7, Date(2024, 6, 15), find, score);
      && !run.result
      && Saves(run.trace) == []
  {
    JaneEmailHasAtAndDot();
    RegularOutcome(Some("Jane"), Some("Doe"), JaneEmail, Date(1994, 1, 1), 7, Date(2024, 6, 15), find, score);
    FilterAppend([Lookup(7)], [Score("Doe", Date(1994, 1, 1))], SavePart);
  }

  /** A very important client with a valid registration succeeds and the scorer is never called. */
  lemma VeryImportantNeverScored(find: Int32 -> Client, score: (string, Date) -> Int32)
    requires find(7).clientType == VeryImportantClient
    ensures
      var run := Register(Some("Jane"), Some("Doe"), JaneEmail, Date(1994, 1, 1), 7, Date(2024, 6, 15), find, score);
      && run.result
      && Scores(run.trace) == []
  {
    JaneEmailHasAtAndDot();
    var saved := UserRecord("Jane", "Doe", JaneEmail, Date(1994, 1, 1), find(7), false, 0);
    FilterAppend([Lookup(7)], [Save(saved)], ScorePart);
  }
}

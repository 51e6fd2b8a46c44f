/**
 The three collaborators of the registration pipeline: client lookup, credit
 scoring and the persistence sink. Their own logic is not modelled; each is
 an unknown function, and every call is appended to a shared journal so that the
 order and number of calls can be stated.
 */
module Collaborators {
  import opened Wrappers
  import opened Domain

  /** One call into a collaborator. */
  datatype Event =
    | Lookup(clientId: Int32)
    | Score(lastName: string, dateOfBirth: Date)
    | Save(user: UserRecord)

  /** The record of every collaborator call, in order. */
  class Journal {
    var events: seq<Event>

    constructor ()
      ensures events == []
    {
      events := [];
    }

    method Record(e: Event)
      modifies this
      ensures events == old(events) + [e]
    {
      events := events + [e];
    }
  }

  class ClientRepository {
    const journal: Journal
    /** The repository's contents, as seen by the pipeline. */
    const find: Int32 -> Client

    constructor (journal: Journal, find: Int32 -> Client)
      ensures this.journal == journal && this.find == find
    {
      this.journal := journal;
      this.find := find;
    }

    method GetById(clientId: Int32) returns (client: Client)
      modifies journal
      ensures client == find(clientId)
      ensures journal.events == old(journal.events) + [Lookup(clientId)]
    {
      journal.Record(Lookup(clientId));
      client := find(clientId);
    }
  }

  class UserCreditService {
    const journal: Journal
    /** The external credit score for a last name and a date of birth. */
    const score: (string, Date) -> Int32

    constructor (journal: Journal, score: (string, Date) -> Int32)
      ensures this.journal == journal && this.score == score
    {
      this.journal := journal;
      this.score := score;
    }

    method GetCreditLimit(lastName: string, dateOfBirth: Date) returns (limit: Int32)
      modifies journal
      ensures limit == score(lastName, dateOfBirth)
      ensures journal.events == old(journal.events) + [Score(lastName, dateOfBirth)]
    {
      journal.Record(Score(lastName, dateOfBirth));
      limit := score(lastName, dateOfBirth);
    }
  }

  class UserDataAccess {
    const journal: Journal

    constructor (journal: Journal)
      ensures this.journal == journal
    {
      this.journal := journal;
    }

    /** Persists the user as it is at the time of the call. */
    method AddUser(user: User)
      modifies journal
      ensures journal.events == old(journal.events) + [Save(user.Snapshot())]
    {
      journal.Record(Save(user.Snapshot()));
    }
  }

  /** The parts `pick` selects from the events of a trace, in order. */
  function Filter<T>(trace: seq<Event>, pick: Event -> Option<T>): seq<T>
  {
    if trace == [] then []
    else (match pick(trace[0]) case Some(x) => [x] case None => []) + Filter(trace[1..], pick)
  }

  lemma {:induction false} FilterAppend<T>(a: seq<Event>, b: seq<Event>, pick: Event -> Option<T>)
    ensures Filter(a + b, pick) == Filter(a, pick) + Filter(b, pick)
  {
    if a == [] {
      assert a + b == b;
    } else {
      assert (a + b)[0] == a[0];
      assert (a + b)[1..] == a[1..] + b;
      FilterAppend(a[1..], b, pick);
    }
  }

  function SavePart(e: Event): Option<UserRecord>
  {
    if e.Save? then Some(e.user) else None
  }

  function ScorePart(e: Event): Option<(string, Date)>
  {
    if e.Score? then Some((e.lastName, e.dateOfBirth)) else None
  }

  function LookupPart(e: Event): Option<Int32>
  {
    if e.Lookup? then Some(e.clientId) else None
  }

  /** The records handed to the persistence sink, in order. */
  function Saves(trace: seq<Event>): seq<UserRecord>
  {
    Filter(trace, SavePart)
  }

  /** The arguments of every credit-scoring call, in order. */
  function Scores(trace: seq<Event>): seq<(string, Date)>
  {
    Filter(trace, ScorePart)
  }

  /** The identifiers of every client lookup, in order. */
  function Lookups(trace: seq<Event>): seq<Int32>
  {
    Filter(trace, LookupPart)
  }
}

/**
 The values the registration pipeline works on: 32-bit integers, calendar
 dates, clients and users.
 */
module Domain {

  /** The range of a C# `int`. */
  const Int32Modulus: int := 0x1_0000_0000
  type Int32 = x: int | -0x8000_0000 <= x < 0x8000_0000

  /**
   Two's-complement wrap-around of a mathematical integer into `int`, which is
   what C# arithmetic does in its default (unchecked) context.
   */
  function WrapInt32(x: int): (r: Int32)
    ensures (x - r) % Int32Modulus == 0
    ensures -0x8000_0000 <= x < 0x8000_0000 ==> r == x
  {
    var m := x % Int32Modulus;
    if m < 0x8000_0000 then m else m - Int32Modulus
  }

  /** The components of a `DateTime` that the pipeline reads, in their ranges. */
  type Year = y: int | 1 <= y <= 9999 witness 1
  type Month = m: int | 1 <= m <= 12 witness 1
  type Day = d: int | 1 <= d <= 31 witness 1

  datatype Date = Date(year: Year, month: Month, day: Day)

  /** A client as returned by the client repository; only its type string is read. */
  datatype Client = Client(clientType: string)

  /** The value of a user record at one moment: what the persistence sink receives. */
  datatype UserRecord = UserRecord(
    firstName: string,
    lastName: string,
    emailAddress: string,
    dateOfBirth: Date,
    client: Client,
    hasCreditLimit: bool,
    creditLimit: Int32)

  /** A user under registration; the credit-limit step updates its last two fields in place. */
  class User {
    var firstName: string
    var lastName: string
    var emailAddress: string
    var dateOfBirth: Date
    var client: Client
    var hasCreditLimit: bool
    var creditLimit: Int32

    /** An object initializer that sets the five identity fields; the other two keep their defaults. */
    constructor (firstName: string, lastName: string, emailAddress: string, dateOfBirth: Date, client: Client)
      ensures Snapshot() == UserRecord(firstName, lastName, emailAddress, dateOfBirth, client, false, 0)
    {
      this.firstName := firstName;
      this.lastName := lastName;
      this.emailAddress := emailAddress;
      this.dateOfBirth := dateOfBirth;
      this.client := client;
      this.hasCreditLimit := false;
      this.creditLimit := 0;
    }

    function Snapshot(): UserRecord
      reads this
    {
      UserRecord(firstName, lastName, emailAddress, dateOfBirth, client, hasCreditLimit, creditLimit)
    }
  }
}

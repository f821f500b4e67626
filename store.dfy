/** The PostgreSQL tables behind the TypeORM repositories the services
    inject. Each table is a sequence of rows in insertion order, which is
    the order `findOne` scans; primary keys are issued from a counter. */
module Store {
  import opened Common
  import opened Entities
  import opened Scheduling

  class Database {
    var users: seq<User>
    var profiles: seq<StylistProfile>
    var availabilities: seq<Availability>
    var exceptions: seq<StylistException>
    var bookings: seq<Booking>
    var otps: seq<Otp>
    var tokens: seq<RefreshToken>
    /** The next primary key; every stored key is below it. */
    var nextId: nat

    /** Every stored primary key was issued before `nextId`, and every
        availability row is within the ranges of the availability form. */
    predicate Valid()
      reads this
    {
      && (forall u :: u in users ==> u.id < nextId)
      && (forall p :: p in profiles ==> p.id < nextId)
      && (forall x :: x in exceptions ==> x.id < nextId)
      && (forall b :: b in bookings ==> b.id < nextId)
      && (forall o :: o in otps ==> o.id < nextId)
      && (forall t :: t in tokens ==> t.id < nextId)
      && (forall a :: a in availabilities ==> InRanges(a))
    }

    /** An empty database. */
    constructor ()
      ensures Valid()
      ensures users == [] && profiles == [] && availabilities == [] && exceptions == []
      ensures bookings == [] && otps == [] && tokens == [] && nextId == 0
    {
      users, profiles, availabilities, exceptions := [], [], [], [];
      bookings, otps, tokens, nextId := [], [], [], 0;
    }

    /** A fresh primary key (a generated uuid): no stored row carries it. */
    method Issue() returns (id: Id)
      requires Valid()
      modifies this`nextId
      ensures Valid()
      ensures id == old(nextId) && nextId == id + 1
    {
      id := nextId;
      nextId := nextId + 1;
    }
  }

  /** The row `findOne({ where: { id } })` returns from the user table. */
  function UserIndex(users: seq<User>, id: Id): Option<nat> {
    FirstIndex(users, (u: User) => u.id == id)
  }

  /** The row `findOne({ where: { phoneNumber } })` returns from the user table. */
  function UserByPhone(users: seq<User>, phoneNumber: string): Option<nat> {
    FirstIndex(users, (u: User) => u.phoneNumber == phoneNumber)
  }

  /** The row `findOne({ where: { id } })` returns from the booking table. */
  function BookingIndex(bookings: seq<Booking>, id: Id): Option<nat> {
    FirstIndex(bookings, (b: Booking) => b.id == id)
  }

  /** The row `findOne({ where: { userId } })` returns from the profile table. */
  function ProfileOfUser(profiles: seq<StylistProfile>, userId: Id): Option<nat> {
    FirstIndex(profiles, (p: StylistProfile) => p.userId == userId)
  }

  /** The row `findOne({ where: { id } })` returns from the profile table. */
  function ProfileIndex(profiles: seq<StylistProfile>, id: Id): Option<nat> {
    FirstIndex(profiles, (p: StylistProfile) => p.id == id)
  }

  /** The stylist has an APPROVED profile. */
  predicate ApprovedStylist(profiles: seq<StylistProfile>, userId: Id) {
    exists i :: 0 <= i < |profiles| && profiles[i].userId == userId && profiles[i].status == Approved
  }

  /** A user row with this id exists. */
  predicate UserExists(users: seq<User>, id: Id) {
    exists i :: 0 <= i < |users| && users[i].id == id
  }
}

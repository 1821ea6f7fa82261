/**
 * Request sequences against one BookingService, proved from the handlers'
 * contracts alone: what a client can rely on across several requests.
 */
module Scenarios {
  import opened Wrappers
  import opened Tables
  import opened Service

  /**
   * Signing up and then logging in with the same email and password succeeds
   * (given that bcrypt accepts a password against its own hash), and the
   * session it yields resolves to the uuid the signup drew.
   */
  method SignupThenLogin(s: BookingService, email: string, firstName: string, lastName: string,
                         password: string, salt: string)
      returns (signup: SignupOutcome, login: LoginOutcome)
    requires s.Valid()
    requires s.normalize(email).Some? && FindByEmail(s.users, s.normalize(email).value).None?
    requires s.checkpw(password, s.hashpw(password, salt))
    modifies s
    ensures s.Valid()
    ensures signup == SignedUp
    ensures login == LoggedIn(s.normalize(email).value)
    ensures SessionUser(s.users, Some(login.session)) == Some(old(s.nextId))
  {
    var address := s.normalize(email).value;
    ghost var before := s.users;
    signup := s.Signup(email, firstName, lastName, password, salt);
    var row := User(old(s.nextId), address, firstName, lastName, s.hashpw(password, salt));
    FindByEmailAppend(before, row, address);
    assert s.users[|before|] == row;
    login := s.Login(email, password);
  }

  /**
   * Two addresses that normalise to the same form are the same account: the
   * second signup is rejected and the users table keeps only the first row.
   */
  method SignupTwiceSameNormalForm(s: BookingService, email1: string, email2: string,
                                   password: string, salt: string)
      returns (first: SignupOutcome, second: SignupOutcome)
    requires s.Valid()
    requires s.normalize(email1).Some? && s.normalize(email2) == s.normalize(email1)
    requires FindByEmail(s.users, s.normalize(email1).value).None?
    modifies s
    ensures s.Valid()
    ensures first == SignedUp && second == SignupRejected
    ensures |s.users| == |old(s.users)| + 1
  {
    first := s.Signup(email1, "", "", password, salt);
    assert s.users[|s.users| - 1].email == s.normalize(email2).value;
    second := s.Signup(email2, "", "", password, salt);
  }

  /**
   * A booking [t0, t1] and then a booking [t1, t2] for the same user: the
   * second is rejected because the clause holds at the shared endpoint t1
   * (whenever t2 is not before t0).
   */
  method BackToBackRejected(s: BookingService, session: Option<string>, t0: Time, t1: Time, t2: Time)
      returns (first: BookingOutcome, second: BookingOutcome)
    requires s.Valid()
    requires SessionUser(s.users, session).Some?
    requires CountClashes(s.bookings, t0, t1) == 0
    requires t0 <= t2
    modifies s
    ensures s.Valid()
    ensures first == Booked && second == Clash
    ensures |s.bookings| == |old(s.bookings)| + 1
  {
    first := s.SubmitBooking(session, t0, t1);
    assert Clashes(s.bookings[|s.bookings| - 1], t1, t2);
    second := s.SubmitBooking(session, t1, t2);
  }

  /**
   * The overlap query has no owner filter: once one user holds [start, end],
   * with start not after end, any other user's request for the same interval
   * is rejected. (A reversed interval does not clash with itself; see
   * ReversedSlotNeverClashesWithItself.)
   */
  method OtherUsersBookingBlocks(s: BookingService, holder: Option<string>, other: Option<string>,
                                 start: Time, end: Time)
      returns (first: BookingOutcome, second: BookingOutcome)
    requires s.Valid()
    requires SessionUser(s.users, holder).Some? && SessionUser(s.users, other).Some?
    requires CountClashes(s.bookings, start, end) == 0
    requires start <= end
    modifies s
    ensures s.Valid()
    ensures first == Booked && second == Clash
  {
    first := s.SubmitBooking(holder, start, end);
    assert Clashes(s.bookings[|s.bookings| - 1], start, end);
    second := s.SubmitBooking(other, start, end);
  }

  /**
   * A successful booking shows up at the end of its owner's listing, and the
   * rest of the listing is what it was before.
   */
  method BookThenView(s: BookingService, session: Option<string>, start: Time, end: Time)
      returns (before: ViewOutcome, booked: BookingOutcome, after: ViewOutcome)
    requires s.Valid()
    requires SessionUser(s.users, session).Some?
    requires CountClashes(s.bookings, start, end) == 0
    modifies s
    ensures s.Valid()
    ensures booked == Booked
    ensures before.Listing? && after.Listing?
    ensures after.slots == before.slots + [(start, end)]
  {
    before := s.ViewBookings(session);
    ghost var owner := SessionUser(s.users, session).value;
    ghost var was := s.bookings;
    booked := s.SubmitBooking(session, start, end);
    BookingsOfAppend(was, s.bookings[|s.bookings| - 1], owner);
    assert s.bookings == was + [s.bookings[|s.bookings| - 1]];
    after := s.ViewBookings(session);
  }
}

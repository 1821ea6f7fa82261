/**
 * The request handlers of the booking service, reduced to their effect on the
 * two tables and to the kind of response they send back.
 */
module Service {
  import opened Wrappers
  import opened Tables

  /** /signup/submit: redirect to /login, the validator's message, or /signup?fail=true. */
  datatype SignupOutcome = SignedUp | SignupEmailInvalid | SignupRejected

  /**
   * /login/submit: redirect to /home with the userEmail cookie set to `session`,
   * the validator's message, or /login?fail=true. An unknown email and a wrong
   * password both give LoginFailed.
   */
  datatype LoginOutcome = LoggedIn(session: string) | LoginEmailInvalid | LoginFailed

  /**
   * /makebooking/submit: redirect to /home, or to /makebooking?fail=true either
   * because the session names no user or because the proposal clashes.
   */
  datatype BookingOutcome = Booked | UnknownBooker | Clash

  /** /viewbookings: the caller's (start, end) rows, or /viewbookings?fail=true. */
  datatype ViewOutcome = Listing(slots: seq<Slot>) | ViewFailed

  /**
   * The service's store. `nextId` stands for uuid4: every draw returns it and
   * advances it, so a drawn id is never already in either table.
   * `normalize` is the email validator (None when it rejects the address),
   * `hashpw` and `checkpw` are bcrypt's hashing and checking.
   */
  class BookingService {
    var users: seq<User>
    var bookings: seq<Booking>
    var nextId: Uuid
    const normalize: string -> Option<string>
    const hashpw: (string, string) -> string
    const checkpw: (string, string) -> bool

    ghost predicate Valid()
      reads this
    {
      && UniqueEmails(users)
      && UniqueUserIds(users)
      && UniqueBookingIds(bookings)
      && (forall i :: 0 <= i < |users| ==> users[i].uuid < nextId)
      && (forall i :: 0 <= i < |bookings| ==> bookings[i].uuid < nextId)
      && BookersAreUsers(bookings, users)
      && NoClashes(bookings)
    }

    /** Both tables start empty. */
    constructor (normalize: string -> Option<string>, hashpw: (string, string) -> string,
                 checkpw: (string, string) -> bool)
      ensures Valid()
      ensures users == [] && bookings == []
      ensures this.normalize == normalize && this.hashpw == hashpw && this.checkpw == checkpw
    {
      users, bookings, nextId := [], [], 0;
      this.normalize, this.hashpw, this.checkpw := normalize, hashpw, checkpw;
    }

    /**
     * Registers a user. The email is normalised first; the password is hashed
     * with the freshly drawn `salt`; a uuid is drawn; the INSERT then fails on
     * either UNIQUE constraint, which given a fresh uuid means exactly when the
     * normalised email is already registered.
     */
    method Signup(email: string, firstName: string, lastName: string, password: string, salt: string)
      returns (r: SignupOutcome)
      requires Valid()
      modifies this
      ensures Valid()
      ensures bookings == old(bookings)
      ensures normalize(email).None? ==>
                r == SignupEmailInvalid && users == old(users) && nextId == old(nextId)
      ensures normalize(email).Some? ==> nextId == old(nextId) + 1
      ensures normalize(email).Some? && FindByEmail(old(users), normalize(email).value).Some? ==>
                r == SignupRejected && users == old(users)
      ensures normalize(email).Some? && FindByEmail(old(users), normalize(email).value).None? ==>
                r == SignedUp
                && users == old(users) + [User(old(nextId), normalize(email).value, firstName, lastName,
                                               hashpw(password, salt))]
      ensures r == SignedUp ==> forall i :: 0 <= i < |old(users)| ==> old(users)[i].uuid != old(nextId)
    {
      var normalized := normalize(email);
      if normalized.None? {
        return SignupEmailInvalid;
      }
      var address := normalized.value;
      var hashed := hashpw(password, salt);
      var uuid := nextId;
      nextId := nextId + 1;
      if FindByEmail(users, address).Some? || exists i :: 0 <= i < |users| && users[i].uuid == uuid {
        return SignupRejected;
      }
      var row := User(uuid, address, firstName, lastName, hashed);
      BookersStayUsers(bookings, users, row);
      users := users + [row];
      r := SignedUp;
    }

    /**
     * Checks credentials. Tables are untouched. On success the session token
     * is the normalised email; an unknown email and a wrong password give the
     * same LoginFailed.
     */
    method Login(email: string, password: string) returns (r: LoginOutcome)
      requires Valid()
      ensures normalize(email).None? <==> r == LoginEmailInvalid
      ensures r.LoggedIn? <==>
                normalize(email).Some?
                && exists i :: 0 <= i < |users| && users[i].email == normalize(email).value
                               && checkpw(password, users[i].hashedPassword)
      ensures r.LoggedIn? ==> r.session == normalize(email).value
      ensures normalize(email).Some? && FindByEmail(users, normalize(email).value).None? ==> r == LoginFailed
      ensures forall i :: (0 <= i < |users| && normalize(email) == Some(users[i].email)
                           && !checkpw(password, users[i].hashedPassword)) ==> r == LoginFailed
    {
      var normalized := normalize(email);
      if normalized.None? {
        return LoginEmailInvalid;
      }
      var address := normalized.value;
      var row := FindByEmail(users, address);
      if row.None? {
        return LoginFailed;
      }
      if checkpw(password, row.value.hashedPassword) {
        r := LoggedIn(address);
      } else {
        r := LoginFailed;
      }
      forall i | 0 <= i < |users| && users[i].email == address
        ensures users[i] == row.value
      {
        FindByEmailUnique(users, i);
      }
    }

    /**
     * Books [start, end] for the user named by the session cookie. The overlap
     * query runs over every user's bookings; the row is inserted, under a
     * freshly drawn uuid, only when it finds none. No check that start is
     * before end is made.
     */
    method SubmitBooking(session: Option<string>, start: Time, end: Time) returns (r: BookingOutcome)
      requires Valid()
      modifies this
      ensures Valid()
      ensures users == old(users)
      ensures SessionUser(old(users), session).None? ==>
                r == UnknownBooker && bookings == old(bookings) && nextId == old(nextId)
      ensures SessionUser(old(users), session).Some? && CountClashes(old(bookings), start, end) > 0 ==>
                r == Clash && bookings == old(bookings) && nextId == old(nextId)
      ensures SessionUser(old(users), session).Some? && CountClashes(old(bookings), start, end) == 0 ==>
                r == Booked
                && bookings == old(bookings) + [Booking(old(nextId), SessionUser(old(users), session).value, start, end)]
                && nextId == old(nextId) + 1
      ensures r == Booked ==>
                forall i :: 0 <= i < |old(bookings)| ==>
                  !Clashes(old(bookings)[i], start, end) && old(bookings)[i].uuid != old(nextId)
    {
      var booker := SessionUser(users, session);
      if booker.None? {
        return UnknownBooker;
      }
      var clashes := CountClashes(bookings, start, end);
      if clashes > 0 {
        return Clash;
      }
      var uuid := nextId;
      nextId := nextId + 1;
      var row := Booking(uuid, booker.value, start, end);
      InsertKeepsNoClashes(bookings, row);
      bookings := bookings + [row];
      r := Booked;
    }

    /**
     * Lists the caller's bookings. Tables are untouched. Fails exactly when the
     * session cookie names no user; otherwise returns, in table order, the
     * (start, end) of every booking whose booker is that user.
     */
    method ViewBookings(session: Option<string>) returns (r: ViewOutcome)
      requires Valid()
      ensures r == ViewFailed <==> SessionUser(users, session).None?
      ensures r.Listing? ==>
                forall p :: p in r.slots <==>
                  exists i, j :: 0 <= i < |bookings| && 0 <= j < |users|
                                 && users[j].email == session.value && users[j].uuid == bookings[i].bookerId
                                 && p == (bookings[i].startTime, bookings[i].endTime)
      ensures r.Listing? ==> r.slots == BookingsOf(bookings, SessionUser(users, session).value)
    {
      var booker := SessionUser(users, session);
      if booker.None? {
        return ViewFailed;
      }
      r := Listing(BookingsOf(bookings, booker.value));
    }
  }
}

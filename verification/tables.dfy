/**
 * The two tables of the booking service (users and bookings) as sequences of
 * rows in insertion order, the SELECT queries the request handlers run against
 * them, and the facts about those queries that the handlers rely on.
 */
module Tables {
  import opened Wrappers

  /** A row identifier (users.uuid, bookings.uuid, bookings.booker_id). */
  type Uuid = nat

  /** A start_time or end_time value; the overlap query only compares them with >=. */
  type Time = int

  /** A row of the users table. */
  datatype User = User(uuid: Uuid, email: string, firstName: string, lastName: string, hashedPassword: string)

  /** A row of the bookings table; bookerId refers to users.uuid. */
  datatype Booking = Booking(uuid: Uuid, bookerId: Uuid, startTime: Time, endTime: Time)

  /** A (start_time, end_time) row as returned to the booking listing. */
  type Slot = (Time, Time)

  // ---------------------------------------------------------------------
  // The clash rule
  // ---------------------------------------------------------------------

  /**
   * The WHERE clause of the overlap query: the stored booking ends at or after
   * the proposed start, and the proposed end is at or after the stored start.
   * Both comparisons are inclusive, so bookings that share an endpoint clash.
   */
  predicate Clashes(existing: Booking, start: Time, end: Time)
  {
    existing.endTime >= start && end >= existing.startTime
  }

  /** Clashing between two stored rows does not depend on which one is the stored one. */
  lemma ClashesSymmetric(a: Booking, b: Booking)
    ensures Clashes(a, b.startTime, b.endTime) <==> Clashes(b, a.startTime, a.endTime)
  {
  }

  /**
   * The clause is the negation of "the proposal starts after the stored
   * booking ends, or ends before it starts".
   */
  lemma ClashesIffNotApart(existing: Booking, start: Time, end: Time)
    ensures Clashes(existing, start, end) <==> !(start > existing.endTime || end < existing.startTime)
  {
  }

  /** Instant t lies in the closed interval [s, e]. */
  predicate Within(t: Time, s: Time, e: Time)
  {
    s <= t <= e
  }

  /**
   * For intervals whose start is not after their end, the clause holds exactly
   * when the two closed intervals share an instant.
   */
  lemma ClashesIffSharedInstant(existing: Booking, start: Time, end: Time)
    requires existing.startTime <= existing.endTime && start <= end
    ensures Clashes(existing, start, end) <==>
            exists t :: Within(t, existing.startTime, existing.endTime) && Within(t, start, end)
  {
    if Clashes(existing, start, end) {
      var t := if existing.startTime <= start then start else existing.startTime;
      assert Within(t, existing.startTime, existing.endTime) && Within(t, start, end);
    }
  }

  /** Back-to-back bookings clash: a booking ending at m blocks one starting at m. */
  lemma SharedEndpointClashes(existing: Booking, end: Time)
    ensures Clashes(existing, existing.endTime, end) <==> end >= existing.startTime
  {
  }

  /**
   * Nothing checks that a booking starts before it ends. A stored booking with
   * its start after its end covers no instant, yet it clashes with exactly
   * those proposals that span it, i.e. whose interval contains every instant
   * from its end to its start.
   */
  lemma ReversedBookingBlocks(existing: Booking, start: Time, end: Time)
    requires existing.startTime > existing.endTime
    ensures Clashes(existing, start, end) <==>
            (forall t :: Within(t, existing.endTime, existing.startTime) ==> Within(t, start, end))
    ensures !exists t :: Within(t, existing.startTime, existing.endTime)
  {
    if forall t :: Within(t, existing.endTime, existing.startTime) ==> Within(t, start, end) {
      assert Within(existing.endTime, existing.endTime, existing.startTime);
      assert Within(existing.startTime, existing.endTime, existing.startTime);
    }
  }

  /**
   * A reversed booking never clashes with an identical proposal, so any
   * number of users can hold the same reversed slot.
   */
  lemma ReversedSlotNeverClashesWithItself(existing: Booking)
    requires existing.startTime > existing.endTime
    ensures !Clashes(existing, existing.startTime, existing.endTime)
  {
  }

  // ---------------------------------------------------------------------
  // The overlap query: SELECT uuid FROM bookings WHERE <clause>
  // ---------------------------------------------------------------------

  /** The rows of `bookings` that clash with [start, end], in table order, whoever booked them. */
  function ClashingBookings(bookings: seq<Booking>, start: Time, end: Time): (r: seq<Booking>)
    ensures |r| <= |bookings|
    ensures forall b :: b in r <==> b in bookings && Clashes(b, start, end)
  {
    if bookings == [] then []
    else
      var rest := ClashingBookings(bookings[1..], start, end);
      if Clashes(bookings[0], start, end) then [bookings[0]] + rest else rest
  }

  /**
   * num_clashes: the number of rows the overlap query returns. The handler
   * only tests it against zero, so the contract fixes exactly when it is zero
   * and bounds it by the table size; it does not pin down the exact count.
   */
  function CountClashes(bookings: seq<Booking>, start: Time, end: Time): (n: nat)
    ensures n <= |bookings|
    ensures n == 0 <==> forall i :: 0 <= i < |bookings| ==> !Clashes(bookings[i], start, end)
  {
    var rows := ClashingBookings(bookings, start, end);
    assert rows != [] ==> rows[0] in rows;
    |rows|
  }

  // ---------------------------------------------------------------------
  // The user lookup: SELECT ... FROM users WHERE email = ? (fetchone)
  // ---------------------------------------------------------------------

  /** The first row of `users` whose email is `email`, if any. */
  function FindByEmail(users: seq<User>, email: string): (r: Option<User>)
    ensures r.Some? ==> r.value in users && r.value.email == email
    ensures r.None? <==> forall i :: 0 <= i < |users| ==> users[i].email != email
  {
    if users == [] then None
    else if users[0].email == email then Some(users[0])
    else FindByEmail(users[1..], email)
  }

  /**
   * Resolves the userEmail session cookie to a user uuid. A missing cookie
   * (None) matches no row, as `email = NULL` holds for no row in SQL.
   */
  function SessionUser(users: seq<User>, session: Option<string>): (r: Option<Uuid>)
    ensures r.Some? <==> session.Some? && exists i :: 0 <= i < |users| && users[i].email == session.value
    ensures r.Some? ==> exists i :: 0 <= i < |users| && users[i].email == session.value && users[i].uuid == r.value
  {
    match session
    case None => None
    case Some(email) =>
      match FindByEmail(users, email)
      case None => None
      case Some(u) => Some(u.uuid)
  }

  // ---------------------------------------------------------------------
  // The listing: SELECT start_time, end_time FROM bookings WHERE booker_id = ?
  // ---------------------------------------------------------------------

  /** The (start, end) pairs of the bookings made by `bookerId`, in table order. */
  function BookingsOf(bookings: seq<Booking>, bookerId: Uuid): (r: seq<Slot>)
    ensures |r| <= |bookings|
    ensures forall p :: p in r <==>
              exists i :: 0 <= i < |bookings| && bookings[i].bookerId == bookerId
                          && p == (bookings[i].startTime, bookings[i].endTime)
  {
    if bookings == [] then []
    else
      var rest := BookingsOf(bookings[1..], bookerId);
      assert forall i :: 1 <= i < |bookings| ==> bookings[1..][i - 1] == bookings[i];
      if bookings[0].bookerId == bookerId then [(bookings[0].startTime, bookings[0].endTime)] + rest
      else rest
  }

  // ---------------------------------------------------------------------
  // Table invariants
  // ---------------------------------------------------------------------

  /** The UNIQUE constraint on users.email. */
  predicate UniqueEmails(users: seq<User>)
  {
    forall i, j :: 0 <= i < j < |users| ==> users[i].email != users[j].email
  }

  /** The UNIQUE constraint on users.uuid. */
  predicate UniqueUserIds(users: seq<User>)
  {
    forall i, j :: 0 <= i < j < |users| ==> users[i].uuid != users[j].uuid
  }

  /** No two stored bookings share a uuid (each comes from a fresh uuid4 draw). */
  predicate UniqueBookingIds(bookings: seq<Booking>)
  {
    forall i, j :: 0 <= i < j < |bookings| ==> bookings[i].uuid != bookings[j].uuid
  }

  /** `id` is the uuid of some user row. */
  predicate IsUserId(users: seq<User>, id: Uuid)
  {
    exists i :: 0 <= i < |users| && users[i].uuid == id
  }

  /** The foreign key bookings.booker_id REFERENCES users.uuid holds of every row. */
  predicate BookersAreUsers(bookings: seq<Booking>, users: seq<User>)
  {
    forall i :: 0 <= i < |bookings| ==> IsUserId(users, bookings[i].bookerId)
  }

  /** No two distinct stored bookings clash. */
  predicate NoClashes(bookings: seq<Booking>)
  {
    forall i, j :: 0 <= i < |bookings| && 0 <= j < |bookings| && i != j ==>
      !Clashes(bookings[i], bookings[j].startTime, bookings[j].endTime)
  }

  // ---------------------------------------------------------------------
  // Lemmas about the queries
  // ---------------------------------------------------------------------

  /** With unique emails, the lookup finds the one row holding a given email. */
  lemma FindByEmailUnique(users: seq<User>, i: nat)
    requires UniqueEmails(users) && i < |users|
    ensures FindByEmail(users, users[i].email) == Some(users[i])
  {
  }

  /** Appending a row changes the lookup only for an email no earlier row holds. */
  lemma {:induction false} FindByEmailAppend(users: seq<User>, u: User, email: string)
    ensures FindByEmail(users + [u], email) ==
            if FindByEmail(users, email).Some? then FindByEmail(users, email)
            else if u.email == email then Some(u) else None
  {
    if users == [] {
      assert users + [u] == [u];
    } else {
      assert (users + [u])[1..] == users[1..] + [u];
      if users[0].email != email {
        FindByEmailAppend(users[1..], u, email);
      }
    }
  }

  /** Appending a booking adds its slot to its booker's listing and to no one else's. */
  lemma {:induction false} BookingsOfAppend(bookings: seq<Booking>, b: Booking, bookerId: Uuid)
    ensures BookingsOf(bookings + [b], bookerId) ==
            BookingsOf(bookings, bookerId) + (if b.bookerId == bookerId then [(b.startTime, b.endTime)] else [])
  {
    if bookings == [] {
      assert bookings + [b] == [b];
    } else {
      assert (bookings + [b])[1..] == bookings[1..] + [b];
      BookingsOfAppend(bookings[1..], b, bookerId);
    }
  }

  /** Registering a user keeps every booking's booker registered. */
  lemma BookersStayUsers(bookings: seq<Booking>, users: seq<User>, u: User)
    requires BookersAreUsers(bookings, users)
    ensures BookersAreUsers(bookings, users + [u])
  {
    forall i | 0 <= i < |bookings|
      ensures IsUserId(users + [u], bookings[i].bookerId)
    {
      var j :| 0 <= j < |users| && users[j].uuid == bookings[i].bookerId;
      assert (users + [u])[j] == users[j];
    }
  }

  /**
   * The insert guard keeps the table clash-free: when the overlap query finds
   * no row, appending the proposal leaves no two distinct rows clashing. The
   * new row's side of each pair follows from the symmetry of the clause.
   */
  lemma InsertKeepsNoClashes(bookings: seq<Booking>, b: Booking)
    requires NoClashes(bookings)
    requires CountClashes(bookings, b.startTime, b.endTime) == 0
    ensures NoClashes(bookings + [b])
  {
  }
}

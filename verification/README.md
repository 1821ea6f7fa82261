# Booking service model

A Dafny model of the booking service behind the Flask application in `main.py`:
users sign up and log in, and a logged-in user (identified by the `userEmail`
session cookie) submits bookings and lists their own. The service keeps two
SQLite tables, `users` and `bookings`; a proposed booking is stored only when
the overlap query finds no stored booking that clashes with it. Clashes are
checked against every user's bookings, and shared endpoints count.

Layout:

- `wrappers.dfy`: `Option`.
- `tables.dfy` (module `Tables`): the rows of both tables, the clash clause of
  the overlap query, the three SELECT queries (overlap, user by email, listing
  by booker) as recursive functions, the table invariants, and lemmas about them.
- `service.dfy` (module `Service`): class `BookingService`. It holds the two tables
  as `seq` fields that its handler methods reassign, plus a uuid counter. It has one
  method per form-handling route: `Signup`, `Login`, `SubmitBooking`, `ViewBookings`.
  `Valid()` is the table invariant. It covers the UNIQUE constraints on
  `users.email` and `users.uuid`, fresh booking ids, the booker foreign key, and
  the rule that no two distinct stored bookings clash.
- `scenarios.dfy` (module `Scenarios`): request sequences proved from the
  handler contracts alone (signup then login, duplicate normalised email,
  back-to-back bookings, another user's booking blocking, book then view).

Modelling decisions:

- Timestamps are `int`. The overlap query only compares them with `>=`.
- `uuid4()` is a counter field `nextId`. Each draw returns it and advances it,
  so a drawn id is in neither table. Signup draws its uuid before the INSERT
  (main.py:206), so a rejected signup still advances the counter. A booking draws
  its uuid only after the clash check (main.py:338).
- `validate_email(...).normalized` is the constant `normalize: string -> Option<string>`
  (None when the validator raises). `bcrypt.hashpw` and `bcrypt.checkpw` are the
  constants `hashpw` and `checkpw`. All three are given to the constructor. The salt
  from `bcrypt.gensalt()` is a parameter of `Signup`.
- The session cookie is an `Option<string>`. A missing cookie matches no user row.
  The cookie is not normalised again by the booking handlers (main.py:249, 292).
- Each handler returns an outcome value instead of a redirect or page. Submit-booking
  has two failure constructors, `UnknownBooker` and `Clash`. In the source both are
  the same redirect to `/makebooking?fail=true`.

The model keeps these behaviours of the code:

- No check that a booking starts before it ends. A reversed booking is stored when
  nothing clashes, and it can still block later proposals (`ReversedBookingBlocks`).
- A reversed booking never clashes with an identical proposal, so several users
  can hold the same reversed slot (`ReversedSlotNeverClashesWithItself`).
- Intervals are closed at both ends, so back-to-back bookings clash.
- The comment at main.py:313-319 calls the non-overlapping case "A AND B" and derives
  "NOT(A) OR NOT(B)". The query at main.py:325 instead computes NOT(A) AND NOT(B),
  which is the negation of "A OR B". The code is the correct overlap test
  (`ClashesIffNotApart`, `ClashesIffSharedInstant`); only the comment is wrong.

## Model

| member | source | states |
|---|---|---|
| Tables.Clashes | main.py:325 | the stored end is at or after the proposed start and the proposed end is at or after the stored start, both inclusive |
| Service.BookingService.Valid | main.py:26-41 | unique user emails and uuids, distinct booking uuids below the id counter, every booker_id a user uuid, no two distinct bookings clash |
| Tables.ReversedSlotNeverClashesWithItself | main.py:320-343 | a booking whose start is after its end never clashes with an identical proposal, so the same reversed slot can be booked repeatedly |
| Tables.ClashesSymmetric | main.py:325 | the clash clause gives the same answer whichever of two bookings is the stored one |
| Tables.ClashesIffNotApart | main.py:311-326 | the clause holds exactly when the proposal neither starts after the stored booking ends nor ends before it starts |
| Tables.ClashesIffSharedInstant | main.py:322-326 | for intervals with start not after end, the clause holds exactly when the two closed intervals share an instant |
| Tables.SharedEndpointClashes | main.py:325 | a proposal starting at a stored booking's end clashes whenever it ends at or after that booking's start, so back-to-back bookings are rejected |
| Tables.ReversedBookingBlocks | main.py:320-332 | a stored booking whose start is after its end covers no instant, yet it clashes with a proposal exactly when the proposal contains every instant from that booking's end to its start |
| Tables.ClashingBookings | main.py:322-326 | the overlap query's rows are exactly the stored bookings, of any booker, that clash with the proposal, and there are no more of them than stored rows |
| Tables.CountClashes | main.py:322-332 | the clash count is zero exactly when no stored booking clashes with the proposal |
| Tables.FindByEmail | main.py:127-136 | the lookup returns a users row holding the email, and returns nothing exactly when no row holds it |
| Tables.SessionUser | main.py:298-307 | the cookie resolves to a uuid exactly when some user row holds the cookie's email, and that uuid belongs to such a row; a missing cookie resolves to nothing |
| Tables.BookingsOf | main.py:276-280 | the listing holds a (start, end) pair exactly when some booking by the given booker has those times, and is no longer than the table |
| Tables.FindByEmailUnique | main.py:127-131 | when emails are unique (main.py:28), the lookup of a row's email returns that row |
| Tables.FindByEmailAppend | main.py:211-221 | inserting a user row changes the lookup only for an email no earlier row held, which then finds the new row |
| Tables.BookingsOfAppend | main.py:337-343 | inserting a booking appends its (start, end) to its booker's listing and leaves every other listing unchanged |
| Tables.BookersStayUsers | main.py:35-41 | inserting a user keeps the booker_id foreign key satisfied for every booking |
| Tables.InsertKeepsNoClashes | main.py:331-343 | if no two distinct stored bookings clash and the clash count is zero, that still holds after the proposal is appended |
| Service.BookingService.constructor | main.py:25-42 | both tables start empty and the invariant holds |
| Service.BookingService.Signup | main.py:174-227 | invalid email: users unchanged and no uuid drawn; registered normalised email: rejected and users unchanged; otherwise exactly one row is appended with a fresh uuid, the normalised email, the names and the salted hash; bookings never change and the invariant is kept |
| Service.BookingService.Login | main.py:88-164 | tables untouched; login succeeds exactly when a user row holds the normalised email and bcrypt accepts the password against its hash, and the session is then the normalised email; an unknown email and a wrong password give the same LoginFailed |
| Service.BookingService.SubmitBooking | main.py:289-350 | unknown session or any clash with any user's booking: both tables unchanged; otherwise exactly one booking is appended, with a fresh uuid, the session user's uuid and the submitted times; users never change and no two distinct bookings ever clash |
| Service.BookingService.ViewBookings | main.py:245-284 | tables untouched; fails exactly when the session names no user; otherwise returns, in table order, exactly the (start, end) pairs of the bookings whose booker is the session user |
| Scenarios.SignupThenLogin | main.py:88-227 | a signup followed by a login with the same email and password succeeds, and the session resolves to the uuid the signup drew |
| Scenarios.SignupTwiceSameNormalForm | main.py:183-224 | two addresses with the same normalised form register once; the second signup is rejected |
| Scenarios.BackToBackRejected | main.py:320-332 | after [t0, t1] is booked, [t1, t2] with t2 not before t0 is rejected, because the clause holds at the shared endpoint t1 |
| Scenarios.OtherUsersBookingBlocks | main.py:320-332 | for an interval whose start is not after its end, a booking held by one user blocks the same interval for any other user |
| Scenarios.BookThenView | main.py:276-343 | a successful booking appears at the end of its owner's listing, after the rows that were there before |

## Left out

- Flask routing, templates, redirects, the `?fail=true` flags and cookie transport. Each handler returns an outcome value instead.
- The `/myform` sample route and the static page routes (`/`, `/login`, `/signup`, `/home`, `/makebooking`). They hold no logic.
- sqlite3 connections, cursors and table creation at import time. The model starts from empty tables.
- Storage failures. The handlers return `str(e)` or redirect on `sqlite3.Error`; the model has no storage faults.
- The swallowed error on the booking INSERT (main.py:346-347): the redirect is built, discarded, and success is still reported. It can only happen on a storage fault, so it is not modelled.
- A missing form field (`KeyError` on `request.form[...]`). The model takes every field as given.
- The text of the validator's error, which is returned to the browser. The model keeps only the `...EmailInvalid` outcome.
- The internals of bcrypt and of the email validator. They are opaque functions given to the constructor. That bcrypt accepts a password against its own hash is assumed only where `Scenarios.SignupThenLogin` requires it.
- uuid4 randomness. It is replaced by a counter; only freshness is kept.
- SQLite's text/NUMERIC comparison of the submitted timestamp strings. Times are integers.
- Concurrent requests and the check-then-insert race between them. The model runs one request at a time.
